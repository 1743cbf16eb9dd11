# Queueing-system simulator: a verified model

This project models the core of a discrete-event simulator of a finite queueing
system. Periodic request sources (generators) create requests. A pool of servers
(workers) takes them round-robin. A bounded priority buffer holds requests that
find every server busy. When the buffer is full, it hands back, as a decline,
either the newcomer or the newest request of a lower-priority source. A
calendar of events polled in time order drives it all. A lower source number means
a higher priority.

The model follows the Java sources file by file:

- `requests.dfy` (`Requests`): the `Request` record and its id string
  `"<source>.<count>"`, with `Integer.toString` written out.
- `events.dfy` (`Events`): the event record, its `compareTo` on time alone, and
  `PriorityQueue.poll` as removal of some earliest event from a multiset.
- `generator.dfy` (`Generators`) and `worker.dfy` (`Workers`): the classes `Generator`
  and `Worker`, with value twins `GeneratorState` and `WorkerState` and the functions
  `Generate`, `Start` and `Stop` that the methods are proved against.
- `buffer_spec.dfy` (`BufferSpec`): the buffer as a value. `Add` is addRequest and
  `Take` is getNextRequest. It holds their invariant, their conservation laws, the
  eviction policy, the stale priority cache and a round-trip theorem.
- `buffers.dfy` (`Buffers`): the class `Buffer`. Its fields are updated in place by
  `AddRequest`, `AddRequestNoCheck`, `GetNextRequest` and
  `RecalculateCurrentPriorityPackage`, each proved against `BufferSpec`.
- `simulation_spec.dfy` (`SimulationSpec`): what the calendar should hold (one
  arrival per source, one completion per busy server, the end event), counting
  helpers and the round-robin ring.
- `simulation_model.dfy` (`SimulationModel`): the simulator state as a value. The
  handlers are `GenerationStep` and `CompletionStep`. It holds the invariant every
  handled event keeps, and what one turn of the event loop keeps.
- `simulation.dfy` (`Simulation`): the class `Simulator`. Its methods change its
  fields as the Java ones do, and each `ensures` ties the new state to the
  functions above. `runSimulation` is a `while` loop whose invariant is
  `SimulationModel.Run`.

Time is a `real`. The exponential service-time draw is a non-negative `Draw`. It is
a parameter of `startProcessing` and the handlers, and `RunSimulation` takes a
sequence of draws, one per turn, as a function `nat -> Draw`.

`getNextRequest` does not always serve the lowest-numbered non-empty partition:
`addRequestNoCheck` never updates the cached partition key, and `getNextRequest`
recomputes it only when it is null or the cached partition empties. The model
reproduces this.
`BufferSpec.TakeServesCachedPartition` states this behaviour and
`BufferSpec.StaleCacheScenario` exhibits it. `BufferSpec.TakeFresh`,
`BufferSpec.DrainFresh` and `BufferSpec.RoundTrip` state when the buffer does serve
in priority order.

## Model

| member | source | states |
|---|---|---|
| Requests.DigitsValueOfNatToString | src/main/java/uni/architect/SystemArchitect/model/Generator.java:26 | reading back the decimal digits of a count gives the count: the digits an id is built from determine the number |
| Requests.IntToStringSign | src/main/java/uni/architect/SystemArchitect/model/Generator.java:26 | a rendered number starts with a minus sign exactly when it is negative |
| Requests.IntToStringInjective | src/main/java/uni/architect/SystemArchitect/model/Generator.java:26 | two ints with the same decimal rendering are equal |
| Events.CompareTo | src/main/java/uni/architect/SystemArchitect/model/Event.java:20-22 | the result is -1, 0 or 1; negative exactly when this event is earlier, positive exactly when it is later |
| Events.CompareIgnoresKindAndObject | src/main/java/uni/architect/SystemArchitect/model/Event.java:20-22 | the comparison depends on the times alone, never on the kind or the object number |
| Events.CompareTiesAtEqualTime | src/main/java/uni/architect/SystemArchitect/model/Event.java:21 | two events at the same time compare as 0 both ways, whatever they are, so the queue may poll either first |
| Events.CompareAntisymmetric | src/main/java/uni/architect/SystemArchitect/model/Event.java:20-22 | comparing b with a gives the negation of comparing a with b |
| Events.CompareTransitive | src/main/java/uni/architect/SystemArchitect/model/Event.java:20-22 | the comparison is transitive, as PriorityQueue requires |
| Events.EarliestExists | src/main/java/uni/architect/SystemArchitect/Simulator.java:74-76 | a non-empty calendar always has an event no later than every other |
| Events.PollEarliest | src/main/java/uni/architect/SystemArchitect/Simulator.java:75-76 | poll returns an event of the calendar that the comparator puts at or before every pending event, and the calendar less exactly that one occurrence |
| Generators.RequestIdInjective | src/main/java/uni/architect/SystemArchitect/model/Generator.java:26 | an id "<number>.<count>" determines both the source number and the count |
| Generators.RequestIdsOfOneSourceDistinct | src/main/java/uni/architect/SystemArchitect/model/Generator.java:25-26 | one source never stamps two different counts with the same id |
| Generators.Generate | src/main/java/uni/architect/SystemArchitect/model/Generator.java:23-27 | the value form of generateRequest; GenerateSchedulesAhead, GenerateTwiceDistinct and Generator.GenerateRequest state what it does: next arrival one interval after the firing, count up by one, a fresh id |
| Generators.GenerateSchedulesAhead | src/main/java/uni/architect/SystemArchitect/model/Generator.java:23-24 | with a non-negative interval the next arrival is no earlier than the firing time |
| Generators.GenerateTwiceDistinct | src/main/java/uni/architect/SystemArchitect/model/Generator.java:23-27 | firing a source twice, at any times, stamps two different ids |
| Generators.Generator.constructor | src/main/java/uni/architect/SystemArchitect/model/Generator.java:16-21 | number, interval and count as given; the first arrival is one interval after time 0 |
| Generators.Generator.GenerateRequest | src/main/java/uni/architect/SystemArchitect/model/Generator.java:23-27 | nextGenTime becomes curTime plus the interval, genCount goes up by exactly one, the request carries the id "<number>.<new count>" and the source number; number and interval are constant fields |
| Workers.NewCompletionTime | src/main/java/uni/architect/SystemArchitect/model/Worker.java:21-23 | the completion is no earlier than curTime when the mean service time is non-negative, and equals curTime for a zero draw or a zero mean |
| Workers.Start | src/main/java/uni/architect/SystemArchitect/model/Worker.java:25-29 | the value form of startProcessing; StartStopHold, StartCompletesLater and StopAfterStart state it: busy with the request, completing no earlier than the start |
| Workers.Stop | src/main/java/uni/architect/SystemArchitect/model/Worker.java:31-34 | the value form of stopProcessing; StartStopHold and StopAfterStart state it: idle, no request, completion time kept |
| Workers.StartStopHold | src/main/java/uni/architect/SystemArchitect/model/Worker.java:25-34 | after startProcessing the server is busy with the given request; after stopProcessing it is idle with none; neither changes the server number |
| Workers.StartCompletesLater | src/main/java/uni/architect/SystemArchitect/model/Worker.java:21-29 | a service started at curTime with a non-negative mean completes no earlier than curTime |
| Workers.StopAfterStart | src/main/java/uni/architect/SystemArchitect/model/Worker.java:25-34 | stopping a started idle server returns it to its earlier state except for the new completion time, which stopProcessing keeps |
| Workers.Worker.constructor | src/main/java/uni/architect/SystemArchitect/model/Worker.java:15-19 | an idle server with no request, completion time 0 and the given number and mean service time |
| Workers.Worker.StartProcessing | src/main/java/uni/architect/SystemArchitect/model/Worker.java:25-29 | busy, holding the request, completing at curTime plus the draw times the mean; number and mean are constant fields |
| Workers.Worker.StopProcessing | src/main/java/uni/architect/SystemArchitect/model/Worker.java:31-34 | idle and holding no request; the completion time is unchanged and curTime is ignored |
| BufferSpec.Lowest | src/main/java/uni/architect/SystemArchitect/model/Buffer.java:89-101 | recalculateCurrentPriorityPackage gives null exactly when no stored partition is non-empty, and otherwise the least key whose partition is non-empty |
| BufferSpec.Victim | src/main/java/uni/architect/SystemArchitect/model/Buffer.java:37-59 | the eviction scan finds nothing exactly when every partition keyed above the newcomer's source is empty, and otherwise the greatest such key with a non-empty partition |
| BufferSpec.AppendedProps | src/main/java/uni/architect/SystemArchitect/model/Buffer.java:63-67 | addRequestNoCheck keeps the partitions well formed, adds the source's key if new, and adds exactly the request to the contents |
| BufferSpec.DropLastProps | src/main/java/uni/architect/SystemArchitect/model/Buffer.java:49-55 | removeLast on a partition removes exactly its newest request, drops the partition when that empties it, and leaves the other partitions alone |
| BufferSpec.DropFirstProps | src/main/java/uni/architect/SystemArchitect/model/Buffer.java:78-84 | removeFirst on a partition removes exactly its oldest request and drops the partition when that empties it |
| BufferSpec.EmptyValid | src/main/java/uni/architect/SystemArchitect/model/Buffer.java:21-25 | a new buffer satisfies the invariant and holds nothing |
| BufferSpec.Add | src/main/java/uni/architect/SystemArchitect/model/Buffer.java:31-61 | the value form of addRequest; AddConserves, AddWithRoom, AddEvicts, AddRejects, AddSparesHigherPriorities and AddDeclinedSource state what it does, and Buffer.AddRequest is proved equal to it |
| BufferSpec.AddConserves | src/main/java/uni/architect/SystemArchitect/model/Buffer.java:31-61 | addRequest keeps the invariant (currentSize is the number of pending requests, stored partitions non-empty and of their own source, size within capacity, cache null or a stored key) and loses nothing: contents after plus the request handed back equal contents before plus the newcomer; the size grows exactly when nothing is handed back |
| BufferSpec.AddWithRoom | src/main/java/uni/architect/SystemArchitect/model/Buffer.java:31-35 | below capacity the request joins the tail of its own partition, the size grows by one, nothing is handed back, and the other partitions and the cache are unchanged |
| BufferSpec.AddEvicts | src/main/java/uni/architect/SystemArchitect/model/Buffer.java:37-58 | full, with k the greatest key above the newcomer's source: the newest request of k is handed back and removed, the newcomer is appended, the other partitions and the size are unchanged, and the cache is recomputed exactly when k empties |
| BufferSpec.AddRejects | src/main/java/uni/architect/SystemArchitect/model/Buffer.java:37-60 | full, with no key above the newcomer's source: the newcomer itself is handed back and the buffer is unchanged |
| BufferSpec.AddSparesHigherPriorities | src/main/java/uni/architect/SystemArchitect/model/Buffer.java:37-60 | a partition of a source numbered at or below the newcomer's only ever grows at its tail |
| BufferSpec.AddDeclinedSource | src/main/java/uni/architect/SystemArchitect/model/Buffer.java:37-60 | a request handed back is the newcomer or comes from a stored partition of a source numbered above the newcomer's |
| BufferSpec.Take | src/main/java/uni/architect/SystemArchitect/model/Buffer.java:69-87 | the value form of getNextRequest; TakeConserves, TakeServesCachedPartition, TakeFresh and DrainFresh state what it does, and Buffer.GetNextRequest is proved equal to it |
| BufferSpec.TakeConserves | src/main/java/uni/architect/SystemArchitect/model/Buffer.java:69-87 | getNextRequest keeps the invariant, returns null and changes nothing exactly when the buffer is empty, and otherwise removes exactly the returned request and lowers the size by one |
| BufferSpec.TakeServesCachedPartition | src/main/java/uni/architect/SystemArchitect/model/Buffer.java:74-80 | a set cache is used as it is, even when a higher-priority partition has filled since; only a null cache is recomputed to the least non-empty key; the head of that partition is served |
| BufferSpec.TakeFresh | src/main/java/uni/architect/SystemArchitect/model/Buffer.java:69-101 | with a cache that is null or names the least non-empty key, the request served is the first in priority order, and the cache stays that way |
| BufferSpec.DrainFresh | src/main/java/uni/architect/SystemArchitect/model/Buffer.java:69-101 | with such a cache, taking as many requests as are pending returns them all in priority order: by source number, oldest first within a source |
| BufferSpec.AddAllWithRoom | src/main/java/uni/architect/SystemArchitect/model/Buffer.java:31-35 | admissions into a new buffer that never reach capacity keep the invariant and a null cache, and the buffer holds exactly the admitted requests |
| BufferSpec.AddAllPartitions | src/main/java/uni/architect/SystemArchitect/model/Buffer.java:63-67 | after such admissions each source's partition holds that source's requests in order of arrival |
| BufferSpec.RoundTrip | src/main/java/uni/architect/SystemArchitect/model/Buffer.java:31-101 | admissions below capacity into a new buffer, then as many takes, return exactly the admitted requests, sorted by source number and, within one source, in order of arrival |
| BufferSpec.EvictionScenario | src/main/java/uni/architect/SystemArchitect/model/Buffer.java:37-58 | capacity one holding a request of source 1: an arrival from source 0 evicts it and takes its place |
| BufferSpec.StaleCacheScenario | src/main/java/uni/architect/SystemArchitect/model/Buffer.java:63-84 | after a take leaves source 1's cached partition non-empty, a request of source 0 admitted later is served only after that partition drains |
| Buffers.FindVictim | src/main/java/uni/architect/SystemArchitect/model/Buffer.java:37-59 | the loop over the keys above the newcomer's source, from the greatest down, skipping empty partitions, finds what Victim says |
| Buffers.Buffer.constructor | src/main/java/uni/architect/SystemArchitect/model/Buffer.java:21-25 | capacity as given, size 0, null cache, no partitions; the invariant holds |
| Buffers.Buffer.IsFull | src/main/java/uni/architect/SystemArchitect/model/Buffer.java:27-29 | on a valid buffer, full exactly when the pending requests number at least the capacity |
| Buffers.Buffer.AddRequest | src/main/java/uni/architect/SystemArchitect/model/Buffer.java:31-61 | the new fields and the result are what Add says; the invariant holds; contents after plus the result equal contents before plus the newcomer; the size grows exactly when null is returned; no key appears but the newcomer's; a returned request is the newcomer or of a lower-priority stored source |
| Buffers.Buffer.AddRequestNoCheck | src/main/java/uni/architect/SystemArchitect/model/Buffer.java:63-67 | the request joins the tail of its source's partition, created if absent, and the size grows by one; the cache is not touched |
| Buffers.Buffer.GetNextRequest | src/main/java/uni/architect/SystemArchitect/model/Buffer.java:69-87 | the new fields and the result are what Take says; the invariant holds; null exactly when the size was 0; otherwise exactly the returned request leaves and the size drops by one; no key is added |
| Buffers.Buffer.RecalculateCurrentPriorityPackage | src/main/java/uni/architect/SystemArchitect/model/Buffer.java:89-101 | the loop over the keys in ascending order sets the cache to Lowest of the partitions |
| SimulationSpec.WithArrivalsAdds | src/main/java/uni/architect/SystemArchitect/Simulator.java:70-72 | adding each source's next arrival in turn adds exactly one arrival per source |
| SimulationSpec.GenerationEventsCount | src/main/java/uni/architect/SystemArchitect/Simulator.java:70-72 | the arrivals of the sources hold one event per source, at its next arrival time, and nothing else |
| SimulationSpec.CompletionEventsCount | src/main/java/uni/architect/SystemArchitect/Simulator.java:112-116 | the completions of the servers hold one event for each busy server, at its completion time, and none for an idle one |
| SimulationSpec.PendingEventShape | src/main/java/uni/architect/SystemArchitect/Simulator.java:74-85 | every event on a calendar of pending arrivals, completions and the end event is the arrival of an existing source at its due time, the completion of an existing busy server at its completion time, or the end event at a non-negative horizon |
| SimulationSpec.RecordEvent | src/main/java/uni/architect/SystemArchitect/Simulator.java:74-85 | appending a handled arrival or completion before the horizon keeps the handled events free of the end event and before the horizon, and in time order when it is no earlier than the clock |
| SimulationSpec.SumCountsIncrement | src/main/java/uni/architect/SystemArchitect/Simulator.java:122 | raising one source's decline counter by one raises the sum of the counters by one |
| SimulationSpec.SumCountsBound | src/main/java/uni/architect/SystemArchitect/Simulator.java:119-123 | with non-negative counters, each source's decline counter is at most their sum |
| SimulationSpec.GenCountSumUpdate | src/main/java/uni/architect/SystemArchitect/model/Generator.java:25 | changing one source's count changes the sum of the counts by the difference |
| SimulationSpec.BusyCountBounds | src/main/java/uni/architect/SystemArchitect/Simulator.java:43-53 | the busy count is 0 exactly when all servers are idle and equals the number of servers exactly when all are busy |
| SimulationModel.Bump | src/main/java/uni/architect/SystemArchitect/Simulator.java:122 | the displaced request's source counter goes up by one and every other counter is unchanged |
| SimulationModel.Scan | src/main/java/uni/architect/SystemArchitect/Simulator.java:44-50 | the loop of chooseWorker as a recursion over the tries; ScanFrom states where it stops |
| SimulationModel.Choose | src/main/java/uni/architect/SystemArchitect/Simulator.java:43-53 | chooseWorker from the pointer; ChooseFirstIdle and ChooseFailsWhenAllBusy state what it finds, and Simulator.ChooseWorker is proved equal to it |
| SimulationModel.ScanFrom | src/main/java/uni/architect/SystemArchitect/Simulator.java:44-50 | the scan from the pointer after some busy servers ends at an idle server with every server passed busy, or, after the last one, back at the start with all busy |
| SimulationModel.ChooseFirstIdle | src/main/java/uni/architect/SystemArchitect/Simulator.java:43-53 | chooseWorker succeeds exactly when some server is idle; it then stops at the first idle server met going round from the pointer, every server passed being busy; on failure the pointer ends where it started; the pointer always names a server |
| SimulationModel.ChooseFailsWhenAllBusy | src/main/java/uni/architect/SystemArchitect/Simulator.java:43-53 | chooseWorker returns false exactly when the number of busy servers equals the number of servers |
| SimulationModel.DeclinesBounded | src/main/java/uni/architect/SystemArchitect/Simulator.java:105-123 | under the invariant declinedRequests is between 0 and requestCounter, and every source's decline counter is between 0 and declinedRequests |
| SimulationModel.ServeAccounted | src/main/java/uni/architect/SystemArchitect/Simulator.java:112-116 | starting an idle server on the request in hand keeps the request accounting |
| SimulationModel.OfferAccounted | src/main/java/uni/architect/SystemArchitect/Simulator.java:117-123 | offering the request in hand to the buffer keeps the accounting: it is buffered, or the request handed back is counted once in declinedRequests and once against its own source, which is a known source |
| SimulationModel.GenerationStep | src/main/java/uni/architect/SystemArchitect/Simulator.java:102-125 | handleGenerationEvent as a function of the state; GenerationStepConsistent, GenerationStepCalendar and GenerationStepOrdered state what it keeps, and Simulator.HandleGenerationEvent is proved equal to it |
| SimulationModel.CompletionStep | src/main/java/uni/architect/SystemArchitect/Simulator.java:127-140 | handleCompletionEvent as a function of the state; CompletionStepConsistent, CompletionStepCalendar and CompletionStepOrdered state what it keeps, and Simulator.HandleCompletionEvent is proved equal to it |
| SimulationModel.GenerationStepConsistent | src/main/java/uni/architect/SystemArchitect/Simulator.java:102-125 | handling an arrival keeps the invariant (requestCounter equals declined plus buffered plus in service plus done, declinedRequests equals the sum of the per-source counters, one counter per source, pointer within the servers, buffer valid) and counts exactly one more request |
| SimulationModel.CompletionStepConsistent | src/main/java/uni/architect/SystemArchitect/Simulator.java:127-140 | handling the completion of a busy server keeps the invariant, counts one more finished service, and changes neither the arrival count nor the sources |
| SimulationModel.GenerationStepCalendar | src/main/java/uni/architect/SystemArchitect/Simulator.java:102-125 | after an arrival is handled the calendar again holds exactly one arrival per source, at its new due time, and one completion per busy server, including the server that took the request |
| SimulationModel.CompletionStepCalendar | src/main/java/uni/architect/SystemArchitect/Simulator.java:127-140 | a completion taken off the calendar belonged to a busy server; afterwards the calendar holds one completion per busy server, the same server's new one if it took a buffered request |
| SimulationModel.GenerationStepOrdered | src/main/java/uni/architect/SystemArchitect/Simulator.java:102-116 | with non-negative delays an arrival schedules nothing before the clock |
| SimulationModel.CompletionStepOrdered | src/main/java/uni/architect/SystemArchitect/Simulator.java:127-140 | with non-negative delays a completion schedules nothing before the clock |
| SimulationModel.StopsAt | src/main/java/uni/architect/SystemArchitect/Simulator.java:77-80 | the stop test: at or past a non-negative horizon, or, with a negative one, once 1000 requests are counted; TurnKeeps and RunSimulation show that no event passing it is handled |
| SimulationModel.Polled | src/main/java/uni/architect/SystemArchitect/Simulator.java:75-76 | one occurrence of the polled event leaves the calendar and the clock moves to its time; PolledShape and HandleOrdered state what the event is and that the clock never moves back |
| SimulationModel.Handle | src/main/java/uni/architect/SystemArchitect/Simulator.java:82-85 | the switch: arrivals and completions go to their handlers, any other event changes nothing; HandleConsistent, HandleCalendar, HandleOrdered and HandleCountsArrivals state what it keeps |
| SimulationModel.PolledShape | src/main/java/uni/architect/SystemArchitect/Simulator.java:74-85 | an event polled short of the stop test is an arrival of an existing source at its due time or the completion of an existing busy server, is before the horizon, and is never the end event |
| SimulationModel.HandleConsistent | src/main/java/uni/architect/SystemArchitect/Simulator.java:82-85 | the switch keeps the invariant, counts a request exactly for an arrival, and does not move the clock |
| SimulationModel.HandleCalendar | src/main/java/uni/architect/SystemArchitect/Simulator.java:82-85 | the switch puts the calendar back to exactly the pending arrivals and completions plus the end event |
| SimulationModel.HandleCountsArrivals | src/main/java/uni/architect/SystemArchitect/Simulator.java:102-110 | handling an arrival raises requestCounter and the sum of the sources' genCount by one each, and handling a completion changes neither |
| SimulationModel.HandleOrdered | src/main/java/uni/architect/SystemArchitect/Simulator.java:74-85 | polling the earliest event does not move the clock back, and handling it leaves nothing pending before the clock |
| SimulationModel.StartCalendar | src/main/java/uni/architect/SystemArchitect/Simulator.java:56-72 | from an empty calendar with idle servers, the start of a run leaves exactly one arrival per source and the end event for a non-negative horizon |
| SimulationModel.StartOrdered | src/main/java/uni/architect/SystemArchitect/Simulator.java:70-72 | when every source is due no earlier than the clock, nothing on the starting calendar lies in the past |
| SimulationModel.StartKeeps | src/main/java/uni/architect/SystemArchitect/Simulator.java:55-72 | the start of a run establishes what every turn keeps, with nothing handled yet |
| SimulationModel.TurnKeeps | src/main/java/uni/architect/SystemArchitect/Simulator.java:74-93 | a turn keeps what a run promises: on stopping, the invariant, the count and the horizon hold; otherwise the polled event can be dispatched and handling it keeps the invariant and the calendar shape, counts one request per arrival, and, for an ordered start, keeps the handled events in time order |
| Simulation.Simulator.constructor | src/main/java/uni/architect/SystemArchitect/Simulator.java:33-41 | sources and servers as given, an empty calendar, all counters and the clock at 0, and a decline counter of 0 for every source; the invariant holds |
| Simulation.Simulator.ChooseWorker | src/main/java/uni/architect/SystemArchitect/Simulator.java:43-53 | the result and the new pointer are what Choose gives from the old pointer, so ChooseFirstIdle applies |
| Simulation.Simulator.StartService | src/main/java/uni/architect/SystemArchitect/Simulator.java:113-116 | the server starts on the request at the current time and exactly its completion event is added |
| Simulation.Simulator.Enqueue | src/main/java/uni/architect/SystemArchitect/Simulator.java:117-123 | the buffer admits the request and a request handed back is counted in declinedRequests and against its own source |
| Simulation.Simulator.HandleGenerationEvent | src/main/java/uni/architect/SystemArchitect/Simulator.java:102-125 | the new state is GenerationStep of the old: request counted, next arrival scheduled, request served or buffered |
| Simulation.Simulator.HandleCompletionEvent | src/main/java/uni/architect/SystemArchitect/Simulator.java:127-140 | the new state is CompletionStep of the old: the server stops and takes the buffer's next request if there is one |
| Simulation.Simulator.Poll | src/main/java/uni/architect/SystemArchitect/Simulator.java:75-76 | takes off an event no later than any other pending one and moves the clock to its time |
| Simulation.Simulator.Dispatch | src/main/java/uni/architect/SystemArchitect/Simulator.java:82-85 | arrivals and completions go to their handlers; the end event changes nothing |
| Simulation.Simulator.ScheduleStart | src/main/java/uni/architect/SystemArchitect/Simulator.java:56-72 | the end event for a non-negative horizon and each source's next arrival are added; nothing else changes |
| Simulation.Simulator.RunSimulation | src/main/java/uni/architect/SystemArchitect/Simulator.java:55-100 | after the run the invariant holds, so declines never exceed requestCounter (DeclinesBounded); no handled event is the end event and, with a horizon, each lies before it; without a horizon requestCounter never passes 1000; requestCounter and the sum of the sources' genCount each grew by exactly the number of arrivals handled, so for a fresh simulator over sources at count 0 requestCounter equals that sum; and when delays are non-negative and every source was due no earlier than the clock, the handled events come in time order |

## Left out

- Rendering and console I/O are not modelled. This covers the table and state printing, `getWorkerState`, `Buffer.getState`, the step pause, the `auto` and `needPrint` flags, and the display-only fields `currentRequest`, `affectedWorker` and `scanner`. Main.java's parameter input is left out too.
- `printOptimisationResults` is not modelled: it computes floating-point utilisation and probabilities, and calls a `getTotalWorkTime` that the shown Worker does not define.
- The `START` event (Simulator.java lines 64-65) is not modelled: Event.java has no such kind, and the switch never dispatches it.
- `java.util.Random.nextExponential` is not modelled: each draw is a non-negative parameter instead.
- Times are `real`, not IEEE doubles. NaN, rounding and the `-0.0`/NaN cases of `Double.compare` are not modelled.
- `PriorityQueue` internals are not modelled. Polling removes some earliest event; which one among equal times is unspecified, as in Java.
- Integer fields are unbounded: 32-bit wrap-around of `requestCounter`, `genCount`, `currentSize` and the counters is not modelled.
- Lombok setters and all-args constructors are not modelled, because nothing in the core calls them. Source and server numbers, intervals and mean service times are therefore constant fields.
- Workers.Worker.constructor: Main.java calls a six-argument Worker constructor and Simulator.java calls `getTotalWorkTime`, but neither exists in the shown Worker.java. The model gives Worker an idle-server constructor instead.
- Simulation.Simulator.constructor: requires at least one server, sources and servers numbered by position, idle servers holding no request, and an empty buffer. The Java constructor accepts any lists, but the handlers would throw (`workers.get` with no servers) or misbehave otherwise. `auto` and `needPrint` are dropped.
- Simulation.Simulator.RunSimulation: requires the invariant, an empty calendar and idle servers, so it models the first run of a fresh simulator. A second call in Java would keep the old calendar.
- Simulation.Simulator.RunSimulation: takes a `fuel` bound on the number of events handled, because the Java loop need not terminate (for instance with zero intervals). Its guarantees hold after any number of turns; a run cut short by fuel is not distinguished from one that stopped.
- Simulation.Simulator.RunSimulation: time order of the handled events is promised only for runs that start ordered: non-negative delays, and every source due no earlier than the clock. With a negative interval or mean service time, Java can schedule into the past.
- The simulator holds its sources and servers as values (`seq<GeneratorState>`, `seq<WorkerState>`), not as references to `Generator` and `Worker` objects. Aliasing between the lists and the caller is not captured. The classes `Generator` and `Worker` model the same operations, with methods proved against the same functions.
- `runSimulation` and the handlers are split into the helper methods `ChooseWorker`, `StartService`, `Enqueue`, `Poll`, `Dispatch` and `ScheduleStart`. Each does one step of the Java code in order.
- The buffer loops over sorted key lists are modelled as repeated picks of the greatest (`FindVictim`) or least (`RecalculateCurrentPriorityPackage`) remaining key. The null check at Buffer.java line 95 is unreachable because only stored keys are visited, so it is not modelled.
- SimulationModel.Bump: starts a counter at zero for a source that has none, where Java's `get(k) + 1` would throw. Under the invariant every declined request's source has a counter, so this case never arises.
- A ghost counter `completed` of finished services is kept. Java has no such field; it is there only to state the request accounting.
