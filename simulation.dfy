/** The discrete-event simulator: sources, servers and one priority buffer driven
    by a calendar of events polled in time order. */
module Simulation {
  import opened Requests
  import opened Events
  import opened Generators
  import opened Workers
  import opened BufferSpec
  import opened Buffers
  import opened SimulationSpec
  import opened SimulationModel

  /** The states of the sources gs, in order. */
  function GeneratorSnapshots(gs: seq<Generator>): (r: seq<GeneratorState>)
    reads gs
    ensures |r| == |gs| && forall g | 0 <= g < |gs| :: r[g] == gs[g].Snapshot()
  {
    seq(|gs|, g requires 0 <= g < |gs| reads gs => gs[g].Snapshot())
  }

  /** The states of the servers ws, in order. */
  function WorkerSnapshots(ws: seq<Worker>): (r: seq<WorkerState>)
    reads ws
    ensures |r| == |ws| && forall i | 0 <= i < |ws| :: r[i] == ws[i].Snapshot()
  {
    seq(|ws|, i requires 0 <= i < |ws| reads ws => ws[i].Snapshot())
  }

  class Simulator {
    var generators: seq<GeneratorState>
    var workers: seq<WorkerState>
    const buffer: Buffer

    var currentTime: real
    var requestCounter: int
    var declinedRequests: int
    var workerPointer: int
    var eventQueue: multiset<Event>
    var declineTypeCounter: map<int, int>

    /** Requests whose service has finished; the simulator itself does not count them. */
    ghost var completed: int

    /** The simulator's state as a value. */
    ghost function Snap(): SimState
      reads this, buffer
    {
      SimState(generators, workers, buffer.State(), currentTime, requestCounter, declinedRequests,
               workerPointer, eventQueue, declineTypeCounter, completed)
    }

    /** The invariant between events. */
    ghost predicate Valid()
      reads this, buffer
    {
      Consistent(Snap())
    }

    /** A simulator over the given sources, idle servers and an empty buffer, with
        every decline counter at zero. */
    constructor (generators: seq<Generator>, workers: seq<Worker>, buffer: Buffer)
      requires |workers| > 0
      requires forall i | 0 <= i < |workers| :: workers[i].number == i && !workers[i].isBusy && workers[i].curRequest == None
      requires forall g | 0 <= g < |generators| :: generators[g].number == g
      requires buffer.State() == Empty(buffer.capacity)
      ensures Valid()
      ensures this.generators == GeneratorSnapshots(generators) && this.workers == WorkerSnapshots(workers)
      ensures this.buffer == buffer
      ensures currentTime == 0.0 && requestCounter == 0 && declinedRequests == 0 && workerPointer == 0
      ensures eventQueue == multiset{}
      ensures forall g | 0 <= g < |generators| :: declineTypeCounter[g] == 0
    {
      var counter: map<int, int> := map[];
      var i := 0;
      while i < |generators|
        invariant 0 <= i <= |generators|
        invariant forall g :: g in counter <==> 0 <= g < i
        invariant forall g | g in counter :: counter[g] == 0
      {
        counter := counter[generators[i].number := 0];
        i := i + 1;
      }
      this.generators := GeneratorSnapshots(generators);
      this.workers := WorkerSnapshots(workers);
      this.buffer := buffer;
      this.currentTime := 0.0;
      this.requestCounter := 0;
      this.declinedRequests := 0;
      this.workerPointer := 0;
      this.eventQueue := multiset{};
      this.declineTypeCounter := counter;
      this.completed := 0;
      new;
      EmptyValid(buffer.capacity);
      SumCountsZero(counter, |generators|);
      IdleHasNoCompletions(this.workers);
    }

    /** Starting at the pointer and moving round the servers, stops at the first
        idle one; gives up after trying every server. */
    method ChooseWorker() returns (found: bool)
      requires 0 <= workerPointer < |workers|
      modifies this`workerPointer
      ensures (found, workerPointer) == Choose(workers, old(workerPointer))
    {
      var n := |workers|;
      var tries := 0;
      while workers[workerPointer].isBusy
        invariant 0 <= tries < n && 0 <= workerPointer < n
        invariant Scan(workers, workerPointer, tries) == Choose(workers, old(workerPointer))
        decreases n - tries
      {
        tries := tries + 1;
        workerPointer := (workerPointer + 1) % n;
        if tries >= n {
          return false;
        }
      }
      return true;
    }

    /** Starts server i on a request at the current time, as Serve says, and puts
        its completion on the calendar. */
    method StartService(i: int, request: Request, draw: Draw)
      requires 0 <= i < |workers|
      modifies this`workers, this`eventQueue
      ensures Snap() == Serve(old(Snap()), i, request, draw)
    {
      var w := Start(workers[i], currentTime, request, draw);
      workers := workers[i := w];
      eventQueue := eventQueue + multiset{Event(Completion, w.completionTime, w.number)};
    }

    /** Offers a request to the buffer, as Offer says: whatever the buffer hands
        back is counted as declined against its own source. */
    method Enqueue(request: Request)
      requires buffer.Valid()
      modifies this`declinedRequests, this`declineTypeCounter, buffer
      ensures Snap() == Offer(old(Snap()), request)
    {
      var declined := buffer.AddRequest(request);
      if declined.Some? {
        declinedRequests := declinedRequests + 1;
        declineTypeCounter := Bump(declineTypeCounter, declined.value.generatorNumber);
      }
    }

    /** An arrival from source genNumber at the current time, as GenerationStep says. */
    method HandleGenerationEvent(genNumber: int, draw: Draw)
      requires 0 <= genNumber < |generators| && 0 <= workerPointer < |workers|
      requires buffer.Valid()
      modifies this, buffer
      ensures Snap() == GenerationStep(old(Snap()), genNumber, draw)
    {
      ghost var s0 := Snap();
      var (gen, request) := Generate(generators[genNumber], currentTime);
      generators := generators[genNumber := gen];
      requestCounter := requestCounter + 1;
      eventQueue := eventQueue + multiset{Event(Generation, gen.nextGenTime, genNumber)};
      var free := ChooseWorker();
      ghost var arrived := Snap();
      assert arrived == Arrive(s0, genNumber, workerPointer);
      if free {
        StartService(workerPointer, request, draw);
      } else {
        Enqueue(request);
      }
    }

    /** A completion at server workerNumber at the current time, as CompletionStep says. */
    method HandleCompletionEvent(workerNumber: int, draw: Draw)
      requires 0 <= workerNumber < |workers|
      requires buffer.Valid()
      modifies this`workers, this`eventQueue, this`completed, buffer
      ensures Snap() == CompletionStep(old(Snap()), workerNumber, draw)
    {
      workers := workers[workerNumber := Stop(workers[workerNumber])];
      completed := completed + 1;
      var nextRequest := buffer.GetNextRequest();
      if nextRequest.Some? {
        StartService(workerNumber, nextRequest.value, draw);
      }
    }

    /** Takes the earliest event off the calendar and moves the clock to it. */
    method Poll() returns (e: Event)
      requires eventQueue != multiset{}
      modifies this`eventQueue, this`currentTime
      ensures Snap() == Polled(old(Snap()), e)
      ensures e in old(eventQueue) && forall x | x in old(eventQueue) :: e.time <= x.time
    {
      var rest;
      e, rest := PollEarliest(eventQueue);
      eventQueue := rest;
      currentTime := e.time;
    }

    /** The switch of the event loop, as Handle says. */
    method Dispatch(e: Event, draw: Draw)
      requires Dispatchable(Snap(), e)
      modifies this, buffer
      ensures Snap() == Handle(old(Snap()), e, draw)
    {
      if e.kind == Generation {
        HandleGenerationEvent(e.objectNumber, draw);
      } else if e.kind == Completion {
        HandleCompletionEvent(e.objectNumber, draw);
      }
    }

    /** Runs the calendar: schedules the end event for a non-negative horizon and
        each source's first arrival, then repeatedly takes the earliest event, stops
        at the horizon or the arrival cap, and otherwise handles it with the next
        service draw. Returns the events handled, in order. */
    method RunSimulation(simulationTime: real, draws: nat -> Draw, fuel: nat) returns (ghost dispatched: seq<Event>)
      requires Valid()
      requires eventQueue == multiset{}
      requires forall i | 0 <= i < |workers| :: !workers[i].isBusy
      modifies this, buffer
      ensures |dispatched| <= fuel
      ensures Progress(Snap(), dispatched, old(requestCounter), old(GenCountSum(generators)), simulationTime, old(StartsOrdered(Snap())))
    {
      ghost var ordered := StartsOrdered(Snap());
      ghost var start := requestCounter;
      ghost var startGen := GenCountSum(generators);
      StartKeeps(Snap(), simulationTime);
      ghost var st := Started(Snap(), simulationTime);
      ScheduleStart(simulationTime);
      var steps: nat := 0;
      dispatched := [];
      while steps < fuel && eventQueue != multiset{}
        invariant Snap() == st
        invariant Run(st, dispatched, start, startGen, simulationTime, ordered)
        invariant |dispatched| == steps <= fuel
        decreases fuel - steps
      {
        var e := Poll();
        TurnKeeps(st, e, draws(steps), dispatched, start, startGen, simulationTime, ordered);
        if StopsAt(simulationTime, currentTime, requestCounter) {
          st := Polled(st, e);
          break;
        }
        Dispatch(e, draws(steps));
        st := Handle(Polled(st, e), e, draws(steps));
        dispatched := dispatched + [e];
        steps := steps + 1;
      }
    }

    /** The start of a run: the end event for a non-negative horizon, then each
        source's next arrival, added to the calendar. */
    method ScheduleStart(simulationTime: real)
      requires forall g | 0 <= g < |generators| :: generators[g].number == g
      modifies this`eventQueue
      ensures eventQueue == WithArrivals(old(eventQueue) + EndEvents(simulationTime), generators, |generators|)
      ensures Snap() == old(Snap()).(eventQueue := eventQueue)
      ensures Snap() == Started(old(Snap()), simulationTime)
    {
      if simulationTime >= 0.0 {
        eventQueue := eventQueue + multiset{Event(End, simulationTime, -1)};
      }
      var g := 0;
      while g < |generators|
        invariant 0 <= g <= |generators|
        invariant Snap() == old(Snap()).(eventQueue := eventQueue)
        invariant eventQueue == WithArrivals(old(eventQueue) + EndEvents(simulationTime), generators, g)
      {
        eventQueue := eventQueue + multiset{Event(Generation, generators[g].nextGenTime, generators[g].number)};
        g := g + 1;
      }
    }
  }
}
