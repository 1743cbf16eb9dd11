/** The simulator's state as a value, the two event handlers as functions on it,
    and the invariants every handled event keeps. */
module SimulationModel {
  import opened Requests
  import opened Events
  import opened Generators
  import opened Workers
  import opened BufferSpec
  import opened SimulationSpec

  /** Everything the simulator holds between two events. completed counts the
      services that have finished, which the simulator itself does not record. */
  datatype SimState = SimState(
    generators: seq<GeneratorState>,
    workers: seq<WorkerState>,
    buffer: BufferState,
    currentTime: real,
    requestCounter: int,
    declinedRequests: int,
    workerPointer: int,
    eventQueue: multiset<Event>,
    declineTypeCounter: map<int, int>,
    completed: int)

  /** Source and server numbers are their positions (so none appears twice), there
      is a server, and every server holds a request exactly while it is busy. */
  ghost predicate Numbered(gs: seq<GeneratorState>, ws: seq<WorkerState>) {
    && (forall g | 0 <= g < |gs| :: gs[g].number == g)
    && |ws| > 0
    && (forall i | 0 <= i < |ws| :: ws[i].number == i && Holds(ws[i]))
  }

  /** Inter-arrival times and mean service times are non-negative. */
  ghost predicate NonNegativeDelays(gs: seq<GeneratorState>, ws: seq<WorkerState>) {
    && (forall g | 0 <= g < |gs| :: gs[g].genInterval >= 0.0)
    && (forall i | 0 <= i < |ws| :: ws[i].maxProcessingTime >= 0.0)
  }

  /** There is a decline counter per source and for no other key, the counters sum
      to the declined total, and every request generated so far is declined,
      waiting in the buffer, in service, done, or one of the inHand requests a
      handler is still placing. */
  ghost predicate Counted(s: SimState, inHand: nat) {
    && (forall g | 0 <= g < |s.generators| :: g in s.declineTypeCounter && s.declineTypeCounter[g] >= 0)
    && (forall g | g in s.declineTypeCounter :: 0 <= g < |s.generators|)
    && s.declinedRequests == SumCounts(s.declineTypeCounter, |s.generators|)
    && s.completed >= 0
    && s.requestCounter == s.declinedRequests + s.buffer.size + BusyCount(s.workers) + s.completed + inHand
  }

  /** Numbering, a valid buffer holding only known sources, the request accounting
      with inHand requests being placed, and a pointer that names a server. */
  ghost predicate Accounted(s: SimState, inHand: nat) {
    && Numbered(s.generators, s.workers)
    && ValidState(s.buffer)
    && (forall k | k in s.buffer.packages :: 0 <= k < |s.generators|)
    && Counted(s, inHand)
    && 0 <= s.workerPointer < |s.workers|
  }

  /** The invariant between events, when no request is being placed. */
  ghost predicate Consistent(s: SimState) {
    Accounted(s, 0)
  }

  /** Declines never outnumber the requests generated, and no source is charged
      more declines than the total. */
  lemma DeclinesBounded(s: SimState)
    requires Consistent(s)
    ensures 0 <= s.declinedRequests <= s.requestCounter
    ensures forall g | 0 <= g < |s.generators| :: 0 <= s.declineTypeCounter[g] <= s.declinedRequests
  {
    var n := |s.generators|;
    SumCountsNonNegative(s.declineTypeCounter, n);
    forall g | 0 <= g < n
      ensures 0 <= s.declineTypeCounter[g] <= s.declinedRequests
    {
      SumCountsBound(s.declineTypeCounter, n, g);
    }
  }

  /** What the calendar holds apart from the end event: the next arrival of every
      source and the completion of every busy server. */
  function Pending(s: SimState): multiset<Event> {
    GenerationEvents(s.generators) + CompletionEvents(s.workers)
  }

  /** Delays are non-negative and no pending arrival or completion lies in the past. */
  ghost predicate Ordered(s: SimState) {
    NonNegativeDelays(s.generators, s.workers) && NotBefore(s.eventQueue, s.currentTime)
  }

  /** Taking an event off the calendar and moving the clock keeps the invariant,
      which does not mention either. */
  lemma ConsistentWithoutCalendar(s: SimState, q: multiset<Event>, t: real)
    requires Consistent(s)
    ensures Consistent(s.(eventQueue := q, currentTime := t))
  {
    assert s.(eventQueue := q, currentTime := t).buffer == s.buffer;
  }

  /** The decline counter for source k, one up. A source with no counter, which
      the invariant rules out, counts from zero. */
  function Bump(counts: map<int, int>, k: int): (r: map<int, int>)
    ensures k in r && r.Keys == counts.Keys + {k}
    ensures k in counts ==> r[k] == counts[k] + 1
    ensures forall j | j in counts && j != k :: r[j] == counts[j]
  {
    counts[k := (if k in counts then counts[k] else 0) + 1]
  }

  /** chooseWorker's scan at position ptr after tries busy servers: an idle server
      ends the scan there; after the last busy one the scan gives up one step on. */
  function Scan(ws: seq<WorkerState>, ptr: int, tries: nat): (r: (bool, int))
    requires 0 <= ptr < |ws| && tries < |ws|
    ensures 0 <= r.1 < |ws|
    decreases |ws| - tries
  {
    if !ws[ptr].isBusy then (true, ptr)
    else if tries + 1 >= |ws| then (false, (ptr + 1) % |ws|)
    else Scan(ws, (ptr + 1) % |ws|, tries + 1)
  }

  /** chooseWorker from pointer p: whether an idle server was found, and where the
      pointer ends. */
  function Choose(ws: seq<WorkerState>, p: int): (bool, int)
    requires 0 <= p < |ws|
  {
    Scan(ws, p, 0)
  }

  lemma {:induction false} ScanFrom(ws: seq<WorkerState>, p: int, ptr: int, tries: nat)
    requires 0 <= p < |ws| && tries < |ws| && ptr == Ring(p, tries, |ws|)
    requires forall k | 0 <= k < tries :: ws[Ring(p, k, |ws|)].isBusy
    ensures var (found, q) := Scan(ws, ptr, tries);
      && 0 <= q < |ws|
      && (found ==> !ws[q].isBusy && forall k | 0 <= k < Gap(p, q, |ws|) :: ws[Ring(p, k, |ws|)].isBusy)
      && (!found ==> q == p && forall k | 0 <= k < |ws| :: ws[Ring(p, k, |ws|)].isBusy)
    decreases |ws| - tries
  {
    var n := |ws|;
    if !ws[ptr].isBusy {
      RingOffset(p, tries, n);
    } else if tries + 1 >= n {
      RingStep(p, tries, n);
      RingLap(p, n);
    } else {
      RingStep(p, tries, n);
      ScanFrom(ws, p, (ptr + 1) % n, tries + 1);
    }
  }

  /** chooseWorker finds an idle server exactly when there is one, and then the
      first one met going round from p, every server passed on the way being busy;
      when all are busy the pointer ends where it started. */
  lemma ChooseFirstIdle(ws: seq<WorkerState>, p: int)
    requires 0 <= p < |ws|
    ensures var (found, q) := Choose(ws, p);
      && 0 <= q < |ws|
      && (found <==> exists i | 0 <= i < |ws| :: !ws[i].isBusy)
      && (found ==> !ws[q].isBusy && forall k | 0 <= k < Gap(p, q, |ws|) :: ws[Ring(p, k, |ws|)].isBusy)
      && (!found ==> q == p)
  {
    var n := |ws|;
    RingLap(p, n);
    ScanFrom(ws, p, p, 0);
    var (found, q) := Choose(ws, p);
    if !found {
      forall i | 0 <= i < n
        ensures ws[i].isBusy
      {
        RingCovers(p, i, n);
      }
    }
  }

  /** chooseWorker fails exactly when every server is busy. */
  lemma ChooseFailsWhenAllBusy(ws: seq<WorkerState>, p: int)
    requires 0 <= p < |ws|
    ensures !Choose(ws, p).0 <==> BusyCount(ws) == |ws|
  {
    ChooseFirstIdle(ws, p);
    BusyCountBounds(ws);
  }

  /** Server i starts on a request at the current time, with the service draw,
      and its completion goes on the calendar. */
  function Serve(s: SimState, i: int, request: Request, draw: Draw): SimState
    requires 0 <= i < |s.workers|
  {
    var w := Start(s.workers[i], s.currentTime, request, draw);
    s.(workers := s.workers[i := w], eventQueue := s.eventQueue + multiset{Event(Completion, w.completionTime, w.number)})
  }

  /** The buffer's answer to a request offered to it: its new state, and the
      request it declines, if any, counted against that request's own source. */
  function Buffered(s: SimState, step: Step): SimState {
    if step.request.None? then s.(buffer := step.state)
    else
      s.(buffer := step.state, declinedRequests := s.declinedRequests + 1,
         declineTypeCounter := Bump(s.declineTypeCounter, step.request.value.generatorNumber))
  }

  /** A request is offered to the buffer. */
  ghost function Offer(s: SimState, request: Request): SimState {
    Buffered(s, Add(s.buffer, request))
  }

  /** Source g fires at the current time: its request is counted and its next
      arrival scheduled, and the pointer moves to p. */
  function Arrive(s: SimState, g: int, p: int): SimState
    requires 0 <= g < |s.generators|
  {
    var gen := Generate(s.generators[g], s.currentTime).0;
    s.(generators := s.generators[g := gen], requestCounter := s.requestCounter + 1,
       workerPointer := p, eventQueue := s.eventQueue + multiset{Event(Generation, gen.nextGenTime, g)})
  }

  /** handleGenerationEvent at the current time: source g stamps a request and its
      next arrival is scheduled; the request goes to the idle server the scan
      finds, or else to the buffer. */
  ghost function GenerationStep(s: SimState, g: int, draw: Draw): SimState
    requires 0 <= g < |s.generators| && 0 <= s.workerPointer < |s.workers|
  {
    var (found, p) := Choose(s.workers, s.workerPointer);
    var request := Generate(s.generators[g], s.currentTime).1;
    if found then Serve(Arrive(s, g, p), p, request, draw) else Offer(Arrive(s, g, p), request)
  }

  /** handleCompletionEvent at the current time: server i stops, and takes the
      buffer's next request if there is one. */
  ghost function CompletionStep(s: SimState, i: int, draw: Draw): SimState
    requires 0 <= i < |s.workers| && ValidState(s.buffer)
  {
    var step := Take(s.buffer);
    var freed := s.(workers := s.workers[i := Stop(s.workers[i])], buffer := step.state, completed := s.completed + 1);
    if step.request.None? then freed else Serve(freed, i, step.request.value, draw)
  }

  // Accounting: every request is declined, buffered, in service or done.

  /** Serving a request in hand on an idle server places it. */
  lemma ServeAccounted(s: SimState, i: int, request: Request, draw: Draw)
    requires Accounted(s, 1) && 0 <= i < |s.workers| && !s.workers[i].isBusy
    ensures Accounted(Serve(s, i, request, draw), 0)
  {
    var w := Start(s.workers[i], s.currentTime, request, draw);
    StartStopHold(s.workers[i], s.currentTime, request, draw);
    BusyCountUpdate(s.workers, i, w);
  }

  /** A buffer answer that keeps the buffer valid, grows it exactly when it
      declines nothing, adds no source but the request's, and declines either the
      request or one of a source already buffered, places the request in hand. */
  lemma BufferedAccounted(s: SimState, request: Request, step: Step)
    requires Accounted(s, 1) && 0 <= request.generatorNumber < |s.generators|
    requires ValidState(step.state)
    requires step.state.size == s.buffer.size + (if step.request.None? then 1 else 0)
    requires step.state.packages.Keys <= s.buffer.packages.Keys + {request.generatorNumber}
    requires step.request.Some? ==> step.request.value == request || step.request.value.generatorNumber in s.buffer.packages
    ensures Accounted(Buffered(s, step), 0)
  {
    if step.request.Some? {
      var k := step.request.value.generatorNumber;
      SumCountsIncrement(s.declineTypeCounter, |s.generators|, k);
      assert Bump(s.declineTypeCounter, k) == s.declineTypeCounter[k := s.declineTypeCounter[k] + 1];
    }
  }

  /** Offering a request in hand from a known source to the buffer places it:
      buffered, or declined and counted against the source of the request the
      buffer hands back, which is known too. */
  lemma OfferAccounted(s: SimState, request: Request)
    requires Accounted(s, 1) && 0 <= request.generatorNumber < |s.generators|
    ensures Accounted(Offer(s, request), 0)
  {
    AddConserves(s.buffer, request);
    AddDeclinedSource(s.buffer, request);
    BufferedAccounted(s, request, Add(s.buffer, request));
  }

  /** Handling an arrival keeps the invariant, with one more request counted. */
  lemma GenerationStepConsistent(s: SimState, g: int, draw: Draw)
    requires Consistent(s) && 0 <= g < |s.generators|
    ensures var t := GenerationStep(s, g, draw);
      && Consistent(t)
      && t.requestCounter == s.requestCounter + 1
      && t.currentTime == s.currentTime
  {
    var (gen, request) := Generate(s.generators[g], s.currentTime);
    var (found, p) := Choose(s.workers, s.workerPointer);
    ChooseFirstIdle(s.workers, s.workerPointer);
    var arrived := Arrive(s, g, p);
    assert Accounted(arrived, 1);
    if found {
      ServeAccounted(arrived, p, request, draw);
    } else {
      OfferAccounted(arrived, request);
    }
  }

  /** Handling the completion of a busy server keeps the invariant: its request is
      done, and the arrival count, the sources and the clock are unchanged. */
  lemma CompletionStepConsistent(s: SimState, i: int, draw: Draw)
    requires Consistent(s) && 0 <= i < |s.workers| && s.workers[i].isBusy
    ensures var t := CompletionStep(s, i, draw);
      && Consistent(t)
      && t.completed == s.completed + 1
      && t.requestCounter == s.requestCounter && t.generators == s.generators
      && t.currentTime == s.currentTime
  {
    var idle := Stop(s.workers[i]);
    StartStopHold(s.workers[i], s.currentTime, Request("", 0), 0.0);
    BusyCountUpdate(s.workers, i, idle);
    TakeConserves(s.buffer);
    var step := Take(s.buffer);
    var freed := s.(workers := s.workers[i := idle], buffer := step.state, completed := s.completed + 1);
    if step.request.Some? {
      assert Accounted(freed, 1);
      ServeAccounted(freed, i, step.request.value, draw);
    }
  }

  // The calendar: the next arrival of every source, the completion of every busy
  // server, and the end event.

  /** Serving on an idle server puts exactly its completion on the calendar. */
  lemma ServeCalendar(s: SimState, i: int, request: Request, draw: Draw, end: multiset<Event>)
    requires 0 <= i < |s.workers| && !s.workers[i].isBusy && s.workers[i].number == i
    requires s.eventQueue == Pending(s) + end
    ensures var t := Serve(s, i, request, draw);
      t.eventQueue == Pending(t) + end
  {
    var w := Start(s.workers[i], s.currentTime, request, draw);
    ScheduleCompletion(s.eventQueue, s.generators, s.workers, end, i, w);
  }

  /** An arrival taken off the calendar comes back as the source's next arrival,
      with the completion of the server that takes the request, if one does. */
  lemma GenerationStepCalendar(s: SimState, g: int, draw: Draw, end: multiset<Event>)
    requires Numbered(s.generators, s.workers) && 0 <= g < |s.generators| && 0 <= s.workerPointer < |s.workers|
    requires s.eventQueue + multiset{GenerationEvent(g, s.generators[g].nextGenTime)} == Pending(s) + end
    ensures var t := GenerationStep(s, g, draw);
      t.eventQueue == Pending(t) + end
  {
    var (gen, request) := Generate(s.generators[g], s.currentTime);
    var (found, p) := Choose(s.workers, s.workerPointer);
    ChooseFirstIdle(s.workers, s.workerPointer);
    RescheduleArrival(s.eventQueue, s.generators, s.workers, end, g, gen);
    var arrived := Arrive(s, g, p);
    if found {
      ServeCalendar(arrived, p, request, draw, end);
    }
  }

  /** A completion taken off the calendar belonged to a busy server; the calendar
      gains exactly the completion of the request it takes next, if any. */
  lemma CompletionStepCalendar(s: SimState, i: int, draw: Draw, end: multiset<Event>)
    requires Numbered(s.generators, s.workers) && 0 <= i < |s.workers| && ValidState(s.buffer)
    requires s.eventQueue + multiset{CompletionEvent(i, s.workers[i])} == Pending(s) + end
    requires forall x | x in end :: x.kind == End
    ensures s.workers[i].isBusy
    ensures var t := CompletionStep(s, i, draw);
      t.eventQueue == Pending(t) + end
  {
    var idle := Stop(s.workers[i]);
    TakeCompletion(s.eventQueue, s.generators, s.workers, end, i, idle);
    var step := Take(s.buffer);
    var freed := s.(workers := s.workers[i := idle], buffer := step.state, completed := s.completed + 1);
    if step.request.Some? {
      ServeCalendar(freed, i, step.request.value, draw, end);
    }
  }

  // Order: with non-negative delays nothing is ever scheduled in the past.

  /** Adding an event no earlier than now keeps the calendar free of the past. */
  lemma NotBeforeAdd(q: multiset<Event>, now: real, x: Event)
    requires NotBefore(q, now) && now <= x.time
    ensures NotBefore(q + multiset{x}, now)
  {
  }

  /** A server started at the current time completes no earlier. */
  lemma ServeOrdered(s: SimState, i: int, request: Request, draw: Draw)
    requires 0 <= i < |s.workers| && Ordered(s)
    ensures Ordered(Serve(s, i, request, draw))
  {
    var w := Start(s.workers[i], s.currentTime, request, draw);
    StartCompletesLater(s.workers[i], s.currentTime, request, draw);
    NotBeforeAdd(s.eventQueue, s.currentTime, Event(Completion, w.completionTime, w.number));
    assert NonNegativeDelays(s.generators, s.workers[i := w]);
  }

  /** Handling an arrival schedules nothing in the past. */
  lemma GenerationStepOrdered(s: SimState, g: int, draw: Draw)
    requires 0 <= g < |s.generators| && 0 <= s.workerPointer < |s.workers| && Ordered(s)
    ensures Ordered(GenerationStep(s, g, draw))
  {
    var (gen, request) := Generate(s.generators[g], s.currentTime);
    var (found, p) := Choose(s.workers, s.workerPointer);
    GenerateSchedulesAhead(s.generators[g], s.currentTime);
    NotBeforeAdd(s.eventQueue, s.currentTime, Event(Generation, gen.nextGenTime, g));
    var arrived := Arrive(s, g, p);
    assert NonNegativeDelays(arrived.generators, arrived.workers);
    if found {
      ServeOrdered(arrived, p, request, draw);
    }
  }

  /** Handling a completion schedules nothing in the past. */
  lemma CompletionStepOrdered(s: SimState, i: int, draw: Draw)
    requires 0 <= i < |s.workers| && ValidState(s.buffer) && Ordered(s)
    ensures Ordered(CompletionStep(s, i, draw))
  {
    var step := Take(s.buffer);
    var freed := s.(workers := s.workers[i := Stop(s.workers[i])], buffer := step.state, completed := s.completed + 1);
    assert NonNegativeDelays(freed.generators, freed.workers);
    if step.request.Some? {
      ServeOrdered(freed, i, step.request.value, draw);
    }
  }

  // One turn of the event loop.

  /** The number of arrivals after which a run without a horizon stops. */
  const RequestCap := 1000

  /** The stop test applied to each polled event: at or past a non-negative
      horizon, or, without one, once RequestCap arrivals have been generated. */
  predicate StopsAt(simulationTime: real, currentTime: real, requestCounter: int) {
    || (simulationTime >= 0.0 && currentTime >= simulationTime)
    || (simulationTime < 0.0 && requestCounter >= RequestCap)
  }

  /** The earliest event e is taken off the calendar and the clock moves to it. */
  function Polled(s: SimState, e: Event): SimState {
    s.(eventQueue := s.eventQueue - multiset{e}, currentTime := e.time)
  }

  /** The event names a source or a server that exists, and the handlers can run. */
  ghost predicate Dispatchable(s: SimState, e: Event) {
    && 0 <= s.workerPointer < |s.workers|
    && ValidState(s.buffer)
    && (e.kind == Generation ==> 0 <= e.objectNumber < |s.generators|)
    && (e.kind == Completion ==> 0 <= e.objectNumber < |s.workers|)
  }

  /** The switch of the event loop: arrivals and completions go to their handlers;
      any other event changes nothing. */
  ghost function Handle(s: SimState, e: Event, draw: Draw): SimState
    requires Dispatchable(s, e)
  {
    match e.kind
    case Generation => GenerationStep(s, e.objectNumber, draw)
    case Completion => CompletionStep(s, e.objectNumber, draw)
    case End => s
  }

  /** An event taken off a consistent calendar short of the stop test is an
      arrival of a source or the completion of a busy server, due before the
      horizon, and the handlers can run on it. */
  lemma PolledShape(s: SimState, e: Event, simulationTime: real)
    requires Consistent(s) && s.eventQueue == Pending(s) + EndEvents(simulationTime)
    requires e in s.eventQueue && !StopsAt(simulationTime, e.time, s.requestCounter)
    ensures e.kind != End && (simulationTime >= 0.0 ==> e.time < simulationTime)
    ensures Dispatchable(Polled(s, e), e)
    ensures e.kind == Generation ==> e == GenerationEvent(e.objectNumber, s.generators[e.objectNumber].nextGenTime)
    ensures e.kind == Completion ==> e == CompletionEvent(e.objectNumber, s.workers[e.objectNumber]) && s.workers[e.objectNumber].isBusy
    ensures Polled(s, e).eventQueue + multiset{e} == Pending(s) + EndEvents(simulationTime)
  {
    PendingEventShape(s.generators, s.workers, simulationTime, e);
  }

  /** Handling an arrival or the completion of a busy server keeps the invariant;
      only an arrival counts a request, and the clock stays put. */
  lemma HandleConsistent(p: SimState, e: Event, draw: Draw)
    requires Consistent(p) && Dispatchable(p, e) && e.kind != End
    requires e.kind == Completion ==> p.workers[e.objectNumber].isBusy
    ensures var t := Handle(p, e, draw);
      && Consistent(t)
      && t.requestCounter == p.requestCounter + (if e.kind == Generation then 1 else 0)
      && t.currentTime == p.currentTime
  {
    if e.kind == Generation {
      GenerationStepConsistent(p, e.objectNumber, draw);
    } else {
      CompletionStepConsistent(p, e.objectNumber, draw);
    }
  }

  /** Only an arrival counts a request, and it raises its own source's count
      by one as well, so the arrival count and the sources' counts move together. */
  lemma HandleCountsArrivals(p: SimState, e: Event, draw: Draw)
    requires Dispatchable(p, e) && e.kind != End
    ensures var t := Handle(p, e, draw);
      && t.requestCounter == p.requestCounter + (if e.kind == Generation then 1 else 0)
      && GenCountSum(t.generators) == GenCountSum(p.generators) + (if e.kind == Generation then 1 else 0)
  {
    if e.kind == Generation {
      var g := e.objectNumber;
      GenCountSumUpdate(p.generators, g, Generate(p.generators[g], p.currentTime).0);
    }
  }

  /** Handling the event just taken off a calendar that held exactly the pending
      events and end, puts the calendar back in that shape. */
  lemma HandleCalendar(p: SimState, e: Event, draw: Draw, simulationTime: real)
    requires Numbered(p.generators, p.workers) && Dispatchable(p, e)
    requires e.kind == Generation ==> e == GenerationEvent(e.objectNumber, p.generators[e.objectNumber].nextGenTime)
    requires e.kind == Completion ==> e == CompletionEvent(e.objectNumber, p.workers[e.objectNumber])
    requires e.kind != End && p.eventQueue + multiset{e} == Pending(p) + EndEvents(simulationTime)
    ensures var t := Handle(p, e, draw);
      t.eventQueue == Pending(t) + EndEvents(simulationTime)
  {
    var end := EndEvents(simulationTime);
    if e.kind == Generation {
      GenerationStepCalendar(p, e.objectNumber, draw, end);
    } else {
      CompletionStepCalendar(p, e.objectNumber, draw, end);
    }
  }

  /** If nothing pending lay in the past and e was the earliest event, taking it
      off moves the clock forward, and handling it leaves nothing pending in the
      past. */
  lemma HandleOrdered(s: SimState, e: Event, draw: Draw)
    requires Ordered(s) && e in s.eventQueue && (forall x | x in s.eventQueue :: e.time <= x.time)
    requires Dispatchable(Polled(s, e), e) && e.kind != End
    ensures s.currentTime <= e.time
    ensures Ordered(Handle(Polled(s, e), e, draw))
  {
    var p := Polled(s, e);
    assert Ordered(p);
    if e.kind == Generation {
      GenerationStepOrdered(p, e.objectNumber, draw);
    } else {
      CompletionStepOrdered(p, e.objectNumber, draw);
    }
  }

  // ---------------------------------------------------------------------------
  // A run of the event loop
  // ---------------------------------------------------------------------------

  /** What a run keeps after every turn, given the events handled so far, the
      arrival count and the sum of the sources' counts it started from, the
      horizon, and whether it started with nothing pending in the past: the
      invariant; only arrivals and completions before the horizon handled; the
      arrival cap respected; per arrival handled, one request counted and one
      stamped by its source; and, for an ordered start, the events handled in
      time order. */
  ghost predicate Progress(s: SimState, dispatched: seq<Event>, start: int, startGen: int, simulationTime: real, ordered: bool) {
    && Consistent(s)
    && BeforeHorizon(dispatched, simulationTime)
    && (simulationTime < 0.0 && start <= RequestCap ==> s.requestCounter <= RequestCap)
    && s.requestCounter == start + CountKind(dispatched, Generation)
    && GenCountSum(s.generators) == startGen + CountKind(dispatched, Generation)
    && (ordered ==> InTimeOrder(dispatched))
  }

  /** What holds between turns besides: the calendar holds exactly the pending
      events and the end event, and for an ordered start nothing pending lies in
      the past and nothing handled lies in the future. */
  ghost predicate Running(s: SimState, dispatched: seq<Event>, simulationTime: real, ordered: bool) {
    && s.eventQueue == Pending(s) + EndEvents(simulationTime)
    && (ordered ==> Ordered(s) && NotAfter(dispatched, s.currentTime))
  }

  /** Every source's next arrival is due no earlier than the clock, and no delay
      is negative. */
  ghost predicate StartsOrdered(s: SimState) {
    NonNegativeDelays(s.generators, s.workers) && forall g | 0 <= g < |s.generators| :: s.currentTime <= s.generators[g].nextGenTime
  }

  /** The calendar at the start of a run: the end event for a non-negative
      horizon and every source's next arrival, added to what was there. */
  function Started(s: SimState, simulationTime: real): SimState {
    s.(eventQueue := WithArrivals(s.eventQueue + EndEvents(simulationTime), s.generators, |s.generators|))
  }

  /** Starting from an empty calendar with idle servers, the calendar holds exactly
      the pending events and the end event. */
  lemma StartCalendar(s: SimState, simulationTime: real)
    requires s.eventQueue == multiset{}
    requires forall i | 0 <= i < |s.workers| :: !s.workers[i].isBusy
    ensures Started(s, simulationTime).eventQueue == Pending(s) + EndEvents(simulationTime)
  {
    IdleHasNoCompletions(s.workers);
    WithArrivalsAdds(s.eventQueue + EndEvents(simulationTime), s.generators, |s.generators|);
  }

  /** If every source is due no earlier than the clock, nothing pending on the
      starting calendar lies in the past. */
  lemma StartOrdered(s: SimState, simulationTime: real)
    requires Started(s, simulationTime).eventQueue == Pending(s) + EndEvents(simulationTime)
    requires forall i | 0 <= i < |s.workers| :: !s.workers[i].isBusy
    requires StartsOrdered(s)
    ensures Ordered(Started(s, simulationTime))
  {
    var t := Started(s, simulationTime);
    forall x | x in t.eventQueue && x.kind != End
      ensures t.currentTime <= x.time
    {
      PendingEventShape(s.generators, s.workers, simulationTime, x);
    }
  }

  /** A run that starts from a consistent state with idle servers and an empty
      calendar starts with both in place: nothing handled yet, and the calendar
      holding exactly the pending events and the end event. */
  lemma StartKeeps(s: SimState, simulationTime: real)
    requires Consistent(s) && s.eventQueue == multiset{}
    requires forall i | 0 <= i < |s.workers| :: !s.workers[i].isBusy
    ensures Run(Started(s, simulationTime), [], s.requestCounter, GenCountSum(s.generators), simulationTime, StartsOrdered(s))
  {
    var t := Started(s, simulationTime);
    StartCalendar(s, simulationTime);
    ConsistentWithoutCalendar(s, t.eventQueue, t.currentTime);
    if StartsOrdered(s) {
      StartOrdered(s, simulationTime);
    }
  }

  /** Progress and Running together: what holds between turns of a run. */
  ghost predicate Run(s: SimState, dispatched: seq<Event>, start: int, startGen: int, simulationTime: real, ordered: bool) {
    Progress(s, dispatched, start, startGen, simulationTime, ordered) && Running(s, dispatched, simulationTime, ordered)
  }

  /** A turn keeps both: polling the earliest event and stopping keeps what a run
      promises, and handling it, short of the stop test, keeps both. */
  lemma TurnKeeps(s: SimState, e: Event, draw: Draw, dispatched: seq<Event>, start: int, startGen: int, simulationTime: real, ordered: bool)
    requires Run(s, dispatched, start, startGen, simulationTime, ordered)
    requires e in s.eventQueue && (forall x | x in s.eventQueue :: e.time <= x.time)
    ensures StopsAt(simulationTime, e.time, s.requestCounter) ==> Progress(Polled(s, e), dispatched, start, startGen, simulationTime, ordered)
    ensures !StopsAt(simulationTime, e.time, s.requestCounter) ==>
      && Dispatchable(Polled(s, e), e)
      && var t := Handle(Polled(s, e), e, draw);
         Run(t, dispatched + [e], start, startGen, simulationTime, ordered)
  {
    if StopsAt(simulationTime, e.time, s.requestCounter) {
      ConsistentWithoutCalendar(s, s.eventQueue - multiset{e}, e.time);
    } else {
      var p := Polled(s, e);
      PolledShape(s, e, simulationTime);
      ConsistentWithoutCalendar(s, p.eventQueue, p.currentTime);
      HandleConsistent(p, e, draw);
      HandleCalendar(p, e, draw, simulationTime);
      HandleCountsArrivals(p, e, draw);
      if ordered {
        HandleOrdered(s, e, draw);
      }
      CountKindAppend(dispatched, e, Generation);
      RecordEvent(dispatched, e, simulationTime, s.currentTime);
    }
  }
}
