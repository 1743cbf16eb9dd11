/** A server: serves one request at a time for a randomly drawn duration. */
module Workers {
  import opened Requests

  /** A draw of the service-time distribution (Random.nextExponential), never negative. */
  type Draw = r: real | 0.0 <= r

  /** The completion time of a service that starts at curTime: the draw scaled by
      the server's mean service time. */
  function NewCompletionTime(curTime: real, draw: Draw, maxProcessingTime: real): (t: real)
    ensures maxProcessingTime >= 0.0 ==> t >= curTime
    ensures draw == 0.0 || maxProcessingTime == 0.0 ==> t == curTime
  {
    curTime + draw * maxProcessingTime
  }

  /** A server at one moment. */
  datatype WorkerState = WorkerState(number: int, maxProcessingTime: real, isBusy: bool, completionTime: real,
                                     curRequest: Option<Request>)

  /** A server holds a request exactly while it is busy. */
  predicate Holds(s: WorkerState) {
    s.isBusy <==> s.curRequest.Some?
  }

  /** Starting service of request at curTime: busy until the drawn completion time. */
  function Start(s: WorkerState, curTime: real, request: Request, draw: Draw): (r: WorkerState)
  {
    s.(isBusy := true, completionTime := NewCompletionTime(curTime, draw, s.maxProcessingTime), curRequest := Some(request))
  }

  /** Freeing the server; its last completion time is kept. */
  function Stop(s: WorkerState): (r: WorkerState)
  {
    s.(isBusy := false, curRequest := None)
  }

  /** Starting and stopping keep a server's number and mean service time, and leave
      it holding a request exactly while busy: busy with the request after Start,
      idle with none after Stop. */
  lemma StartStopHold(s: WorkerState, curTime: real, request: Request, draw: Draw)
    ensures var w := Start(s, curTime, request, draw);
            Holds(w) && w.isBusy && w.curRequest == Some(request) && w.number == s.number
    ensures var w := Stop(s); Holds(w) && !w.isBusy && w.number == s.number
  {
  }

  /** A service started at curTime never completes before curTime when the mean
      service time is non-negative. */
  lemma StartCompletesLater(s: WorkerState, curTime: real, request: Request, draw: Draw)
    requires s.maxProcessingTime >= 0.0
    ensures Start(s, curTime, request, draw).completionTime >= curTime
  {
  }

  /** Stopping a server that was started returns it to idle with its completion
      time kept. */
  lemma StopAfterStart(s: WorkerState, curTime: real, request: Request, draw: Draw)
    requires Holds(s) && !s.isBusy
    ensures Stop(Start(s, curTime, request, draw)) == s.(completionTime := NewCompletionTime(curTime, draw, s.maxProcessingTime))
  {
  }

  /** The server number and the mean service time are fixed at construction:
      nothing in the simulator reassigns them. */
  class Worker {
    const number: int
    const maxProcessingTime: real
    var isBusy: bool
    var completionTime: real
    var curRequest: Option<Request>

    /** The server's current state as a value. */
    function Snapshot(): WorkerState
      reads this
    {
      WorkerState(number, maxProcessingTime, isBusy, completionTime, curRequest)
    }

    /** An idle server, as the configuration builds them. */
    constructor (number: int, maxProcessingTime: real)
      ensures Snapshot() == WorkerState(number, maxProcessingTime, false, 0.0, None)
    {
      this.number := number;
      this.isBusy := false;
      this.completionTime := 0.0;
      this.maxProcessingTime := maxProcessingTime;
      this.curRequest := None;
    }

    /** Serves request from curTime, as Start says. */
    method StartProcessing(curTime: real, request: Request, draw: Draw)
      modifies this`isBusy, this`completionTime, this`curRequest
      ensures Snapshot() == Start(old(Snapshot()), curTime, request, draw)
    {
      isBusy := true;
      completionTime := NewCompletionTime(curTime, draw, maxProcessingTime);
      curRequest := Some(request);
    }

    /** Frees the server, as Stop says; curTime is not used. */
    method StopProcessing(curTime: real)
      modifies this`isBusy, this`curRequest
      ensures Snapshot() == Stop(old(Snapshot()))
    {
      curRequest := None;
      isBusy := false;
    }
  }
}
