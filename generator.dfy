/** A request source: fires periodically, numbering its requests 1, 2, 3, ... */
module Generators {
  import opened Requests

  /** The id "<number>.<count>" the source stamps on its count-th request. */
  function RequestId(number: int, count: int): string {
    IntToString(number) + "." + IntToString(count)
  }

  /** Ids determine both the source and the sequence number, so no two requests
      (of one source or of two) ever share an id. */
  lemma RequestIdInjective(n1: int, c1: int, n2: int, c2: int)
    requires RequestId(n1, c1) == RequestId(n2, c2)
    ensures n1 == n2 && c1 == c2
  {
    var s1, s2 := IntToString(n1), IntToString(n2);
    var id := RequestId(n1, c1);
    // the first '.' of the id ends the source number
    FirstDotAfter(s1, IntToString(c1));
    FirstDotAfter(s2, IntToString(c2));
    assert |s1| == FirstDot(id) == |s2|;
    assert s1 == id[..|s1|] == s2;
    IntToStringInjective(n1, n2);
    assert IntToString(c1) == id[|s1| + 1..] == IntToString(c2);
    IntToStringInjective(c1, c2);
  }

  /** Requests from one source with different sequence numbers have different ids. */
  lemma RequestIdsOfOneSourceDistinct(number: int, j: int, k: int)
    requires j != k
    ensures RequestId(number, j) != RequestId(number, k)
  {
    if RequestId(number, j) == RequestId(number, k) {
      RequestIdInjective(number, j, number, k);
    }
  }

  /** A source at one moment: its number, its interval, how many requests it has
      stamped and when it fires next. */
  datatype GeneratorState = GeneratorState(number: int, genInterval: real, genCount: int, nextGenTime: real)

  /** Firing at curTime: the next arrival is one interval later, the count goes up
      by one, and the new request is stamped with the source and the new count. */
  function Generate(s: GeneratorState, curTime: real): (r: (GeneratorState, Request))
  {
    var count := s.genCount + 1;
    (s.(genCount := count, nextGenTime := curTime + s.genInterval), Request(RequestId(s.number, count), s.number))
  }

  /** With a non-negative interval the next arrival is never before the firing. */
  lemma GenerateSchedulesAhead(s: GeneratorState, curTime: real)
    requires s.genInterval >= 0.0
    ensures Generate(s, curTime).0.nextGenTime >= curTime
  {
  }

  /** Firing the same source twice, at any times, stamps two different ids. */
  lemma GenerateTwiceDistinct(s: GeneratorState, t1: real, t2: real)
    ensures Generate(Generate(s, t1).0, t2).1.number != Generate(s, t1).1.number
  {
    RequestIdsOfOneSourceDistinct(s.number, s.genCount + 2, s.genCount + 1);
  }

  /** The source number and the interval are fixed at construction: nothing in
      the simulator reassigns them. */
  class Generator {
    const number: int
    const genInterval: real
    var genCount: int
    var nextGenTime: real

    /** The source's current state as a value. */
    function Snapshot(): GeneratorState
      reads this
    {
      GeneratorState(number, genInterval, genCount, nextGenTime)
    }

    /** The first arrival is one interval after time 0, not at 0. */
    constructor (number: int, genInterval: real, genCount: int)
      ensures Snapshot() == GeneratorState(number, genInterval, genCount, genInterval)
    {
      this.number := number;
      this.genInterval := genInterval;
      this.genCount := genCount;
      this.nextGenTime := genInterval;
    }

    /** Fires at curTime, as Generate says. */
    method GenerateRequest(curTime: real) returns (request: Request)
      modifies this`nextGenTime, this`genCount
      ensures (Snapshot(), request) == Generate(old(Snapshot()), curTime)
    {
      nextGenTime := curTime + genInterval;
      genCount := genCount + 1;
      request := Request(RequestId(number, genCount), number);
    }
  }
}
