/** The priority buffer as the simulator uses it: an object whose fields the
    operations update in place, each operation proved against its counterpart in
    BufferSpec. */
module Buffers {
  import opened Requests
  import opened BufferSpec

  /** The eviction scan of addRequest: visits the keys above g from the greatest
      down, skips empty partitions, and stops at the first non-empty one. */
  method FindVictim(packages: Packages, g: int) returns (victim: Option<int>)
    ensures victim == Victim(packages, g)
  {
    var keys := set k | k in packages && k > g;
    while keys != {}
      invariant forall k | k in keys :: k in packages && k > g
      invariant forall k | k in packages && k > g && k !in keys :: packages[k] == []
      invariant forall k, j | k in packages && k > g && k !in keys && j in keys :: j < k
      decreases |keys|
    {
      MaxExists(keys);
      var genKey :| genKey in keys && forall j | j in keys :: j <= genKey;
      if packages[genKey] != [] {
        var v := Victim(packages, g);
        assert v.Some? && v.value in keys;
        return Some(genKey);
      }
      keys := keys - {genKey};
    }
    return None;
  }

  class Buffer {
    var capacity: int
    var currentSize: int
    var currentPriorityPackage: Option<int>
    var requestPackages: Packages

    /** The fields as a BufferState value. */
    ghost function State(): BufferState
      reads this
    {
      BufferState(capacity, currentSize, currentPriorityPackage, requestPackages)
    }

    ghost predicate Valid()
      reads this
    {
      ValidState(State())
    }

    constructor (capacity: int)
      ensures State() == Empty(capacity)
      ensures Valid()
    {
      this.capacity := capacity;
      this.currentSize := 0;
      this.currentPriorityPackage := None;
      this.requestPackages := map[];
      EmptyValid(capacity);
    }

    /** Full exactly when the pending requests number at least the capacity. */
    function IsFull(): (full: bool)
      reads this
      ensures Valid() ==> (full <==> |Contents(State())| >= capacity)
    {
      currentSize >= capacity
    }

    /** Admits a request; hands back null, the newcomer, or the request it evicted. */
    method AddRequest(request: Request) returns (declined: Option<Request>)
      requires Valid()
      modifies this
      ensures Step(State(), declined) == Add(old(State()), request)
      ensures Valid()
      ensures Contents(State()) + AsMultiset(declined) == old(Contents(State())) + multiset{request}
      ensures currentSize == old(currentSize) + (if declined.None? then 1 else 0) && capacity == old(capacity)
      ensures forall k | k in requestPackages :: k in old(requestPackages) || k == request.generatorNumber
      ensures declined.Some? ==>
                declined.value == request ||
                (declined.value.generatorNumber in old(requestPackages) &&
                 declined.value.generatorNumber > request.generatorNumber)
    {
      ghost var s0 := State();
      AddDeclinedSource(s0, request);
      if currentSize < capacity {
        AddRequestNoCheck(request);
        assert State() == Add(s0, request).state;
        AddConserves(s0, request);
        return None;
      }
      declined := Some(request);
      var victim := FindVictim(requestPackages, request.generatorNumber);
      if victim.Some? {
        var genKey := victim.value;
        var deque := requestPackages[genKey];
        declined := Some(deque[|deque| - 1]);
        deque := deque[..|deque| - 1];
        currentSize := currentSize - 1;
        if deque == [] {
          requestPackages := requestPackages - {genKey};
          RecalculateCurrentPriorityPackage();
        } else {
          requestPackages := requestPackages[genKey := deque];
        }
        assert requestPackages == DropLast(s0.packages, genKey);
        AddRequestNoCheck(request);
        assert State() == Add(s0, request).state;
      } else {
        assert Add(s0, request) == Step(s0, Some(request));
      }
      AddConserves(s0, request);
    }

    /** Appends the request to its source's partition, creating the partition when
        absent; the cache is left as it is. */
    method AddRequestNoCheck(request: Request)
      modifies this`requestPackages, this`currentSize
      ensures requestPackages == Appended(old(requestPackages), request)
      ensures currentSize == old(currentSize) + 1
    {
      var g := request.generatorNumber;
      if g !in requestPackages {
        requestPackages := requestPackages[g := []];
      }
      requestPackages := requestPackages[g := requestPackages[g] + [request]];
      currentSize := currentSize + 1;
    }

    /** Removes and returns the oldest request of the cached partition, or null
        when the buffer is empty. */
    method GetNextRequest() returns (request: Option<Request>)
      requires Valid()
      modifies this
      ensures Step(State(), request) == Take(old(State()))
      ensures Valid()
      ensures request.None? <==> old(currentSize) == 0
      ensures request.Some? ==> Contents(State()) + multiset{request.value} == old(Contents(State()))
      ensures currentSize == old(currentSize) - (if request.Some? then 1 else 0) && capacity == old(capacity)
      ensures forall k | k in requestPackages :: k in old(requestPackages)
    {
      TakeConserves(State());
      if currentSize == 0 {
        return None;
      }
      if currentPriorityPackage.None? {
        SizedHasPartition(State());
        RecalculateCurrentPriorityPackage();
      }
      var c := currentPriorityPackage.value;
      var queue := requestPackages[c];
      currentSize := currentSize - 1;
      request := Some(queue[0]);
      queue := queue[1..];
      if queue == [] {
        requestPackages := requestPackages - {c};
        RecalculateCurrentPriorityPackage();
      } else {
        requestPackages := requestPackages[c := queue];
      }
    }

    /** Sets the cache to the least key with a non-empty partition, or null:
        visits the keys in ascending order and stops at the first non-empty one. */
    method RecalculateCurrentPriorityPackage()
      modifies this`currentPriorityPackage
      ensures currentPriorityPackage == Lowest(requestPackages)
    {
      currentPriorityPackage := None;
      var keys := requestPackages.Keys;
      while keys != {}
        invariant forall k | k in keys :: k in requestPackages
        invariant forall k | k in requestPackages && k !in keys :: requestPackages[k] == []
        invariant forall k, j | k in requestPackages && k !in keys && j in keys :: k < j
        invariant currentPriorityPackage == None
        decreases |keys|
      {
        MinExists(keys);
        var i :| i in keys && forall j | j in keys :: i <= j;
        if requestPackages[i] != [] {
          var low := Lowest(requestPackages);
          assert low.Some? && low.value in keys;
          currentPriorityPackage := Some(i);
          return;
        }
        keys := keys - {i};
      }
    }
  }
}
