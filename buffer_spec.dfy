/** The priority buffer as a value: its fields, its invariant, and what addRequest
    and getNextRequest do to it, with the properties those operations keep. */
module BufferSpec {
  import opened Requests

  /** Pending requests by source number; each partition is a FIFO queue, oldest first. */
  type Packages = map<int, seq<Request>>

  /** The buffer's fields: capacity, currentSize, the cached partition key
      currentPriorityPackage (None for null) and requestPackages. */
  datatype BufferState = BufferState(capacity: int, size: int, cache: Option<int>, packages: Packages)

  /** A buffer state after an operation, with the request the operation hands back
      (None for Java's null). */
  datatype Step = Step(state: BufferState, request: Option<Request>)

  /** The freshly constructed buffer. */
  function Empty(capacity: int): BufferState {
    BufferState(capacity, 0, None, map[])
  }

  /** The partition of source k, empty when the map has no entry for k. */
  function Part(m: Packages, k: int): seq<Request> {
    if k in m then m[k] else []
  }

  function AsMultiset(r: Option<Request>): multiset<Request> {
    if r.Some? then multiset{r.value} else multiset{}
  }

  // ---------------------------------------------------------------------------
  // Least and greatest keys

  /** A key of a non-empty map, found through its entries. */
  lemma SomeKey<V>(m: map<int, V>) returns (k: int)
    requires m != map[]
    ensures k in m
  {
    assert |m.Items| == |m|;
    var p :| p in m.Items;
    k := p.0;
  }

  lemma SomeElement(ks: set<int>) returns (y: int)
    requires ks != {}
    ensures y in ks
  {
    var m := map k | k in ks :: 0;
    assert m.Keys == ks;
    y := SomeKey(m);
  }

  lemma {:induction false} MinExists(ks: set<int>)
    requires ks != {}
    ensures exists k :: k in ks && forall j | j in ks :: k <= j
  {
    var y := SomeElement(ks);
    if ks - {y} == {} {
      assert ks == {y};
    } else {
      MinExists(ks - {y});
      var m :| m in ks - {y} && forall j | j in ks - {y} :: m <= j;
      var k := if y <= m then y else m;
      assert forall j | j in ks :: j == y || j in ks - {y};
      assert k in ks && forall j | j in ks :: k <= j;
    }
  }

  lemma {:induction false} MaxExists(ks: set<int>)
    requires ks != {}
    ensures exists k :: k in ks && forall j | j in ks :: j <= k
  {
    var y := SomeElement(ks);
    if ks - {y} == {} {
      assert ks == {y};
    } else {
      MaxExists(ks - {y});
      var m :| m in ks - {y} && forall j | j in ks - {y} :: j <= m;
      var k := if m <= y then y else m;
      assert forall j | j in ks :: j == y || j in ks - {y};
      assert k in ks && forall j | j in ks :: j <= k;
    }
  }

  ghost function MinKey(ks: set<int>): (k: int)
    requires ks != {}
    ensures k in ks && forall j | j in ks :: k <= j
  {
    MinExists(ks);
    var k :| k in ks && forall j | j in ks :: k <= j;
    k
  }

  ghost function MaxKey(ks: set<int>): (k: int)
    requires ks != {}
    ensures k in ks && forall j | j in ks :: j <= k
  {
    MaxExists(ks);
    var k :| k in ks && forall j | j in ks :: j <= k;
    k
  }

  // ---------------------------------------------------------------------------
  // The two key searches of the buffer

  /** recalculateCurrentPriorityPackage: the least key whose partition is non-empty,
      or None when every partition is empty. */
  ghost function Lowest(m: Packages): (low: Option<int>)
    ensures low.None? <==> forall k | k in m :: m[k] == []
    ensures low.Some? ==> low.value in m && m[low.value] != []
    ensures low.Some? ==> forall k | k in m && m[k] != [] :: low.value <= k
  {
    var ks := set k | k in m && m[k] != [];
    assert forall k | k in m && m[k] != [] :: k in ks;
    if ks == {} then None else Some(MinKey(ks))
  }

  /** The eviction scan of addRequest: the greatest key above g whose partition
      is non-empty, or None when there is none. */
  ghost function Victim(m: Packages, g: int): (v: Option<int>)
    ensures v.None? <==> forall k | k in m && k > g :: m[k] == []
    ensures v.Some? ==> v.value in m && v.value > g && m[v.value] != []
    ensures v.Some? ==> forall k | k in m && k > g && m[k] != [] :: k <= v.value
  {
    var ks := set k | k in m && k > g && m[k] != [];
    assert forall k | k in m && k > g && m[k] != [] :: k in ks;
    if ks == {} then None else Some(MaxKey(ks))
  }

  // ---------------------------------------------------------------------------
  // The buffer's contents in priority order

  /** All pending requests in the order of priority: partitions by ascending source
      number, each oldest first. */
  ghost function Flatten(m: Packages): seq<Request>
    decreases m.Keys
  {
    if m == map[] then []
    else
      var k := MinKey(m.Keys);
      m[k] + Flatten(m - {k})
  }

  /** The pending requests, in any order. */
  ghost function Contents(s: BufferState): multiset<Request> {
    multiset(Flatten(s.packages))
  }

  /** Any one partition can be split off the contents. */
  lemma {:induction false} FlattenSplit(m: Packages, k: int)
    requires k in m
    ensures multiset(Flatten(m)) == multiset(m[k]) + multiset(Flatten(m - {k}))
    decreases m.Keys
  {
    var j := MinKey(m.Keys);
    if j != k {
      FlattenSplit(m - {j}, k);
      assert (m - {j}) - {k} == (m - {k}) - {j};
      assert j in (m - {k}).Keys && (m - {k}).Keys <= m.Keys;
      assert MinKey((m - {k}).Keys) == j;
    }
  }

  // ---------------------------------------------------------------------------
  // Well-formed partitions and the three ways the buffer edits them

  /** Stored partitions are non-empty and hold only their own source's requests. */
  ghost predicate WellFormed(m: Packages) {
    forall k | k in m :: m[k] != [] && forall i | 0 <= i < |m[k]| :: m[k][i].generatorNumber == k
  }

  /** addRequestNoCheck: the request goes to the tail of its source's partition,
      which is created when absent. */
  function Appended(m: Packages, r: Request): Packages {
    m[r.generatorNumber := Part(m, r.generatorNumber) + [r]]
  }

  /** Deque.removeLast on partition k, dropping the partition when that empties it. */
  function DropLast(m: Packages, k: int): Packages
    requires k in m && m[k] != []
  {
    var rest := m[k][..|m[k]| - 1];
    if rest == [] then m - {k} else m[k := rest]
  }

  /** Deque.removeFirst on partition k, dropping the partition when that empties it. */
  function DropFirst(m: Packages, k: int): Packages
    requires k in m && m[k] != []
  {
    var rest := m[k][1..];
    if rest == [] then m - {k} else m[k := rest]
  }

  lemma AppendedWellFormed(m: Packages, r: Request)
    requires WellFormed(m)
    ensures WellFormed(Appended(m, r))
    ensures Appended(m, r).Keys == m.Keys + {r.generatorNumber}
  {
  }

  lemma AppendedContents(m: Packages, r: Request)
    ensures multiset(Flatten(Appended(m, r))) == multiset(Flatten(m)) + multiset{r}
  {
    var g := r.generatorNumber;
    var q := Part(m, g) + [r];
    assert Appended(m, r) == m[g := q];
    LastSplit(q);
    if g in m {
      FlattenSplit(m, g);
      ReplacedSplit(m, g, q);
    } else {
      AddedSplit(m, g, q);
    }
  }

  /** Adding a partition for a new key adds it to the contents. */
  lemma AddedSplit(m: Packages, k: int, q: seq<Request>)
    requires k !in m
    ensures multiset(Flatten(m[k := q])) == multiset(q) + multiset(Flatten(m))
  {
    FlattenSplit(m[k := q], k);
    assert m[k := q] - {k} == m;
  }

  lemma DropLastWellFormed(m: Packages, k: int)
    requires WellFormed(m) && k in m
    ensures WellFormed(DropLast(m, k))
    ensures DropLast(m, k).Keys <= m.Keys
    ensures Part(DropLast(m, k), k) == m[k][..|m[k]| - 1]
    ensures forall j | j != k :: Part(DropLast(m, k), j) == Part(m, j)
  {
  }

  lemma DropLastContents(m: Packages, k: int)
    requires k in m && m[k] != []
    ensures multiset(Flatten(DropLast(m, k))) + multiset{m[k][|m[k]| - 1]} == multiset(Flatten(m))
  {
    var q := m[k];
    var rest := q[..|q| - 1];
    LastSplit(q);
    FlattenSplit(m, k);
    if rest != [] {
      ReplacedSplit(m, k, rest);
    }
  }

  /** Replacing one partition by another changes the contents by the difference. */
  lemma ReplacedSplit(m: Packages, k: int, rest: seq<Request>)
    requires k in m
    ensures multiset(Flatten(m[k := rest])) == multiset(rest) + multiset(Flatten(m - {k}))
  {
    FlattenSplit(m[k := rest], k);
    assert m[k := rest] - {k} == m - {k};
  }

  lemma FirstSplit(q: seq<Request>)
    requires q != []
    ensures multiset(q) == multiset{q[0]} + multiset(q[1..])
  {
    assert q == [q[0]] + q[1..];
  }

  lemma DropFirstWellFormed(m: Packages, k: int)
    requires WellFormed(m) && k in m
    ensures WellFormed(DropFirst(m, k))
    ensures DropFirst(m, k).Keys <= m.Keys
  {
  }

  lemma DropFirstContents(m: Packages, k: int)
    requires k in m && m[k] != []
    ensures multiset(Flatten(DropFirst(m, k))) + multiset{m[k][0]} == multiset(Flatten(m))
  {
    var q := m[k];
    var rest := q[1..];
    FirstSplit(q);
    FlattenSplit(m, k);
    if rest != [] {
      ReplacedSplit(m, k, rest);
    }
  }

  /** Appending one request keeps the partitions well formed and adds it to the contents. */
  lemma AppendedProps(m: Packages, r: Request)
    requires WellFormed(m)
    ensures WellFormed(Appended(m, r))
    ensures Appended(m, r).Keys == m.Keys + {r.generatorNumber}
    ensures multiset(Flatten(Appended(m, r))) == multiset(Flatten(m)) + multiset{r}
    ensures |Flatten(Appended(m, r))| == |Flatten(m)| + 1
  {
    AppendedWellFormed(m, r);
    AppendedContents(m, r);
    assert |multiset(Flatten(Appended(m, r)))| == |multiset(Flatten(m))| + 1;
  }

  /** Removing the newest request of partition k removes exactly that request. */
  lemma DropLastProps(m: Packages, k: int)
    requires WellFormed(m) && k in m
    ensures WellFormed(DropLast(m, k))
    ensures DropLast(m, k).Keys <= m.Keys
    ensures Part(DropLast(m, k), k) == m[k][..|m[k]| - 1]
    ensures forall j | j != k :: Part(DropLast(m, k), j) == Part(m, j)
    ensures multiset(Flatten(DropLast(m, k))) + multiset{m[k][|m[k]| - 1]} == multiset(Flatten(m))
    ensures |Flatten(DropLast(m, k))| == |Flatten(m)| - 1
  {
    DropLastWellFormed(m, k);
    DropLastContents(m, k);
    assert |multiset(Flatten(DropLast(m, k)))| + 1 == |multiset(Flatten(m))|;
  }

  /** Removing the oldest request of partition k removes exactly that request. */
  lemma DropFirstProps(m: Packages, k: int)
    requires WellFormed(m) && k in m
    ensures WellFormed(DropFirst(m, k))
    ensures DropFirst(m, k).Keys <= m.Keys
    ensures multiset(Flatten(DropFirst(m, k))) + multiset{m[k][0]} == multiset(Flatten(m))
    ensures |Flatten(DropFirst(m, k))| == |Flatten(m)| - 1
  {
    DropFirstWellFormed(m, k);
    DropFirstContents(m, k);
    assert |multiset(Flatten(DropFirst(m, k)))| + 1 == |multiset(Flatten(m))|;
  }

  // ---------------------------------------------------------------------------
  // The invariant

  /** What every buffer operation keeps: well-formed partitions, currentSize
      counting the pending requests, a size that never passes a non-negative
      capacity, and a cache that is null or the key of a stored partition. */
  ghost predicate ValidState(s: BufferState) {
    && WellFormed(s.packages)
    && s.size == |Flatten(s.packages)|
    && (s.size == 0 || s.size <= s.capacity)
    && (s.cache.Some? ==> s.cache.value in s.packages)
  }

  lemma EmptyValid(capacity: int)
    ensures ValidState(Empty(capacity)) && Contents(Empty(capacity)) == multiset{}
  {
  }

  /** A buffer with pending requests has a non-empty partition. */
  lemma SizedHasPartition(s: BufferState)
    requires ValidState(s) && s.size > 0
    ensures Lowest(s.packages).Some?
  {
    assert s.packages != map[];
    var k := SomeKey(s.packages);
  }

  // ---------------------------------------------------------------------------
  // addRequest

  /** addRequest. Below capacity the request is appended. When full, the newest
      request of the lowest-priority non-empty partition of a source numbered above
      the newcomer's is evicted and handed back, the partition is dropped (and the
      cache recomputed) when that empties it, and the newcomer is appended. When no
      such partition exists the newcomer itself is handed back. */
  ghost function Add(s: BufferState, r: Request): Step {
    if s.size < s.capacity then
      Step(BufferState(s.capacity, s.size + 1, s.cache, Appended(s.packages, r)), None)
    else
      match Victim(s.packages, r.generatorNumber)
      case None => Step(s, Some(r))
      case Some(k) =>
        var q := s.packages[k];
        var emptied := q[..|q| - 1] == [];
        var shrunk := DropLast(s.packages, k);
        var cache := if emptied then Lowest(shrunk) else s.cache;
        Step(BufferState(s.capacity, s.size, cache, Appended(shrunk, r)), Some(q[|q| - 1]))
  }

  /** addRequest keeps the invariant and loses nothing: the pending requests
      afterwards plus the one handed back are the pending requests before plus the
      newcomer. The size grows exactly when nothing is handed back. */
  lemma AddConserves(s: BufferState, r: Request)
    requires ValidState(s)
    ensures ValidState(Add(s, r).state)
    ensures Contents(Add(s, r).state) + AsMultiset(Add(s, r).request) == Contents(s) + multiset{r}
    ensures Add(s, r).state.size == s.size + (if Add(s, r).request.None? then 1 else 0)
    ensures Add(s, r).state.capacity == s.capacity
    ensures Add(s, r).state.packages.Keys <= s.packages.Keys + {r.generatorNumber}
  {
    var g := r.generatorNumber;
    var st := Add(s, r);
    if s.size < s.capacity {
      AppendedProps(s.packages, r);
    } else if Victim(s.packages, g).Some? {
      var k := Victim(s.packages, g).value;
      var q := s.packages[k];
      var shrunk := DropLast(s.packages, k);
      DropLastProps(s.packages, k);
      AppendedProps(shrunk, r);
      assert st.request == Some(q[|q| - 1]);
      assert st.state.packages == Appended(shrunk, r);
      assert st.state.cache.Some? ==> st.state.cache.value in shrunk;
    }
  }

  /** Below capacity: the newcomer joins the tail of its own partition, nothing is
      handed back, and no other partition and not the cache changes. */
  lemma AddWithRoom(s: BufferState, r: Request)
    requires s.size < s.capacity
    ensures Add(s, r).request == None
    ensures Add(s, r).state.size == s.size + 1
    ensures Part(Add(s, r).state.packages, r.generatorNumber) == Part(s.packages, r.generatorNumber) + [r]
    ensures forall k | k != r.generatorNumber :: Part(Add(s, r).state.packages, k) == Part(s.packages, k)
    ensures Add(s, r).state.cache == s.cache
  {
  }

  /** Full, and k the greatest source number above the newcomer's with pending
      requests: the newest request of k is evicted and handed back, the newcomer
      joins its own partition, the size stays, every other partition is untouched,
      and the cache is recomputed exactly when k's partition empties. */
  lemma AddEvicts(s: BufferState, r: Request, k: int)
    requires ValidState(s)
    requires s.size >= s.capacity
    requires k in s.packages && k > r.generatorNumber
    requires forall j | j in s.packages :: j <= k
    ensures Add(s, r).request == Some(s.packages[k][|s.packages[k]| - 1])
    ensures Part(Add(s, r).state.packages, k) == s.packages[k][..|s.packages[k]| - 1]
    ensures Part(Add(s, r).state.packages, r.generatorNumber) == Part(s.packages, r.generatorNumber) + [r]
    ensures forall j | j != k && j != r.generatorNumber :: Part(Add(s, r).state.packages, j) == Part(s.packages, j)
    ensures Add(s, r).state.size == s.size
    ensures |s.packages[k]| == 1 ==> Add(s, r).state.cache == Lowest(s.packages - {k})
    ensures |s.packages[k]| > 1 ==> Add(s, r).state.cache == s.cache
  {
    assert Victim(s.packages, r.generatorNumber) == Some(k);
    DropLastProps(s.packages, k);
    assert |s.packages[k]| == 1 ==> DropLast(s.packages, k) == s.packages - {k};
  }

  /** Full, with no partition of a source numbered above the newcomer's: the
      newcomer is handed back and the buffer does not change. */
  lemma AddRejects(s: BufferState, r: Request)
    requires ValidState(s)
    requires s.size >= s.capacity
    requires forall k | k in s.packages :: k <= r.generatorNumber
    ensures Add(s, r) == Step(s, Some(r))
  {
  }

  /** Partitions of sources numbered at or below the newcomer's never lose a request:
      eviction only ever reaches strictly lower priorities. */
  lemma AddSparesHigherPriorities(s: BufferState, r: Request, k: int)
    requires ValidState(s)
    requires k <= r.generatorNumber
    ensures Part(s.packages, k) <= Part(Add(s, r).state.packages, k)
  {
    var m := s.packages;
    if s.size >= s.capacity && Victim(m, r.generatorNumber).Some? {
      DropLastProps(m, Victim(m, r.generatorNumber).value);
    }
  }

  /** A handed-back request is the newcomer or comes from a lower-priority source. */
  lemma AddDeclinedSource(s: BufferState, r: Request)
    requires ValidState(s)
    ensures Add(s, r).request.Some? ==>
              Add(s, r).request.value == r ||
              (Add(s, r).request.value.generatorNumber in s.packages &&
               Add(s, r).request.value.generatorNumber > r.generatorNumber)
  {
    var g := r.generatorNumber;
    if s.size >= s.capacity && Victim(s.packages, g).Some? {
      var k := Victim(s.packages, g).value;
      assert s.packages[k][|s.packages[k]| - 1].generatorNumber == k;
    }
  }

  // ---------------------------------------------------------------------------
  // getNextRequest

  /** getNextRequest. Nothing happens on an empty buffer. Otherwise a null cache is
      recomputed first; the oldest request of the cached partition is removed and
      returned, and the partition is dropped, with the cache recomputed, when that
      empties it. */
  ghost function Take(s: BufferState): Step
    requires ValidState(s)
  {
    if s.size == 0 then Step(s, None)
    else
      SizedHasPartition(s);
      var c := if s.cache.Some? then s.cache.value else Lowest(s.packages).value;
      var q := s.packages[c];
      var emptied := q[1..] == [];
      var m := DropFirst(s.packages, c);
      Step(BufferState(s.capacity, s.size - 1, if emptied then Lowest(m) else Some(c), m), Some(q[0]))
  }

  /** getNextRequest keeps the invariant; it returns null, changing nothing, exactly
      when the buffer is empty, and otherwise removes one pending request and
      returns it. */
  lemma TakeConserves(s: BufferState)
    requires ValidState(s)
    ensures ValidState(Take(s).state)
    ensures Take(s).request.None? <==> s.size == 0
    ensures Take(s).request.None? ==> Take(s).state == s
    ensures Take(s).request.Some? ==>
              Contents(Take(s).state) + multiset{Take(s).request.value} == Contents(s) &&
              Take(s).state.size == s.size - 1
    ensures Take(s).state.capacity == s.capacity
    ensures Take(s).state.packages.Keys <= s.packages.Keys
  {
    if s.size > 0 {
      SizedHasPartition(s);
      var c := if s.cache.Some? then s.cache.value else Lowest(s.packages).value;
      DropFirstProps(s.packages, c);
    }
  }

  /** The partition getNextRequest serves is the cached one when the cache is set,
      even if a partition of a higher-priority source has filled since; only a null
      cache is recomputed to the lowest non-empty key. */
  lemma TakeServesCachedPartition(s: BufferState)
    requires ValidState(s) && s.size > 0
    ensures s.cache.Some? ==> Take(s).request == Some(s.packages[s.cache.value][0])
    ensures s.cache.None? ==>
              Lowest(s.packages).Some? &&
              Take(s).request == Some(s.packages[Lowest(s.packages).value][0])
  {
    SizedHasPartition(s);
  }

  /** A cache that is null or names the lowest non-empty partition. */
  ghost predicate FreshCache(s: BufferState) {
    s.cache.None? || s.cache == Lowest(s.packages)
  }

  lemma LowestIsMinKey(m: Packages)
    requires m != map[] && WellFormed(m)
    ensures Lowest(m) == Some(MinKey(m.Keys))
  {
  }

  /** With a fresh cache, getNextRequest serves the oldest request of the
      highest-priority non-empty partition, which is the first request in
      priority order, and leaves the cache fresh. */
  lemma TakeFresh(s: BufferState)
    requires ValidState(s) && FreshCache(s) && s.size > 0
    ensures Take(s).request.Some?
    ensures Flatten(s.packages) == [Take(s).request.value] + Flatten(Take(s).state.packages)
    ensures FreshCache(Take(s).state)
  {
    SizedHasPartition(s);
    var m := s.packages;
    LowestIsMinKey(m);
    var c := MinKey(m.Keys);
    FlattenFirst(m);
    if m[c][1..] != [] {
      FlattenRest(m, c);
    }
  }

  /** Priority order starts with the whole partition of the least source number. */
  lemma FlattenFirst(m: Packages)
    requires m != map[] && WellFormed(m)
    ensures Flatten(m) == m[MinKey(m.Keys)] + Flatten(m - {MinKey(m.Keys)})
    ensures m[MinKey(m.Keys)] == [m[MinKey(m.Keys)][0]] + m[MinKey(m.Keys)][1..]
  {
  }

  /** Shortening the first partition in priority order keeps it first. */
  lemma FlattenRest(m: Packages, c: int)
    requires WellFormed(m) && c in m && c == MinKey(m.Keys) && m[c][1..] != []
    ensures Lowest(m[c := m[c][1..]]) == Some(c)
    ensures Flatten(m[c := m[c][1..]]) == m[c][1..] + Flatten(m - {c})
  {
    var m' := m[c := m[c][1..]];
    assert m'.Keys == m.Keys;
    LowestIsMinKey(m');
    assert m' - {c} == m - {c};
  }

  // ---------------------------------------------------------------------------
  // Round trip: a run of admissions into an empty buffer, then as many takes

  /** The requests of rs from source g, in their order in rs. */
  function Filter(rs: seq<Request>, g: int): (f: seq<Request>)
    ensures |f| <= |rs|
  {
    if rs == [] then []
    else Filter(rs[..|rs| - 1], g) + (if rs[|rs| - 1].generatorNumber == g then [rs[|rs| - 1]] else [])
  }

  ghost predicate SortedBySource(rs: seq<Request>) {
    forall i, j | 0 <= i < j < |rs| :: rs[i].generatorNumber <= rs[j].generatorNumber
  }

  /** addRequest applied to each request of rs in turn. */
  ghost function AddAll(s: BufferState, rs: seq<Request>): BufferState {
    if rs == [] then s else Add(AddAll(s, rs[..|rs| - 1]), rs[|rs| - 1]).state
  }

  function AsSeq(r: Option<Request>): seq<Request> {
    if r.Some? then [r.value] else []
  }

  /** The requests returned by n successive getNextRequest calls. */
  ghost function Drain(s: BufferState, n: nat): seq<Request>
    requires ValidState(s)
    decreases n
  {
    if n == 0 then []
    else
      TakeConserves(s);
      var st := Take(s);
      AsSeq(st.request) + Drain(st.state, n - 1)
  }

  /** One admission below capacity keeps the invariant and a null cache, and adds
      the newcomer to the contents. */
  lemma AddBelowCapacity(s: BufferState, r: Request)
    requires ValidState(s) && s.size < s.capacity && s.cache == None
    ensures ValidState(Add(s, r).state)
    ensures Add(s, r).state.cache == None
    ensures Add(s, r).state.capacity == s.capacity
    ensures Add(s, r).state.size == s.size + 1
    ensures Contents(Add(s, r).state) == Contents(s) + multiset{r}
  {
    AppendedProps(s.packages, r);
  }

  lemma {:induction false} AddAllWithRoom(capacity: int, rs: seq<Request>)
    requires |rs| <= capacity
    ensures ValidState(AddAll(Empty(capacity), rs))
    ensures AddAll(Empty(capacity), rs).cache == None
    ensures AddAll(Empty(capacity), rs).capacity == capacity
    ensures AddAll(Empty(capacity), rs).size == |rs|
    ensures Contents(AddAll(Empty(capacity), rs)) == multiset(rs)
  {
    if rs == [] {
      EmptyValid(capacity);
    } else {
      var init := rs[..|rs| - 1];
      var r := rs[|rs| - 1];
      AddAllWithRoom(capacity, init);
      AddBelowCapacity(AddAll(Empty(capacity), init), r);
      LastSplit(rs);
    }
  }

  lemma LastSplit(rs: seq<Request>)
    requires rs != []
    ensures multiset(rs) == multiset(rs[..|rs| - 1]) + multiset{rs[|rs| - 1]}
  {
    assert rs == rs[..|rs| - 1] + [rs[|rs| - 1]];
  }

  /** Below capacity, each source's partition holds that source's admissions in order. */
  lemma {:induction false} AddAllPartitions(capacity: int, rs: seq<Request>, g: int)
    requires |rs| <= capacity
    ensures Part(AddAll(Empty(capacity), rs).packages, g) == Filter(rs, g)
  {
    if rs != [] {
      var init := rs[..|rs| - 1];
      var r := rs[|rs| - 1];
      AddAllPartitions(capacity, init, g);
      AddAllWithRoom(capacity, init);
      var s := AddAll(Empty(capacity), init);
      assert AddAll(Empty(capacity), rs) == Add(s, r).state;
      assert s.size < s.capacity;
      assert Add(s, r).state.packages == Appended(s.packages, r);
    }
  }

  lemma {:induction false} DrainFresh(s: BufferState)
    requires ValidState(s) && FreshCache(s)
    ensures Drain(s, s.size) == Flatten(s.packages)
    decreases s.size
  {
    if s.size > 0 {
      TakeConserves(s);
      TakeFresh(s);
      DrainFresh(Take(s).state);
      DrainStep(s, s.size);
    }
  }

  /** The first of n takes followed by the remaining n - 1. */
  lemma DrainStep(s: BufferState, n: nat)
    requires ValidState(s) && n > 0
    ensures ValidState(Take(s).state)
    ensures Drain(s, n) == AsSeq(Take(s).request) + Drain(Take(s).state, n - 1)
  {
    TakeConserves(s);
  }

  lemma {:induction false} FilterConcat(a: seq<Request>, b: seq<Request>, g: int)
    ensures Filter(a + b, g) == Filter(a, g) + Filter(b, g)
  {
    if b != [] {
      var b' := b[..|b| - 1];
      FilterConcat(a, b', g);
      assert (a + b)[..|a + b| - 1] == a + b';
      assert (a + b)[|a + b| - 1] == b[|b| - 1];
    } else {
      assert a + b == a;
    }
  }

  lemma {:induction false} FilterOneSource(q: seq<Request>, k: int, g: int)
    requires forall i | 0 <= i < |q| :: q[i].generatorNumber == k
    ensures Filter(q, g) == if g == k then q else []
  {
    if q != [] {
      FilterOneSource(q[..|q| - 1], k, g);
    }
  }

  /** Every request in priority order belongs to a stored source. */
  lemma {:induction false} FlattenSources(m: Packages)
    requires WellFormed(m)
    ensures forall x | x in Flatten(m) :: x.generatorNumber in m
    decreases m.Keys
  {
    if m != map[] {
      var k := MinKey(m.Keys);
      FlattenSources(m - {k});
      assert Flatten(m) == m[k] + Flatten(m - {k});
    }
  }

  /** In priority order, the requests of each source keep their partition's order. */
  lemma {:induction false} FlattenFilter(m: Packages)
    requires WellFormed(m)
    ensures forall g :: Filter(Flatten(m), g) == Part(m, g)
    decreases m.Keys
  {
    if m != map[] {
      var k := MinKey(m.Keys);
      FlattenFilter(m - {k});
      assert Flatten(m) == m[k] + Flatten(m - {k});
      forall g ensures Filter(Flatten(m), g) == Part(m, g) {
        FilterConcat(m[k], Flatten(m - {k}), g);
        FilterOneSource(m[k], k, g);
      }
    }
  }

  /** In priority order, sources come in ascending number. */
  lemma {:induction false} FlattenSorted(m: Packages)
    requires WellFormed(m)
    ensures SortedBySource(Flatten(m))
    decreases m.Keys
  {
    if m != map[] {
      var k := MinKey(m.Keys);
      FlattenSorted(m - {k});
      FlattenSources(m - {k});
      var a: seq<Request> := m[k];
      var b: seq<Request> := Flatten(m - {k});
      assert Flatten(m) == a + b;
      forall i, j | 0 <= i < j < |a + b|
        ensures (a + b)[i].generatorNumber <= (a + b)[j].generatorNumber
      {
        if j >= |a| {
          assert (a + b)[j] == b[j - |a|];
          if i < |a| {
            assert b[j - |a|] in b;
          } else {
            assert (a + b)[i] == b[i - |a|];
          }
        }
      }
    }
  }

  /** Admissions into an empty buffer that never reach capacity, followed by as
      many takes, return exactly the admitted requests, sorted by source number and,
      within one source, in order of arrival. */
  lemma RoundTrip(capacity: int, rs: seq<Request>)
    requires |rs| <= capacity
    ensures ValidState(AddAll(Empty(capacity), rs))
    ensures multiset(Drain(AddAll(Empty(capacity), rs), |rs|)) == multiset(rs)
    ensures SortedBySource(Drain(AddAll(Empty(capacity), rs), |rs|))
    ensures forall g :: Filter(Drain(AddAll(Empty(capacity), rs), |rs|), g) == Filter(rs, g)
  {
    AddAllWithRoom(capacity, rs);
    var s := AddAll(Empty(capacity), rs);
    forall g ensures Part(s.packages, g) == Filter(rs, g) {
      AddAllPartitions(capacity, rs, g);
    }
    DrainFresh(s);
    FlattenFilter(s.packages);
    FlattenSorted(s.packages);
  }

  // ---------------------------------------------------------------------------
  // Two concrete runs

  /** Capacity one, holding a request of source 1: an arrival from source 0 evicts
      it and takes its place. */
  lemma EvictionScenario(a: Request, b: Request)
    requires a.generatorNumber == 1 && b.generatorNumber == 0
    ensures Add(Add(Empty(1), a).state, b).request == Some(a)
    ensures Add(Add(Empty(1), a).state, b).state.packages == map[0 := [b]]
  {
    var s1 := Add(Empty(1), a).state;
    assert s1 == BufferState(1, 1, None, map[1 := [a]]);
    assert Victim(s1.packages, 0) == Some(1);
    assert s1.packages[1][..0] == [];
    assert DropLast(s1.packages, 1) == map[];
    var none: Packages := map[];
    assert Part(none, 0) + [b] == [b];
    assert Appended(none, b) == map[0 := [b]];
    assert Add(s1, b) == Step(BufferState(1, 1, Lowest(map[]), map[0 := [b]]), Some(a));
  }

  lemma TwoAdmissions(a: Request, b: Request)
    requires a.generatorNumber == 1 && b.generatorNumber == 1
    ensures AddAll(Empty(3), [a, b]) == BufferState(3, 2, None, map[1 := [a, b]])
  {
    assert [a, b][..1] == [a];
    assert [a][..0] == [];
    assert AddAll(Empty(3), []) == Empty(3);
    assert AddAll(Empty(3), [a]) == Add(Empty(3), a).state;
    var none: Packages := map[];
    assert Part(none, 1) + [a] == [a];
    assert AddAll(Empty(3), [a]) == BufferState(3, 1, None, map[1 := [a]]);
    assert [a] + [b] == [a, b];
  }

  lemma TakeFromOnePartition(a: Request, b: Request)
    requires ValidState(BufferState(3, 2, None, map[1 := [a, b]]))
    ensures Take(BufferState(3, 2, None, map[1 := [a, b]])) == Step(BufferState(3, 1, Some(1), map[1 := [b]]), Some(a))
  {
    assert [a, b][1..] == [b];
    assert Lowest(map[1 := [a, b]]) == Some(1);
  }

  lemma AdmitHigherPriority(b: Request, c: Request)
    requires c.generatorNumber == 0
    ensures Add(BufferState(3, 1, Some(1), map[1 := [b]]), c) ==
            Step(BufferState(3, 2, Some(1), map[1 := [b], 0 := [c]]), None)
  {
    var m: Packages := map[1 := [b]];
    assert Part(m, 0) + [c] == [c];
  }

  lemma TakeStaleCache(b: Request, c: Request)
    requires ValidState(BufferState(3, 2, Some(1), map[1 := [b], 0 := [c]]))
    ensures Take(BufferState(3, 2, Some(1), map[1 := [b], 0 := [c]])) ==
            Step(BufferState(3, 1, Some(0), map[0 := [c]]), Some(b))
  {
    var m: Packages := map[1 := [b], 0 := [c]];
    assert [b][1..] == [];
    assert m - {1} == map[0 := [c]];
    assert Lowest(map[0 := [c]]) == Some(0);
  }

  /** The cache is not refreshed by admissions: after a take leaves the cached
      partition of source 1 non-empty, a request of source 0 admitted later is
      served only after that partition drains. */
  lemma StaleCacheScenario(a: Request, b: Request, c: Request)
    requires a.generatorNumber == 1 && b.generatorNumber == 1 && c.generatorNumber == 0
    ensures var s2 := AddAll(Empty(3), [a, b]);
            ValidState(s2) &&
            Take(s2).request == Some(a) &&
            var s3 := Add(Take(s2).state, c).state;
            ValidState(s3) &&
            Take(s3).request == Some(b) &&
            ValidState(Take(s3).state) &&
            Take(Take(s3).state).request == Some(c)
  {
    var s2 := AddAll(Empty(3), [a, b]);
    AddAllWithRoom(3, [a, b]);
    TwoAdmissions(a, b);
    TakeFromOnePartition(a, b);
    TakeConserves(s2);
    var t2 := Take(s2).state;
    AdmitHigherPriority(b, c);
    AddConserves(t2, c);
    var s3 := Add(t2, c).state;
    TakeStaleCache(b, c);
    TakeConserves(s3);
    var t3 := Take(s3).state;
    assert Take(t3).request == Some(c);
  }
}
