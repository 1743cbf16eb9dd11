/** Events of the simulation calendar and the order the scheduler keeps them in. */
module Events {

  /** The three kinds of event the simulator schedules. */
  datatype EventType = Generation | Completion | End

  /** An immutable calendar entry: what happens, when, and to which source
      (Generation) or server (Completion); End carries object number -1. */
  datatype Event = Event(kind: EventType, time: real, objectNumber: int)

  /** The comparator the priority queue is built on: by time alone,
      with Double.compare's results -1, 0 and 1. */
  function CompareTo(a: Event, b: Event): (r: int)
    ensures r == -1 || r == 0 || r == 1
    ensures r < 0 <==> a.time < b.time
    ensures r > 0 <==> a.time > b.time
  {
    if a.time < b.time then -1 else if a.time > b.time then 1 else 0
  }

  /** The kind and object number never influence the order. */
  lemma CompareIgnoresKindAndObject(a: Event, b: Event, a': Event, b': Event)
    requires a.time == a'.time && b.time == b'.time
    ensures CompareTo(a, b) == CompareTo(a', b')
  {
  }

  /** Events at the same time are tied, whatever they are: the queue's tie order is unspecified. */
  lemma CompareTiesAtEqualTime(a: Event, b: Event)
    requires a.time == b.time
    ensures CompareTo(a, b) == 0 && CompareTo(b, a) == 0
  {
  }

  lemma CompareAntisymmetric(a: Event, b: Event)
    ensures CompareTo(a, b) == -CompareTo(b, a)
  {
  }

  lemma CompareTransitive(a: Event, b: Event, c: Event)
    requires CompareTo(a, b) <= 0 && CompareTo(b, c) <= 0
    ensures CompareTo(a, c) <= 0
  {
  }

  /** Every non-empty calendar has an earliest event. */
  lemma {:induction false} EarliestExists(q: multiset<Event>)
    requires q != multiset{}
    ensures exists e :: e in q && forall x | x in q :: e.time <= x.time
    decreases |q|
  {
    var y :| y in q;
    var rest := q - multiset{y};
    if rest == multiset{} {
      OnlyEvent(q, y);
    } else {
      EarliestExists(rest);
      var m :| m in rest && forall x | x in rest :: m.time <= x.time;
      EarlierOfTwo(q, y, m);
    }
  }

  lemma OnlyEvent(q: multiset<Event>, y: Event)
    requires y in q && q - multiset{y} == multiset{}
    ensures forall x | x in q :: y.time <= x.time
  {
    forall x | x in q
      ensures y.time <= x.time
    {
      assert (q - multiset{y})[x] == 0;
    }
  }

  lemma EarlierOfTwo(q: multiset<Event>, y: Event, m: Event)
    requires y in q && m in q - multiset{y}
    requires forall x | x in q - multiset{y} :: m.time <= x.time
    ensures var e := if y.time <= m.time then y else m;
      e in q && forall x | x in q :: e.time <= x.time
  {
    var e := if y.time <= m.time then y else m;
    forall x | x in q
      ensures e.time <= x.time
    {
      if x != y {
        assert x in q - multiset{y};
      }
    }
  }

  /** PriorityQueue.poll: removes one event that no other pending event precedes.
      Among events with equal times any one may come out. */
  method PollEarliest(q: multiset<Event>) returns (e: Event, rest: multiset<Event>)
    requires q != multiset{}
    ensures e in q && rest == q - multiset{e}
    ensures forall x | x in q :: CompareTo(e, x) <= 0 && e.time <= x.time
  {
    EarliestExists(q);
    e :| e in q && forall x | x in q :: e.time <= x.time;
    rest := q - multiset{e};
  }
}
