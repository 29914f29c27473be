/** Relative timestamps, the sorted queue of pending timer updates and the
    scheduler that serves it. */
module Scheduler {
  import opened Wrappers

  datatype Unit = Seconds | Minutes | Hours | Days | Months | Years

  datatype RelativeTime = RelativeTime(isFuture: bool, duration: nat, unit: Unit)

  datatype Tick = Tick(id: nat, val: nat, pendingOn: nat, diff: RelativeTime)

  const U32 := 0x1_0000_0000

  const UNITS := [(Seconds, 60), (Minutes, 60), (Hours, 24), (Days, 30), (Months, 12)]

  /** Length of a unit in seconds. */
  function Length(u: Unit): (n: nat)
    ensures n > 0
  {
    match u
    case Seconds => 1
    case Minutes => 60
    case Hours => 3600
    case Days => 86400
    case Months => 2592000
    case Years => 31104000
  }

  /** The largest unit a distance in time fills. */
  function UnitOf(t: nat): Unit {
    if t < 60 then Seconds
    else if t < 3600 then Minutes
    else if t < 86400 then Hours
    else if t < 2592000 then Days
    else if t < 31104000 then Months
    else Years
  }

  /** The relative timestamp of `val` seen at `now`: whole units, the last one
      cut to a byte. */
  function Relative(now: nat, val: nat): RelativeTime {
    var t := if now >= val then now - val else val - now;
    RelativeTime(now < val, t / Length(UnitOf(t)) % 256, UnitOf(t))
  }

  /** The distance in time of two timestamps. */
  function Distance(now: nat, val: nat): nat {
    if now >= val then now - val else val - now
  }

  /** A relative timestamp tells the past from the future and names the largest
      unit that fits into the distance, seconds if none does; rounding the distance
      down to whole units gives its duration if and only if they are less than 256,
      as between any two times of the 32-bit clock. */
  lemma RelativeExact(now: nat, val: nat)
    ensures var d, r := Distance(now, val), Relative(now, val);
            && (r.isFuture <==> val > now)
            && (Length(r.unit) <= d || r.unit == Seconds)
            && (forall u :: Length(u) <= d ==> Length(u) <= Length(r.unit))
            && (r.duration * Length(r.unit) <= d < (r.duration + 1) * Length(r.unit) <==> d / Length(r.unit) < 256)
            && (now < U32 && val < U32 ==> d / Length(r.unit) < 256)
  {
    var d, r := Distance(now, val), Relative(now, val);
    var n := Length(r.unit);
    DivisionForm(d, n);
    NoMoreUnits(n, r.duration + 1, d / n);
    NoMoreUnits(n, 256, d / n);
  }

  lemma NoMoreUnits(n: nat, a: nat, b: nat)
    ensures a <= b ==> n * a <= n * b
  {
  }

  lemma NestedDivision(t: nat, a: nat, b: nat)
    requires a > 0 && b > 0
    ensures a * b > 0 && t / a / b == t / (a * b)
  {
    var q := t / a;
    var r := t % a;
    var p := q / b;
    var s := q % b;
    assert t == a * q + r && q == b * p + s;
    assert t == a * (b * p + s) + r;
    assert a * (b * p + s) == a * b * p + a * s by { Distribute(a, b * p, s); assert a * (b * p) == a * b * p; }
    assert 0 <= a * s + r < a * b by { Bound(a, b, s, r); }
    DivisionIs(t, a * b, p, a * s + r);
  }

  lemma Distribute(a: int, x: int, y: int)
    ensures a * (x + y) == a * x + a * y
  {
  }

  lemma Bound(a: nat, b: nat, s: nat, r: nat)
    requires 0 < a && s < b && r < a
    ensures 0 <= a * s + r < a * b
  {
    assert a * s + a == a * (s + 1);
    assert a * (s + 1) <= a * b;
  }

  lemma DivisionIs(t: nat, d: nat, q: nat, r: nat)
    requires d > 0 && t == d * q + r && r < d
    ensures t / d == q
  {
    var q' := t / d;
    assert t == d * q' + t % d;
    assert q' < q ==> d * (q' + 1) <= d * q;
    assert q < q' ==> d * (q + 1) <= d * q';
  }

  /** The source's loop of divisions computes the relative timestamp. */
  method NewRelativeTime(now: nat, val: nat) returns (r: RelativeTime)
    ensures r == Relative(now, val)
    ensures r.isFuture <==> val > now
    ensures Length(r.unit) <= Distance(now, val) || r.unit == Seconds
    ensures forall u :: Length(u) <= Distance(now, val) ==> Length(u) <= Length(r.unit)
    ensures r.duration * Length(r.unit) <= Distance(now, val) < (r.duration + 1) * Length(r.unit) <==>
            Distance(now, val) / Length(r.unit) < 256
  {
    var distance: int := now - val;
    var isFuture := false;
    if distance < 0 {
      distance := -distance;
      isFuture := true;
    }
    r := PackUnits(isFuture, distance);
    RelativeExact(now, val);
  }

  /** Divides a distance in time down to the largest unit it fills. */
  method PackUnits(isFuture: bool, distance: nat) returns (r: RelativeTime)
    ensures r == RelativeTime(isFuture, distance / Length(UnitOf(distance)) % 256, UnitOf(distance))
  {
    var time: nat := distance;
    var i := 0;
    while i < |UNITS|
      invariant 0 <= i <= |UNITS|
      invariant time == distance / Length(UnitAt(i))
      invariant i > 0 ==> distance >= Length(UnitAt(i))
    {
      if time < UNITS[i].1 {
        assert distance < Length(UnitAt(i)) * UNITS[i].1;
        return RelativeTime(isFuture, time % 256, UNITS[i].0);
      }
      NestedDivision(distance, Length(UnitAt(i)), UNITS[i].1);
      time := time / UNITS[i].1;
      i := i + 1;
    }
    return RelativeTime(isFuture, time % 256, Years);
  }

  function UnitAt(i: nat): Unit
    requires i <= |UNITS|
  {
    if i < |UNITS| then UNITS[i].0 else Years
  }

  /** The divisor accumulated up to a unit is the unit's length. */
  method Divisor(u: Unit) returns (d: nat)
    ensures d == Length(u)
  {
    d := 1;
    var i := 0;
    while i < |UNITS|
      invariant 0 <= i <= |UNITS|
      invariant d == Length(UnitAt(i))
      invariant forall j :: 0 <= j < i ==> UNITS[j].0 != u
    {
      if u == UNITS[i].0 {
        break;
      }
      d := d * UNITS[i].1;
      i := i + 1;
    }
    assert forall j :: 0 <= j < |UNITS| ==> UNITS[j].0 == UnitAt(j);
    assert UNITS[0].0 == Seconds && UNITS[1].0 == Minutes && UNITS[2].0 == Hours && UNITS[3].0 == Days &&
      UNITS[4].0 == Months;
  }

  /** The start of the next unit after `now`, in 32 bits. */
  function NextStart(now: nat, u: Unit): nat {
    (now - now % Length(u) + Length(u)) % U32
  }

  predicate NoOverflow(now: nat, u: Unit) {
    now / Length(u) < (U32 - 1) / Length(u)
  }

  /** The next update lies strictly in the future exactly when the unit `now` is
      in is not the last whole one of the 32-bit clock. */
  lemma NextStartExact(now: nat, u: Unit)
    requires now < U32
    ensures NextStart(now, u) > now <==> NoOverflow(now, u)
    ensures NoOverflow(now, u) ==> NextStart(now, u) % Length(u) == 0 && NextStart(now, u) <= now + Length(u)
  {
    var d := Length(u);
    var q, r, m := now / d, now % d, (U32 - 1) / d;
    DivisionForm(now, d);
    DivisionForm(U32 - 1, d);
    NextMultiple(now, d, q, r, m, (U32 - 1) % d);
    var x := d * q + d;
    assert now - r + d == x;
    if q < m {
      SmallModulo(x);
      MultipleOf(d, q + 1);
      assert x == d * (q + 1);
    } else {
      LargeModulo(x);
    }
  }

  lemma SmallModulo(x: nat)
    requires x < U32
    ensures x % U32 == x
  {
  }

  lemma LargeModulo(x: nat)
    requires U32 <= x < 2 * U32
    ensures x % U32 == x - U32
  {
  }

  lemma DivisionForm(t: nat, d: nat)
    requires d > 0
    ensures t == d * (t / d) + t % d && t % d < d
  {
  }

  lemma NextMultiple(now: nat, d: nat, q: nat, r: nat, m: nat, r': nat)
    requires now == d * q + r && r < d && U32 - 1 == d * m + r' && r' < d
    ensures var x := d * q + d;
            && now < x <= now + d
            && (q < m ==> x < U32)
            && (q >= m ==> x >= U32)
  {
  }

  lemma MultipleOf(d: nat, a: nat)
    requires d > 0
    ensures d * a % d == 0
  {
    DivisionIs(d * a, d, a, 0);
  }

  function NextTick(t: Tick, now: nat): Tick {
    var n := NextStart(now, t.diff.unit);
    t.(pendingOn := n, diff := Relative(n, t.val))
  }

  // ------------------------------------------------------------------- queue

  /** The linked nodes of the queue; each owns the next. */
  datatype List = Nil | Node(val: Tick, next: List)

  /** The ticks in a queue. */
  function Bag(l: List): multiset<Tick> {
    match l
    case Nil => multiset{}
    case Node(v, n) => multiset{v} + Bag(n)
  }

  predicate Sorted(l: List) {
    l.Node? ==> (l.next.Node? ==> l.val.pendingOn <= l.next.val.pendingOn) && Sorted(l.next)
  }

  /** Insertion before the first node that is due later. */
  function InsertBefore(l: List, v: Tick): List {
    match l
    case Nil => Node(v, Nil)
    case Node(x, n) => if v.pendingOn < x.pendingOn then Node(v, l) else Node(x, InsertBefore(n, v))
  }

  function RemoveNode(l: List, id: nat): List {
    match l
    case Nil => Nil
    case Node(x, n) => if x.id == id then n else Node(x, RemoveNode(n, id))
  }

  /** The ticks due at a time: the leading ones that come no later. */
  function Due(l: List, time: nat): seq<Tick> {
    if l.Nil? || l.val.pendingOn > time then [] else [l.val] + Due(l.next, time)
  }

  /** Insertion keeps the queue sorted and adds the value only. */
  lemma {:induction false} InsertIsExact(l: List, v: Tick)
    ensures Sorted(l) ==> Sorted(InsertBefore(l, v))
    ensures Bag(InsertBefore(l, v)) == Bag(l) + multiset{v}
  {
    if l.Node? && v.pendingOn >= l.val.pendingOn {
      InsertIsExact(l.next, v);
    }
  }

  /** A value goes behind the leading ticks that are due no later, so behind those
      due at the same time that came before it. */
  lemma {:induction false} InsertPlace(l: List, v: Tick)
    ensures var before := Due(l, v.pendingOn);
            |before| <= |Ticks(l)| && Ticks(InsertBefore(l, v)) == before + [v] + Ticks(l)[|before|..]
  {
    match l
    case Nil =>
    case Node(x, next) =>
      if v.pendingOn < x.pendingOn {
        assert Ticks(l)[0..] == Ticks(l);
      } else {
        InsertPlace(next, v);
      }
  }

  /** On a sorted queue the leading ticks due are all those due. */
  lemma {:induction false} DueIsExact(l: List, time: nat)
    requires Sorted(l)
    ensures forall t :: t in Due(l, time) <==> t in Bag(l) && t.pendingOn <= time
    ensures forall t :: t in Bag(l) ==> l.val.pendingOn <= t.pendingOn
  {
    if l.Node? {
      DueIsExact(l.next, time);
    }
  }

  /** A tick in the future is inserted behind those that are due. */
  lemma {:induction false} InsertKeepsDue(l: List, v: Tick, time: nat)
    requires v.pendingOn > time
    ensures Due(InsertBefore(l, v), time) == Due(l, time)
  {
    if l.Node? && v.pendingOn >= l.val.pendingOn {
      InsertKeepsDue(l.next, v, time);
    }
  }

  predicate HasId(l: List, id: nat) {
    l.Node? && (l.val.id == id || HasId(l.next, id))
  }

  /** No subscriber has two ticks in the queue. */
  predicate OneEach(l: List) {
    l.Node? ==> !HasId(l.next, l.val.id) && OneEach(l.next)
  }

  /** Removal takes out one tick of the subscriber, the only one it has, and
      leaves the rest in order. */
  lemma {:induction false} RemoveIsExact(l: List, id: nat)
    ensures Sorted(l) ==> Sorted(RemoveNode(l, id))
    ensures !HasId(l, id) ==> RemoveNode(l, id) == l
    ensures HasId(l, id) ==> Bag(l) == Bag(RemoveNode(l, id)) + multiset{FirstOf(l, id)} && FirstOf(l, id).id == id
    ensures OneEach(l) ==> !HasId(RemoveNode(l, id), id) && OneEach(RemoveNode(l, id))
  {
    RemovalKeepsOrder(l, id);
    RemovalTakesFirst(l, id);
    RemovalKeepsOthers(l, id);
  }

  lemma {:induction false} RemovalKeepsOrder(l: List, id: nat)
    ensures Sorted(l) ==> Sorted(RemoveNode(l, id))
  {
    match l
    case Nil =>
    case Node(_, next) => RemovalKeepsOrder(next, id);
  }

  /** The subscriber's first tick in the queue. */
  function FirstOf(l: List, id: nat): Tick
    requires HasId(l, id)
  {
    if l.val.id == id then l.val else FirstOf(l.next, id)
  }

  lemma {:induction false} RemovalTakesFirst(l: List, id: nat)
    ensures !HasId(l, id) ==> RemoveNode(l, id) == l
    ensures HasId(l, id) ==> Bag(l) == Bag(RemoveNode(l, id)) + multiset{FirstOf(l, id)} && FirstOf(l, id).id == id
  {
    match l
    case Nil =>
    case Node(t, next) =>
      RemovalTakesFirst(next, id);
      if HasId(next, id) {
        Shuffle(multiset{t}, Bag(RemoveNode(next, id)), multiset{FirstOf(next, id)});
      }
  }

  lemma {:induction false} RemovalKeepsOthers(l: List, id: nat)
    ensures OneEach(l) ==> !HasId(RemoveNode(l, id), id) && OneEach(RemoveNode(l, id))
    ensures forall other :: other != id ==> (HasId(RemoveNode(l, id), other) <==> HasId(l, other))
  {
    match l
    case Nil =>
    case Node(_, next) => RemovalKeepsOthers(next, id);
  }

  lemma {:induction false} InsertKeepsOneEach(l: List, v: Tick)
    ensures OneEach(l) && !HasId(l, v.id) ==> OneEach(InsertBefore(l, v))
    ensures forall id :: HasId(InsertBefore(l, v), id) <==> id == v.id || HasId(l, id)
  {
    match l
    case Nil =>
    case Node(_, next) => InsertKeepsOneEach(next, v);
  }

  /** The queue's iterator. */
  class QueueIterator {
    var current: List

    constructor (l: List)
      ensures current == l
    {
      current := l;
    }

    method Next() returns (item: Option<Tick>)
      modifies this
      ensures (current, item) == NextAsWritten(old(current))
    {
      match current {
        case Node(val, next) =>
          current := Node(val, next);
          item := Some(val);
        case Nil => item := None;
      }
    }
  }

  /** A call of the iterator: where it points then, and what it yields. As written
      it goes on to the node it is at; it should go on to the next one. */
  function NextAsWritten(current: List): (List, Option<Tick>) {
    match current
    case Nil => (Nil, None)
    case Node(val, next) => (Node(val, next), Some(val))
  }

  function NextNode(current: List): (List, Option<Tick>) {
    match current
    case Nil => (Nil, None)
    case Node(val, next) => (next, Some(val))
  }

  /** What the `k`-th call yields after `k` earlier ones. */
  function Item(call: List -> (List, Option<Tick>), l: List, k: nat): Option<Tick>
    decreases k
  {
    if k == 0 then call(l).1 else Item(call, call(l).0, k - 1)
  }

  function Ticks(l: List): seq<Tick> {
    match l
    case Nil => []
    case Node(val, next) => [val] + Ticks(next)
  }

  lemma {:induction false} ItemAsWritten(l: List, k: nat)
    ensures Item(NextAsWritten, l, k) == if l.Nil? then None else Some(l.val)
    decreases k
  {
    if k == 0 {
    } else {
      ItemAsWritten(NextAsWritten(l).0, k - 1);
    }
  }

  /** Going on from node to node yields the queue's ticks in order, then ends. */
  lemma {:induction false} ItemOfNodes(l: List, k: nat)
    ensures Item(NextNode, l, k) == if k < |Ticks(l)| then Some(Ticks(l)[k]) else None
    decreases k
  {
    if k == 0 {
    } else {
      ItemOfNodes(NextNode(l).0, k - 1);
    }
  }

  /** A loop over the iterator ends, and likewise yields what going from node to
      node does, if and only if the queue is empty; otherwise it yields the first
      tick for ever. */
  lemma IterationExact(l: List)
    ensures (exists k :: Item(NextAsWritten, l, k).None?) <==> l.Nil?
    ensures (forall k :: Item(NextAsWritten, l, k) == Item(NextNode, l, k)) <==> l.Nil?
    ensures l.Node? ==> forall k :: Item(NextAsWritten, l, k) == Some(l.val)
  {
    forall k: nat
      ensures Item(NextAsWritten, l, k) == if l.Nil? then None else Some(l.val)
      ensures Item(NextNode, l, k) == if k < |Ticks(l)| then Some(Ticks(l)[k]) else None
    {
      ItemAsWritten(l, k);
      ItemOfNodes(l, k);
    }
    assert Item(NextAsWritten, l, 0) == if l.Nil? then None else Some(l.val);
    assert Item(NextNode, l, |Ticks(l)|).None?;
  }

  // --------------------------------------------------------------- scheduler

  datatype Response = Response(id: nat, diff: RelativeTime, useRelative: bool)

  function Responses(ts: seq<Tick>, useRelative: bool): seq<Response> {
    if ts == [] then [] else [Response(ts[0].id, ts[0].diff, useRelative)] + Responses(ts[1..], useRelative)
  }

  function NextTicks(ts: seq<Tick>, now: nat): seq<Tick> {
    if ts == [] then [] else [NextTick(ts[0], now)] + NextTicks(ts[1..], now)
  }

  lemma {:induction false} ServedOneMore(ts: seq<Tick>, t: Tick, now: nat, useRelative: bool)
    ensures Responses(ts + [t], useRelative) == Responses(ts, useRelative) + [Response(t.id, t.diff, useRelative)]
    ensures NextTicks(ts + [t], now) == NextTicks(ts, now) + [NextTick(t, now)]
    decreases |ts|
  {
    if ts == [] {
      assert ts + [t] == [t] && [t][1..] == [];
    } else {
      ServedOneMore(ts[1..], t, now, useRelative);
      assert (ts + [t])[1..] == ts[1..] + [t];
    }
  }

  /** The ticks in the queue and those served make up the ticks at the start and
      the next ticks of those served. */
  ghost predicate Balanced(all: multiset<Tick>, served: seq<Tick>, l: List, now: nat) {
    Bag(l) + multiset(served) == all + multiset(NextTicks(served, now))
  }

  lemma ServeOne(all: multiset<Tick>, served: seq<Tick>, l: List, now: nat)
    requires now < U32 && l.Node? && NoOverflow(now, l.val.diff.unit)
    requires Balanced(all, served, l, now)
    ensures var l' := InsertBefore(l.next, NextTick(l.val, now));
            && Due(l', now) == Due(l.next, now)
            && Balanced(all, served + [l.val], l', now)
  {
    var v := NextTick(l.val, now);
    NextStartExact(now, l.val.diff.unit);
    InsertKeepsDue(l.next, v, now);
    InsertIsExact(l.next, v);
    ServedOneMore(served, l.val, now, true);
    var l' := InsertBefore(l.next, v);
    Exchange(Bag(l.next), Bag(l'), multiset(served), all, multiset(NextTicks(served, now)), l.val, v);
  }

  lemma Exchange(rest: multiset<Tick>, bag: multiset<Tick>, served: multiset<Tick>, all: multiset<Tick>,
                 next: multiset<Tick>, x: Tick, v: Tick)
    requires multiset{x} + rest + served == all + next && bag == rest + multiset{v}
    ensures bag + (served + multiset{x}) == all + (next + multiset{v})
  {
    assert bag + (served + multiset{x}) == multiset{x} + rest + served + multiset{v};
    assert all + next + multiset{v} == all + (next + multiset{v});
  }

  /** After `i` of the ticks due were served; `sent` are the responses to them. */
  ghost predicate Serving(all: multiset<Tick>, due: seq<Tick>, i: nat, l: List, now: nat, useRelative: bool,
                          sent: seq<Response>)
  {
    && i <= |due|
    && Due(l, now) == due[i..]
    && Balanced(all, due[..i], l, now)
    && sent == Responses(due[..i], useRelative)
  }

  lemma ServeNext(all: multiset<Tick>, due: seq<Tick>, i: nat, l: List, now: nat, useRelative: bool,
                  sent: seq<Response>)
    requires now < U32 && Serving(all, due, i, l, now, useRelative, sent) && l.Node? && l.val.pendingOn <= now
    requires forall t :: t in due ==> NoOverflow(now, t.diff.unit)
    ensures i < |due|
    ensures Serving(all, due, i + 1, InsertBefore(l.next, NextTick(l.val, now)), now, useRelative,
                    sent + [Response(l.val.id, l.val.diff, useRelative)])
  {
    assert Due(l, now) == [l.val] + Due(l.next, now);
    assert due[i..][0] == l.val && due[i..][1..] == due[i + 1..];
    assert due[i] in due;
    assert due[..i + 1] == due[..i] + [l.val];
    ServeOne(all, due[..i], l, now);
    ServedOneMore(due[..i], l.val, now, useRelative);
  }

  lemma ServingStarts(l: List, now: nat, useRelative: bool)
    ensures Serving(Bag(l), Due(l, now), 0, l, now, useRelative, [])
  {
  }

  lemma ServingEnds(all: multiset<Tick>, due: seq<Tick>, i: nat, l: List, now: nat, useRelative: bool,
                    sent: seq<Response>)
    requires Serving(all, due, i, l, now, useRelative, sent) && Sorted(l) && (l.Node? ==> l.val.pendingOn > now)
    ensures sent == Responses(due, useRelative) && Balanced(all, due, l, now)
    ensures forall t :: t in Bag(l) ==> t.pendingOn > now
  {
    assert due[i..] == [];
    assert i == |due|;
    assert due[..i] == due;
    DueIsExact(l, now);
  }

  // -------------------------------------------------- when a timer tick ends

  /** One turn of a timer tick's loop on a queue whose first tick is due. */
  function Turn(l: List, now: nat): List
    requires l.Node?
  {
    InsertBefore(l.next, NextTick(l.val, now))
  }

  predicate HeadDue(l: List, now: nat) {
    l.Node? && l.val.pendingOn <= now
  }

  /** The loop ends after `k` turns. */
  predicate EndsIn(l: List, now: nat, k: nat)
    decreases k
  {
    if !HeadDue(l, now) then k == 0 else k > 0 && EndsIn(Turn(l, now), now, k - 1)
  }

  ghost predicate Ends(l: List, now: nat) {
    exists k: nat :: EndsIn(l, now, k)
  }

  /** The tick after being refreshed `k` times at the same time. */
  function Refreshed(t: Tick, now: nat, k: nat): Tick
    decreases k
  {
    if k == 0 then t else Refreshed(NextTick(t, now), now, k - 1)
  }

  /** Refreshing the tick brings it into the future at last. */
  ghost predicate Leaves(t: Tick, now: nat) {
    exists k: nat :: Refreshed(t, now, k).pendingOn > now
  }

  /** How often the tick is refreshed until then, if `bound` times suffice. */
  function Rank(t: Tick, now: nat, bound: nat): nat
    decreases bound
  {
    if t.pendingOn > now || bound == 0 then 0 else 1 + Rank(NextTick(t, now), now, bound - 1)
  }

  predicate LeavesIn(t: Tick, now: nat, bound: nat)
    decreases bound
  {
    t.pendingOn > now || (bound > 0 && LeavesIn(NextTick(t, now), now, bound - 1))
  }

  lemma {:induction false} LeavesLater(t: Tick, now: nat, bound: nat, more: nat)
    requires LeavesIn(t, now, bound) && bound <= more
    ensures LeavesIn(t, now, more) && Rank(t, now, more) == Rank(t, now, bound)
    decreases bound
  {
    if t.pendingOn > now {
    } else {
      LeavesLater(NextTick(t, now), now, bound - 1, more - 1);
    }
  }

  lemma {:induction false} LeavesBound(t: Tick, now: nat, k: nat)
    requires Refreshed(t, now, k).pendingOn > now
    ensures LeavesIn(t, now, k)
    decreases k
  {
    if k == 0 {
    } else {
      LeavesBound(NextTick(t, now), now, k - 1);
    }
  }

  predicate AllLeaveIn(l: List, now: nat, bound: nat) {
    l.Node? ==> LeavesIn(l.val, now, bound) && AllLeaveIn(l.next, now, bound)
  }

  function Turns(l: List, now: nat, bound: nat): nat {
    match l
    case Nil => 0
    case Node(t, next) => Rank(t, now, bound) + Turns(next, now, bound)
  }

  lemma {:induction false} InsertTurns(l: List, v: Tick, now: nat, bound: nat)
    requires AllLeaveIn(l, now, bound) && LeavesIn(v, now, bound)
    ensures AllLeaveIn(InsertBefore(l, v), now, bound)
    ensures Turns(InsertBefore(l, v), now, bound) == Turns(l, now, bound) + Rank(v, now, bound)
  {
    match l
    case Nil =>
    case Node(_, next) => InsertTurns(next, v, now, bound);
  }

  lemma {:induction false} NoneDue(l: List, now: nat, bound: nat)
    requires Sorted(l) && !HeadDue(l, now)
    ensures Turns(l, now, bound) == 0
  {
    match l
    case Nil =>
    case Node(_, next) => NoneDue(next, now, bound);
  }

  lemma TurnShrinks(l: List, now: nat, bound: nat)
    requires Sorted(l) && AllLeaveIn(l, now, bound) && HeadDue(l, now)
    ensures Sorted(Turn(l, now)) && AllLeaveIn(Turn(l, now), now, bound)
    ensures Turns(l, now, bound) == 1 + Turns(Turn(l, now), now, bound)
  {
    var next := NextTick(l.val, now);
    LeavesLater(next, now, bound - 1, bound);
    InsertTurns(l.next, next, now, bound);
    InsertIsExact(l.next, next);
  }

  /** If all ticks leave, the loop makes exactly as many turns as they need. */
  lemma {:induction false} LoopTurns(l: List, now: nat, bound: nat)
    requires Sorted(l) && AllLeaveIn(l, now, bound)
    ensures EndsIn(l, now, Turns(l, now, bound))
    decreases Turns(l, now, bound)
  {
    if HeadDue(l, now) {
      TurnShrinks(l, now, bound);
      LoopTurns(Turn(l, now), now, bound);
    } else {
      NoneDue(l, now, bound);
    }
  }

  lemma LeavesBefore(t: Tick, now: nat)
    ensures Leaves(NextTick(t, now), now) ==> Leaves(t, now)
  {
    forall k: nat | Refreshed(NextTick(t, now), now, k).pendingOn > now
      ensures Refreshed(t, now, k + 1).pendingOn > now
    {
    }
  }

  /** With a tick that never leaves the loop never ends. */
  lemma {:induction false} LoopStays(l: List, t: Tick, now: nat, k: nat)
    requires Sorted(l) && t in Bag(l) && !Leaves(t, now)
    ensures !EndsIn(l, now, k)
    decreases k
  {
    assert Refreshed(t, now, 0) == t;
    assert t.pendingOn <= now;
    DueIsExact(l, now);
    if k == 0 {
    } else {
      var next := NextTick(l.val, now);
      InsertIsExact(l.next, next);
      LeavesBefore(t, now);
      LoopStays(Turn(l, now), if t in Bag(l.next) then t else next, now, k - 1);
    }
  }

  // ------------------------------------------------- how many refreshes to try

  /** As many as there are units of time. */
  const REFRESHES := 6

  const ALL_UNITS := {Seconds, Minutes, Hours, Days, Months, Years}

  lemma {:induction false} LastRefresh(t: Tick, now: nat, k: nat)
    ensures Refreshed(t, now, k + 1) == NextTick(Refreshed(t, now, k), now)
    decreases k
  {
    if k == 0 {
      assert Refreshed(t, now, 1) == Refreshed(NextTick(t, now), now, 0);
    } else {
      LastRefresh(NextTick(t, now), now, k - 1);
    }
  }

  lemma {:induction false} RefreshedSplit(t: Tick, now: nat, i: nat, j: nat)
    ensures Refreshed(t, now, i + j) == Refreshed(Refreshed(t, now, i), now, j)
    decreases i
  {
    if i == 0 {
    } else {
      RefreshedSplit(NextTick(t, now), now, i - 1, j);
    }
  }

  /** What refreshing does depends on the subscriber's time and the unit alone. */
  lemma SameUnitSameFuture(a: Tick, b: Tick, now: nat, k: nat)
    requires a.val == b.val && k > 0
    ensures a.diff.unit == b.diff.unit ==> Refreshed(a, now, k).pendingOn == Refreshed(b, now, k).pendingOn
  {
    if a.diff.unit == b.diff.unit {
      assert NextTick(a, now).(id := 0) == NextTick(b, now).(id := 0);
      IdsDoNotMatter(NextTick(a, now), NextTick(b, now), now, k - 1);
    }
  }

  lemma {:induction false} IdsDoNotMatter(a: Tick, b: Tick, now: nat, k: nat)
    requires a.(id := 0) == b.(id := 0)
    ensures Refreshed(a, now, k).(id := 0) == Refreshed(b, now, k).(id := 0)
    decreases k
  {
    if k == 0 {
    } else {
      IdsDoNotMatter(NextTick(a, now), NextTick(b, now), now, k - 1);
    }
  }

  lemma {:induction false} SameSubscriber(t: Tick, now: nat, k: nat)
    ensures Refreshed(t, now, k).val == t.val && Refreshed(t, now, k).id == t.id
    decreases k
  {
    if k == 0 {
    } else {
      SameSubscriber(NextTick(t, now), now, k - 1);
    }
  }

  lemma {:induction false} RankIsLeast(t: Tick, now: nat, bound: nat)
    requires LeavesIn(t, now, bound)
    ensures Refreshed(t, now, Rank(t, now, bound)).pendingOn > now
    ensures forall i: nat :: i < Rank(t, now, bound) ==> Refreshed(t, now, i).pendingOn <= now
    decreases bound
  {
    if t.pendingOn > now {
    } else {
      RankIsLeast(NextTick(t, now), now, bound - 1);
      forall i: nat | i < Rank(t, now, bound)
        ensures Refreshed(t, now, i).pendingOn <= now
      {
        assert i > 0 ==> Refreshed(t, now, i) == Refreshed(NextTick(t, now), now, i - 1);
      }
    }
  }

  function UnitAfter(t: Tick, now: nat, k: nat): Unit {
    Refreshed(t, now, k).diff.unit
  }

  /** A tick that takes `r` refreshes to leave meets no unit twice on the way. */
  lemma NoUnitTwice(t: Tick, now: nat, r: nat, i: nat, j: nat)
    requires i < j < r && Refreshed(t, now, r).pendingOn > now
    requires forall k: nat :: k < r ==> Refreshed(t, now, k).pendingOn <= now
    ensures UnitAfter(t, now, i) != UnitAfter(t, now, j)
  {
    RefreshedSplit(t, now, i, r - j);
    RefreshedSplit(t, now, j, r - j);
    SameSubscriber(t, now, i);
    SameSubscriber(t, now, j);
    assert Refreshed(t, now, i + (r - j)).pendingOn <= now;
    SameUnitSameFuture(Refreshed(t, now, i), Refreshed(t, now, j), now, r - j);
  }

  function UnitsMet(t: Tick, now: nat, k: nat): set<Unit> {
    if k == 0 then {} else UnitsMet(t, now, k - 1) + {UnitAfter(t, now, k - 1)}
  }

  lemma {:induction false} NotMetAgain(t: Tick, now: nat, r: nat, k: nat, j: nat)
    requires k <= j < r && Refreshed(t, now, r).pendingOn > now
    requires forall i: nat :: i < r ==> Refreshed(t, now, i).pendingOn <= now
    ensures UnitAfter(t, now, j) !in UnitsMet(t, now, k)
    decreases k
  {
    if k == 0 {
    } else {
      NotMetAgain(t, now, r, k - 1, j);
      NoUnitTwice(t, now, r, k - 1, j);
    }
  }

  lemma {:induction false} UnitsMetSize(t: Tick, now: nat, r: nat, k: nat)
    requires k <= r && Refreshed(t, now, r).pendingOn > now
    requires forall i: nat :: i < r ==> Refreshed(t, now, i).pendingOn <= now
    ensures |UnitsMet(t, now, k)| == k
    decreases k
  {
    if k == 0 {
    } else {
      UnitsMetSize(t, now, r, k - 1);
      NotMetAgain(t, now, r, k - 1, k - 1);
    }
  }

  lemma AtMostSix(us: set<Unit>)
    ensures |us| <= REFRESHES
  {
    forall u | u in us
      ensures u in ALL_UNITS
    {
      assert u.Seconds? || u.Minutes? || u.Hours? || u.Days? || u.Months? || u.Years?;
    }
    SubsetSize(us, ALL_UNITS);
  }

  /** A tick leaves if and only if it does within six refreshes; a due one, if and
      only if one of these finds a unit of time that ends before the clock wraps
      around. */
  lemma LeavesExact(t: Tick, now: nat)
    requires now < U32
    ensures Leaves(t, now) <==> LeavesIn(t, now, REFRESHES)
    ensures t.pendingOn <= now ==>
              (Leaves(t, now) <==> exists k: nat :: k < REFRESHES && NoOverflow(now, UnitAfter(t, now, k)))
  {
    if Leaves(t, now) {
      var k: nat :| Refreshed(t, now, k).pendingOn > now;
      LeavesBound(t, now, k);
      LeavesSoon(t, now, k);
    }
    if LeavesIn(t, now, REFRESHES) {
      RankIsLeast(t, now, REFRESHES);
      LeavesSoon(t, now, REFRESHES);
      if t.pendingOn <= now {
        LeavesByUnit(t, now, Rank(t, now, REFRESHES));
      }
    }
    if k: nat :| k < REFRESHES && NoOverflow(now, UnitAfter(t, now, k)) {
      LastRefresh(t, now, k);
      NextStartExact(now, UnitAfter(t, now, k));
      assert Refreshed(t, now, k + 1).pendingOn > now;
    }
  }

  lemma LeavesSoon(t: Tick, now: nat, k: nat)
    requires LeavesIn(t, now, k)
    ensures LeavesIn(t, now, REFRESHES) && Rank(t, now, k) <= REFRESHES
  {
    var r := Rank(t, now, k);
    RankIsLeast(t, now, k);
    UnitsMetSize(t, now, r, r);
    AtMostSix(UnitsMet(t, now, r));
    LeavesBound(t, now, r);
    LeavesLater(t, now, r, REFRESHES);
  }

  lemma LeavesByUnit(t: Tick, now: nat, r: nat)
    requires now < U32 && t.pendingOn <= now && r <= REFRESHES && Refreshed(t, now, r).pendingOn > now
    ensures exists k: nat :: k < REFRESHES && NoOverflow(now, UnitAfter(t, now, k))
  {
    LastRefresh(t, now, r - 1);
    NextStartExact(now, UnitAfter(t, now, r - 1));
  }

  /** The loop of a timer tick ends if and only if every tick in the queue leaves
      within six refreshes. */
  lemma TickEndsExact(l: List, now: nat)
    requires Sorted(l) && now < U32
    ensures Ends(l, now) <==> forall t :: t in Bag(l) ==> LeavesIn(t, now, REFRESHES)
  {
    if forall t :: t in Bag(l) ==> LeavesIn(t, now, REFRESHES) {
      AllLeave(l, now, REFRESHES);
      LoopTurns(l, now, REFRESHES);
    } else {
      var t :| t in Bag(l) && !LeavesIn(t, now, REFRESHES);
      LeavesExact(t, now);
      forall k: nat
        ensures !EndsIn(l, now, k)
      {
        LoopStays(l, t, now, k);
      }
    }
  }

  lemma {:induction false} AllLeave(l: List, now: nat, bound: nat)
    ensures AllLeaveIn(l, now, bound) <==> forall t :: t in Bag(l) ==> LeavesIn(t, now, bound)
  {
    match l
    case Nil =>
    case Node(t, next) =>
      AllLeave(next, now, bound);
      assert forall u :: u in Bag(l) <==> u == t || u in Bag(next);
  }

  /** A tick in the last unit of the clock that is still as many units away after
      the wrap-around never leaves. */
  lemma {:induction false} StuckTick(t: Tick, now: nat, k: nat)
    requires now < U32 && t.pendingOn <= now && !NoOverflow(now, t.diff.unit)
    requires Relative(NextStart(now, t.diff.unit), t.val).unit == t.diff.unit
    ensures Refreshed(t, now, k).pendingOn <= now
    decreases k
  {
    if k == 0 {
    } else {
      NextStartExact(now, t.diff.unit);
      StuckTick(NextTick(t, now), now, k - 1);
    }
  }

  /** A post of September 2020, seen in January 2106: the timer tick never ends. */
  lemma TickNeverEnds(id: nat)
    ensures !Ends(Node(Tick(id, 1600000000, 4292352000, Relative(4292352000, 1600000000)), Nil), 4292352000)
  {
    var now := 4292352000;
    var t := Tick(id, 1600000000, now, Relative(now, 1600000000));
    assert t.diff.unit == Years && NextStart(now, Years) == 28488704;
    forall k: nat
      ensures Refreshed(t, now, k).pendingOn <= now
    {
      StuckTick(t, now, k);
    }
    TickEndsExact(Node(t, Nil), now);
    LeavesExact(t, now);
    assert t in Bag(Node(t, Nil));
  }

  // ----------------------------------------------- what a timer tick leaves

  /** The queue after at most `k` turns, and the responses sent on the way. */
  function Turned(l: List, now: nat, k: nat): List
    decreases k
  {
    if k == 0 || !HeadDue(l, now) then l else Turned(Turn(l, now), now, k - 1)
  }

  function Answers(l: List, now: nat, useRelative: bool, k: nat): seq<Response>
    decreases k
  {
    if k == 0 || !HeadDue(l, now) then []
    else [Response(l.val.id, l.val.diff, useRelative)] + Answers(Turn(l, now), now, useRelative, k - 1)
  }

  /** The responses to one tick until it leaves. */
  function Chain(t: Tick, now: nat, useRelative: bool, bound: nat): seq<Response>
    decreases bound
  {
    if t.pendingOn > now || bound == 0 then []
    else [Response(t.id, t.diff, useRelative)] + Chain(NextTick(t, now), now, useRelative, bound - 1)
  }

  function Left(t: Tick, now: nat, bound: nat): Tick {
    Refreshed(t, now, Rank(t, now, bound))
  }

  function AllChains(l: List, now: nat, useRelative: bool, bound: nat): multiset<Response> {
    match l
    case Nil => multiset{}
    case Node(t, next) => multiset(Chain(t, now, useRelative, bound)) + AllChains(next, now, useRelative, bound)
  }

  function AllLeft(l: List, now: nat, bound: nat): multiset<Tick> {
    match l
    case Nil => multiset{}
    case Node(t, next) => multiset{Left(t, now, bound)} + AllLeft(next, now, bound)
  }

  lemma {:induction false} ChainLater(t: Tick, now: nat, useRelative: bool, bound: nat, more: nat)
    requires LeavesIn(t, now, bound) && bound <= more
    ensures Chain(t, now, useRelative, more) == Chain(t, now, useRelative, bound)
    decreases bound
  {
    if t.pendingOn > now {
    } else {
      ChainLater(NextTick(t, now), now, useRelative, bound - 1, more - 1);
    }
  }

  /** What one refresh of a due tick leaves to do. */
  lemma RefreshOnce(t: Tick, now: nat, useRelative: bool, bound: nat)
    requires t.pendingOn <= now && LeavesIn(t, now, bound)
    ensures var next := NextTick(t, now);
            && LeavesIn(next, now, bound)
            && Rank(t, now, bound) == 1 + Rank(next, now, bound)
            && Left(t, now, bound) == Left(next, now, bound)
            && Chain(t, now, useRelative, bound) ==
               [Response(t.id, t.diff, useRelative)] + Chain(next, now, useRelative, bound)
  {
    LeavesLater(NextTick(t, now), now, bound - 1, bound);
    ChainLater(NextTick(t, now), now, useRelative, bound - 1, bound);
  }

  lemma {:induction false} InsertLeft(l: List, v: Tick, now: nat, bound: nat)
    ensures AllLeft(InsertBefore(l, v), now, bound) == AllLeft(l, now, bound) + multiset{Left(v, now, bound)}
  {
    match l
    case Nil =>
    case Node(t, next) =>
      InsertLeft(next, v, now, bound);
      Shuffle(multiset{Left(t, now, bound)}, AllLeft(next, now, bound), multiset{Left(v, now, bound)});
  }

  lemma {:induction false} InsertChains(l: List, v: Tick, now: nat, useRelative: bool, bound: nat)
    ensures AllChains(InsertBefore(l, v), now, useRelative, bound) ==
            AllChains(l, now, useRelative, bound) + multiset(Chain(v, now, useRelative, bound))
  {
    match l
    case Nil =>
    case Node(t, next) =>
      InsertChains(next, v, now, useRelative, bound);
      Shuffle(multiset(Chain(t, now, useRelative, bound)), AllChains(next, now, useRelative, bound),
        multiset(Chain(v, now, useRelative, bound)));
  }

  lemma Shuffle<T>(a: multiset<T>, b: multiset<T>, c: multiset<T>)
    ensures a + (b + c) == a + b + c == c + (a + b)
  {
  }

  lemma {:induction false} NothingLeft(l: List, now: nat, useRelative: bool, bound: nat)
    requires Sorted(l) && !HeadDue(l, now)
    ensures AllLeft(l, now, bound) == Bag(l) && AllChains(l, now, useRelative, bound) == multiset{}
    ensures forall t :: t in Bag(l) ==> t.pendingOn > now
  {
    match l
    case Nil =>
    case Node(_, next) => NothingLeft(next, now, useRelative, bound);
  }

  lemma Answered(r: Response, rest: seq<Response>)
    ensures multiset([r] + rest) == multiset{r} + multiset(rest)
  {
  }

  /** One turn keeps what will be left, and sends one of the responses due. */
  lemma TurnConserves(l: List, now: nat, useRelative: bool, bound: nat)
    requires HeadDue(l, now) && LeavesIn(l.val, now, bound)
    ensures AllLeft(Turn(l, now), now, bound) == AllLeft(l, now, bound)
    ensures AllChains(l, now, useRelative, bound) ==
            multiset{Response(l.val.id, l.val.diff, useRelative)} + AllChains(Turn(l, now), now, useRelative, bound)
  {
    var next := NextTick(l.val, now);
    RefreshOnce(l.val, now, useRelative, bound);
    InsertLeft(l.next, next, now, bound);
    InsertChains(l.next, next, now, useRelative, bound);
    var r, chain := Response(l.val.id, l.val.diff, useRelative), Chain(next, now, useRelative, bound);
    Answered(r, chain);
    Shuffled(multiset{r}, multiset(chain), AllChains(l.next, now, useRelative, bound));
  }

  lemma Shuffled<T>(a: multiset<T>, b: multiset<T>, c: multiset<T>)
    ensures a + b + c == a + (c + b)
  {
  }

  /** After `n` turns every tick is answered each time it was due until it left,
      and put back as it left. */
  ghost predicate Conserved(l: List, now: nat, useRelative: bool, bound: nat, n: nat) {
    && Bag(Turned(l, now, n)) == AllLeft(l, now, bound)
    && multiset(Answers(l, now, useRelative, n)) == AllChains(l, now, useRelative, bound)
    && forall t :: t in Bag(Turned(l, now, n)) ==> t.pendingOn > now
  }

  lemma ConservedTurn(l: List, now: nat, useRelative: bool, bound: nat, n: nat)
    requires HeadDue(l, now) && LeavesIn(l.val, now, bound) && n > 0
    requires Conserved(Turn(l, now), now, useRelative, bound, n - 1)
    ensures Conserved(l, now, useRelative, bound, n)
  {
    TurnConserves(l, now, useRelative, bound);
    Answered(Response(l.val.id, l.val.diff, useRelative), Answers(Turn(l, now), now, useRelative, n - 1));
  }

  /** A timer tick, with or without wrap-around: every tick is answered each time
      it is due until it leaves and put back as it left; no other is touched. */
  lemma TickConserves(l: List, now: nat, useRelative: bool, bound: nat)
    requires Sorted(l) && AllLeaveIn(l, now, bound)
    ensures Conserved(l, now, useRelative, bound, Turns(l, now, bound))
  {
    LoopTurns(l, now, bound);
    LoopConserves(l, now, useRelative, bound, Turns(l, now, bound));
  }

  lemma {:induction false} LoopConserves(l: List, now: nat, useRelative: bool, bound: nat, n: nat)
    requires Sorted(l) && AllLeaveIn(l, now, bound) && EndsIn(l, now, n)
    ensures Conserved(l, now, useRelative, bound, n)
    decreases n
  {
    if n == 0 {
      NothingLeft(l, now, useRelative, bound);
    } else {
      TurnShrinks(l, now, bound);
      LoopConserves(Turn(l, now), now, useRelative, bound, n - 1);
      ConservedTurn(l, now, useRelative, bound, n);
    }
  }

  /** Without wrap-around every due tick is answered once, in order. */
  lemma {:induction false} ServesAll(all: multiset<Tick>, due: seq<Tick>, i: nat, l: List, now: nat, useRelative: bool,
                                     sent: seq<Response>, k: nat)
    requires now < U32 && Sorted(l) && Serving(all, due, i, l, now, useRelative, sent)
    requires (forall t :: t in due ==> NoOverflow(now, t.diff.unit)) && EndsIn(l, now, k)
    ensures sent + Answers(l, now, useRelative, k) == Responses(due, useRelative)
    ensures Balanced(all, due, Turned(l, now, k), now)
    decreases k
  {
    if HeadDue(l, now) {
      ServeNext(all, due, i, l, now, useRelative, sent);
      InsertIsExact(l.next, NextTick(l.val, now));
      var answer := [Response(l.val.id, l.val.diff, useRelative)];
      ServesAll(all, due, i + 1, Turn(l, now), now, useRelative, sent + answer, k - 1);
      Assoc(sent, answer, Answers(Turn(l, now), now, useRelative, k - 1));
    } else {
      ServingEnds(all, due, i, l, now, useRelative, sent);
      assert sent + [] == sent;
    }
  }

  /** The two accounts of a timer tick agree on ticks that do not wrap around. */
  lemma NoWrapExact(l: List, now: nat, useRelative: bool, k: nat)
    requires now < U32 && Sorted(l) && EndsIn(l, now, k)
    requires forall t :: t in Due(l, now) ==> NoOverflow(now, t.diff.unit)
    ensures Answers(l, now, useRelative, k) == Responses(Due(l, now), useRelative)
    ensures Balanced(Bag(l), Due(l, now), Turned(l, now, k), now)
  {
    ServingStarts(l, now, useRelative);
    ServesAll(Bag(l), Due(l, now), 0, l, now, useRelative, [], k);
    assert [] + Answers(l, now, useRelative, k) == Answers(l, now, useRelative, k);
  }

  lemma {:induction false} BagIds(l: List)
    ensures forall t :: t in Bag(l) ==> HasId(l, t.id)
  {
    match l
    case Nil =>
    case Node(_, next) => BagIds(next);
  }

  // ------------------------------------------------------ what a response says

  /** A tick shows its subscriber's time as it is seen when the tick is due. */
  predicate Accurate(t: Tick) {
    t.diff == Relative(t.pendingOn, t.val)
  }

  ghost predicate AllAccurate(l: List) {
    forall t :: t in Bag(l) ==> Accurate(t)
  }

  /** The response shows the time of one of the subscriber's ticks in the queue, as
      it was seen at some time the tick was due. */
  ghost predicate Shown(r: Response, l: List, now: nat) {
    exists t: Tick, due: nat ::
      t in Bag(l) && t.id == r.id && due <= now && r.diff == Relative(due, t.val)
  }

  lemma TurnIsAccurate(l: List, now: nat)
    requires l.Node? && AllAccurate(l)
    ensures AllAccurate(Turn(l, now))
  {
    var next := NextTick(l.val, now);
    InsertIsExact(l.next, next);
    forall t | t in Bag(Turn(l, now))
      ensures Accurate(t)
    {
      if t != next {
        assert t in Bag(l);
      }
    }
  }

  /** The tick that a tick of the next turn comes from. */
  lemma TurnedFrom(l: List, now: nat, t: Tick) returns (u: Tick)
    requires l.Node? && t in Bag(Turn(l, now))
    ensures u in Bag(l) && u.id == t.id && u.val == t.val
  {
    InsertIsExact(l.next, NextTick(l.val, now));
    u := if t == NextTick(l.val, now) then l.val else t;
  }

  ghost predicate AllShown(rs: seq<Response>, l: List, now: nat, useRelative: bool) {
    forall r :: r in rs ==> Shown(r, l, now) && r.useRelative == useRelative
  }

  /** Every response of a timer tick shows its subscriber's own time, as of when
      the update was due. */
  lemma {:induction false} AnswersAreAccurate(l: List, now: nat, useRelative: bool, k: nat)
    requires AllAccurate(l)
    ensures AllShown(Answers(l, now, useRelative, k), l, now, useRelative)
    decreases k
  {
    if k == 0 || !HeadDue(l, now) {
    } else {
      TurnIsAccurate(l, now);
      AnswersAreAccurate(Turn(l, now), now, useRelative, k - 1);
      AnswersShown(l, now, useRelative, Answers(Turn(l, now), now, useRelative, k - 1));
    }
  }

  lemma AnswersShown(l: List, now: nat, useRelative: bool, rest: seq<Response>)
    requires HeadDue(l, now) && AllAccurate(l) && AllShown(rest, Turn(l, now), now, useRelative)
    ensures AllShown([Response(l.val.id, l.val.diff, useRelative)] + rest, l, now, useRelative)
  {
    assert l.val in Bag(l) && Accurate(l.val);
    forall r | r in rest
      ensures Shown(r, l, now)
    {
      ShownBefore(r, l, now);
    }
  }

  lemma ShownBefore(r: Response, l: List, now: nat)
    requires l.Node? && Shown(r, Turn(l, now), now)
    ensures Shown(r, l, now)
  {
    var t: Tick, due: nat :| t in Bag(Turn(l, now)) && t.id == r.id && due <= now && r.diff == Relative(due, t.val);
    var _ := TurnedFrom(l, now, t);
  }

  class TimerScheduler {
    var now: nat
    var useRelative: bool
    var head: List
    var sent: seq<Response>

    ghost predicate Valid()
      reads this
    {
      Sorted(head) && AllAccurate(head) && now < U32
    }

    constructor (now: nat, useRelative: bool)
      requires now < U32
      ensures Valid() && head == Nil && sent == []
    {
      this.now, this.useRelative, head, sent := now, useRelative, Nil, [];
    }

    method Insert(t: Tick)
      requires Valid() && Accurate(t)
      modifies this`head
      ensures Valid() && head == InsertBefore(old(head), t)
    {
      InsertIsExact(head, t);
      head := InsertBefore(head, t);
    }

    method Pop() returns (t: Option<Tick>)
      requires Valid()
      modifies this`head
      ensures Valid()
      ensures old(head).Nil? ==> t.None? && head == Nil
      ensures old(head).Node? ==> t == Some(old(head).val) && head == old(head).next
    {
      match head {
        case Nil => t := None;
        case Node(v, n) =>
          t := Some(v);
          head := n;
      }
    }

    /** Sends a tick to its subscriber and queues the next one. */
    method RefreshTick(t: Tick)
      requires Valid()
      modifies this`head, this`sent
      ensures Valid()
      ensures sent == old(sent) + [Response(t.id, t.diff, useRelative)]
      ensures head == InsertBefore(old(head), NextTick(t, now))
    {
      sent := sent + [Response(t.id, t.diff, useRelative)];
      var divisor := Divisor(t.diff.unit);
      var next := (now - now % divisor + divisor) % U32;
      var diff := NewRelativeTime(next, t.val);
      Insert(t.(pendingOn := next, diff := diff));
    }

    /** Pops the first tick and refreshes it. */
    method ServeHead()
      requires Valid() && head.Node?
      modifies this`head, this`sent
      ensures Valid()
      ensures sent == old(sent) + [Response(old(head).val.id, old(head).val.diff, useRelative)]
      ensures head == InsertBefore(old(head).next, NextTick(old(head).val, now))
    {
      var t := Pop();
      RefreshTick(t.value);
    }

    /** The loop of a timer tick, where it ends. */
    method ServeDue()
      requires Valid() && AllLeaveIn(head, now, REFRESHES)
      modifies this`head, this`sent
      ensures Valid()
      ensures var n := Turns(old(head), now, REFRESHES);
              && head == Turned(old(head), now, n)
              && sent == old(sent) + Answers(old(head), now, useRelative, n)
    {
      ghost var l, n := head, Turns(head, now, REFRESHES);
      LoopTurns(head, now, REFRESHES);
      ghost var k, answers: seq<Response> := n, [];
      while head.Node? && head.val.pendingOn <= now
        invariant Valid() && EndsIn(head, now, k)
        invariant Turned(head, now, k) == Turned(l, now, n)
        invariant answers + Answers(head, now, useRelative, k) == Answers(l, now, useRelative, n)
        invariant sent == old(sent) + answers
        decreases k
      {
        ghost var answer := [Response(head.val.id, head.val.diff, useRelative)];
        Assoc(answers, answer, Answers(Turn(head, now), now, useRelative, k - 1));
        k, answers := k - 1, answers + answer;
        ServeHead();
      }
    }

    /** A timer tick, where it ends. Every tick is answered each time it is due
        until it leaves, and put back as it left; without wrap-around that is once
        for each tick due, in order. Afterwards the queue is sorted and holds only
        updates strictly in the future. */
    method OnTick(clock: nat)
      requires Valid() && clock < U32
      requires forall t :: t in Bag(head) ==> LeavesIn(t, clock, REFRESHES)
      modifies this`now, this`head, this`sent
      ensures Valid() && now == clock
      ensures var n := Turns(old(head), clock, REFRESHES);
              var answers := Answers(old(head), clock, useRelative, n);
              && sent == old(sent) + answers
              && multiset(answers) == AllChains(old(head), clock, useRelative, REFRESHES)
      ensures Bag(head) == AllLeft(old(head), clock, REFRESHES)
      ensures forall t :: t in Bag(head) ==> t.pendingOn > now
      ensures forall r :: r in sent[|old(sent)|..] ==> Shown(r, old(head), clock)
      ensures (forall t :: t in old(Bag(head)) && t.pendingOn <= clock ==> NoOverflow(clock, t.diff.unit)) ==>
                && sent == old(sent) + Responses(Due(old(head), clock), useRelative)
                && Balanced(old(Bag(head)), Due(old(head), clock), head, clock)
    {
      now := clock;
      ghost var l := head;
      AllLeave(l, clock, REFRESHES);
      ServeDue();
      TickConserves(l, clock, useRelative, REFRESHES);
      AnswersAreAccurate(l, clock, useRelative, Turns(l, clock, REFRESHES));
      if forall t :: t in Bag(l) && t.pendingOn <= clock ==> NoOverflow(clock, t.diff.unit) {
        DueIsExact(l, clock);
        LoopTurns(l, clock, REFRESHES);
        NoWrapExact(l, clock, useRelative, Turns(l, clock, REFRESHES));
      }
    }

    method Remove(id: nat)
      requires Valid()
      modifies this`head
      ensures Valid() && head == RemoveNode(old(head), id)
      ensures OneEach(old(head)) ==> OneEach(head) && !HasId(head, id)
    {
      RemoveIsExact(head, id);
      head := RemoveNode(head, id);
    }

    /** A subscriber's timestamp changes: it is answered at once, and has the tick of
        the new timestamp instead of the old one. */
    method ChangeTimestamp(id: nat, val: nat)
      requires Valid()
      modifies this`head, this`sent
      ensures Valid()
      ensures sent == old(sent) + [Response(id, Relative(now, val), useRelative)]
      ensures head == InsertBefore(RemoveNode(old(head), id), NextTick(Tick(id, val, now, Relative(now, val)), now))
      ensures OneEach(old(head)) ==> OneEach(head)
      ensures OneEach(old(head)) ==> forall t :: t in Bag(head) && t.id == id ==> t.val == val
    {
      Remove(id);
      ghost var rest := head;
      var diff := NewRelativeTime(now, val);
      RefreshTick(Tick(id, val, now, diff));
      InsertKeepsOneEach(rest, NextTick(Tick(id, val, now, diff), now));
      InsertIsExact(rest, NextTick(Tick(id, val, now, diff), now));
      BagIds(rest);
    }

    /** A new subscriber gets its first update at once. */
    method Register(id: nat, val: nat)
      requires Valid()
      modifies this`head, this`sent
      ensures Valid()
      ensures sent == old(sent) + [Response(id, Relative(now, val), useRelative)]
      ensures head == InsertBefore(old(head), NextTick(Tick(id, val, now, Relative(now, val)), now))
    {
      var diff := NewRelativeTime(now, val);
      RefreshTick(Tick(id, val, now, diff));
    }
  }
}
