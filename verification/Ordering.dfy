/** In what order a client is handed the messages written to it. Couriers are
    numbered in the order their messages were written. */
module Ordering {
  import opened Handoff

  predicate IsMessage(s: State, c: nat, i: nat) {
    i < |s.couriers| && s.couriers[i].kind == Message && s.couriers[i].client == c
  }

  /** The message was written, but is not handed over or dropped yet. */
  predicate Outstanding(s: State, c: nat, i: nat) {
    IsMessage(s, c, i) && s.couriers[i].stage != Finished
  }

  /** The client's goroutine will still receive messages. */
  predicate Serving(s: State, c: nat) {
    c < |s.clients| && s.clients[c].registered && (s.clients[c].loop.Selecting? || s.clients[c].loop.Writing?)
  }

  /** No further message is written. */
  predicate NoneWritten(acts: seq<Action>) {
    forall a :: a in acts ==> !a.Spawn?
  }

  predicate InOrder(s: State, c: nat, acts: seq<Action>) {
    forall x, y :: 0 <= x < y < |acts| && acts[x].HandOver? && acts[y].HandOver?
                   && IsMessage(s, c, acts[x].courier) && IsMessage(s, c, acts[y].courier) ==>
                     acts[x].courier < acts[y].courier
  }

  lemma StepKeepsCouriers(s: State, a: Action, i: nat)
    requires Enabled(0, s, a) && !a.Spawn? && i < |s.couriers|
    ensures |Do(0, s, a).couriers| == |s.couriers|
    ensures s.couriers[i].stage == Finished || a == HandOver(i) ==> Do(0, s, a).couriers[i].stage == Finished
  {
  }

  /** Only outstanding messages are handed over, and each once. */
  lemma {:induction false} HandedOnce(s: State, acts: seq<Action>, k: nat)
    requires IsRun(0, s, acts) && NoneWritten(acts)
    requires k < |acts| && acts[k].HandOver? && acts[k].courier < |s.couriers|
    ensures s.couriers[acts[k].courier].stage != Finished
    ensures forall x :: 0 <= x < k ==> acts[x] != acts[k]
    decreases |acts|
  {
    if k > 0 {
      assert acts[0] in acts && forall a :: a in acts[1..] ==> a in acts;
      StepKeepsCouriers(s, acts[0], acts[k].courier);
      HandedOnce(Do(0, s, acts[0]), acts[1..], k - 1);
      forall x | 0 <= x < k
        ensures acts[x] != acts[k]
      {
        if x > 0 {
          assert acts[1..][x - 1] == acts[x];
        }
      }
    }
  }

  lemma Prepend(s: State, a: Action, acts: seq<Action>)
    requires Enabled(0, s, a) && IsRun(0, Do(0, s, a), acts) && !a.Spawn? && NoneWritten(acts)
    ensures IsRun(0, s, [a] + acts) && NoneWritten([a] + acts)
  {
  }

  /** The run hands `j` over, then `i`. */
  predicate Overtakes(acts: seq<Action>, i: nat, j: nat) {
    |acts| >= 3 && acts[|acts| - 3] == HandOver(j) && acts[|acts| - 1] == HandOver(i)
  }

  function Unready(s: State, c: nat, i: nat, j: nat): nat
    requires c < |s.clients| && i < |s.couriers| && j < |s.couriers|
  {
    (if s.clients[c].loop.Writing? then 1 else 0)
    + (if s.couriers[i].stage == Spawned then 1 else 0)
    + (if s.couriers[j].stage == Spawned then 1 else 0)
  }

  /** Of two outstanding messages either may be handed over first. */
  lemma {:induction false} Overtake(s: State, c: nat, i: nat, j: nat) returns (acts: seq<Action>)
    requires Serving(s, c) && Outstanding(s, c, i) && Outstanding(s, c, j) && i != j
    ensures IsRun(0, s, acts) && NoneWritten(acts) && Overtakes(acts, i, j)
    decreases Unready(s, c, i, j)
  {
    if s.clients[c].loop.Writing? || s.couriers[i].stage == Spawned || s.couriers[j].stage == Spawned {
      var a :=
        if s.clients[c].loop.Writing? then WriteDone(c, false)
        else if s.couriers[i].stage == Spawned then Lookup(i)
        else Lookup(j);
      var rest := Overtake(Do(0, s, a), c, i, j);
      Prepend(s, a, rest);
      acts := [a] + rest;
    } else {
      acts := OvertakeNow(s, c, i, j);
    }
  }

  lemma OvertakeNow(s: State, c: nat, i: nat, j: nat) returns (acts: seq<Action>)
    requires Serving(s, c) && IsMessage(s, c, i) && IsMessage(s, c, j) && i != j
    requires s.clients[c].loop == Selecting && s.couriers[i].stage == Blocked && s.couriers[j].stage == Blocked
    ensures IsRun(0, s, acts) && NoneWritten(acts) && Overtakes(acts, i, j)
  {
    var s1 := Do(0, s, HandOver(j));
    var s2 := Do(0, s1, WriteDone(c, false));
    assert IsRun(0, Do(0, s2, HandOver(i)), []);
    Prepend(s2, HandOver(i), []);
    Prepend(s1, WriteDone(c, false), [HandOver(i)]);
    Prepend(s, HandOver(j), [WriteDone(c, false)] + [HandOver(i)]);
    acts := [HandOver(j)] + ([WriteDone(c, false)] + [HandOver(i)]);
  }

  /** Whatever happens next, the client is handed its messages in the order they
      were written. */
  ghost predicate KeepsOrder(s: State, c: nat) {
    forall acts :: IsRun(0, s, acts) && NoneWritten(acts) ==> InOrder(s, c, acts)
  }

  lemma OneKeepsOrder(s: State, c: nat, acts: seq<Action>)
    requires forall i, j :: Outstanding(s, c, i) && Outstanding(s, c, j) ==> i == j
    requires IsRun(0, s, acts) && NoneWritten(acts)
    ensures InOrder(s, c, acts)
  {
    forall x, y | 0 <= x < y < |acts| && acts[x].HandOver? && acts[y].HandOver?
                  && IsMessage(s, c, acts[x].courier) && IsMessage(s, c, acts[y].courier)
      ensures Outstanding(s, c, acts[x].courier) && Outstanding(s, c, acts[y].courier) && acts[x] != acts[y]
    {
      HandedOnce(s, acts, x);
      HandedOnce(s, acts, y);
    }
  }

  /** Order is guaranteed exactly while no more than one of the client's messages
      is outstanding. */
  lemma OrderExact(s: State, c: nat)
    requires Serving(s, c)
    ensures KeepsOrder(s, c) <==> forall i, j :: Outstanding(s, c, i) && Outstanding(s, c, j) ==> i == j
  {
    if i, j :| Outstanding(s, c, i) && Outstanding(s, c, j) && i < j {
      var acts := Overtake(s, c, i, j);
      assert !InOrder(s, c, acts);
    } else {
      forall acts | IsRun(0, s, acts) && NoneWritten(acts)
        ensures InOrder(s, c, acts)
      {
        OneKeepsOrder(s, c, acts);
      }
    }
  }

  const TWO_PULSES := [Register(false), Spawn(Message, 0), Spawn(Message, 0)]

  /** Waiting for `ws_write_message` to return does not keep two pulses apart:
      the message of the second may be handed over first. */
  lemma PulsesMayOvertake()
    ensures IsRun(0, INITIAL, TWO_PULSES)
    ensures Serving(After(0, INITIAL, TWO_PULSES), 0) && !KeepsOrder(After(0, INITIAL, TWO_PULSES), 0)
  {
    var s1 := Do(0, INITIAL, Register(false));
    var s2 := Do(0, s1, Spawn(Message, 0));
    var s3 := Do(0, s2, Spawn(Message, 0));
    assert TWO_PULSES[1..] == [Spawn(Message, 0), Spawn(Message, 0)];
    assert TWO_PULSES[1..][1..] == [Spawn(Message, 0)];
    assert TWO_PULSES[1..][1..][1..] == [];
    assert IsRun(0, s2, [Spawn(Message, 0)]) && After(0, s2, [Spawn(Message, 0)]) == s3;
    assert IsRun(0, s1, TWO_PULSES[1..]) && After(0, s1, TWO_PULSES[1..]) == s3;
    assert After(0, INITIAL, TWO_PULSES) == s3;
    assert Outstanding(s3, 0, 0) && Outstanding(s3, 0, 1);
    OrderExact(s3, 0);
  }
}
