/** The hand-off of reference-counted message buffers from the dispatcher to the
    goroutines of the websocket clients, as interleaved steps.

    Every call of `ws_write_message` or of the close functions is one courier.
    A courier of a message owns one reference to its buffer until it hands it
    over or drops it. `capacity` is that of the clients' send channels: the
    source makes it zero and says why it must be. */
module Handoff {
  import opened Wrappers

  datatype Kind = Message | Close

  datatype Stage = Spawned | Blocked | Finished

  datatype Courier = Courier(kind: Kind, client: nat, stage: Stage)

  /** Where a client's goroutine is: in its select, writing a message, returning
      with the deferred unregistration and cancellation to run, or ended. */
  datatype Loop = Selecting | Writing(msg: nat) | Leaving | Unregistered | Ended

  datatype Client = Client(loop: Loop, registered: bool, cancelled: bool, queue: seq<nat>)

  datatype State = State(couriers: seq<Courier>, clients: seq<Client>, unrefs: seq<nat>)

  const INITIAL := State([], [], [])

  datatype Action =
    // a connection is accepted; its registration with the Rust side may fail
    | Register(failed: bool)
    // `ws_write_message` or a close function is called for a client ID
    | Spawn(kind: Kind, client: nat)
    // the courier looks the client up
    | Lookup(courier: nat)
    // rendezvous on an unbuffered channel
    | HandOver(courier: nat)
    // a send into, and a receive from, a channel's buffer
    | Enqueue(courier: nat)
    | Dequeue(client: nat)
    // the courier's select takes the cancellation
    | GiveUp(courier: nat)
    // the write to the socket returns, with an error or not
    | WriteDone(client: nat, failed: bool)
    // the loop's select takes the cancellation
    | Exit(client: nat)
    | Unregister(client: nat)
    | Cancel(client: nat)
    // the context of the upgrade request ends
    | ParentCancel(client: nat)

  predicate IsCourier(s: State, i: nat, stage: Stage) {
    i < |s.couriers| && s.couriers[i].stage == stage
  }

  predicate IsClient(s: State, c: nat, loop: Loop) {
    c < |s.clients| && s.clients[c].loop == loop
  }

  predicate Enabled(capacity: nat, s: State, a: Action) {
    match a
    case Register(_) => true
    case Spawn(_, _) => true
    case Lookup(i) => IsCourier(s, i, Spawned)
    case HandOver(i) => IsCourier(s, i, Blocked) && IsClient(s, s.couriers[i].client, Selecting)
    case Enqueue(i) =>
      && IsCourier(s, i, Blocked)
      && s.couriers[i].kind == Message
      && s.couriers[i].client < |s.clients|
      && |s.clients[s.couriers[i].client].queue| < capacity
    case Dequeue(c) => IsClient(s, c, Selecting) && s.clients[c].queue != []
    case GiveUp(i) => IsCourier(s, i, Blocked) && s.couriers[i].client < |s.clients| &&
      s.clients[s.couriers[i].client].cancelled
    case WriteDone(c, _) => c < |s.clients| && s.clients[c].loop.Writing?
    case Exit(c) => IsClient(s, c, Selecting) && s.clients[c].cancelled
    case Unregister(c) => IsClient(s, c, Leaving)
    case Cancel(c) => IsClient(s, c, Unregistered)
    case ParentCancel(c) => c < |s.clients| && !s.clients[c].cancelled
  }

  function SetStage(s: State, i: nat, stage: Stage): State
    requires i < |s.couriers|
  {
    s.(couriers := s.couriers[i := s.couriers[i].(stage := stage)])
  }

  function SetLoop(s: State, c: nat, loop: Loop): State
    requires c < |s.clients|
  {
    s.(clients := s.clients[c := s.clients[c].(loop := loop)])
  }

  /** Drops the reference a message courier was given. */
  function Unref(s: State, i: nat): State {
    if i < |s.unrefs| && i < |s.couriers| && s.couriers[i].kind == Message
    then s.(unrefs := s.unrefs[i := s.unrefs[i] + 1])
    else s
  }

  function Do(capacity: nat, s: State, a: Action): State
    requires Enabled(capacity, s, a)
  {
    match a
    case Register(failed) =>
      s.(clients := s.clients + [Client(if failed then Leaving else Selecting, true, false, [])])
    case Spawn(kind, c) => s.(couriers := s.couriers + [Courier(kind, c, Spawned)], unrefs := s.unrefs + [0])
    case Lookup(i) =>
      var c := s.couriers[i].client;
      if c < |s.clients| && s.clients[c].registered then SetStage(s, i, Blocked)
      else Unref(SetStage(s, i, Finished), i)
    case HandOver(i) =>
      var c := s.couriers[i].client;
      SetLoop(SetStage(s, i, Finished), c, if s.couriers[i].kind == Message then Writing(i) else Leaving)
    case Enqueue(i) =>
      var c := s.couriers[i].client;
      var s' := SetStage(s, i, Finished);
      s'.(clients := s'.clients[c := s'.clients[c].(queue := s'.clients[c].queue + [i])])
    case Dequeue(c) =>
      s.(clients := s.clients[c := s.clients[c].(loop := Writing(s.clients[c].queue[0]),
        queue := s.clients[c].queue[1..])])
    case GiveUp(i) => Unref(SetStage(s, i, Finished), i)
    case WriteDone(c, failed) => SetLoop(Unref(s, s.clients[c].loop.msg), c, if failed then Leaving else Selecting)
    case Exit(c) => SetLoop(s, c, Leaving)
    case Unregister(c) => s.(clients := s.clients[c := s.clients[c].(loop := Unregistered, registered := false)])
    case Cancel(c) => s.(clients := s.clients[c := s.clients[c].(loop := Ended, cancelled := true)])
    case ParentCancel(c) => s.(clients := s.clients[c := s.clients[c].(cancelled := true)])
  }

  predicate IsRun(capacity: nat, s: State, acts: seq<Action>)
    decreases |acts|
  {
    acts != [] ==> Enabled(capacity, s, acts[0]) && IsRun(capacity, Do(capacity, s, acts[0]), acts[1..])
  }

  function After(capacity: nat, s: State, acts: seq<Action>): State
    requires IsRun(capacity, s, acts)
    decreases |acts|
  {
    if acts == [] then s else After(capacity, Do(capacity, s, acts[0]), acts[1..])
  }

  // --------------------------------------------------------------- ownership

  /** The client is writing this courier's message. */
  predicate Holds(s: State, i: nat) {
    i < |s.couriers| && IsClient(s, s.couriers[i].client, Writing(i))
  }

  /** Exactly one party owns each message's reference: its courier, the client
      writing it, or nobody once it was dropped. */
  predicate OwnedOnce(s: State, i: nat)
    requires i < |s.couriers| == |s.unrefs|
  {
    var c := s.couriers[i];
    if c.kind == Close then s.unrefs[i] == 0
    else s.unrefs[i] == if c.stage == Finished && !Holds(s, i) then 1 else 0
  }

  predicate ClientOk(s: State, c: nat)
    requires c < |s.clients|
  {
    var k := s.clients[c];
    && k.queue == []
    && (k.loop == Ended ==> k.cancelled)
    && (k.registered <==> k.loop != Unregistered && k.loop != Ended)
    && (k.loop.Writing? ==>
          && k.loop.msg < |s.couriers|
          && s.couriers[k.loop.msg] == Courier(Message, c, Finished))
  }

  predicate Inv(s: State) {
    && |s.unrefs| == |s.couriers|
    && (forall i :: 0 <= i < |s.couriers| ==> OwnedOnce(s, i))
    && (forall i :: 0 <= i < |s.couriers| && s.couriers[i].stage == Blocked ==> s.couriers[i].client < |s.clients|)
    && (forall c :: 0 <= c < |s.clients| ==> ClientOk(s, c))
  }

  lemma CourierStepKeepsInv(s: State, a: Action)
    requires Inv(s) && Enabled(0, s, a) && (a.Lookup? || a.HandOver? || a.GiveUp?)
    ensures Inv(Do(0, s, a))
  {
    var i, s' := a.courier, Do(0, s, a);
    assert OwnedOnce(s, i);
    assert !Holds(s, i) by {
      var c := s.couriers[i].client;
      if c < |s.clients| {
        assert ClientOk(s, c);
      }
    }
    forall j | 0 <= j < |s.couriers|
      ensures OwnedOnce(s', j)
    {
      assert OwnedOnce(s, j);
    }
    forall c | 0 <= c < |s'.clients|
      ensures ClientOk(s', c)
    {
      assert ClientOk(s, c);
    }
  }

  lemma ClientStepKeepsInv(s: State, a: Action)
    requires Inv(s) && Enabled(0, s, a) && (a.WriteDone? || a.Exit? || a.Unregister? || a.Cancel? || a.ParentCancel?)
    ensures Inv(Do(0, s, a))
  {
    var s' := Do(0, s, a);
    assert ClientOk(s, a.client);
    forall j | 0 <= j < |s.couriers|
      ensures OwnedOnce(s', j)
    {
      assert OwnedOnce(s, j);
    }
    forall c | 0 <= c < |s'.clients|
      ensures ClientOk(s', c)
    {
      assert ClientOk(s, c);
    }
  }

  lemma StepKeepsInv(s: State, a: Action)
    requires Inv(s) && Enabled(0, s, a)
    ensures Inv(Do(0, s, a))
  {
    NothingIsBuffered(s, a);
    if a.Register? || a.Spawn? {
      NewcomerKeepsInv(s, a);
    } else if a.Lookup? || a.HandOver? || a.GiveUp? {
      CourierStepKeepsInv(s, a);
    } else {
      ClientStepKeepsInv(s, a);
    }
  }

  lemma NothingIsBuffered(s: State, a: Action)
    requires Inv(s) && Enabled(0, s, a)
    ensures !a.Enqueue? && !a.Dequeue?
  {
    assert forall c :: 0 <= c < |s.clients| ==> ClientOk(s, c) && s.clients[c].queue == [];
  }

  lemma NewcomerKeepsInv(s: State, a: Action)
    requires Inv(s) && (a.Register? || a.Spawn?)
    ensures Inv(Do(0, s, a))
  {
    var s' := Do(0, s, a);
    forall j | 0 <= j < |s'.couriers|
      ensures OwnedOnce(s', j)
    {
      if j < |s.couriers| {
        assert OwnedOnce(s, j);
      } else if s'.couriers[j].client < |s.clients| {
        assert ClientOk(s, s'.couriers[j].client);
      }
    }
    forall c | 0 <= c < |s'.clients|
      ensures ClientOk(s', c)
    {
      if c < |s.clients| {
        assert ClientOk(s, c);
      }
    }
  }

  /** Safety over every interleaving: no buffer is unreferenced twice, and one is
      unreferenced exactly when its courier finished and nobody is writing it. */
  lemma {:induction false} EveryRunOwnsOnce(s: State, acts: seq<Action>)
    requires Inv(s) && IsRun(0, s, acts)
    ensures Inv(After(0, s, acts))
    decreases |acts|
  {
    if acts == [] {
    } else {
      StepKeepsInv(s, acts[0]);
      EveryRunOwnsOnce(Do(0, s, acts[0]), acts[1..]);
    }
  }

  // ---------------------------------------------------------------- progress

  /** Steps that come from outside: new work, and the end of a connection. */
  predicate External(a: Action) {
    a.Register? || a.Spawn? || a.ParentCancel?
  }

  /** No goroutine can take a step. */
  ghost predicate Quiescent(capacity: nat, s: State) {
    forall a :: Enabled(capacity, s, a) ==> External(a)
  }

  /** Nothing is left to unreference. */
  predicate AllReleased(s: State) {
    && |s.unrefs| == |s.couriers|
    && forall i :: 0 <= i < |s.couriers| && s.couriers[i].kind == Message ==> s.unrefs[i] == 1
  }

  function CourierWeight(c: Courier): nat {
    match c.stage
    case Spawned => 6
    case Blocked => 5
    case Finished => 0
  }

  function ClientWeight(c: Client): nat {
    (match c.loop
     case Selecting => 3
     case Writing(_) => 4
     case Leaving => 2
     case Unregistered => 1
     case Ended => 0) + if c.cancelled then 0 else 1
  }

  function CourierSum(s: seq<Courier>): nat {
    if s == [] then 0 else CourierWeight(s[0]) + CourierSum(s[1..])
  }

  function ClientSum(s: seq<Client>): nat {
    if s == [] then 0 else ClientWeight(s[0]) + ClientSum(s[1..])
  }

  /** How many steps of their own the goroutines can still take at most. */
  function Measure(s: State): nat {
    CourierSum(s.couriers) + ClientSum(s.clients)
  }

  lemma {:induction false} CourierSumUpdate(s: seq<Courier>, i: nat, c: Courier)
    requires i < |s|
    ensures CourierSum(s[i := c]) + CourierWeight(s[i]) == CourierSum(s) + CourierWeight(c)
  {
    if i == 0 {
      assert s[i := c][1..] == s[1..];
    } else {
      assert s[i := c][1..] == s[1..][i - 1 := c];
      CourierSumUpdate(s[1..], i - 1, c);
    }
  }

  lemma {:induction false} ClientSumUpdate(s: seq<Client>, i: nat, c: Client)
    requires i < |s|
    ensures ClientSum(s[i := c]) + ClientWeight(s[i]) == ClientSum(s) + ClientWeight(c)
  {
    if i == 0 {
      assert s[i := c][1..] == s[1..];
    } else {
      assert s[i := c][1..] == s[1..][i - 1 := c];
      ClientSumUpdate(s[1..], i - 1, c);
    }
  }

  /** Every step of the goroutines' own uses up some of the measure. */
  lemma StepDecreases(s: State, a: Action)
    requires Inv(s) && Enabled(0, s, a) && !External(a)
    ensures Measure(Do(0, s, a)) < Measure(s)
  {
    NothingIsBuffered(s, a);
    var s' := Do(0, s, a);
    if a.HandOver? {
      HandOverDecreases(s, a);
    } else if a.Lookup? || a.GiveUp? {
      CourierSumUpdate(s.couriers, a.courier, s'.couriers[a.courier]);
    } else {
      ClientSumUpdate(s.clients, a.client, s'.clients[a.client]);
    }
  }

  lemma HandOverDecreases(s: State, a: Action)
    requires Inv(s) && Enabled(0, s, a) && a.HandOver?
    ensures Measure(Do(0, s, a)) < Measure(s)
  {
    NothingIsBuffered(s, a);
    var s', c := Do(0, s, a), s.couriers[a.courier].client;
    CourierSumUpdate(s.couriers, a.courier, s'.couriers[a.courier]);
    ClientSumUpdate(s.clients, c, s'.clients[c]);
  }

  lemma {:induction false} RunsAreBounded(s: State, acts: seq<Action>)
    requires Inv(s) && IsRun(0, s, acts) && forall i :: 0 <= i < |acts| ==> !External(acts[i])
    ensures |acts| <= Measure(s)
    decreases |acts|
  {
    if acts == [] {
    } else {
      StepDecreases(s, acts[0]);
      StepKeepsInv(s, acts[0]);
      RunsAreBounded(Do(0, s, acts[0]), acts[1..]);
    }
  }

  /** Whoever still owns a reference, some goroutine can move towards dropping
      it; after cancellation, the blocked courier itself. */
  function NextStep(s: State, i: nat): (a: Action)
    requires Inv(s) && i < |s.couriers| && s.couriers[i].kind == Message && s.unrefs[i] == 0
    ensures Enabled(0, s, a) && !External(a)
    ensures s.couriers[i].stage == Blocked && s.clients[s.couriers[i].client].cancelled ==> a == GiveUp(i)
  {
    assert OwnedOnce(s, i);
    var c := s.couriers[i].client;
    match s.couriers[i].stage
    case Spawned => Lookup(i)
    case Finished => WriteDone(c, false)
    case Blocked =>
      assert ClientOk(s, c);
      if s.clients[c].cancelled then GiveUp(i)
      else match s.clients[c].loop
        case Selecting => HandOver(i)
        case Writing(_) => WriteDone(c, false)
        case Leaving => Unregister(c)
        case Unregistered => Cancel(c)
  }

  /** Every blocked courier of a cancelled client, message or close, can finish. */
  lemma CancellationFreesCouriers(s: State, i: nat)
    requires Inv(s) && IsCourier(s, i, Blocked) && s.clients[s.couriers[i].client].cancelled
    ensures Enabled(0, s, GiveUp(i)) && IsCourier(Do(0, s, GiveUp(i)), i, Finished)
    ensures s.couriers[i].kind == Message ==> Do(0, s, GiveUp(i)).unrefs[i] == 1
  {
    assert OwnedOnce(s, i);
  }

  /** Once no goroutine can move, every buffer has been unreferenced exactly
      once. */
  lemma QuiescentIsReleased(s: State)
    requires Inv(s) && Quiescent(0, s)
    ensures AllReleased(s)
  {
    forall i | 0 <= i < |s.couriers| && s.couriers[i].kind == Message
      ensures s.unrefs[i] == 1
    {
      assert OwnedOnce(s, i);
      if s.unrefs[i] == 0 {
        var _ := NextStep(s, i);
      }
    }
  }

  // ------------------------------------------------------- closing, delivering

  /** The client's goroutine is on its way out. */
  predicate Gone(s: State, c: nat) {
    c < |s.clients| && !s.clients[c].loop.Selecting? && !s.clients[c].loop.Writing?
  }

  lemma GoneStays(s: State, a: Action, c: nat)
    requires Inv(s) && Enabled(0, s, a)
    ensures Gone(s, c) ==> Gone(Do(0, s, a), c)
    ensures c < |s.clients| ==> c < |Do(0, s, a).clients|
    ensures c < |s.clients| && s.clients[c].cancelled ==> Do(0, s, a).clients[c].cancelled
  {
    NothingIsBuffered(s, a);
  }

  lemma {:induction false} GoneToTheEnd(s: State, acts: seq<Action>, c: nat)
    requires Inv(s) && IsRun(0, s, acts) && c < |s.clients|
    ensures c < |After(0, s, acts).clients|
    ensures Gone(s, c) ==> Gone(After(0, s, acts), c)
    ensures s.clients[c].cancelled ==> After(0, s, acts).clients[c].cancelled
    decreases |acts|
  {
    if acts == [] {
    } else {
      StepKeepsInv(s, acts[0]);
      GoneStays(s, acts[0], c);
      GoneToTheEnd(Do(0, s, acts[0]), acts[1..], c);
    }
  }

  /** Once no goroutine can move, a client is either waiting, registered and not
      cancelled, or it has ended, is cancelled and unregistered. */
  lemma QuiescentClients(s: State, c: nat)
    requires Inv(s) && Quiescent(0, s) && c < |s.clients|
    ensures s.clients[c].loop == Selecting || s.clients[c].loop == Ended
    ensures s.clients[c].cancelled <==> s.clients[c].loop == Ended
    ensures s.clients[c].registered <==> s.clients[c].loop == Selecting
  {
    assert ClientOk(s, c);
    assert !Enabled(0, s, Exit(c)) && !Enabled(0, s, Unregister(c)) && !Enabled(0, s, Cancel(c));
    assert !Enabled(0, s, WriteDone(c, true));
  }

  /** The step sends the client away: it is handed a close, its write fails, its
      request context ends or it takes the cancellation. */
  predicate Dooms(s: State, a: Action, c: nat)
    requires Enabled(0, s, a)
  {
    || (a.HandOver? && s.couriers[a.courier] == Courier(Close, c, Blocked))
    || a == WriteDone(c, true)
    || a == ParentCancel(c)
    || a == Exit(c)
  }

  predicate DoomedIn(s: State, acts: seq<Action>, c: nat)
    requires IsRun(0, s, acts)
    decreases |acts|
  {
    acts != [] && (Dooms(s, acts[0], c) || DoomedIn(Do(0, s, acts[0]), acts[1..], c))
  }

  predicate Alive(s: State, c: nat) {
    c < |s.clients| && !Gone(s, c) && !s.clients[c].cancelled
  }

  lemma AliveUnlessDoomed(s: State, a: Action, c: nat)
    requires Inv(s) && Enabled(0, s, a) && Alive(s, c)
    ensures Dooms(s, a, c) <==> !Alive(Do(0, s, a), c)
  {
    NothingIsBuffered(s, a);
  }

  /** A client is up after its registration exactly if that did not fail. */
  lemma AliveOnceRegistered(s: State, failed: bool)
    ensures Alive(Do(0, s, Register(failed)), |s.clients|) <==> !failed
  {
  }

  /** A client has ended, and is unregistered, by the time no goroutine can move
      exactly if it was not up or something sent it away; otherwise it is registered
      and waits for messages. */
  lemma {:induction false} ClientEndsExact(s: State, acts: seq<Action>, c: nat)
    requires Inv(s) && IsRun(0, s, acts) && c < |s.clients| && Quiescent(0, After(0, s, acts))
    ensures var end, sent := After(0, s, acts), !Alive(s, c) || DoomedIn(s, acts, c);
            && c < |end.clients|
            && (end.clients[c].loop == if sent then Ended else Selecting)
            && (end.clients[c].registered <==> !sent)
    decreases |acts|
  {
    if acts == [] {
      QuiescentClients(s, c);
    } else if Alive(s, c) {
      StepKeepsInv(s, acts[0]);
      AliveUnlessDoomed(s, acts[0], c);
      GoneStays(s, acts[0], c);
      ClientEndsExact(Do(0, s, acts[0]), acts[1..], c);
    } else {
      GoneToTheEnd(s, acts, c);
      EveryRunOwnsOnce(s, acts);
      QuiescentClients(After(0, s, acts), c);
    }
  }

  /** A courier not yet finished, to a client that exists. */
  predicate Underway(s: State, i: nat) {
    i < |s.couriers| && s.couriers[i].stage != Finished && s.couriers[i].client < |s.clients|
  }

  lemma UnderwayStays(s: State, a: Action, i: nat)
    requires Inv(s) && Enabled(0, s, a) && a != HandOver(i) && Underway(s, i)
    ensures var c, s' := s.couriers[i].client, Do(0, s, a);
            && c < |s'.clients|
            && i < |s'.couriers| && s'.couriers[i].client == c
            && (!Gone(s', c) && !s'.clients[c].cancelled ==> Underway(s', i))
  {
    NothingIsBuffered(s, a);
    assert ClientOk(s, s.couriers[i].client);
  }

  /** Every message for a client that exists is handed to it before the goroutines
      come to rest, unless the client is cancelled by then. */
  lemma {:induction false} MessagesArrive(s: State, acts: seq<Action>, i: nat)
    requires Inv(s) && IsRun(0, s, acts) && Underway(s, i)
    requires Quiescent(0, After(0, s, acts))
    ensures var c, end := s.couriers[i].client, After(0, s, acts);
            c < |end.clients| && (end.clients[c].cancelled || HandOver(i) in acts)
    decreases |acts|
  {
    var c := s.couriers[i].client;
    GoneToTheEnd(s, acts, c);
    EveryRunOwnsOnce(s, acts);
    QuiescentClients(After(0, s, acts), c);
    if acts == [] {
      assert !Enabled(0, s, Lookup(i)) && !Enabled(0, s, HandOver(i));
    } else if acts[0] != HandOver(i) {
      var s' := Do(0, s, acts[0]);
      StepKeepsInv(s, acts[0]);
      UnderwayStays(s, acts[0], i);
      GoneToTheEnd(s', acts[1..], c);
      if Underway(s', i) {
        MessagesArrive(s', acts[1..], i);
      }
    }
  }

  /** Every run ends released: the promise the source makes for its channels. */
  ghost predicate AlwaysReleases(capacity: nat) {
    forall acts :: IsRun(capacity, INITIAL, acts) && Quiescent(capacity, After(capacity, INITIAL, acts)) ==>
      AllReleased(After(capacity, INITIAL, acts))
  }

  const LEAK := [Register(false), Spawn(Message, 0), Lookup(0), Enqueue(0), ParentCancel(0), Exit(0), Unregister(0),
    Cancel(0)]

  /** With any buffering a message can be left in a channel nobody reads. */
  lemma BufferedChannelLeaks(capacity: nat)
    requires capacity > 0
    ensures IsRun(capacity, INITIAL, LEAK)
    ensures Quiescent(capacity, After(capacity, INITIAL, LEAK))
    ensures !AllReleased(After(capacity, INITIAL, LEAK))
  {
    var s4 := State([Courier(Message, 0, Finished)], [Client(Selecting, true, false, [0])], [0]);
    var s8 := State([Courier(Message, 0, Finished)], [Client(Ended, false, true, [0])], [0]);
    LeakEnd(capacity, s4, s8);
    LeakStart(capacity, s4);
    Leaked(capacity, s8);
  }

  lemma Leaked(capacity: nat, s8: State)
    requires s8 == State([Courier(Message, 0, Finished)], [Client(Ended, false, true, [0])], [0])
    ensures Quiescent(capacity, s8) && !AllReleased(s8)
  {
    assert s8.couriers[0].kind == Message && s8.unrefs[0] == 0;
  }

  /** A message is put into a client's channel. */
  lemma LeakStart(capacity: nat, s4: State)
    requires capacity > 0
    requires s4 == State([Courier(Message, 0, Finished)], [Client(Selecting, true, false, [0])], [0])
    requires IsRun(capacity, s4, LEAK[4..])
    ensures IsRun(capacity, INITIAL, LEAK) && After(capacity, INITIAL, LEAK) == After(capacity, s4, LEAK[4..])
  {
    var s2 := State([Courier(Message, 0, Spawned)], [Client(Selecting, true, false, [])], [0]);
    LeakQueue(capacity, s2, s4);
    var s1 := State([], s2.clients, []);
    LeakStep(capacity, Spawn(Message, 0), LEAK[2..], s1, s2);
    assert [Spawn(Message, 0)] + LEAK[2..] == LEAK[1..];
    LeakStep(capacity, Register(false), LEAK[1..], INITIAL, s1);
    assert [Register(false)] + LEAK[1..] == LEAK;
  }

  lemma LeakQueue(capacity: nat, s2: State, s4: State)
    requires capacity > 0
    requires s2 == State([Courier(Message, 0, Spawned)], [Client(Selecting, true, false, [])], [0])
    requires s4 == State([Courier(Message, 0, Finished)], [Client(Selecting, true, false, [0])], [0])
    requires IsRun(capacity, s4, LEAK[4..])
    ensures IsRun(capacity, s2, LEAK[2..]) && After(capacity, s2, LEAK[2..]) == After(capacity, s4, LEAK[4..])
  {
    var s3 := State([Courier(Message, 0, Blocked)], s2.clients, [0]);
    var none: seq<nat> := [];
    assert none + [0] == [0];
    assert Do(capacity, s3, Enqueue(0)) == s4;
    LeakStep(capacity, Enqueue(0), LEAK[4..], s3, s4);
    assert [Enqueue(0)] + LEAK[4..] == LEAK[3..];
    LeakStep(capacity, Lookup(0), LEAK[3..], s2, s3);
    assert [Lookup(0)] + LEAK[3..] == LEAK[2..];
  }

  /** The client goes away with the message still queued. */
  lemma LeakEnd(capacity: nat, s4: State, s8: State)
    requires s4 == State([Courier(Message, 0, Finished)], [Client(Selecting, true, false, [0])], [0])
    requires s8 == s4.(clients := [Client(Ended, false, true, [0])])
    ensures IsRun(capacity, s4, LEAK[4..]) && After(capacity, s4, LEAK[4..]) == s8
  {
    var s5 := s4.(clients := [Client(Selecting, true, true, [0])]);
    LeakExit(capacity, s5, s8);
    LeakStep(capacity, ParentCancel(0), LEAK[5..], s4, s5);
    assert [ParentCancel(0)] + LEAK[5..] == LEAK[4..];
  }

  lemma LeakExit(capacity: nat, s5: State, s8: State)
    requires s5 == State([Courier(Message, 0, Finished)], [Client(Selecting, true, true, [0])], [0])
    requires s8 == s5.(clients := [Client(Ended, false, true, [0])])
    ensures IsRun(capacity, s5, LEAK[5..]) && After(capacity, s5, LEAK[5..]) == s8
  {
    var s6 := s5.(clients := [Client(Leaving, true, true, [0])]);
    var s7 := s5.(clients := [Client(Unregistered, false, true, [0])]);
    assert LEAK[8..] == [];
    LeakStep(capacity, Cancel(0), LEAK[8..], s7, s8);
    assert [Cancel(0)] + LEAK[8..] == LEAK[7..];
    LeakStep(capacity, Unregister(0), LEAK[7..], s6, s7);
    assert [Unregister(0)] + LEAK[7..] == LEAK[6..];
    LeakStep(capacity, Exit(0), LEAK[6..], s5, s6);
    assert [Exit(0)] + LEAK[6..] == LEAK[5..];
  }

  lemma LeakStep(capacity: nat, a: Action, acts: seq<Action>, s: State, s': State)
    requires Enabled(capacity, s, a) && Do(capacity, s, a) == s' && IsRun(capacity, s', acts)
    ensures IsRun(capacity, s, [a] + acts) && After(capacity, s, [a] + acts) == After(capacity, s', acts)
  {
  }

  /** The promise holds if and only if the channels do not buffer. */
  lemma UnbufferedIsNecessary(capacity: nat)
    ensures AlwaysReleases(capacity) <==> capacity == 0
  {
    if capacity == 0 {
      forall acts | IsRun(0, INITIAL, acts) && Quiescent(0, After(0, INITIAL, acts))
        ensures AllReleased(After(0, INITIAL, acts))
      {
        EveryRunOwnsOnce(INITIAL, acts);
        QuiescentIsReleased(After(0, INITIAL, acts));
      }
    } else {
      BufferedChannelLeaks(capacity);
    }
  }

  // ------------------------------------------------------------ registration

  const U64: nat := 0x1_0000_0000_0000_0000

  /** The ID the counter reaches after `j` more steps. */
  function Nth(counter: nat, j: nat): nat {
    (counter + 1 + j) % U64
  }

  lemma NthNext(counter: nat, j: nat)
    ensures Nth(counter, j + 1) == (Nth(counter, j) + 1) % U64
  {
  }

  ghost function Visited(counter: nat, k: nat): set<nat> {
    if k == 0 then {} else Visited(counter, k - 1) + {Nth(counter, k - 1)}
  }

  lemma StepsApart(a: nat, d: nat)
    requires 0 < d < U64
    ensures (a + d) % U64 != a % U64
  {
  }

  lemma {:induction false} NotVisitedTwice(counter: nat, k: nat, m: nat)
    requires k <= m < U64
    ensures Nth(counter, m) !in Visited(counter, k)
    decreases k
  {
    if k == 0 {
    } else {
      NotVisitedTwice(counter, k - 1, m);
      StepsApart(counter + 1 + (k - 1), m - (k - 1));
    }
  }

  lemma {:induction false} VisitedSize(counter: nat, k: nat)
    requires k <= U64
    ensures |Visited(counter, k)| == k
  {
    if k == 0 {
    } else {
      VisitedSize(counter, k - 1);
      NotVisitedTwice(counter, k - 1, k - 1);
    }
  }

  /** Picks an ID for a new client: the counter moves on, around its overflow if
      need be, until it meets one that is free. */
  method AllocateId(counter: nat, taken: set<nat>) returns (id: nat)
    requires |taken| < U64
    ensures id < U64 && id !in taken
    ensures exists k: nat :: id == Nth(counter, k) && forall j :: 0 <= j < k ==> Nth(counter, j) in taken
  {
    id := Nth(counter, 0);
    ghost var k := 0;
    while id in taken
      invariant k <= |taken| && id == Nth(counter, k) && Visited(counter, k) <= taken
      invariant forall j :: 0 <= j < k ==> Nth(counter, j) in taken
      decreases |taken| - k
    {
      NthNext(counter, k);
      VisitedSize(counter, k + 1);
      SubsetSize(Visited(counter, k + 1), taken);
      k := k + 1;
      id := (id + 1) % U64;
    }
  }
}
