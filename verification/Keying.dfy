/** What the keys of the thread messages do. The source builds the messages by
    client and then reads their keys as threads, so that a client is sent what
    the client numbered like its feed is owed. */
module Keyings {
  import opened Wrappers
  import opened Feeds
  import opened Reduction
  import opened SetMaps
  import opened Pulsars
  import opened Dispatch
  import Codec
  import Reg = Registries

  /** The thread feed a client is on, if the dispatcher knows it. */
  function KnownFeed(s: Sys, c: nat): Option<nat> {
    if c in s.reg.clients && s.reg.clients[c].thread.Some? && s.reg.clients[c].thread.value in s.pul.feeds
    then s.reg.clients[c].thread
    else None
  }

  /** Nothing is due to the client: it is on no known feed, or waits for no init
      message on one that has nothing to send. */
  predicate NothingDue(b: Bodies, s: Sys, ch: Choice, c: nat)
    requires ValidChoice(Drained(s), ch)
  {
    match KnownFeed(s, c)
    case None => true
    case Some(t) => !Waits(s, c, t) && Outgoing(b, Drained(s), ch, t) == []
  }

  /** Two clients are due the same: nothing; or they are on one feed and both or
      neither wait; or on two feeds that have the same to send, and neither
      waits. */
  predicate SameDue(b: Bodies, s: Sys, ch: Choice, x: nat, y: nat)
    requires ValidChoice(Drained(s), ch)
  {
    match (KnownFeed(s, x), KnownFeed(s, y))
    case (Some(t), Some(u)) =>
      if t == u then Waits(s, x, t) <==> Waits(s, y, t)
      else !Waits(s, x, t) && !Waits(s, y, u) && Outgoing(b, Drained(s), ch, t) == Outgoing(b, Drained(s), ch, u)
    case _ => NothingDue(b, s, ch, x) && NothingDue(b, s, ch, y)
  }

  /** What the dispatcher built for a client. */
  function Built(b: Bodies, s: Sys, ch: Choice, c: nat): seq<Event>
    requires ValidChoice(Drained(s), ch)
  {
    FromThreads(ByClient, b, Drained(s), ch, c)
  }

  lemma BuiltOnUnknown(b: Bodies, s: Sys, ch: Choice, c: nat)
    requires Reg.Consistent(s.reg) && ValidChoice(Drained(s), ch) && KnownFeed(s, c).None?
    ensures Built(b, s, ch, c) == []
  {
    Reg.DrainConsistent(s.reg, s.pul.feeds.Keys);
    MergedThreads(b, Drained(s), ch, c);
  }

  lemma BuiltOnKnown(b: Bodies, s: Sys, ch: Choice, dropped: map<nat, map<nat, nat>>, c: nat, t: nat)
    requires SafeBodies(b) && SysOk(s, dropped) && ValidChoice(Drained(s), ch) && KnownFeed(s, c) == Some(t)
    ensures TakenFrom(Built(b, s, ch, c), Outgoing(b, Drained(s), ch, t), Waits(s, c, t), t)
  {
    SnapshotFacts(s, dropped, t, c);
    FeedForClient(b, Drained(s), ch, dropped, c, t);
  }

  /** Clients that wait on one feed are built the same message. */
  lemma BuiltForWaiting(b: Bodies, s: Sys, ch: Choice, dropped: map<nat, map<nat, nat>>, x: nat, y: nat, t: nat)
    requires SafeBodies(b) && SysOk(s, dropped) && ValidChoice(Drained(s), ch)
    requires KnownFeed(s, x) == KnownFeed(s, y) == Some(t) && Waits(s, x, t) && Waits(s, y, t)
    ensures Built(b, s, ch, x) == Built(b, s, ch, y)
  {
    DrainedIsOk(s, dropped);
    BuiltInRound(b, Drained(s), ch, x, t);
    BuiltInRound(b, Drained(s), ch, y, t);
  }

  /** A waiting client's message is made of the feed's init message and of what it
      has pending. */
  lemma BuiltInRound(b: Bodies, d: Sys, ch: Choice, c: nat, t: nat)
    requires ValidChoice(d, ch) && Reg.Consistent(d.reg) && On(d, c, t) && t in d.pul.feeds
    requires c in d.pul.feeds[t].needInit
    ensures FromThreads(ByClient, b, d, ch, c) == Codec.Content(WaitersMessage(b, d, ch, t))
  {
    MergedThreads(b, d, ch, c);
    assert Has(d.reg.byThread, t, c);
  }

  function WaitersMessage(b: Bodies, d: Sys, ch: Choice, t: nat): Msg
    requires ValidChoice(d, ch) && t in d.pul.feeds
  {
    var f := DiffBodies(b, d.pul.feeds[t], ch.orders[t]);
    var init := GetInit(f.(pending := None)).1;
    if f.pending.None? then init else WithInit(init, f.pending.value)
  }

  /** What is taken from two feeds is the same exactly under these conditions. */
  lemma TakenSame(fx: seq<Event>, ox: seq<Event>, wx: bool, t: nat, fy: seq<Event>, oy: seq<Event>, wy: bool, u: nat)
    requires TakenFrom(fx, ox, wx, t) && TakenFrom(fy, oy, wy, u)
    requires t == u ==> ox == oy && (wx && wy ==> fx == fy)
    ensures fx == fy <==> if t == u then wx == wy else !wx && !wy && ox == oy
  {
    if wx {
      assert fx[0] !in oy;
    }
    if wy {
      assert fy[0] !in ox;
    }
  }

  lemma BuiltSame(b: Bodies, s: Sys, ch: Choice, dropped: map<nat, map<nat, nat>>, x: nat, y: nat)
    requires SafeBodies(b) && SysOk(s, dropped) && ValidChoice(Drained(s), ch)
    ensures Built(b, s, ch, x) == Built(b, s, ch, y) <==> SameDue(b, s, ch, x, y)
  {
    BuiltNothing(b, s, ch, dropped, x);
    BuiltNothing(b, s, ch, dropped, y);
    if KnownFeed(s, x).Some? && KnownFeed(s, y).Some? {
      BuiltOnTwo(b, s, ch, dropped, x, y, KnownFeed(s, x).value, KnownFeed(s, y).value);
    }
  }

  lemma BuiltOnTwo(b: Bodies, s: Sys, ch: Choice, dropped: map<nat, map<nat, nat>>, x: nat, y: nat, t: nat, u: nat)
    requires SafeBodies(b) && SysOk(s, dropped) && ValidChoice(Drained(s), ch)
    requires KnownFeed(s, x) == Some(t) && KnownFeed(s, y) == Some(u)
    ensures Built(b, s, ch, x) == Built(b, s, ch, y) <==>
            if t == u then Waits(s, x, t) == Waits(s, y, u)
            else !Waits(s, x, t) && !Waits(s, y, u) && Outgoing(b, Drained(s), ch, t) == Outgoing(b, Drained(s), ch, u)
  {
    BuiltOnKnown(b, s, ch, dropped, x, t);
    BuiltOnKnown(b, s, ch, dropped, y, u);
    if t == u && Waits(s, x, t) && Waits(s, y, t) {
      BuiltForWaiting(b, s, ch, dropped, x, y, t);
    }
    TakenSame(
      Built(b, s, ch, x), Outgoing(b, Drained(s), ch, t), Waits(s, x, t), t,
      Built(b, s, ch, y), Outgoing(b, Drained(s), ch, u), Waits(s, y, u), u);
  }

  lemma BuiltNothing(b: Bodies, s: Sys, ch: Choice, dropped: map<nat, map<nat, nat>>, c: nat)
    requires SafeBodies(b) && SysOk(s, dropped) && ValidChoice(Drained(s), ch)
    ensures Built(b, s, ch, c) == [] <==> NothingDue(b, s, ch, c)
  {
    match KnownFeed(s, c)
    case None => BuiltOnUnknown(b, s, ch, c);
    case Some(t) => BuiltOnKnown(b, s, ch, dropped, c, t);
  }

  /** As written, a thread client hears what was built for the client numbered
      like its feed. */
  lemma HeardAsWritten(b: Bodies, s: Sys, ch: Choice, dropped: map<nat, map<nat, nat>>, c: nat, t: nat)
    requires SysOk(s, dropped) && ValidChoice(Drained(s), ch) && 0 !in s.reg.clients && On(s, c, t) && t != 0
    ensures Heard(PulseOut(AsWritten, b, s, ch), c) == Built(b, s, ch, t) + ServerWide(s)
    ensures Heard(PulseOut(ByClient, b, s, ch), c) == Built(b, s, ch, c) + ServerWide(s)
  {
    PulseHeard(AsWritten, b, s, ch, c);
    PulseHeard(ByClient, b, s, ch, c);
  }

  lemma SameBefore(a: seq<Event>, b: seq<Event>, rest: seq<Event>)
    ensures a + rest == b + rest <==> a == b
  {
    if a + rest == b + rest {
      assert |a + rest| == |b + rest|;
      assert (a + rest)[..|a|] == a && (b + rest)[..|b|] == b;
    }
  }

  /** As written, a client on a thread hears what is due to it if and only if the
      same is due to the client numbered like the thread. */
  lemma AsWrittenExact(b: Bodies, s: Sys, ch: Choice, dropped: map<nat, map<nat, nat>>, c: nat, t: nat)
    requires SafeBodies(b) && SysOk(s, dropped) && ValidChoice(Drained(s), ch)
    requires 0 !in s.reg.clients && On(s, c, t) && t != 0
    ensures Heard(PulseOut(AsWritten, b, s, ch), c) == Heard(PulseOut(ByClient, b, s, ch), c) <==>
            SameDue(b, s, ch, c, t)
  {
    HeardAsWritten(b, s, ch, dropped, c, t);
    SameBefore(Built(b, s, ch, t), Built(b, s, ch, c), ServerWide(s));
    BuiltSame(b, s, ch, dropped, c, t);
  }

  /** A pulse as written gives every client what it should hear if and only if,
      for every client on a thread, the same is due to the client numbered like
      the thread. */
  lemma PulseAsWrittenExact(b: Bodies, s: Sys, ch: Choice, dropped: map<nat, map<nat, nat>>)
    requires SafeBodies(b) && SysOk(s, dropped) && ValidChoice(Drained(s), ch) && 0 !in s.reg.clients
    ensures (forall c :: Heard(PulseOut(AsWritten, b, s, ch), c) == Heard(PulseOut(ByClient, b, s, ch), c)) <==>
            (forall c, t :: On(s, c, t) && t != 0 ==> SameDue(b, s, ch, c, t))
  {
    forall c, t | On(s, c, t) && t != 0
      ensures Heard(PulseOut(AsWritten, b, s, ch), c) == Heard(PulseOut(ByClient, b, s, ch), c) <==>
              SameDue(b, s, ch, c, t)
    {
      AsWrittenExact(b, s, ch, dropped, c, t);
    }
    forall c | forall t :: t != 0 ==> !On(s, c, t)
      ensures Heard(PulseOut(AsWritten, b, s, ch), c) == Heard(PulseOut(ByClient, b, s, ch), c)
    {
      OthersHearTheSame(b, s, ch, c);
    }
  }

  lemma OthersHearTheSame(b: Bodies, s: Sys, ch: Choice, c: nat)
    requires Reg.Consistent(s.reg) && ValidChoice(Drained(s), ch) && 0 !in s.reg.clients && 0 !in s.pul.feeds
    requires forall t :: t != 0 ==> !On(s, c, t)
    ensures Heard(PulseOut(AsWritten, b, s, ch), c) == Heard(PulseOut(ByClient, b, s, ch), c)
  {
    PulseHeard(AsWritten, b, s, ch, c);
    PulseHeard(ByClient, b, s, ch, c);
    if c in s.reg.clients && s.reg.clients[c].thread.None? {
      BuiltOnUnknown(b, s, ch, c);
    } else if c in s.reg.clients {
      assert On(s, c, s.reg.clients[c].thread.value);
    }
  }

  /** The message opens with an init message of the feed. */
  predicate OpensWithInit(h: seq<Event>, t: nat) {
    h != [] && h[0].FeedInit? && h[0].data.thread == t
  }

  /** As written, a client on a known thread hears the thread's init message first
      if and only if the client numbered like the thread is on it and waits; and
      it hears an init message at all if and only if that client waits for one. */
  lemma InitAsWrittenExact(b: Bodies, s: Sys, ch: Choice, dropped: map<nat, map<nat, nat>>, c: nat, t: nat)
    requires SafeBodies(b) && SysOk(s, dropped) && ValidChoice(Drained(s), ch)
    requires 0 !in s.reg.clients && On(s, c, t) && t != 0 && t in s.pul.feeds
    ensures OpensWithInit(Heard(PulseOut(AsWritten, b, s, ch), c), t) <==> On(s, t, t) && Waits(s, t, t)
    ensures InitCount(Heard(PulseOut(AsWritten, b, s, ch), c)) ==
            AsNat(KnownFeed(s, t).Some? && Waits(s, t, KnownFeed(s, t).value))
  {
    HeardAsWritten(b, s, ch, dropped, c, t);
    assert Waits(s, t, t) ==> Has(s.reg.byThread, t, t);
    match KnownFeed(s, t)
    case None =>
      BuiltOnUnknown(b, s, ch, t);
      AllNotices(ServerWide(s));
      assert [] + ServerWide(s) == ServerWide(s);
    case Some(u) =>
      BuiltOnKnown(b, s, ch, dropped, t, u);
      CountHeard(Built(b, s, ch, t), Outgoing(b, Drained(s), ch, u), ServerWide(s), Waits(s, t, u));
      TakenOpens(Built(b, s, ch, t), Outgoing(b, Drained(s), ch, u), ServerWide(s), Waits(s, t, u), u, t);
  }

  lemma TakenOpens(ft: seq<Event>, o: seq<Event>, server: seq<Event>, waits: bool, u: nat, t: nat)
    requires TakenFrom(ft, o, waits, u) && forall e :: e in server ==> e.InsertThread?
    ensures OpensWithInit(ft + server, t) <==> waits && u == t
  {
    if ft + server != [] && !waits {
      var first := (ft + server)[0];
      assert first in o || first in server;
    }
  }

  /** As written, a thread client hears nothing of any feed if and only if nothing
      is due to the client numbered like its thread. */
  lemma AsWrittenSilentExact(b: Bodies, s: Sys, ch: Choice, dropped: map<nat, map<nat, nat>>, c: nat, t: nat)
    requires SafeBodies(b) && SysOk(s, dropped) && ValidChoice(Drained(s), ch)
    requires 0 !in s.reg.clients && On(s, c, t) && t != 0
    ensures Heard(PulseOut(AsWritten, b, s, ch), c) == ServerWide(s) <==> NothingDue(b, s, ch, t)
  {
    HeardAsWritten(b, s, ch, dropped, c, t);
    assert [] + ServerWide(s) == ServerWide(s);
    SameBefore(Built(b, s, ch, t), [], ServerWide(s));
    BuiltNothing(b, s, ch, dropped, t);
  }

  /** In particular so while no client is numbered like a thread in use. */
  lemma AsWrittenSendsNothing(b: Bodies, s: Sys, ch: Choice, c: nat)
    requires ValidChoice(Drained(s), ch) && Reg.Consistent(s.reg) && 0 !in s.pul.feeds && 0 !in s.reg.clients
    requires s.reg.clients.Keys !! s.reg.byThread.Keys
    requires c in s.reg.clients && s.reg.clients[c].thread != Some(0)
    ensures Heard(PulseOut(AsWritten, b, s, ch), c) == ServerWide(s)
  {
    PulseHeard(AsWritten, b, s, ch, c);
    AssignedAsWritten(b, s, ch, c);
    if s.reg.clients[c].thread.Some? {
      assert Has(s.reg.byThread, s.reg.clients[c].thread.value, c);
      BuiltOnUnknown(b, s, ch, s.reg.clients[c].thread.value);
    }
    assert [] + ServerWide(s) == ServerWide(s);
  }

  /** What the assignment as written gives a client. */
  lemma AssignedAsWritten(b: Bodies, s: Sys, ch: Choice, c: nat)
    requires ValidChoice(Drained(s), ch) && c in s.reg.clients
    ensures FromThreads(AsWritten, b, Drained(s), ch, c) ==
            if s.reg.clients[c].thread.None? then [] else Built(b, s, ch, s.reg.clients[c].thread.value)
  {
  }

  /** As written, a waiting client stops waiting; it loses its init message if and
      only if the client numbered like its thread does not wait for it too. */
  lemma AsWrittenLosesInit(b: Bodies, s: Sys, ch: Choice, dropped: map<nat, map<nat, nat>>, c: nat, t: nat)
    requires SafeBodies(b) && SysOk(s, dropped) && ValidChoice(Drained(s), ch) && 0 !in s.reg.clients
    requires Waits(s, c, t) && t in s.pul.feeds
    ensures !Waits(PulseState(b, s, ch), c, t)
    ensures !OpensWithInit(Heard(PulseOut(AsWritten, b, s, ch), c), t) <==> !Waits(s, t, t)
    ensures t !in s.reg.clients ==> InitCount(Heard(PulseOut(AsWritten, b, s, ch), c)) == 0
  {
    assert Has(s.reg.byThread, t, c);
    assert Waits(s, t, t) ==> Has(s.reg.byThread, t, t);
    OnlyUnknownFeedsAreAwaited(b, s, ch, dropped, c, t);
    InitAsWrittenExact(b, s, ch, dropped, c, t);
  }

  /** One client, connected before the first thread is made, subscribes to it. */
  function FirstSteps(time: nat, subject: string): seq<Step> {
    [Connect(1), NewThread(2, time, subject), Subscribe(1, 2)]
  }

  /** The state these steps lead to from an empty server. */
  function Subscribed(time: nat, subject: string): Sys {
    var p := InsertThreadReq(Pulsar(map[], Global({}, None, None)), 2, time, subject);
    Sys(Reg.SetClientThread(Reg.AddClient(Reg.EMPTY, 1), 1, 2), p)
  }

  lemma FirstStepsRun(b: Bodies, time: nat, subject: string)
    ensures var start := Loaded(map[], map[]);
            AllLegal(b, start, FirstSteps(time, subject)) &&
            Final(b, start, FirstSteps(time, subject)) == Subscribed(time, subject)
  {
    var steps := FirstSteps(time, subject);
    var s0 := Loaded(map[], map[]);
    assert s0 == Sys(Reg.EMPTY, Pulsar(map[], Global({}, None, None)));
    var s1 := Next(b, s0, steps[0]);
    var s2 := Next(b, s1, steps[1]);
    var s3 := Next(b, s2, steps[2]);
    assert steps[1..][0] == steps[1] && steps[1..][1..][0] == steps[2] && steps[1..][1..][1..] == [];
    assert AllLegal(b, s3, []) && Final(b, s3, []) == s3;
    assert AllLegal(b, s2, steps[1..][1..]) && Final(b, s2, steps[1..][1..]) == s3;
    assert AllLegal(b, s1, steps[1..]) && Final(b, s1, steps[1..]) == s3;
  }

  /** A run of the source that fails: at the pulse after these steps, whatever its
      schedule, and there is one, the client stops waiting and hears no init
      message; it should hear one. */
  lemma ReachableLoss(b: Bodies, time: nat, subject: string, ch: Choice)
    requires SafeBodies(b) && ValidChoice(Drained(Subscribed(time, subject)), ch)
    ensures var s := Subscribed(time, subject);
            && Waits(s, 1, 2)
            && !Waits(PulseState(b, s, ch), 1, 2)
            && InitCount(Heard(PulseOut(AsWritten, b, s, ch), 1)) == 0
            && InitCount(Heard(PulseOut(ByClient, b, s, ch), 1)) == 1
            && ValidChoice(Drained(s), Choice(map[2 := []], One(2)))
  {
    ScheduleExists(time, subject);
    var s, start := Subscribed(time, subject), Loaded(map[], map[]);
    var dropped: map<nat, map<nat, nat>> := map[];
    LoadedIsOk(map[], map[]);
    assert SysOk(start, dropped);
    FirstStepsRun(b, time, subject);
    RunKeepsOk(b, start, FirstSteps(time, subject), dropped);
    SubscribedWaits(time, subject);
    var d := FinalDropped(b, start, FirstSteps(time, subject), dropped);
    AsWrittenLosesInit(b, s, ch, d, 1, 2);
    PulseForClient(b, s, ch, d, 1, 2);
  }

  lemma SubscribedWaits(time: nat, subject: string)
    ensures var s := Subscribed(time, subject);
            Waits(s, 1, 2) && On(s, 1, 2) && 2 in s.pul.feeds && s.reg.clients.Keys == {1}
  {
    Reg.SetClientThreadConsistent(Reg.AddClient(Reg.EMPTY, 1), 1, 2);
  }

  lemma ScheduleExists(time: nat, subject: string)
    ensures ValidChoice(Drained(Subscribed(time, subject)), Choice(map[2 := []], One(2)))
  {
    assert Leaves(One(2)) == [2];
  }

  // --------------------------------------------------------------- whole runs

  /** What the client hears, step by step. */
  function HeardByStep(k: Keying, b: Bodies, s: Sys, steps: seq<Step>, c: nat): seq<seq<Event>>
    requires AllLegal(b, s, steps)
    decreases |steps|
  {
    if steps == [] then []
    else [Heard(Out(k, b, s, steps[0]), c)] + HeardByStep(k, b, Next(b, s, steps[0]), steps[1..], c)
  }

  /** At every pulse of the run the same is due to both clients. */
  predicate AlwaysSameDue(b: Bodies, s: Sys, steps: seq<Step>, x: nat, y: nat)
    requires AllLegal(b, s, steps)
    decreases |steps|
  {
    steps == []
    || ((steps[0].Pulse? ==> SameDue(b, s, steps[0].choice, x, y)) &&
      AlwaysSameDue(b, Next(b, s, steps[0]), steps[1..], x, y))
  }

  /** Over every run during which a client stays on a thread, the source as
      written gives it exactly what it should hear if and only if at every pulse
      the same is due to the client numbered like the thread. */
  lemma {:induction false} RunAsWrittenExact(b: Bodies, s: Sys, steps: seq<Step>, dropped: map<nat, map<nat, nat>>,
                                             c: nat, t: nat)
    requires SafeBodies(b) && SysOk(s, dropped) && AllLegal(b, s, steps) && t != 0 && Stays(b, s, steps, c, t)
    requires 0 !in s.reg.clients && Connect(0) !in steps
    ensures HeardByStep(AsWritten, b, s, steps, c) == HeardByStep(ByClient, b, s, steps, c) <==>
            AlwaysSameDue(b, s, steps, c, t)
    decreases |steps|
  {
    if steps == [] {
    } else {
      var step, s' := steps[0], Next(b, s, steps[0]);
      StepAsWrittenExact(b, s, step, dropped, c, t);
      StepKeepsOk(b, s, step, dropped);
      RunAsWrittenExact(b, s', steps[1..], NextDropped(s, step, dropped), c, t);
      SameCons(
        Heard(Out(AsWritten, b, s, step), c), Heard(Out(ByClient, b, s, step), c),
        HeardByStep(AsWritten, b, s', steps[1..], c), HeardByStep(ByClient, b, s', steps[1..], c));
    }
  }

  lemma StepAsWrittenExact(b: Bodies, s: Sys, step: Step, dropped: map<nat, map<nat, nat>>, c: nat, t: nat)
    requires SafeBodies(b) && SysOk(s, dropped) && Legal(s, step) && t != 0 && On(s, c, t)
    requires 0 !in s.reg.clients && step != Connect(0)
    ensures 0 !in Next(b, s, step).reg.clients
    ensures Heard(Out(AsWritten, b, s, step), c) == Heard(Out(ByClient, b, s, step), c) <==>
            (step.Pulse? ==> SameDue(b, s, step.choice, c, t))
  {
    if step.Pulse? {
      AsWrittenExact(b, s, step.choice, dropped, c, t);
    }
  }

  lemma SameCons(a: seq<Event>, b: seq<Event>, as_: seq<seq<Event>>, bs: seq<seq<Event>>)
    ensures [a] + as_ == [b] + bs <==> a == b && as_ == bs
  {
    if [a] + as_ == [b] + bs {
      assert ([a] + as_)[1..] == as_ && ([b] + bs)[1..] == bs;
    }
  }
}
