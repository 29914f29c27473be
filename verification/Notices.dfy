/** The server-wide stream: the notices of new threads, over whole runs. */
module ThreadNotices {
  import opened Wrappers
  import opened Feeds
  import opened Pulsars
  import opened Dispatch
  import opened IndexStreams

  function Notices(es: seq<Event>): seq<Event> {
    if es == [] then [] else (if es[0].InsertThread? then [es[0]] else []) + Notices(es[1..])
  }

  lemma {:induction false} NoticesConcat(a: seq<Event>, b: seq<Event>)
    ensures Notices(a + b) == Notices(a) + Notices(b)
  {
    if a == [] {
      assert a + b == b;
    } else {
      NoticesConcat(a[1..], b);
      assert (a + b)[1..] == a[1..] + b;
      Assoc(if a[0].InsertThread? then [a[0]] else [], Notices(a[1..]), Notices(b));
    }
  }

  lemma {:induction false} OnlyNoticesStay(es: seq<Event>)
    ensures (forall e :: e in es ==> e.InsertThread?) ==> Notices(es) == es
    ensures (forall e :: e in es ==> !e.InsertThread?) ==> Notices(es) == []
  {
    if es == [] {
    } else {
      assert es[0] in es && forall e :: e in es[1..] ==> e in es;
      OnlyNoticesStay(es[1..]);
    }
  }

  // ------------------------------------------------------------- one pulse

  ghost predicate NoNotices(es: seq<Event>) {
    forall e :: e in es ==> !e.InsertThread?
  }

  /** No message of a thread feed holds a notice. */
  lemma ThreadsHoldNone(b: Bodies, d: Sys, ch: Choice, dropped: map<nat, map<nat, nat>>, c: nat)
    requires SafeBodies(b) && DrainedOk(d, dropped) && ValidChoice(d, ch)
    ensures NoNotices(Heard(Merged(b, d, ch).threads, c))
  {
    MergedThreads(b, d, ch, c);
    if c in Merged(b, d, ch).threads {
      var t := d.reg.clients[c].thread.value;
      ThreadHeard(b, d, ch, dropped, c, t);
      OutgoingIsFeedEvents(b, d, ch, dropped, t);
      TakenHoldsNone(Heard(Merged(b, d, ch).threads, c), Outgoing(b, d, ch, t), c in d.pul.feeds[t].needInit, t);
    }
  }

  lemma TakenHoldsNone(ft: seq<Event>, out: seq<Event>, waits: bool, t: nat)
    requires TakenFrom(ft, out, waits, t)
    ensures NoNotices(ft)
  {
    if waits {
      assert ft == [ft[0]] + ft[1..];
    }
  }

  lemma AssignedHoldNone(k: Keying, b: Bodies, d: Sys, ch: Choice, dropped: map<nat, map<nat, nat>>, c: nat)
    requires SafeBodies(b) && DrainedOk(d, dropped) && ValidChoice(d, ch)
    ensures NoNotices(FromThreads(k, b, d, ch, c))
  {
    ThreadsHoldNone(b, d, ch, dropped, c);
    if c in d.reg.clients && d.reg.clients[c].thread.Some? {
      ThreadsHoldNone(b, d, ch, dropped, d.reg.clients[c].thread.value);
    }
  }

  lemma GlobalHoldsNone(b: Bodies, d: Sys, ch: Choice, dropped: map<nat, map<nat, nat>>, c: nat)
    requires SafeBodies(b) && DrainedOk(d, dropped) && ValidChoice(d, ch)
    ensures NoNotices(GlobalHeard(d.pul.global.needInit, Merged(b, d, ch), c))
  {
    MergedFeedEvents(b, d, ch, dropped);
    if c in d.pul.global.needInit {
      PartsAreInits(b, d, ch, dropped);
    }
  }

  lemma NoticesLast(first: seq<Event>, server: seq<Event>)
    requires NoNotices(first) && forall e :: e in server ==> e.InsertThread?
    ensures Notices(first + server) == server
  {
    NoticesConcat(first, server);
    OnlyNoticesStay(first);
    OnlyNoticesStay(server);
  }

  /** Of the notices pending, a pulse tells every connected client all, in order,
      and keeps none. */
  lemma PulseTells(k: Keying, b: Bodies, s: Sys, ch: Choice, dropped: map<nat, map<nat, nat>>, c: nat)
    requires SafeBodies(b) && SysOk(s, dropped) && ValidChoice(Drained(s), ch) && ZeroFree(k, s)
    requires c in s.reg.clients
    ensures Notices(Heard(PulseOut(k, b, s, ch), c)) == ServerWide(s)
  {
    DrainedIsOk(s, dropped);
    PulseHeard(k, b, s, ch, c);
    if s.reg.clients[c].thread == Some(0) {
      GlobalHoldsNone(b, Drained(s), ch, dropped, c);
      NoticesLast(GlobalHeard(Drained(s).pul.global.needInit, Merged(b, Drained(s), ch), c), ServerWide(s));
    } else {
      AssignedHoldNone(k, b, Drained(s), ch, dropped, c);
      NoticesLast(FromThreads(k, b, Drained(s), ch, c), ServerWide(s));
    }
  }

  lemma PulseKeepsNone(b: Bodies, s: Sys, ch: Choice)
    requires ValidChoice(Drained(s), ch)
    ensures ServerWide(PulseState(b, s, ch)) == []
  {
  }

  // ------------------------------------------------------------- whole runs

  /** The notice of a step. */
  function NoticeOf(step: Step): seq<Event> {
    match step
    case NewThread(t, time, subject) => [InsertThread(t, time, subject)]
    case _ => []
  }

  function NoticesOf(steps: seq<Step>): seq<Event> {
    if steps == [] then [] else NoticeOf(steps[0]) + NoticesOf(steps[1..])
  }

  function NoticesHeard(k: Keying, b: Bodies, s: Sys, steps: seq<Step>, c: nat): seq<Event>
    requires AllLegal(b, s, steps)
    decreases |steps|
  {
    if steps == [] then []
    else Notices(Heard(Out(k, b, s, steps[0]), c)) + NoticesHeard(k, b, Next(b, s, steps[0]), steps[1..], c)
  }

  lemma StepTells(k: Keying, b: Bodies, s: Sys, step: Step, dropped: map<nat, map<nat, nat>>, c: nat)
    requires SafeBodies(b) && SysOk(s, dropped) && Legal(s, step) && ZeroFree(k, s) && c in s.reg.clients
    ensures Notices(Heard(Out(k, b, s, step), c)) + ServerWide(Next(b, s, step)) == ServerWide(s) + NoticeOf(step)
  {
    if step.Pulse? {
      PulseTells(k, b, s, step.choice, dropped, c);
      PulseKeepsNone(b, s, step.choice);
    } else {
      assert Heard(Out(k, b, s, step), c) == [];
      QuietlyPending(b, s, step);
    }
  }

  lemma QuietlyPending(b: Bodies, s: Sys, step: Step)
    requires Legal(s, step) && !step.Pulse?
    ensures ServerWide(Next(b, s, step)) == ServerWide(s) + NoticeOf(step)
  {
  }

  predicate StaysConnected(b: Bodies, s: Sys, steps: seq<Step>, c: nat)
    requires AllLegal(b, s, steps)
    decreases |steps|
  {
    c in s.reg.clients && (steps != [] ==> StaysConnected(b, Next(b, s, steps[0]), steps[1..], c))
  }

  /** Over any run during which a client stays connected, wherever it is subscribed
      and whether or not the thread messages are keyed as written, it hears of
      every new thread, in order and once, with its ID, time and subject, but for
      those no pulse has seen yet. */
  lemma {:induction false} EveryThreadIsTold(k: Keying, b: Bodies, s: Sys, steps: seq<Step>,
                                             dropped: map<nat, map<nat, nat>>, c: nat)
    requires SafeBodies(b) && SysOk(s, dropped) && AllLegal(b, s, steps) && StaysConnected(b, s, steps, c)
    requires ZeroFree(k, s) && NoZero(k, steps)
    ensures NoticesHeard(k, b, s, steps, c) + ServerWide(Final(b, s, steps)) == ServerWide(s) + NoticesOf(steps)
    decreases |steps|
  {
    if steps == [] {
    } else {
      var s' := Next(b, s, steps[0]);
      StepTells(k, b, s, steps[0], dropped, c);
      StepKeepsOk(b, s, steps[0], dropped);
      StaysZeroFree(k, b, s, steps);
      EveryThreadIsTold(k, b, s', steps[1..], NextDropped(s, steps[0], dropped), c);
      Reassociate(
        Notices(Heard(Out(k, b, s, steps[0]), c)), NoticesHeard(k, b, s', steps[1..], c),
          ServerWide(Final(b, s, steps)),
        ServerWide(s'), ServerWide(s), NoticeOf(steps[0]), NoticesOf(steps[1..]));
    }
  }
}
