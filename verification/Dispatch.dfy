/** Whole runs of the registry and the dispatcher together. */
module Dispatch {
  import opened Wrappers
  import opened PostBody
  import opened Feeds
  import opened Reduction
  import opened SetMaps
  import opened Pulsars
  import Codec
  import Diff
  import Drafts
  import Fragments
  import Parser
  import Utf8
  import Reg = Registries

  datatype Step =
    | Connect(client: nat)
    | Disconnect(client: nat)
    | Identify(client: nat, key: nat)
    | Subscribe(client: nat, feed: nat)
    | NewThread(thread: nat, time: nat, subject: string)
    | ThreadStep(thread: nat, req: ThreadReq)
    | Clean(threshold: nat)
    | Pulse(choice: Choice)

  /** Client IDs are fresh, keys are set once, thread IDs are fresh and not zero,
      and a pulse's schedule fits the state. */
  predicate Legal(s: Sys, step: Step) {
    match step
    case Connect(c) => c !in s.reg.clients
    case Identify(c, _) => c in s.reg.clients ==> s.reg.clients[c].pubKey.None?
    case NewThread(t, _, _) => t != 0 && t !in s.pul.feeds
    case Pulse(ch) => ValidChoice(Drained(s), ch)
    case _ => true
  }

  function Next(b: Bodies, s: Sys, step: Step): Sys
    requires Legal(s, step)
  {
    match step
    case Connect(c) => s.(reg := Reg.AddClient(s.reg, c))
    case Disconnect(c) => s.(reg := Reg.RemoveClient(s.reg, c))
    case Identify(c, key) => s.(reg := Reg.SetClientKey(s.reg, c, key))
    case Subscribe(c, f) => s.(reg := Reg.SetClientThread(s.reg, c, f))
    case NewThread(t, time, subject) => s.(pul := InsertThreadReq(s.pul, t, time, subject))
    case ThreadStep(t, req) => s.(pul := ModThread(s.pul, t, req))
    case Clean(threshold) => s.(pul := CleanUpReq(s.pul, threshold))
    case Pulse(ch) => PulseState(b, s, ch)
  }

  /** What the clients are sent in a step. */
  function Out(k: Keying, b: Bodies, s: Sys, step: Step): map<nat, Msg>
    requires Legal(s, step)
  {
    if step.Pulse? then PulseOut(k, b, s, step.choice) else map[]
  }

  function Removed(f: Feed, threshold: nat): map<nat, nat> {
    map id | id in f.data.recentPosts && id !in CleanFeed(f, threshold).data.recentPosts :: f.data.recentPosts[id]
  }

  /** Recent posts cleaned up since each feed's caches were last cleared. */
  function NextDropped(s: Sys, step: Step, dropped: map<nat, map<nat, nat>>): map<nat, map<nat, nat>> {
    match step
    case NewThread(t, _, _) => dropped[t := map[]]
    case ThreadStep(t, _) => dropped[t := map[]]
    case Clean(threshold) =>
      map id | id in dropped ::
        if id in s.pul.feeds then dropped[id] + Removed(s.pul.feeds[id], threshold) else dropped[id]
    case _ => dropped
  }

  // --------------------------------------------------------- one step's effect

  lemma HandleKeepsOk(f: Feed, req: ThreadReq, dropped: map<nat, nat>)
    requires FeedOk(f, dropped)
    ensures var g := Handle(ClearCache(f), req);
            FeedOk(g, map[]) && g.id == f.id && g.needInit == f.needInit
  {
  }

  lemma CleanKeepsCache(f: Feed, threshold: nat, dropped: map<nat, nat>)
    requires CacheOk(f, dropped)
    ensures CacheOk(CleanFeed(f, threshold), dropped + Removed(f, threshold))
  {
    var g := CleanFeed(f, threshold);
    if f.initCache.Some? && IsInit(f.initCache.value) {
      CleanServes(f.initCache.value.msgs[0].data, f.data, g.data, dropped, Removed(f, threshold));
    }
    if f.globalPart.Some? && IsInit(f.globalPart.value) {
      CleanedIndex(f, threshold, dropped);
      CleanServes(f.globalPart.value.msgs[0].data, GlobalData(f), GlobalData(g), Select(f, dropped),
        Select(f, Removed(f, threshold)));
    }
  }

  /** Data that served before still does, given what was removed. */
  lemma CleanServes(d: FeedData, before: FeedData, after: FeedData, dropped: map<nat, nat>, removed: map<nat, nat>)
    requires Serves(d, before, dropped)
    requires after.thread == before.thread && after.openPosts == before.openPosts
    requires SubMap(after.recentPosts, before.recentPosts)
    requires forall id :: id in before.recentPosts && id !in after.recentPosts ==>
               id in removed && removed[id] == before.recentPosts[id]
    requires forall id :: id in removed ==>
               id !in after.recentPosts && id in before.recentPosts && removed[id] == before.recentPosts[id]
    requires forall id :: id in dropped ==> id !in before.recentPosts
    ensures Serves(d, after, dropped + removed)
  {
  }

  lemma CleanedIndex(f: Feed, threshold: nat, dropped: map<nat, nat>)
    ensures var g, removed := CleanFeed(f, threshold), Removed(f, threshold);
            && GlobalData(g).thread == GlobalData(f).thread
            && GlobalData(g).openPosts == GlobalData(f).openPosts
            && SubMap(GlobalData(g).recentPosts, GlobalData(f).recentPosts)
            && Select(g, dropped + removed) == Select(f, dropped) + Select(f, removed)
  {
  }

  lemma StepKeepsOk(b: Bodies, s: Sys, step: Step, dropped: map<nat, map<nat, nat>>)
    requires SafeBodies(b) && SysOk(s, dropped) && Legal(s, step)
    ensures SysOk(Next(b, s, step), NextDropped(s, step, dropped))
  {
    match step
    case Connect(c) => Reg.AddClientExact(s.reg, c);
    case Disconnect(c) => Reg.RemoveClientConsistent(s.reg, c);
    case Identify(c, key) => Reg.SetClientKeyExact(s.reg, c, key);
    case Subscribe(c, f) => Reg.SetClientThreadConsistent(s.reg, c, f);
    case NewThread(t, time, subject) => NewThreadKeepsOk(s, t, time, subject, dropped);
    case ThreadStep(t, req) => RequestKeepsOk(s, t, req, dropped);
    case Clean(threshold) => CleanKeepsOk(s, threshold, dropped);
    case Pulse(ch) => PulseKeepsOk(b, s, ch, dropped);
  }

  lemma NewThreadKeepsOk(s: Sys, t: nat, time: nat, subject: string, dropped: map<nat, map<nat, nat>>)
    requires SysOk(s, dropped) && t != 0
    ensures SysOk(s.(pul := InsertThreadReq(s.pul, t, time, subject)), dropped[t := map[]])
  {
    var empty := NewFeed(FeedData(t, map[], map[]), []);
    assert FeedOk(AddPost(empty, t, time), map[]);
    assert t in InsertThreadReq(s.pul, t, time, subject).feeds;
  }

  lemma RequestKeepsOk(s: Sys, t: nat, req: ThreadReq, dropped: map<nat, map<nat, nat>>)
    requires SysOk(s, dropped)
    ensures SysOk(s.(pul := ModThread(s.pul, t, req)), dropped[t := map[]])
  {
    if t in s.pul.feeds {
      HandleKeepsOk(s.pul.feeds[t], req, dropped[t]);
      assert t in ModThread(s.pul, t, req).feeds;
    }
  }

  lemma CleanKeepsOk(s: Sys, threshold: nat, dropped: map<nat, map<nat, nat>>)
    requires SysOk(s, dropped)
    ensures SysOk(s.(pul := CleanUpReq(s.pul, threshold)), NextDropped(s, Clean(threshold), dropped))
  {
    var p := CleanUpReq(s.pul, threshold);
    var d := NextDropped(s, Clean(threshold), dropped);
    assert p.feeds.Keys == s.pul.feeds.Keys;
    forall id | id in p.feeds
      ensures id in d && FeedOk(p.feeds[id], d[id]) && p.feeds[id].id == id && p.feeds[id].needInit == {}
    {
      CleanKeepsCache(s.pul.feeds[id], threshold, dropped[id]);
    }
    if s.pul.feeds != map[] {
      var id :| id in s.pul.feeds;
      assert id in p.feeds;
    }
  }

  // --------------------------------------------------------------- whole runs

  predicate AllLegal(b: Bodies, s: Sys, steps: seq<Step>)
    decreases |steps|
  {
    steps != [] ==> Legal(s, steps[0]) && AllLegal(b, Next(b, s, steps[0]), steps[1..])
  }

  function Final(b: Bodies, s: Sys, steps: seq<Step>): Sys
    requires AllLegal(b, s, steps)
    decreases |steps|
  {
    if steps == [] then s else Final(b, Next(b, s, steps[0]), steps[1..])
  }

  function FinalDropped(b: Bodies, s: Sys, steps: seq<Step>, dropped: map<nat, map<nat, nat>>): map<nat, map<nat, nat>>
    requires AllLegal(b, s, steps)
    decreases |steps|
  {
    if steps == [] then dropped
    else FinalDropped(b, Next(b, s, steps[0]), steps[1..], NextDropped(s, steps[0], dropped))
  }

  /** In every reachable state: the registry is consistent; a cached init message
      or global part exists only while its feed has no pending body, and holds
      the current open posts and the current recent posts, plus at most posts
      cleaned up since; no thread feed has waiting clients; and no body or
      pending event holds a node that must not reach clients. */
  lemma {:induction false} RunKeepsOk(b: Bodies, s: Sys, steps: seq<Step>, dropped: map<nat, map<nat, nat>>)
    requires SafeBodies(b) && SysOk(s, dropped) && AllLegal(b, s, steps)
    ensures SysOk(Final(b, s, steps), FinalDropped(b, s, steps, dropped))
    decreases |steps|
  {
    if steps == [] {
    } else {
      StepKeepsOk(b, s, steps[0], dropped);
      RunKeepsOk(b, Next(b, s, steps[0]), steps[1..], NextDropped(s, steps[0], dropped));
    }
  }

  /** The state after loading the threads' data at start-up. */
  function Loaded(data: map<nat, FeedData>, heaps: map<nat, seq<nat>>): Sys
    requires heaps.Keys == data.Keys
  {
    Sys(Reg.EMPTY, Pulsar(map t | t in data :: NewFeed(data[t], heaps[t]), Global({}, None, None)))
  }

  lemma LoadedIsOk(data: map<nat, FeedData>, heaps: map<nat, seq<nat>>)
    requires heaps.Keys == data.Keys && 0 !in data
    requires forall t :: t in data ==> data[t].thread == t && SafeData(data[t])
    ensures SysOk(Loaded(data, heaps), map t | t in data :: map[])
  {
  }

  // -------------------------------------------------------- a client's stream

  function FeedEvents(es: seq<Event>): seq<Event> {
    if es == [] then []
    else (if IsFeedEvent(es[0]) then [es[0]] else []) + FeedEvents(es[1..])
  }

  function InitCount(es: seq<Event>): nat {
    if es == [] then 0 else (if es[0].FeedInit? then 1 else 0) + InitCount(es[1..])
  }

  lemma {:induction false} Counting(a: seq<Event>, b: seq<Event>)
    ensures FeedEvents(a + b) == FeedEvents(a) + FeedEvents(b)
    ensures InitCount(a + b) == InitCount(a) + InitCount(b)
  {
    if a == [] {
      assert a + b == b;
    } else {
      Counting(a[1..], b);
      assert (a + b)[1..] == a[1..] + b;
      Assoc(if IsFeedEvent(a[0]) then [a[0]] else [], FeedEvents(a[1..]), FeedEvents(b));
    }
  }

  lemma {:induction false} AllFeedEvents(es: seq<Event>)
    requires forall e :: e in es ==> IsFeedEvent(e)
    ensures FeedEvents(es) == es && InitCount(es) == 0
  {
    if es == [] {
    } else {
      assert es[0] in es && forall e :: e in es[1..] ==> e in es;
      AllFeedEvents(es[1..]);
    }
  }

  lemma {:induction false} AllNotices(es: seq<Event>)
    requires forall e :: e in es ==> e.InsertThread?
    ensures FeedEvents(es) == [] && InitCount(es) == 0
  {
    if es == [] {
    } else {
      assert es[0] in es && forall e :: e in es[1..] ==> e in es;
      AllNotices(es[1..]);
    }
  }

  lemma {:induction false} PatchesAreFeedEvents(cs: seq<Change>)
    ensures forall e :: e in Patches(cs) ==> IsFeedEvent(e)
  {
    if cs == [] {
    } else {
      PatchesAreFeedEvents(cs[1..]);
    }
  }

  /** Is the client subscribed to this feed? */
  predicate On(s: Sys, c: nat, t: nat) {
    c in s.reg.clients && s.reg.clients[c].thread == Some(t)
  }

  predicate Waits(s: Sys, c: nat, t: nat) {
    Has(s.reg.needInit, t, c)
  }

  /** The state after the snapshot, with the facts every use needs. */
  lemma SnapshotFacts(s: Sys, dropped: map<nat, map<nat, nat>>, t: nat, c: nat)
    requires SysOk(s, dropped) && t in s.pul.feeds
    ensures DrainedOk(Drained(s), dropped)
    ensures Drained(s).reg.clients == s.reg.clients
    ensures c in Drained(s).pul.feeds[t].needInit <==> Waits(s, c, t)
    ensures PendingEvents(Drained(s).pul.feeds[t]) == PendingEvents(s.pul.feeds[t])
  {
    DrainedIsOk(s, dropped);
  }

  lemma OutgoingIsFeedEvents(b: Bodies, s: Sys, ch: Choice, dropped: map<nat, map<nat, nat>>, t: nat)
    requires DrainedOk(s, dropped) && ValidChoice(s, ch) && t in s.pul.feeds
    ensures forall e :: e in Outgoing(b, s, ch, t) ==> IsFeedEvent(e)
  {
    PatchesAreFeedEvents(ChangesOf(b, s.pul.feeds[t], ch.orders[t]));
  }

  lemma CountHeard(ft: seq<Event>, o: seq<Event>, server: seq<Event>, waits: bool)
    requires (forall e :: e in o ==> IsFeedEvent(e)) && (forall e :: e in server ==> e.InsertThread?)
    requires if waits then ft != [] && ft[0].FeedInit? && ft[1..] == o else ft == o
    ensures FeedEvents(ft + server) == o && InitCount(ft + server) == AsNat(waits)
  {
    AllFeedEvents(o);
    AllNotices(server);
    Counting(ft, server);
  }

  /** What a pulse takes from the client's feed for it. */
  ghost predicate TakenFrom(ft: seq<Event>, o: seq<Event>, waits: bool, t: nat) {
    && (forall e :: e in o ==> IsFeedEvent(e))
    && (if waits then ft != [] && ft[0].FeedInit? && ft[0].data.thread == t && ft[1..] == o else ft == o)
  }

  lemma FeedForClient(b: Bodies, d: Sys, ch: Choice, dropped: map<nat, map<nat, nat>>, c: nat, t: nat)
    requires SafeBodies(b) && DrainedOk(d, dropped) && ValidChoice(d, ch) && On(d, c, t) && t in d.pul.feeds
    ensures TakenFrom(FromThreads(ByClient, b, d, ch, c), Outgoing(b, d, ch, t), c in d.pul.feeds[t].needInit, t)
  {
    ThreadHeard(b, d, ch, dropped, c, t);
    OutgoingIsFeedEvents(b, d, ch, dropped, t);
  }

  lemma UnknownFeedForClient(b: Bodies, s: Sys, ch: Choice, dropped: map<nat, map<nat, nat>>, c: nat, t: nat)
    requires SafeBodies(b) && SysOk(s, dropped) && ValidChoice(Drained(s), ch) && On(s, c, t) && t !in s.pul.feeds
    ensures FromThreads(ByClient, b, Drained(s), ch, c) == []
  {
    DrainedIsOk(s, dropped);
    ThreadHeard(b, Drained(s), ch, dropped, c, t);
  }

  function PendingOf(s: Sys, t: nat): seq<Event> {
    if t in s.pul.feeds then PendingEvents(s.pul.feeds[t]) else []
  }

  /** The patches a pulse writes for a feed's clients. */
  function PulsePatches(b: Bodies, d: Sys, ch: Choice, t: nat): seq<Event>
    requires ValidChoice(d, ch)
  {
    if t in d.pul.feeds && IsProcessed(d, t) then Patches(ChangesOf(b, d.pul.feeds[t], ch.orders[t])) else []
  }

  lemma OutgoingOfSubscribed(b: Bodies, d: Sys, ch: Choice, c: nat, t: nat)
    requires ValidChoice(d, ch) && t in d.pul.feeds && Has(d.reg.byThread, t, c)
    ensures Outgoing(b, d, ch, t) == PendingEvents(d.pul.feeds[t]) + PulsePatches(b, d, ch, t)
  {
  }

  /** A client on a thread feed, in a pulse: the feed events it hears are exactly
      what the feed has to send, and it hears one init message exactly if it was
      waiting for it. */
  lemma PulseForClient(b: Bodies, s: Sys, ch: Choice, dropped: map<nat, map<nat, nat>>, c: nat, t: nat)
    requires SafeBodies(b) && SysOk(s, dropped) && ValidChoice(Drained(s), ch) && On(s, c, t) && t != 0
    ensures var h := Heard(PulseOut(ByClient, b, s, ch), c);
            && FeedEvents(h) == PendingOf(s, t) + PulsePatches(b, Drained(s), ch, t)
            && InitCount(h) == AsNat(Waits(s, c, t) && t in s.pul.feeds)
            && (Waits(s, c, t) && t in s.pul.feeds ==> h != [] && h[0].FeedInit? && h[0].data.thread == t)
  {
    PulseHeard(ByClient, b, s, ch, c);
    var ft := FromThreads(ByClient, b, Drained(s), ch, c);
    if t in s.pul.feeds {
      SnapshotFacts(s, dropped, t, c);
      FeedForClient(b, Drained(s), ch, dropped, c, t);
      assert Has(s.reg.byThread, t, c);
      OutgoingOfSubscribed(b, Drained(s), ch, c, t);
      CountHeard(ft, Outgoing(b, Drained(s), ch, t), ServerWide(s), Waits(s, c, t));
    } else {
      UnknownFeedForClient(b, s, ch, dropped, c, t);
      CountHeard(ft, [], ServerWide(s), false);
    }
  }

  /** Events a request about a thread writes for the feed's clients. */
  function RequestEvents(f: Feed, req: ThreadReq): seq<Event> {
    match req
    case NewPost(id, time, page) => [InsertPost(id, f.id, time, page)]
    case NewImage(post, spoilered, image) =>
      if post in f.data.openPosts then [InsertImage(post, spoilered, image)] else []
    case NewBody(_, _) => []
  }

  /** Events a step writes for a feed's clients. */
  function Emitted(b: Bodies, s: Sys, step: Step, t: nat): seq<Event>
    requires Legal(s, step)
  {
    match step
    case Pulse(ch) => PulsePatches(b, Drained(s), ch, t)
    case ThreadStep(t', req) => if t' == t && t in s.pul.feeds then RequestEvents(s.pul.feeds[t], req) else []
    case _ => []
  }

  lemma StepForClient(b: Bodies, s: Sys, step: Step, dropped: map<nat, map<nat, nat>>, c: nat, t: nat)
    requires SafeBodies(b) && SysOk(s, dropped) && Legal(s, step) && On(s, c, t) && t != 0
    ensures FeedEvents(Heard(Out(ByClient, b, s, step), c)) + PendingOf(Next(b, s, step), t) ==
            PendingOf(s, t) + Emitted(b, s, step, t)
  {
    if step.Pulse? {
      PulseStepForClient(b, s, step.choice, dropped, c, t);
    } else {
      assert FeedEvents(Heard(Out(ByClient, b, s, step), c)) == [];
      RequestPending(b, s, step, t);
    }
  }

  lemma PulseStepForClient(b: Bodies, s: Sys, ch: Choice, dropped: map<nat, map<nat, nat>>, c: nat, t: nat)
    requires SafeBodies(b) && SysOk(s, dropped) && ValidChoice(Drained(s), ch) && On(s, c, t) && t != 0
    ensures FeedEvents(Heard(PulseOut(ByClient, b, s, ch), c)) + PendingOf(PulseState(b, s, ch), t)
              == PendingOf(s, t) + PulsePatches(b, Drained(s), ch, t)
  {
    PulseForClient(b, s, ch, dropped, c, t);
    PulseEmptiesPending(b, s, ch, dropped, c, t);
    NothingAfter(FeedEvents(Heard(PulseOut(ByClient, b, s, ch), c)), PendingOf(PulseState(b, s, ch), t));
  }

  lemma NothingAfter(h: seq<Event>, rest: seq<Event>)
    requires rest == []
    ensures h + rest == h
  {
  }

  lemma RequestPending(b: Bodies, s: Sys, step: Step, t: nat)
    requires Legal(s, step) && !step.Pulse?
    ensures PendingOf(Next(b, s, step), t) == PendingOf(s, t) + Emitted(b, s, step, t)
  {
    if t in s.pul.feeds && step.ThreadStep? && step.thread == t {
      HandleWrites(s.pul.feeds[t], step.req);
    }
  }

  lemma HandleWrites(f: Feed, req: ThreadReq)
    ensures PendingEvents(Handle(ClearCache(f), req)) == PendingEvents(f) + RequestEvents(f, req)
  {
  }

  lemma PulseEmptiesPending(b: Bodies, s: Sys, ch: Choice, dropped: map<nat, map<nat, nat>>, c: nat, t: nat)
    requires SafeBodies(b) && SysOk(s, dropped) && ValidChoice(Drained(s), ch) && On(s, c, t)
    ensures PendingOf(PulseState(b, s, ch), t) == []
  {
    DrainedIsOk(s, dropped);
    assert Has(s.reg.byThread, t, c);
    if t in s.pul.feeds {
      RoundEmptiesPending(b, Drained(s), ch, dropped, t);
      assert PulseState(b, s, ch).pul.feeds[t] == Round(b, Drained(s), ch, t).0;
    }
  }

  lemma RoundEmptiesPending(b: Bodies, d: Sys, ch: Choice, dropped: map<nat, map<nat, nat>>, t: nat)
    requires SafeBodies(b) && DrainedOk(d, dropped) && ValidChoice(d, ch)
    requires t in d.pul.feeds && Get(d.reg.byThread, t).Some?
    ensures PendingEvents(Round(b, d, ch, t).0) == []
  {
  }

  /** The client stays on the feed throughout the run. */
  predicate Stays(b: Bodies, s: Sys, steps: seq<Step>, c: nat, t: nat)
    requires AllLegal(b, s, steps)
    decreases |steps|
  {
    On(s, c, t) && (steps != [] ==> Stays(b, Next(b, s, steps[0]), steps[1..], c, t))
  }

  function HeardInRun(b: Bodies, s: Sys, steps: seq<Step>, c: nat): seq<Event>
    requires AllLegal(b, s, steps)
    decreases |steps|
  {
    if steps == [] then []
    else FeedEvents(Heard(Out(ByClient, b, s, steps[0]), c)) + HeardInRun(b, Next(b, s, steps[0]), steps[1..], c)
  }

  function EmittedInRun(b: Bodies, s: Sys, steps: seq<Step>, t: nat): seq<Event>
    requires AllLegal(b, s, steps)
    decreases |steps|
  {
    if steps == [] then [] else Emitted(b, s, steps[0], t) + EmittedInRun(b, Next(b, s, steps[0]), steps[1..], t)
  }

  /** Conservation of a feed's stream. Over any run during which a client stays on
      a thread feed, what it hears of the feed, followed by what is still pending,
      is what was pending at first, followed by everything written since: nothing
      is lost, duplicated or reordered. */
  lemma {:induction false} StreamIsComplete(b: Bodies, s: Sys, steps: seq<Step>, dropped: map<nat, map<nat, nat>>,
                                            c: nat, t: nat)
    requires SafeBodies(b) && SysOk(s, dropped) && AllLegal(b, s, steps) && t != 0 && Stays(b, s, steps, c, t)
    ensures HeardInRun(b, s, steps, c) + PendingOf(Final(b, s, steps), t) ==
            PendingOf(s, t) + EmittedInRun(b, s, steps, t)
    decreases |steps|
  {
    if steps == [] {
    } else {
      var s' := Next(b, s, steps[0]);
      StepForClient(b, s, steps[0], dropped, c, t);
      StepKeepsOk(b, s, steps[0], dropped);
      StreamIsComplete(b, s', steps[1..], NextDropped(s, steps[0], dropped), c, t);
      Reassociate(
        FeedEvents(Heard(Out(ByClient, b, s, steps[0]), c)), HeardInRun(b, s', steps[1..], c),
          PendingOf(Final(b, s, steps), t),
        PendingOf(s', t), PendingOf(s, t), Emitted(b, s, steps[0], t), EmittedInRun(b, s', steps[1..], t));
    }
  }

  lemma Reassociate(h: seq<Event>, hs: seq<Event>, last: seq<Event>, mid: seq<Event>, first: seq<Event>,
                    e: seq<Event>, es: seq<Event>)
    requires h + mid == first + e && hs + last == mid + es
    ensures h + hs + last == first + (e + es)
  {
    assert h + hs + last == h + (hs + last);
    assert h + (mid + es) == h + mid + es;
    assert first + e + es == first + (e + es);
  }

  // ------------------------------------------------- initialisation, once each

  function AsNat(p: bool): nat {
    if p then 1 else 0
  }

  /** The step asks for an initialisation of the client by the feed. */
  function Asked(s: Sys, step: Step, c: nat, t: nat): nat {
    AsNat(step == Subscribe(c, t) && c in s.reg.clients)
  }

  /** The step withdraws one: the client moves on or leaves before it came. */
  function Withdrawn(s: Sys, step: Step, c: nat, t: nat): nat {
    AsNat((step == Disconnect(c) || (step.Subscribe? && step.client == c)) && Waits(s, c, t))
  }

  /** The init messages the client hears from the feed in the step. */
  function Served(b: Bodies, s: Sys, step: Step, c: nat, t: nat): nat
    requires Legal(s, step)
  {
    if On(s, c, t) then InitCount(Heard(Out(ByClient, b, s, step), c)) else 0
  }

  lemma StepAccounts(b: Bodies, s: Sys, step: Step, dropped: map<nat, map<nat, nat>>, c: nat, t: nat)
    requires SafeBodies(b) && SysOk(s, dropped) && Legal(s, step) && t != 0
    ensures AsNat(Waits(s, c, t)) + Asked(s, step, c, t) ==
            AsNat(Waits(Next(b, s, step), c, t)) + Withdrawn(s, step, c, t) + Served(b, s, step, c, t)
  {
    if step.Pulse? {
      DrainedIsOk(s, dropped);
      Reg.DrainConsistent(s.reg, s.pul.feeds.Keys);
      assert Waits(s, c, t) ==> On(s, c, t) by { assert Waits(s, c, t) ==> Has(s.reg.byThread, t, c); }
      assert PulseState(b, s, step.choice).reg == Drained(s).reg;
      if On(s, c, t) {
        PulseForClient(b, s, step.choice, dropped, c, t);
      }
    } else {
      assert Out(ByClient, b, s, step) == map[];
      RegistryAccounts(b, s, step, c, t);
    }
  }

  lemma RegistryAccounts(b: Bodies, s: Sys, step: Step, c: nat, t: nat)
    requires Reg.Consistent(s.reg) && Legal(s, step) && !step.Pulse?
    ensures AsNat(Waits(s, c, t)) + Asked(s, step, c, t) ==
            AsNat(Waits(Next(b, s, step), c, t)) + Withdrawn(s, step, c, t)
  {
  }

  /** Sums over a run. */
  function AskedInRun(b: Bodies, s: Sys, steps: seq<Step>, c: nat, t: nat): nat
    requires AllLegal(b, s, steps)
    decreases |steps|
  {
    if steps == [] then 0 else Asked(s, steps[0], c, t) + AskedInRun(b, Next(b, s, steps[0]), steps[1..], c, t)
  }

  function WithdrawnInRun(b: Bodies, s: Sys, steps: seq<Step>, c: nat, t: nat): nat
    requires AllLegal(b, s, steps)
    decreases |steps|
  {
    if steps == [] then 0 else Withdrawn(s, steps[0], c, t) + WithdrawnInRun(b, Next(b, s, steps[0]), steps[1..], c, t)
  }

  function ServedInRun(b: Bodies, s: Sys, steps: seq<Step>, c: nat, t: nat): nat
    requires AllLegal(b, s, steps)
    decreases |steps|
  {
    if steps == [] then 0 else Served(b, s, steps[0], c, t) + ServedInRun(b, Next(b, s, steps[0]), steps[1..], c, t)
  }

  /** Exactly-once initialisation. Over every run, each subscription of a client to
      a thread feed is answered with one init message, withdrawn because the
      client moved or left first, or still waiting, and no init message comes
      without a subscription. */
  lemma {:induction false} InitExactlyOnce(b: Bodies, s: Sys, steps: seq<Step>, dropped: map<nat, map<nat, nat>>,
                                           c: nat, t: nat)
    requires SafeBodies(b) && SysOk(s, dropped) && AllLegal(b, s, steps) && t != 0
    ensures AsNat(Waits(s, c, t)) + AskedInRun(b, s, steps, c, t) ==
            AsNat(Waits(Final(b, s, steps), c, t)) + WithdrawnInRun(b, s, steps, c, t) + ServedInRun(b, s, steps, c, t)
    decreases |steps|
  {
    if steps == [] {
    } else {
      StepAccounts(b, s, steps[0], dropped, c, t);
      StepKeepsOk(b, s, steps[0], dropped);
      InitExactlyOnce(b, Next(b, s, steps[0]), steps[1..], NextDropped(s, steps[0], dropped), c, t);
    }
  }

  /** After a pulse a client waits for a thread feed only if the feed is unknown. */
  lemma OnlyUnknownFeedsAreAwaited(b: Bodies, s: Sys, ch: Choice, dropped: map<nat, map<nat, nat>>, c: nat, t: nat)
    requires SysOk(s, dropped) && ValidChoice(Drained(s), ch)
    ensures Waits(PulseState(b, s, ch), c, t) <==> Waits(s, c, t) && t != 0 && t !in s.pul.feeds
  {
  }

  // -------------------------------------------------------- the global feed

  lemma {:induction false} CollectedInits(order: seq<nat>, f: map<nat, seq<Msg>>)
    requires Elements(order) <= f.Keys
    requires forall id :: id in Elements(order) ==> |f[id]| == 1 && IsInit(f[id][0])
    ensures |Codec.Contents(Collect(order, f))| == |order|
    ensures forall i :: 0 <= i < |order| ==>
              && order[i] in Elements(order)
              && IsInit(f[order[i]][0])
              && Codec.Contents(Collect(order, f))[i] == f[order[i]][0].msgs[0]
    decreases |order|
  {
    if order != [] {
      var id, rest := order[0], order[1..];
      assert id in Elements(order) && Elements(rest) <= Elements(order);
      CollectedInits(rest, f);
      ContentsConcat(f[id], Collect(rest, f));
      assert f[id] == [f[id][0]];
      ContentsOne(f[id][0]);
      var all := Codec.Contents(Collect(order, f));
      assert all == [f[id][0].msgs[0]] + Codec.Contents(Collect(rest, f));
      forall i | 0 <= i < |order|
        ensures order[i] in Elements(order) && all[i] == f[order[i]][0].msgs[0]
      {
        if i > 0 {
          assert rest[i - 1] == order[i];
        }
      }
    } else {
      assert Codec.Contents<Event>([]) == [];
    }
  }

  /** Data serving the global index for one feed after a pulse. */
  ghost predicate ServesIndex(e: Event, f: Feed, dropped: map<nat, nat>) {
    e.FeedInit? && e.data.thread == f.id && Serves(e.data, GlobalData(f), Select(f, dropped))
  }

  /** `h` begins with one index part for each feed of `order`. */
  ghost predicate IndexServed(h: seq<Event>, order: seq<nat>, feeds: map<nat, Feed>, dropped: map<nat, map<nat, nat>>) {
    && |order| <= |h|
    && forall i :: 0 <= i < |order| ==>
         order[i] in feeds && order[i] in dropped && ServesIndex(h[i], feeds[order[i]], dropped[order[i]])
  }

  lemma IndexParts(b: Bodies, d: Sys, ch: Choice, dropped: map<nat, map<nat, nat>>) returns (order: seq<nat>)
    requires SafeBodies(b) && DrainedOk(d, dropped) && ValidChoice(d, ch) && BuildGlobal(d.pul)
    ensures Permutes(order, Leaves(ch.tree)) && Elements(order) == d.pul.feeds.Keys
    ensures |Codec.Contents(Merged(b, d, ch).parts)| == |order|
    ensures IndexServed(Codec.Contents(Merged(b, d, ch).parts), order, NewFeeds(b, d, ch), dropped)
  {
    SetsAreDisjoint(b, d, ch);
    var sets := Sets(b, d, ch);
    var msgs;
    order, msgs := ReduceIsUnion(ch.tree, sets);
    var parts := PartsOf(sets);
    forall id | id in d.pul.feeds
      ensures |parts[id]| == 1 && IsInit(parts[id][0]) &&
              ServesIndex(parts[id][0].msgs[0], Round(b, d, ch, id).0, dropped[id])
    {
      ProcessParts(b, d.pul.feeds[id], ch.orders[id], Get(d.reg.byThread, id), true, dropped[id]);
      ProcessSpec(b, d.pul.feeds[id], ch.orders[id], Get(d.reg.byThread, id), true, dropped[id]);
    }
    CollectedInits(order, parts);
  }

  /** The client waits for an initialisation of the global index. */
  predicate WaitsForIndex(s: Sys, c: nat) {
    c in s.pul.global.needInit || Waits(s, c, 0)
  }

  /** If any feed exists, every client that waits for the global index and is
      still on it hears, first of all in that pulse, one init part per feed, each
      holding what the index shows of it now, but for recent posts cleaned up. */
  lemma IndexIsServed(k: Keying, b: Bodies, s: Sys, ch: Choice, dropped: map<nat, map<nat, nat>>, c: nat)
    returns (order: seq<nat>)
    requires SafeBodies(b) && SysOk(s, dropped) && ValidChoice(Drained(s), ch) &&
             (k == AsWritten ==> 0 !in s.reg.clients)
    requires On(s, c, 0) && WaitsForIndex(s, c) && s.pul.feeds != map[]
    ensures Permutes(order, Leaves(ch.tree)) && Elements(order) == s.pul.feeds.Keys
    ensures IndexServed(Heard(PulseOut(k, b, s, ch), c), order, PulseState(b, s, ch).pul.feeds, dropped)
    ensures PulseState(b, s, ch).pul.global.needInit == {}
  {
    order := IndexOrder(b, s, ch, dropped, c);
    IndexIsSent(b, s, ch, order);
    IndexHeard(k, b, s, ch, c);
    var ms := Merged(b, Drained(s), ch);
    IndexServedFirst(Codec.Contents(ms.parts), Codec.Contents(ms.feedMsgs), ServerWide(s), order,
      NewFeeds(b, Drained(s), ch), dropped);
  }

  lemma IndexOrder(b: Bodies, s: Sys, ch: Choice, dropped: map<nat, map<nat, nat>>, c: nat) returns (order: seq<nat>)
    requires SafeBodies(b) && SysOk(s, dropped) && ValidChoice(Drained(s), ch) && WaitsForIndex(s, c)
    ensures Permutes(order, Leaves(ch.tree)) && Elements(order) == s.pul.feeds.Keys
    ensures |Codec.Contents(Merged(b, Drained(s), ch).parts)| == |order|
    ensures IndexServed(Codec.Contents(Merged(b, Drained(s), ch).parts), order, NewFeeds(b, Drained(s), ch), dropped)
  {
    DrainedIsOk(s, dropped);
    assert c in Drained(s).pul.global.needInit;
    order := IndexParts(b, Drained(s), ch, dropped);
  }

  lemma IndexHeard(k: Keying, b: Bodies, s: Sys, ch: Choice, c: nat)
    requires ValidChoice(Drained(s), ch) && Reg.Consistent(s.reg) && 0 !in s.pul.feeds
    requires k == AsWritten ==> 0 !in s.reg.clients
    requires On(s, c, 0) && WaitsForIndex(s, c)
    ensures var ms := Merged(b, Drained(s), ch);
            Heard(PulseOut(k, b, s, ch), c) == Codec.Contents(ms.parts) + Codec.Contents(ms.feedMsgs) + ServerWide(s)
  {
    PulseHeard(k, b, s, ch, c);
  }

  lemma IndexServedFirst(inits: seq<Event>, msgs: seq<Event>, server: seq<Event>, order: seq<nat>,
                         feeds: map<nat, Feed>, dropped: map<nat, map<nat, nat>>)
    requires IndexServed(inits, order, feeds, dropped)
    ensures IndexServed(inits + msgs + server, order, feeds, dropped)
  {
  }

  lemma IndexIsSent(b: Bodies, s: Sys, ch: Choice, order: seq<nat>)
    requires ValidChoice(Drained(s), ch) && s.pul.feeds != map[]
    requires Elements(order) == s.pul.feeds.Keys && |Codec.Contents(Merged(b, Drained(s), ch).parts)| == |order|
    ensures PulseState(b, s, ch).pul.feeds == NewFeeds(b, Drained(s), ch)
    ensures PulseState(b, s, ch).pul.global.needInit == {}
  {
  }

  /** With no feed to build an index from, waiting clients are kept waiting. */
  lemma IndexWaitsForFeeds(b: Bodies, s: Sys, ch: Choice, dropped: map<nat, map<nat, nat>>)
    requires SysOk(s, dropped) && ValidChoice(Drained(s), ch) && s.pul.feeds == map[]
    ensures PulseState(b, s, ch).pul.global.needInit == s.pul.global.needInit + Bucket(s.reg.needInit, 0)
  {
    assert Drained(s).pul.feeds.Keys == {};
    ReduceNothing(ch.tree, Sets(b, Drained(s), ch));
  }

  lemma OneLeaf(id: nat)
    ensures Elements(Leaves(One(id))) == {id}
  {
  }

  lemma {:induction false} ReduceNothing(t: Tree, sets: map<nat, MessageSet>)
    requires Elements(Leaves(t)) == {}
    ensures Reduce(t, sets) == NOTHING
  {
    match t
    case Identity =>
    case One(id) => OneLeaf(id);
    case Merge(l, r, _, _, _) =>
      LeavesSplit(t);
      ReduceNothing(l, sets);
      ReduceNothing(r, sets);
  }

  // ------------------------------------------------------------------- safety

  lemma RoundIsSafe(b: Bodies, d: Sys, ch: Choice, dropped: map<nat, map<nat, nat>>, id: nat)
    requires SafeBodies(b) && DrainedOk(d, dropped) && ValidChoice(d, ch) && id in d.pul.feeds
    ensures SafeSet(Round(b, d, ch, id).1)
  {
    if IsProcessed(d, id) {
      ProcessIsSafe(b, d.pul.feeds[id], ch.orders[id], Get(d.reg.byThread, id), BuildGlobal(d.pul), dropped[id]);
    }
  }

  lemma {:induction false} ReduceIsSafe(t: Tree, sets: map<nat, MessageSet>)
    requires Elements(Leaves(t)) <= sets.Keys && forall id :: id in sets ==> SafeSet(sets[id])
    ensures SafeSet(Reduce(t, sets))
  {
    match t
    case Identity =>
    case One(id) => assert id in Elements(Leaves(t));
    case Merge(l, r, _, _, _) =>
      LeavesSplit(t);
      ReduceIsSafe(l, sets);
      ReduceIsSafe(r, sets);
  }

  lemma {:induction false} ContentsAreSafe(ms: seq<Msg>)
    requires forall m :: m in ms ==> SafeMsg(m)
    ensures forall e :: e in Codec.Contents(ms) ==> SafeEvent(e)
  {
    if ms == [] {
    } else {
      assert ms[0] in ms && forall m :: m in ms[1..] ==> m in ms;
      ContentsAreSafe(ms[1..]);
    }
  }

  /** No client is ever sent a pending node or an embed of an open post, neither
      in an init message nor in a patch. */
  lemma EverythingHeardIsSafe(k: Keying, b: Bodies, s: Sys, ch: Choice, dropped: map<nat, map<nat, nat>>, c: nat)
    requires SafeBodies(b) && SysOk(s, dropped) && ValidChoice(Drained(s), ch) &&
             (k == AsWritten ==> 0 !in s.reg.clients)
    ensures forall e :: e in Heard(PulseOut(k, b, s, ch), c) ==> SafeEvent(e)
  {
    var d := Drained(s);
    DrainedIsOk(s, dropped);
    forall id | id in d.pul.feeds
      ensures SafeSet(Sets(b, d, ch)[id])
    {
      RoundIsSafe(b, d, ch, dropped, id);
    }
    ReduceIsSafe(ch.tree, Sets(b, d, ch));
    var ms := Merged(b, d, ch);
    ContentsAreSafe(ms.parts);
    ContentsAreSafe(ms.feedMsgs);
    PulseHeard(k, b, s, ch, c);
  }

  // ------------------------------------------------------------- on the wire

  /** Decoding the bytes written to a client gives exactly the serialised events
      it is said to hear, in order. */
  lemma WireDelivers(z: Codec.Deflate, ser: Event -> Codec.Message, out: map<nat, Msg>, c: nat)
    requires c in out && Codec.Inverse(z)
    requires var wire := Codec.MapBatch(ser, out[c]); Codec.PartsFit(z, wire) && Codec.ChunkSafe(z, wire)
    ensures var r := Codec.Decode(z, Codec.Encode(z, Codec.MapBatch(ser, out[c])));
            && r.Ok?
            && Codec.WellFormed(r.value)
            && Codec.Messages(r.value) == Codec.MapSeq(ser, Heard(out, c))
  {
    Codec.RoundTrip(z, Codec.MapBatch(ser, out[c]));
    Codec.MapContent(ser, out[c]);
  }

  /** The body parser and the differ, as the dispatcher uses them. */
  function BodiesOf(o: Fragments.Oracles, td: Diff.TextDiffer): Bodies {
    Bodies(
      s => match Parser.ParseBody(o, s, true) { case Ok(n) => Some(n) case Err(_) => None },
      (x, y) => Diff.AsOption(Diff.DiffTree(td, x, y)))
  }

  /** Whatever the oracles and the text differ do, no body of an open post and no
      patch holds a pending node or an embed. */
  lemma BodiesAreSafe(o: Fragments.Oracles, td: Diff.TextDiffer)
    ensures SafeBodies(BodiesOf(o, td))
  {
    var b := BodiesOf(o, td);
    forall s | b.parse(s).Some?
      ensures OpenSafe(b.parse(s).value)
    {
      Parser.ParseBodyIsGood(o, s, true);
    }
    forall x, y | OpenSafe(y) && b.diff(x, y).Some?
      ensures PatchSafe(b.diff(x, y).value)
    {
      Diff.PatchIsSafe(td, x, y);
    }
  }

  // ---------------------------------------------------- when a pulse returns

  /** The pending body that a pulse diffs against an open post's, if any. */
  function ToDiff(o: Fragments.Oracles, f: Feed, id: nat): Option<Node> {
    if id in f.pendingBodies && id in f.data.openPosts && Parser.ParseBody(o, f.pendingBodies[id], true).Ok?
    then Some(Parser.ParseBody(o, f.pendingBodies[id], true).value)
    else None
  }

  /** Every diff of the pulse returns. */
  ghost predicate PulseReturns(o: Fragments.Oracles, td: Diff.TextDiffer, d: Sys) {
    forall t, id {:trigger ToDiff(o, d.pul.feeds[t], id)} ::
      t in d.pul.feeds && IsProcessed(d, t) && ToDiff(o, d.pul.feeds[t], id).Some? ==>
        Diff.DiffTree(td, d.pul.feeds[t].data.openPosts[id].body, ToDiff(o, d.pul.feeds[t], id).value) != Diff.Hangs
  }

  /** No pending body of a feed the pulse works on reverses text of the open body. */
  ghost predicate NothingReversed(o: Fragments.Oracles, d: Sys) {
    forall t, id {:trigger ToDiff(o, d.pul.feeds[t], id)} ::
      t in d.pul.feeds && IsProcessed(d, t) && ToDiff(o, d.pul.feeds[t], id).Some? ==>
        Diff.AllTexts(Diff.Unreversed(), d.pul.feeds[t].data.openPosts[id].body, ToDiff(o, d.pul.feeds[t], id).value)
  }

  /** A pulse of the source returns if and only if no pending body it diffs has a
      text reversed behind a common prefix. With the intended differ it always
      returns. */
  lemma PulseReturnsExact(o: Fragments.Oracles, s: Sys)
    ensures PulseReturns(o, Diff.LiteralText, Drained(s)) <==> NothingReversed(o, Drained(s))
    ensures PulseReturns(o, Diff.TrimmedText, Drained(s))
  {
    var d := Drained(s);
    forall t, id | t in d.pul.feeds && IsProcessed(d, t) && ToDiff(o, d.pul.feeds[t], id).Some?
      ensures var prev, next := d.pul.feeds[t].data.openPosts[id].body, ToDiff(o, d.pul.feeds[t], id).value;
              && (Diff.DiffTree(Diff.LiteralText, prev, next) != Diff.Hangs <==>
                Diff.AllTexts(Diff.Unreversed(), prev, next))
              && Diff.DiffTree(Diff.TrimmedText, prev, next) != Diff.Hangs
    {
      Diff.DiffReturnsExact(d.pul.feeds[t].data.openPosts[id].body, ToDiff(o, d.pul.feeds[t], id).value);
    }
  }

  // ------------------------------------------------------- limits and expiry

  lemma {:induction false} AsciiLength(s: string)
    requires forall c :: c in s ==> c < '\U{0080}'
    ensures |Utf8.Encode(s)| == |s|
  {
    if s == [] {
    } else {
      assert s[0] in s && forall c :: c in s[1..] ==> c in s;
      AsciiLength(s[1..]);
    }
  }

  lemma {:induction false} TwoByteLength(s: string)
    requires forall c :: c in s ==> '\U{0080}' <= c < '\U{0800}'
    ensures |Utf8.Encode(s)| == 2 * |s|
  {
    if s == [] {
    } else {
      assert s[0] in s && forall c :: c in s[1..] ==> c in s;
      TwoByteLength(s[1..]);
    }
  }

  /** The client counts characters where the parser counts bytes. Of the texts a
      client may hold exactly those that fit in bytes reach the other clients,
      among them, if the count is right, all ASCII ones. */
  lemma AcceptedTextExact(o: Fragments.Oracles, td: Diff.TextDiffer, d: Drafts.Draft)
    requires Fragments.NeverFails(o)
    ensures BodiesOf(o, td).parse(d.text).Some? <==> |Utf8.Encode(d.text)| <= Parser.MAX_BYTES
    ensures Drafts.Counted(d) && (forall c :: c in d.text ==> c < '\U{0080}') ==> BodiesOf(o, td).parse(d.text).Some?
  {
    Parser.ParseBodyIsGood(o, d.text, true);
    if forall c :: c in d.text ==> c < '\U{0080}' {
      AsciiLength(d.text);
    }
  }

  /** More than 1000 two-byte characters are accepted from the client and then
      dropped on the next pulse. */
  lemma AcceptedTextDropped(o: Fragments.Oracles, td: Diff.TextDiffer, f: Feed, id: nat, text: string)
    requires 1000 < |text| <= Drafts.MAX_LENGTH && forall c :: c in text ==> '\U{0080}' <= c < '\U{0800}'
    ensures Drafts.ApplyEdit(Drafts.Draft(id, f.id, "", 0), Drafts.Append(text)).Ok?
    ensures ChangeOf(BodiesOf(o, td), f.(pendingBodies := f.pendingBodies[id := text]), id).None?
  {
    TwoByteLength(text);
  }

  /** Expiry compares creation times with the time elapsed since fifteen minutes
      ago. That keeps what a threshold in creation time would keep exactly if no
      recent post was created after the first and not after the second, and
      drops nothing exactly if every recent post was created after it. */
  lemma CleanUpExact(f: Feed, elapsed: nat, cutoff: nat)
    requires elapsed <= cutoff < 0x1_0000_0000
    ensures CleanFeed(f, elapsed) == CleanFeed(f, cutoff) <==>
            forall id :: id in f.data.recentPosts ==> !(elapsed < f.data.recentPosts[id] <= cutoff)
    ensures CleanFeed(f, elapsed) == f <==> forall id :: id in f.data.recentPosts ==> f.data.recentPosts[id] > elapsed
  {
    var recent, a, b := f.data.recentPosts, CleanFeed(f, elapsed).data.recentPosts,
      CleanFeed(f, cutoff).data.recentPosts;
    if a == b {
      forall id | id in recent
        ensures !(elapsed < recent[id] <= cutoff)
      {
        assert id in a <==> id in b;
      }
    } else {
      assert exists id :: id in a && id !in b;
    }
    if a == recent {
      assert forall id :: id in recent ==> id in a;
    } else {
      assert exists id :: id in recent && id !in a;
    }
  }
}
