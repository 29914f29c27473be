/** The stream of the thread index, the global feed, over whole runs. Its events
    come from all feeds in no particular order, so they are counted, not listed. */
module IndexStreams {
  import opened Wrappers
  import opened Feeds
  import opened Reduction
  import opened SetMaps
  import opened Pulsars
  import opened Dispatch
  import Codec
  import Reg = Registries

  /** How often an event occurs. */
  function Times(es: seq<Event>, e: Event): nat {
    multiset(es)[e]
  }

  lemma TimesConcat(a: seq<Event>, b: seq<Event>, e: Event)
    ensures Times(a + b, e) == Times(a, e) + Times(b, e)
  {
    assert multiset(a + b) == multiset(a) + multiset(b);
  }

  // ---------------------------------------------------------- sums over feeds

  ghost function Sum(f: map<nat, nat>): nat
    decreases f.Keys
  {
    if f == map[] then 0
    else
      var k :| k in f;
      f[k] + Sum(f - {k})
  }

  lemma {:induction false} SumPick(f: map<nat, nat>, k: nat)
    requires k in f
    ensures Sum(f) == f[k] + Sum(f - {k})
    decreases f.Keys
  {
    var first :| first in f && Sum(f) == f[first] + Sum(f - {first});
    if first != k {
      SumPick(f - {first}, k);
      SumPick(f - {k}, first);
      assert f - {first} - {k} == f - {k} - {first};
    }
  }

  predicate Balance(sent: map<nat, nat>, left: map<nat, nat>, had: map<nat, nat>, more: map<nat, nat>) {
    && sent.Keys == left.Keys == had.Keys == more.Keys
    && forall id :: id in sent ==> sent[id] + left[id] == had[id] + more[id]
  }

  /** Sums of entries that balance, balance. */
  lemma {:induction false} FourSums(sent: map<nat, nat>, left: map<nat, nat>, had: map<nat, nat>, more: map<nat, nat>)
    requires Balance(sent, left, had, more)
    ensures Sum(sent) + Sum(left) == Sum(had) + Sum(more)
    decreases sent.Keys
  {
    if sent.Keys == {} {
      assert sent == map[] && left == map[] && had == map[] && more == map[];
    } else {
      var k :| k in sent.Keys;
      SumPick(sent, k);
      SumPick(left, k);
      SumPick(had, k);
      SumPick(more, k);
      FourSums(sent - {k}, left - {k}, had - {k}, more - {k});
    }
  }

  lemma SumUpdate(f: map<nat, nat>, k: nat, more: nat)
    requires k in f
    ensures Sum(f[k := f[k] + more]) == Sum(f) + more
  {
    var g := f[k := f[k] + more];
    SumPick(f, k);
    SumPick(g, k);
    assert g - {k} == f - {k};
  }

  lemma SumExtend(f: map<nat, nat>, k: nat)
    requires k !in f
    ensures Sum(f[k := 0]) == Sum(f)
  {
    var g := f[k := 0];
    SumPick(g, k);
    assert g - {k} == f;
  }

  /** The contents of feeds' messages, along an order of feeds. */
  function Total(order: seq<nat>, f: map<nat, seq<Msg>>, e: Event): nat
    requires Elements(order) <= f.Keys
  {
    if order == [] then 0
    else
      assert order[0] in Elements(order) && Elements(order[1..]) <= Elements(order);
      Times(Codec.Contents(f[order[0]]), e) + Total(order[1..], f, e)
  }

  lemma {:induction false} TotalConcat(a: seq<nat>, b: seq<nat>, f: map<nat, seq<Msg>>, e: Event)
    requires Elements(a) <= f.Keys && Elements(b) <= f.Keys
    ensures Elements(a + b) <= f.Keys && Total(a + b, f, e) == Total(a, f, e) + Total(b, f, e)
    decreases |a|
  {
    assert Elements(a + b) == Elements(a) + Elements(b);
    if a == [] {
      assert a + b == b;
    } else {
      assert Elements(a[1..]) <= Elements(a);
      TotalConcat(a[1..], b, f, e);
      assert (a + b)[1..] == a[1..] + b;
    }
  }

  function Counts(f: map<nat, seq<Msg>>, ids: set<nat>, e: Event): map<nat, nat> {
    map id | id in ids && id in f :: Times(Codec.Contents(f[id]), e)
  }

  lemma {:induction false} TotalIsSum(order: seq<nat>, ids: set<nat>, f: map<nat, seq<Msg>>, e: Event)
    requires IsOrder(order, ids) && ids <= f.Keys
    ensures Total(order, f, e) == Sum(Counts(f, ids, e))
    decreases |order|
  {
    if order == [] {
      assert Counts(f, ids, e) == map[];
    } else {
      var id, rest := order[0], order[1..];
      assert id in Elements(order);
      RestIsOrder(order, ids);
      TotalIsSum(rest, ids - {id}, f, e);
      SumPick(Counts(f, ids, e), id);
      assert Counts(f, ids, e) - {id} == Counts(f, ids - {id}, e);
    }
  }

  lemma RestIsOrder(order: seq<nat>, ids: set<nat>)
    requires order != [] && IsOrder(order, ids)
    ensures IsOrder(order[1..], ids - {order[0]})
  {
    var rest := order[1..];
    assert order == [order[0]] + rest;
    assert forall i :: 0 <= i < |rest| ==> rest[i] == order[i + 1];
  }

  lemma SwappedTimes(a: seq<Msg>, b: seq<Msg>, swap: bool, e: Event)
    ensures Times(Codec.Contents(Swapped(a, b, swap)), e) == Times(Codec.Contents(a), e) + Times(Codec.Contents(b), e)
  {
    ContentsConcat(a, b);
    ContentsConcat(b, a);
    TimesConcat(Codec.Contents(a), Codec.Contents(b), e);
    TimesConcat(Codec.Contents(b), Codec.Contents(a), e);
  }

  /** However feeds are reduced, their messages to the index all arrive. */
  lemma {:induction false} ReduceTotal(t: Tree, sets: map<nat, MessageSet>, e: Event)
    requires Elements(Leaves(t)) <= sets.Keys
    ensures Times(Codec.Contents(Reduce(t, sets).feedMsgs), e) == Total(Leaves(t), MsgsOf(sets), e)
  {
    match t
    case Identity => assert Codec.Contents<Event>([]) == [];
    case One(id) =>
      assert id in Elements(Leaves(t));
      assert [id][1..] == [];
    case Merge(l, r, _, _, _) =>
      LeavesSplit(t);
      ReduceTotal(l, sets, e);
      ReduceTotal(r, sets, e);
      MergeTotal(t, sets, e);
  }

  lemma MergeTotal(t: Tree, sets: map<nat, MessageSet>, e: Event)
    requires t.Merge? && Elements(Leaves(t)) <= sets.Keys
    requires Elements(Leaves(t.left)) <= sets.Keys && Elements(Leaves(t.right)) <= sets.Keys
    requires Times(Codec.Contents(Reduce(t.left, sets).feedMsgs), e) == Total(Leaves(t.left), MsgsOf(sets), e)
    requires Times(Codec.Contents(Reduce(t.right, sets).feedMsgs), e) == Total(Leaves(t.right), MsgsOf(sets), e)
    ensures Times(Codec.Contents(Reduce(t, sets).feedMsgs), e) == Total(Leaves(t), MsgsOf(sets), e)
  {
    SwappedTimes(Reduce(t.left, sets).feedMsgs, Reduce(t.right, sets).feedMsgs, t.swapMsgs, e);
    TotalConcat(Leaves(t.left), Leaves(t.right), MsgsOf(sets), e);
  }

  // ------------------------------------------------------ one feed's messages

  function GlobalEvents(f: Feed): seq<Event> {
    if f.pendingGlobal.None? then [] else f.pendingGlobal.value
  }

  /** The patches of posts the index shows. */
  function IndexPatches(f: Feed, cs: seq<Change>): seq<Event> {
    if cs == [] then []
    else
      (if cs[0].id == f.data.thread || cs[0].id in f.last5 then [PatchPostBody(cs[0].patch)] else [])
      + IndexPatches(f, cs[1..])
  }

  lemma {:induction false} SameIndex(f: Feed, g: Feed, cs: seq<Change>)
    requires f.last5 == g.last5 && f.data.thread == g.data.thread
    ensures IndexPatches(f, cs) == IndexPatches(g, cs)
  {
    if cs == [] {
    } else {
      SameIndex(f, g, cs[1..]);
    }
  }

  lemma {:induction false} ChangesReachIndex(f: Feed, cs: seq<Change>)
    requires forall c :: c in cs ==> c.id in f.data.openPosts
    ensures GlobalEvents(MakeChanges(f, cs)) == GlobalEvents(f) + IndexPatches(f, cs)
    decreases |cs|
  {
    if cs == [] {
    } else {
      assert cs[0] in cs && forall c :: c in cs[1..] ==> c in cs;
      var f1 := MakeChange(f, cs[0]);
      ChangesReachIndex(f1, cs[1..]);
      SameIndex(f, f1, cs[1..]);
      var e := if InGlobal(f, cs[0].id) then [PatchPostBody(cs[0].patch)] else [];
      assert GlobalEvents(f1) == GlobalEvents(f) + e;
      Assoc(GlobalEvents(f), e, IndexPatches(f, cs[1..]));
    }
  }

  /** The patches a pulse writes to the index for a feed. */
  function RoundPatches(b: Bodies, d: Sys, ch: Choice, id: nat): seq<Event>
    requires ValidChoice(d, ch) && id in d.pul.feeds
  {
    if IsProcessed(d, id) then IndexPatches(d.pul.feeds[id], ChangesOf(b, d.pul.feeds[id], ch.orders[id])) else []
  }

  predicate AllFeedEventsIn(ms: seq<Msg>) {
    forall e :: e in Codec.Contents(ms) ==> IsFeedEvent(e)
  }

  lemma RoundReachesIndex(b: Bodies, d: Sys, ch: Choice, dropped: map<nat, map<nat, nat>>, id: nat)
    requires SafeBodies(b) && DrainedOk(d, dropped) && ValidChoice(d, ch) && id in d.pul.feeds
    ensures var (g, ms) := Round(b, d, ch, id);
            && Codec.Contents(ms.feedMsgs) + GlobalEvents(g) ==
              GlobalEvents(d.pul.feeds[id]) + RoundPatches(b, d, ch, id)
            && AllFeedEventsIn(ms.feedMsgs)
            && (GlobalEvents(g) != [] ==> !IsProcessed(d, id))
  {
    var f, order := d.pul.feeds[id], ch.orders[id];
    if IsProcessed(d, id) {
      DiffReachesIndex(b, f, order, dropped[id]);
      ProcessedToIndex(b, f, order, Get(d.reg.byThread, id), BuildGlobal(d.pul));
    } else {
      assert Codec.Contents<Event>([]) == [];
    }
  }

  lemma DiffReachesIndex(b: Bodies, f: Feed, order: seq<nat>, dropped: map<nat, nat>)
    requires SafeBodies(b) && FeedOk(f, dropped) && IsOrder(order, f.pendingBodies.Keys)
    ensures GlobalEvents(DiffBodies(b, f, order)) == GlobalEvents(f) + IndexPatches(f, ChangesOf(b, f, order))
    ensures forall e :: e in GlobalEvents(DiffBodies(b, f, order)) ==> IsFeedEvent(e)
  {
    DiffBodiesOk(b, f, order, dropped);
    ChangesReachIndex(f.(pendingBodies := map[]), ChangesOf(b, f, order));
    SameIndex(f, f.(pendingBodies := map[]), ChangesOf(b, f, order));
  }

  lemma ProcessedToIndex(b: Bodies, f: Feed, order: seq<nat>, cs: Option<set<nat>>, buildGlobal: bool)
    requires IsOrder(order, f.pendingBodies.Keys)
    ensures var (g, ms) := Process(b, f, order, cs, buildGlobal);
            Codec.Contents(ms.feedMsgs) == GlobalEvents(DiffBodies(b, f, order)) && GlobalEvents(g) == []
  {
    var p := GlobalEvents(DiffBodies(b, f, order));
    ContentsOne(Codec.Leaf(p));
    assert Codec.Contents<Event>([]) == [];
  }

  // ---------------------------------------------------------- a pulse's share

  function PendingCounts(feeds: map<nat, Feed>, e: Event): map<nat, nat> {
    map id | id in feeds :: Times(GlobalEvents(feeds[id]), e)
  }

  /** How often the event is pending for the index, over all feeds. */
  ghost function PendingForIndex(s: Sys, e: Event): nat {
    Sum(PendingCounts(s.pul.feeds, e))
  }

  function PatchCounts(b: Bodies, d: Sys, ch: Choice, e: Event): map<nat, nat>
    requires ValidChoice(d, ch)
  {
    map id | id in d.pul.feeds :: Times(RoundPatches(b, d, ch, id), e)
  }

  lemma RoundConserves(b: Bodies, d: Sys, ch: Choice, dropped: map<nat, map<nat, nat>>, id: nat, e: Event)
    requires SafeBodies(b) && DrainedOk(d, dropped) && ValidChoice(d, ch) && id in d.pul.feeds
    ensures var (g, ms) := Round(b, d, ch, id);
            Times(Codec.Contents(ms.feedMsgs), e) + Times(GlobalEvents(g), e) ==
            Times(GlobalEvents(d.pul.feeds[id]), e) + Times(RoundPatches(b, d, ch, id), e)
  {
    RoundReachesIndex(b, d, ch, dropped, id);
    TimesConcat(Codec.Contents(Round(b, d, ch, id).1.feedMsgs), GlobalEvents(Round(b, d, ch, id).0), e);
    TimesConcat(GlobalEvents(d.pul.feeds[id]), RoundPatches(b, d, ch, id), e);
  }

  lemma SentIsSum(b: Bodies, d: Sys, ch: Choice, e: Event)
    requires ValidChoice(d, ch)
    ensures Times(Codec.Contents(Merged(b, d, ch).feedMsgs), e) == Sum(SentCounts(b, d, ch, e))
  {
    ReduceTotal(ch.tree, Sets(b, d, ch), e);
    TotalIsSum(Leaves(ch.tree), d.pul.feeds.Keys, MsgsOf(Sets(b, d, ch)), e);
    CountsOfSets(b, d, ch, e);
  }

  lemma CountsOfSets(b: Bodies, d: Sys, ch: Choice, e: Event)
    requires ValidChoice(d, ch)
    ensures Counts(MsgsOf(Sets(b, d, ch)), d.pul.feeds.Keys, e) == SentCounts(b, d, ch, e)
  {
  }

  function SentCounts(b: Bodies, d: Sys, ch: Choice, e: Event): map<nat, nat>
    requires ValidChoice(d, ch)
  {
    map id | id in d.pul.feeds :: Times(Codec.Contents(Round(b, d, ch, id).1.feedMsgs), e)
  }

  lemma LeftCounts(b: Bodies, d: Sys, ch: Choice, e: Event)
    requires ValidChoice(d, ch)
    ensures PendingCounts(NewFeeds(b, d, ch), e).Keys == d.pul.feeds.Keys
    ensures forall id :: id in d.pul.feeds ==>
              PendingCounts(NewFeeds(b, d, ch), e)[id] == Times(GlobalEvents(Round(b, d, ch, id).0), e)
  {
  }

  lemma RoundsBalance(b: Bodies, d: Sys, ch: Choice, dropped: map<nat, map<nat, nat>>, e: Event)
    requires SafeBodies(b) && DrainedOk(d, dropped) && ValidChoice(d, ch)
    ensures Balance(SentCounts(b, d, ch, e), PendingCounts(NewFeeds(b, d, ch), e), PendingCounts(d.pul.feeds, e),
            PatchCounts(b, d, ch, e))
  {
    LeftCounts(b, d, ch, e);
    EachRoundConserves(b, d, ch, dropped, e);
  }

  lemma EachRoundConserves(b: Bodies, d: Sys, ch: Choice, dropped: map<nat, map<nat, nat>>, e: Event)
    requires SafeBodies(b) && DrainedOk(d, dropped) && ValidChoice(d, ch)
    ensures forall id :: id in d.pul.feeds ==>
              var (g, ms) := Round(b, d, ch, id);
              Times(Codec.Contents(ms.feedMsgs), e) + Times(GlobalEvents(g), e) ==
              Times(GlobalEvents(d.pul.feeds[id]), e) + Times(RoundPatches(b, d, ch, id), e)
  {
    forall id | id in d.pul.feeds
      ensures var (g, ms) := Round(b, d, ch, id);
              Times(Codec.Contents(ms.feedMsgs), e) + Times(GlobalEvents(g), e) ==
              Times(GlobalEvents(d.pul.feeds[id]), e) + Times(RoundPatches(b, d, ch, id), e)
    {
      RoundConserves(b, d, ch, dropped, id, e);
    }
  }

  lemma RoundsConserve(b: Bodies, d: Sys, ch: Choice, dropped: map<nat, map<nat, nat>>, e: Event)
    requires SafeBodies(b) && DrainedOk(d, dropped) && ValidChoice(d, ch)
    ensures Times(Codec.Contents(Merged(b, d, ch).feedMsgs), e) + Sum(PendingCounts(NewFeeds(b, d, ch), e)) ==
            Sum(PendingCounts(d.pul.feeds, e)) + Sum(PatchCounts(b, d, ch, e))
  {
    SentIsSum(b, d, ch, e);
    RoundsBalance(b, d, ch, dropped, e);
    FourSums(SentCounts(b, d, ch, e), PendingCounts(NewFeeds(b, d, ch), e), PendingCounts(d.pul.feeds, e),
      PatchCounts(b, d, ch, e));
  }

  lemma {:induction false} ReduceFeedEvents(t: Tree, sets: map<nat, MessageSet>)
    requires Elements(Leaves(t)) <= sets.Keys && forall id :: id in sets ==> AllFeedEventsIn(sets[id].feedMsgs)
    ensures AllFeedEventsIn(Reduce(t, sets).feedMsgs)
  {
    match t
    case Identity => assert Codec.Contents<Event>([]) == [];
    case One(id) => assert id in Elements(Leaves(t));
    case Merge(l, r, _, _, _) =>
      LeavesSplit(t);
      ReduceFeedEvents(l, sets);
      ReduceFeedEvents(r, sets);
      ContentsConcat(Reduce(l, sets).feedMsgs, Reduce(r, sets).feedMsgs);
      ContentsConcat(Reduce(r, sets).feedMsgs, Reduce(l, sets).feedMsgs);
  }

  lemma {:induction false} NoFeedEvents(es: seq<Event>)
    requires forall e :: e in es ==> !IsFeedEvent(e)
    ensures FeedEvents(es) == []
  {
    if es == [] {
    } else {
      assert es[0] in es && forall e :: e in es[1..] ==> e in es;
      NoFeedEvents(es[1..]);
    }
  }

  /** Read as threads, client IDs must not name the index. */
  predicate ZeroFree(k: Keying, s: Sys) {
    k == AsWritten ==> 0 !in s.reg.clients
  }

  predicate NoZero(k: Keying, steps: seq<Step>) {
    k == AsWritten ==> Connect(0) !in steps
  }

  lemma StaysZeroFree(k: Keying, b: Bodies, s: Sys, steps: seq<Step>)
    requires steps != [] && Legal(s, steps[0]) && ZeroFree(k, s) && NoZero(k, steps)
    ensures ZeroFree(k, Next(b, s, steps[0])) && NoZero(k, steps[1..])
  {
  }

  /** Of a pulse's messages a client on the index hears exactly those of the feeds,
      under either keying of the thread messages. */
  lemma IndexClientHears(k: Keying, b: Bodies, s: Sys, ch: Choice, dropped: map<nat, map<nat, nat>>, c: nat)
    requires SafeBodies(b) && SysOk(s, dropped) && ValidChoice(Drained(s), ch) && On(s, c, 0)
    requires ZeroFree(k, s)
    ensures FeedEvents(Heard(PulseOut(k, b, s, ch), c)) == Codec.Contents(Merged(b, Drained(s), ch).feedMsgs)
  {
    var d := Drained(s);
    DrainedIsOk(s, dropped);
    PulseHeard(k, b, s, ch, c);
    MergedFeedEvents(b, d, ch, dropped);
    if c in d.pul.global.needInit {
      InitsAreNoFeedEvents(b, d, ch, dropped);
      OnlyMessages(Codec.Contents(Merged(b, d, ch).parts), Codec.Contents(Merged(b, d, ch).feedMsgs), ServerWide(s));
    } else {
      OnlyMessages([], Codec.Contents(Merged(b, d, ch).feedMsgs), ServerWide(s));
    }
  }

  lemma OnlyMessages(inits: seq<Event>, msgs: seq<Event>, server: seq<Event>)
    requires FeedEvents(inits) == [] && (forall e :: e in msgs ==> IsFeedEvent(e)) &&
             (forall e :: e in server ==> e.InsertThread?)
    ensures FeedEvents(inits + msgs + server) == msgs
  {
    AllFeedEvents(msgs);
    AllNotices(server);
    Counting(inits, msgs);
    Counting(inits + msgs, server);
  }

  lemma InitsAreNoFeedEvents(b: Bodies, d: Sys, ch: Choice, dropped: map<nat, map<nat, nat>>)
    requires SafeBodies(b) && DrainedOk(d, dropped) && ValidChoice(d, ch) && BuildGlobal(d.pul)
    ensures FeedEvents(Codec.Contents(Merged(b, d, ch).parts)) == []
  {
    var order := IndexParts(b, d, ch, dropped);
    ServedAreInits(Codec.Contents(Merged(b, d, ch).parts), order, NewFeeds(b, d, ch), dropped);
    NoFeedEvents(Codec.Contents(Merged(b, d, ch).parts));
  }

  lemma ServedAreInits(es: seq<Event>, order: seq<nat>, feeds: map<nat, Feed>, dropped: map<nat, map<nat, nat>>)
    requires |es| == |order| && IndexServed(es, order, feeds, dropped)
    ensures forall e :: e in es ==> e.FeedInit? && !IsFeedEvent(e)
  {
  }

  lemma MergedFeedEvents(b: Bodies, d: Sys, ch: Choice, dropped: map<nat, map<nat, nat>>)
    requires SafeBodies(b) && DrainedOk(d, dropped) && ValidChoice(d, ch)
    ensures AllFeedEventsIn(Merged(b, d, ch).feedMsgs)
  {
    var sets := Sets(b, d, ch);
    forall id | id in sets
      ensures AllFeedEventsIn(sets[id].feedMsgs)
    {
      RoundReachesIndex(b, d, ch, dropped, id);
    }
    ReduceFeedEvents(ch.tree, sets);
  }

  // ---------------------------------------------------------------- all steps

  /** Events a request about a thread writes for the index. */
  function IndexRequestEvents(f: Feed, req: ThreadReq): seq<Event> {
    match req
    case NewPost(id, time, page) => [InsertPost(id, f.id, time, page)]
    case NewImage(post, spoilered, image) =>
      if post in f.data.openPosts && (post == f.data.thread || post in f.last5)
      then [InsertImage(post, spoilered, image)]
      else []
    case NewBody(_, _) => []
  }

  /** How often a step writes the event for the index. */
  ghost function EmittedToIndex(b: Bodies, s: Sys, step: Step, e: Event): nat
    requires Legal(s, step)
  {
    match step
    case Pulse(ch) => Sum(PatchCounts(b, Drained(s), ch, e))
    case ThreadStep(t, req) => if t in s.pul.feeds then Times(IndexRequestEvents(s.pul.feeds[t], req), e) else 0
    case _ => 0
  }

  lemma {:induction false} PushHas(heap: seq<nat>, id: nat)
    ensures id in Push(heap, id)
  {
    if heap == [] {
    } else if id >= heap[0] {
      PushHas(heap[1..], id);
    }
  }

  lemma RequestReachesIndex(f: Feed, req: ThreadReq)
    ensures GlobalEvents(Handle(ClearCache(f), req)) == GlobalEvents(f) + IndexRequestEvents(f, req)
  {
    if req.NewPost? {
      PushHas(if |f.last5| == 5 then f.last5[1..] else f.last5, req.id);
    }
  }

  lemma ThreadStepConserves(p: Pulsar, t: nat, req: ThreadReq, e: Event)
    requires t in p.feeds
    ensures Sum(PendingCounts(ModThread(p, t, req).feeds, e)) ==
            Sum(PendingCounts(p.feeds, e)) + Times(IndexRequestEvents(p.feeds[t], req), e)
  {
    var before, more := PendingCounts(p.feeds, e), Times(IndexRequestEvents(p.feeds[t], req), e);
    RequestReachesIndex(p.feeds[t], req);
    TimesConcat(GlobalEvents(p.feeds[t]), IndexRequestEvents(p.feeds[t], req), e);
    SumUpdate(before, t, more);
    CountsUpdate(p.feeds, t, Handle(ClearCache(p.feeds[t]), req), e);
  }

  lemma CountsUpdate(feeds: map<nat, Feed>, t: nat, f: Feed, e: Event)
    requires t in feeds
    ensures PendingCounts(feeds[t := f], e) == PendingCounts(feeds, e)[t := Times(GlobalEvents(f), e)]
  {
  }

  lemma NewThreadConserves(p: Pulsar, t: nat, time: nat, subject: string, e: Event)
    requires t !in p.feeds
    ensures Sum(PendingCounts(InsertThreadReq(p, t, time, subject).feeds, e)) == Sum(PendingCounts(p.feeds, e))
  {
    SumExtend(PendingCounts(p.feeds, e), t);
    assert PendingCounts(InsertThreadReq(p, t, time, subject).feeds, e) == PendingCounts(p.feeds, e)[t := 0];
  }

  lemma CleanConserves(p: Pulsar, threshold: nat, e: Event)
    ensures PendingCounts(CleanUpReq(p, threshold).feeds, e) == PendingCounts(p.feeds, e)
  {
  }

  lemma RequestStepConserves(b: Bodies, s: Sys, step: Step, e: Event)
    requires Legal(s, step) && !step.Pulse?
    ensures PendingForIndex(Next(b, s, step), e) == PendingForIndex(s, e) + EmittedToIndex(b, s, step, e)
  {
    match step
    case ThreadStep(t, req) =>
      if t in s.pul.feeds {
        ThreadStepConserves(s.pul, t, req, e);
      }
    case NewThread(t, time, subject) => NewThreadConserves(s.pul, t, time, subject, e);
    case Clean(threshold) => CleanConserves(s.pul, threshold, e);
    case _ =>
  }

  lemma PulseConserves(k: Keying, b: Bodies, s: Sys, ch: Choice, dropped: map<nat, map<nat, nat>>, c: nat, e: Event)
    requires SafeBodies(b) && SysOk(s, dropped) && ValidChoice(Drained(s), ch) && On(s, c, 0)
    requires ZeroFree(k, s)
    ensures Times(FeedEvents(Heard(PulseOut(k, b, s, ch), c)), e) + PendingForIndex(PulseState(b, s, ch), e) ==
            PendingForIndex(s, e) + Sum(PatchCounts(b, Drained(s), ch, e))
  {
    DrainedIsOk(s, dropped);
    IndexClientHears(k, b, s, ch, dropped, c);
    RoundsConserve(b, Drained(s), ch, dropped, e);
    SnapshotKeepsPending(s, e);
    PulseFeeds(b, s, ch);
  }

  lemma PulseFeeds(b: Bodies, s: Sys, ch: Choice)
    requires ValidChoice(Drained(s), ch)
    ensures PulseState(b, s, ch).pul.feeds == NewFeeds(b, Drained(s), ch)
  {
  }

  lemma SnapshotKeepsPending(s: Sys, e: Event)
    ensures PendingCounts(Drained(s).pul.feeds, e) == PendingCounts(s.pul.feeds, e)
  {
  }

  /** How often the client hears the event in the step. */
  function HeardInStep(k: Keying, b: Bodies, s: Sys, step: Step, c: nat, e: Event): nat
    requires Legal(s, step)
  {
    Times(FeedEvents(Heard(Out(k, b, s, step), c)), e)
  }

  lemma StepConserves(k: Keying, b: Bodies, s: Sys, step: Step, dropped: map<nat, map<nat, nat>>, c: nat, e: Event)
    requires SafeBodies(b) && SysOk(s, dropped) && Legal(s, step) && On(s, c, 0)
    requires ZeroFree(k, s)
    ensures HeardInStep(k, b, s, step, c, e) + PendingForIndex(Next(b, s, step), e) ==
            PendingForIndex(s, e) + EmittedToIndex(b, s, step, e)
  {
    if step.Pulse? {
      PulseConserves(k, b, s, step.choice, dropped, c, e);
    } else {
      RequestStepConserves(b, s, step, e);
    }
  }

  function IndexHeardInRun(k: Keying, b: Bodies, s: Sys, steps: seq<Step>, c: nat, e: Event): nat
    requires AllLegal(b, s, steps)
    decreases |steps|
  {
    if steps == [] then 0
    else HeardInStep(k, b, s, steps[0], c, e) + IndexHeardInRun(k, b, Next(b, s, steps[0]), steps[1..], c, e)
  }

  ghost function EmittedToIndexInRun(b: Bodies, s: Sys, steps: seq<Step>, e: Event): nat
    requires AllLegal(b, s, steps)
    decreases |steps|
  {
    if steps == [] then 0
    else EmittedToIndex(b, s, steps[0], e) + EmittedToIndexInRun(b, Next(b, s, steps[0]), steps[1..], e)
  }

  /** Conservation of the index. Over any run during which a client stays on the
      thread index, it hears every event exactly as often as it was pending at
      first or written for the index since, less as often as it is pending
      still. */
  lemma {:induction false} IndexStreamIsComplete(k: Keying, b: Bodies, s: Sys, steps: seq<Step>,
                                                 dropped: map<nat, map<nat, nat>>, c: nat, e: Event)
    requires SafeBodies(b) && SysOk(s, dropped) && AllLegal(b, s, steps) && Stays(b, s, steps, c, 0)
    requires ZeroFree(k, s) && NoZero(k, steps)
    ensures IndexHeardInRun(k, b, s, steps, c, e) + PendingForIndex(Final(b, s, steps), e) ==
            PendingForIndex(s, e) + EmittedToIndexInRun(b, s, steps, e)
    decreases |steps|
  {
    if steps == [] {
    } else {
      StepConserves(k, b, s, steps[0], dropped, c, e);
      StepKeepsOk(b, s, steps[0], dropped);
      StaysZeroFree(k, b, s, steps);
      IndexStreamIsComplete(k, b, Next(b, s, steps[0]), steps[1..], NextDropped(s, steps[0], dropped), c, e);
    }
  }

  /** A pulse holds a feed's messages to the index back exactly if there are any,
      nobody is on the feed, and nobody waits for the index. */
  lemma IndexDelayExact(b: Bodies, s: Sys, ch: Choice, dropped: map<nat, map<nat, nat>>, t: nat)
    requires SafeBodies(b) && SysOk(s, dropped) && ValidChoice(Drained(s), ch) && t in s.pul.feeds
    ensures t in PulseState(b, s, ch).pul.feeds
    ensures GlobalEvents(PulseState(b, s, ch).pul.feeds[t]) != [] <==>
            && GlobalEvents(s.pul.feeds[t]) != []
            && (forall c :: !On(s, c, t))
            && (forall c :: !WaitsForIndex(s, c))
  {
    var d := Drained(s);
    DrainedIsOk(s, dropped);
    ProcessedExactly(s, dropped, t);
    RoundReachesIndex(b, d, ch, dropped, t);
    assert PulseState(b, s, ch).pul.feeds[t] == Round(b, d, ch, t).0;
  }

  lemma ProcessedExactly(s: Sys, dropped: map<nat, map<nat, nat>>, t: nat)
    requires SysOk(s, dropped) && t in s.pul.feeds
    ensures IsProcessed(Drained(s), t) <==> (exists c :: On(s, c, t)) || (exists c :: WaitsForIndex(s, c))
  {
    var d := Drained(s);
    DrainedIsOk(s, dropped);
    assert forall c :: On(s, c, t) <==> Has(s.reg.byThread, t, c);
    if Get(d.reg.byThread, t).Some? {
      var c :| c in s.reg.byThread[t];
      assert On(s, c, t);
    }
    if d.pul.global.needInit != {} {
      var c :| c in d.pul.global.needInit;
      assert WaitsForIndex(s, c);
    }
    if c :| WaitsForIndex(s, c) {
      assert c in d.pul.global.needInit;
    }
    if d.pul.feeds[t].needInit != {} {
      var c :| c in d.pul.feeds[t].needInit;
      assert Has(s.reg.needInit, t, c);
      assert On(s, c, t);
    }
  }

  // ---------------------------------------- initialisation of the index, once

  /** The client is on the index and waits for its parts. */
  predicate Owed(s: Sys, c: nat) {
    On(s, c, 0) && WaitsForIndex(s, c)
  }

  lemma {:induction false} AllInits(es: seq<Event>)
    requires forall e :: e in es ==> e.FeedInit?
    ensures InitCount(es) == |es|
  {
    if es == [] {
    } else {
      assert es[0] in es && forall e :: e in es[1..] ==> e in es;
      AllInits(es[1..]);
    }
  }

  lemma {:induction false} OrderSize(order: seq<nat>, ids: set<nat>)
    requires IsOrder(order, ids)
    ensures |order| == |ids|
    decreases |order|
  {
    if order == [] {
    } else {
      assert order[0] in Elements(order);
      RestIsOrder(order, ids);
      OrderSize(order[1..], ids - {order[0]});
    }
  }

  /** A client on the index hears one init message per feed if it waits for them,
      and else none. */
  lemma IndexInits(k: Keying, b: Bodies, s: Sys, ch: Choice, dropped: map<nat, map<nat, nat>>, c: nat)
    requires SafeBodies(b) && SysOk(s, dropped) && ValidChoice(Drained(s), ch) && On(s, c, 0)
    requires ZeroFree(k, s)
    ensures InitCount(Heard(PulseOut(k, b, s, ch), c)) == if WaitsForIndex(s, c) then |s.pul.feeds.Keys| else 0
  {
    HeardOnIndex(k, b, s, ch, c);
    InitsForAreInits(b, s, ch, dropped, c);
    DrainedFeedEvents(b, s, ch, dropped);
    CountInits(InitsFor(b, s, ch, c), Codec.Contents(Merged(b, Drained(s), ch).feedMsgs), ServerWide(s));
  }

  function InitsFor(b: Bodies, s: Sys, ch: Choice, c: nat): seq<Event>
    requires ValidChoice(Drained(s), ch)
  {
    if WaitsForIndex(s, c) then Codec.Contents(Merged(b, Drained(s), ch).parts) else []
  }

  lemma InitsForAreInits(b: Bodies, s: Sys, ch: Choice, dropped: map<nat, map<nat, nat>>, c: nat)
    requires SafeBodies(b) && SysOk(s, dropped) && ValidChoice(Drained(s), ch)
    ensures forall e :: e in InitsFor(b, s, ch, c) ==> e.FeedInit?
    ensures |InitsFor(b, s, ch, c)| == if WaitsForIndex(s, c) then |s.pul.feeds.Keys| else 0
  {
    if WaitsForIndex(s, c) {
      DrainedIsOk(s, dropped);
      WaiterBuilds(s, dropped, c);
      PartsAreInits(b, Drained(s), ch, dropped);
    }
  }

  lemma WaiterBuilds(s: Sys, dropped: map<nat, map<nat, nat>>, c: nat)
    requires SysOk(s, dropped) && WaitsForIndex(s, c)
    ensures BuildGlobal(Drained(s).pul) && Drained(s).pul.feeds.Keys == s.pul.feeds.Keys
  {
    assert c in Drained(s).pul.global.needInit;
  }

  lemma DrainedFeedEvents(b: Bodies, s: Sys, ch: Choice, dropped: map<nat, map<nat, nat>>)
    requires SafeBodies(b) && SysOk(s, dropped) && ValidChoice(Drained(s), ch)
    ensures forall e :: e in Codec.Contents(Merged(b, Drained(s), ch).feedMsgs) ==> IsFeedEvent(e)
    ensures forall e :: e in ServerWide(s) ==> e.InsertThread?
  {
    DrainedIsOk(s, dropped);
    MergedFeedEvents(b, Drained(s), ch, dropped);
  }

  lemma HeardOnIndex(k: Keying, b: Bodies, s: Sys, ch: Choice, c: nat)
    requires ValidChoice(Drained(s), ch) && Reg.Consistent(s.reg) && 0 !in s.pul.feeds && On(s, c, 0)
    requires ZeroFree(k, s)
    ensures Heard(PulseOut(k, b, s, ch), c) ==
            InitsFor(b, s, ch, c) + Codec.Contents(Merged(b, Drained(s), ch).feedMsgs) + ServerWide(s)
  {
    PulseHeard(k, b, s, ch, c);
  }

  lemma CountInits(inits: seq<Event>, msgs: seq<Event>, server: seq<Event>)
    requires (forall e :: e in inits ==> e.FeedInit?) && (forall e :: e in msgs ==> IsFeedEvent(e))
    requires forall e :: e in server ==> e.InsertThread?
    ensures InitCount(inits + msgs + server) == |inits|
  {
    AllInits(inits);
    AllFeedEvents(msgs);
    AllNotices(server);
    Counting(inits, msgs);
    Counting(inits + msgs, server);
  }

  lemma PartsAreInits(b: Bodies, d: Sys, ch: Choice, dropped: map<nat, map<nat, nat>>)
    requires SafeBodies(b) && DrainedOk(d, dropped) && ValidChoice(d, ch) && BuildGlobal(d.pul)
    ensures forall e :: e in Codec.Contents(Merged(b, d, ch).parts) ==> e.FeedInit?
    ensures |Codec.Contents(Merged(b, d, ch).parts)| == |d.pul.feeds.Keys|
  {
    var order := IndexParts(b, d, ch, dropped);
    ServedAreInits(Codec.Contents(Merged(b, d, ch).parts), order, NewFeeds(b, d, ch), dropped);
    OrderSize(Leaves(ch.tree), d.pul.feeds.Keys);
    SameSize(order, Leaves(ch.tree));
  }

  lemma SameSize(a: seq<nat>, b: seq<nat>)
    requires Permutes(a, b)
    ensures |a| == |b|
  {
    assert |multiset(a)| == |a| && |multiset(b)| == |b|;
  }

  /** After a pulse nobody waits for the index unless there are no feeds. */
  lemma IndexWaitersAfter(b: Bodies, s: Sys, ch: Choice, dropped: map<nat, map<nat, nat>>, c: nat)
    requires SafeBodies(b) && SysOk(s, dropped) && ValidChoice(Drained(s), ch)
    ensures WaitsForIndex(PulseState(b, s, ch), c) <==> WaitsForIndex(s, c) && s.pul.feeds == map[]
  {
    OnlyUnknownFeedsAreAwaited(b, s, ch, dropped, c, 0);
    if s.pul.feeds == map[] {
      IndexWaitsForFeeds(b, s, ch, dropped);
    } else if WaitsForIndex(s, c) {
      var order := IndexOrder(b, s, ch, dropped, c);
      IndexIsSent(b, s, ch, order);
    }
  }

  function AskedIndex(s: Sys, step: Step, c: nat): nat {
    AsNat(step == Subscribe(c, 0) && c in s.reg.clients)
  }

  function WithdrawnIndex(s: Sys, step: Step, c: nat): nat {
    AsNat((step == Disconnect(c) || (step.Subscribe? && step.client == c)) && Owed(s, c))
  }

  /** The client hears the index's init messages in the step. */
  function ServedIndex(k: Keying, b: Bodies, s: Sys, step: Step, c: nat): nat
    requires Legal(s, step)
  {
    AsNat(On(s, c, 0) && InitCount(Heard(Out(k, b, s, step), c)) > 0)
  }

  lemma PulseAccountsIndex(k: Keying, b: Bodies, s: Sys, ch: Choice, dropped: map<nat, map<nat, nat>>, c: nat)
    requires SafeBodies(b) && SysOk(s, dropped) && ValidChoice(Drained(s), ch)
    requires ZeroFree(k, s)
    ensures AsNat(Owed(s, c)) == AsNat(Owed(PulseState(b, s, ch), c)) + ServedIndex(k, b, s, Pulse(ch), c)
  {
    IndexWaitersAfter(b, s, ch, dropped, c);
    OnAfterPulse(b, s, ch, c);
    if On(s, c, 0) {
      IndexInits(k, b, s, ch, dropped, c);
      assert s.pul.feeds == map[] <==> s.pul.feeds.Keys == {};
    }
  }

  lemma OnAfterPulse(b: Bodies, s: Sys, ch: Choice, c: nat)
    requires ValidChoice(Drained(s), ch)
    ensures On(PulseState(b, s, ch), c, 0) <==> On(s, c, 0)
  {
  }

  lemma RegistryAccountsIndex(b: Bodies, s: Sys, step: Step, c: nat)
    requires Reg.Consistent(s.reg) && Legal(s, step) && !step.Pulse?
    ensures AsNat(Owed(s, c)) + AskedIndex(s, step, c) == AsNat(Owed(Next(b, s, step), c)) + WithdrawnIndex(s, step, c)
  {
    match step
    case Connect(x) => assert Owed(Next(b, s, step), c) == Owed(s, c);
    case Disconnect(x) => RemovalAccountsIndex(s, x, c);
    case Subscribe(x, f) => MoveAccountsIndex(s, x, f, c);
    case _ =>
  }

  lemma RemovalAccountsIndex(s: Sys, x: nat, c: nat)
    requires Reg.Consistent(s.reg)
    ensures Owed(s.(reg := Reg.RemoveClient(s.reg, x)), c) <==> x != c && Owed(s, c)
  {
    Reg.RemoveClientConsistent(s.reg, x);
  }

  lemma MoveAccountsIndex(s: Sys, x: nat, f: nat, c: nat)
    requires Reg.Consistent(s.reg)
    ensures Owed(s.(reg := Reg.SetClientThread(s.reg, x, f)), c) <==>
            if x == c && c in s.reg.clients then f == 0 else Owed(s, c)
  {
    Reg.SetClientThreadConsistent(s.reg, x, f);
  }

  lemma StepAccountsIndex(k: Keying, b: Bodies, s: Sys, step: Step, dropped: map<nat, map<nat, nat>>, c: nat)
    requires SafeBodies(b) && SysOk(s, dropped) && Legal(s, step)
    requires ZeroFree(k, s)
    ensures AsNat(Owed(s, c)) + AskedIndex(s, step, c) ==
            AsNat(Owed(Next(b, s, step), c)) + WithdrawnIndex(s, step, c) + ServedIndex(k, b, s, step, c)
  {
    if step.Pulse? {
      PulseAccountsIndex(k, b, s, step.choice, dropped, c);
    } else {
      RegistryAccountsIndex(b, s, step, c);
      assert Heard(Out(k, b, s, step), c) == [];
    }
  }

  /** Subscriptions to the index less those withdrawn or served, over a run. */
  function IndexBalance(k: Keying, b: Bodies, s: Sys, steps: seq<Step>, c: nat): int
    requires AllLegal(b, s, steps)
    decreases |steps|
  {
    if steps == [] then 0
    else
      AskedIndex(s, steps[0], c) - WithdrawnIndex(s, steps[0], c) - ServedIndex(k, b, s, steps[0], c)
      + IndexBalance(k, b, Next(b, s, steps[0]), steps[1..], c)
  }

  /** Exactly-once initialisation of the index. Over every run each subscription of
      a client to the index is answered in one pulse, withdrawn because the client
      moved or left first, or still owed, and none is answered unasked. */
  lemma {:induction false} IndexInitExactlyOnce(k: Keying, b: Bodies, s: Sys, steps: seq<Step>,
                                                dropped: map<nat, map<nat, nat>>, c: nat)
    requires SafeBodies(b) && SysOk(s, dropped) && AllLegal(b, s, steps)
    requires ZeroFree(k, s) && NoZero(k, steps)
    ensures AsNat(Owed(Final(b, s, steps), c)) == AsNat(Owed(s, c)) + IndexBalance(k, b, s, steps, c)
    decreases |steps|
  {
    if steps == [] {
    } else {
      StepAccountsIndex(k, b, s, steps[0], dropped, c);
      StepKeepsOk(b, s, steps[0], dropped);
      StaysZeroFree(k, b, s, steps);
      IndexInitExactlyOnce(k, b, Next(b, s, steps[0]), steps[1..], NextDropped(s, steps[0], dropped), c);
    }
  }
}
