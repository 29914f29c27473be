/** The parallel reduction of per-feed message sets. */
module Reduction {
  import opened Feeds

  /** Any shape a parallel reduce over feeds may take. Each merge extends either
      operand's collections with the other's, decided per collection. */
  datatype Tree =
    | Identity
    | One(feed: nat)
    | Merge(left: Tree, right: Tree, swapParts: bool, swapMsgs: bool, swapThreads: bool)

  const NOTHING := MessageSet([], [], map[])

  function Leaves(t: Tree): seq<nat> {
    match t
    case Identity => []
    case One(id) => [id]
    case Merge(l, r, _, _, _) => Leaves(l) + Leaves(r)
  }

  function Reduce(t: Tree, sets: map<nat, MessageSet>): MessageSet
    requires Elements(Leaves(t)) <= sets.Keys
  {
    match t
    case Identity => NOTHING
    case One(id) =>
      assert id in Elements(Leaves(t));
      sets[id]
    case Merge(l, r, sp, sm, st) =>
      LeavesSplit(t);
      var a, b := Reduce(l, sets), Reduce(r, sets);
      MessageSet(
        Swapped(a.parts, b.parts, sp),
        Swapped(a.feedMsgs, b.feedMsgs, sm),
        if st then b.threads + a.threads else a.threads + b.threads)
  }

  lemma LeavesSplit(t: Tree)
    requires t.Merge?
    ensures Elements(Leaves(t)) == Elements(Leaves(t.left)) + Elements(Leaves(t.right))
  {
  }

  function Collect(order: seq<nat>, f: map<nat, seq<Msg>>): seq<Msg>
    requires Elements(order) <= f.Keys
  {
    if order == [] then []
    else
      assert order[0] in Elements(order);
      assert Elements(order[1..]) <= Elements(order);
      f[order[0]] + Collect(order[1..], f)
  }

  function PartsOf(sets: map<nat, MessageSet>): map<nat, seq<Msg>> {
    map id | id in sets :: sets[id].parts
  }

  function MsgsOf(sets: map<nat, MessageSet>): map<nat, seq<Msg>> {
    map id | id in sets :: sets[id].feedMsgs
  }

  /** No client has messages from two feeds. */
  ghost predicate Disjoint(sets: map<nat, MessageSet>) {
    forall a, b, c :: Sends(sets, a, c) && Sends(sets, b, c) ==> a == b
  }

  predicate Sends(sets: map<nat, MessageSet>, id: nat, c: nat) {
    id in sets && c in sets[id].threads
  }

  /** `m` sends every client what its feed has for it, for the feeds `ids`. */
  ghost predicate Union(m: map<nat, Msg>, sets: map<nat, MessageSet>, ids: set<nat>) {
    && (forall c :: c in m ==> exists id :: id in ids && Sends(sets, id, c))
    && (forall id, c :: id in ids && Sends(sets, id, c) ==> c in m && m[c] == sets[id].threads[c])
  }

  lemma {:induction false} CollectConcat(a: seq<nat>, b: seq<nat>, f: map<nat, seq<Msg>>)
    requires Elements(a) <= f.Keys && Elements(b) <= f.Keys
    ensures Elements(a + b) == Elements(a) + Elements(b)
    ensures Collect(a + b, f) == Collect(a, f) + Collect(b, f)
  {
    if a == [] {
      assert a + b == b;
    } else {
      assert a[0] in Elements(a) && Elements(a[1..]) <= Elements(a);
      CollectConcat(a[1..], b, f);
      assert (a + b)[1..] == a[1..] + b;
    }
  }

  predicate Permutes(a: seq<nat>, b: seq<nat>) {
    multiset(a) == multiset(b)
  }

  lemma UnionOfTwo(a: map<nat, Msg>, b: map<nat, Msg>, sets: map<nat, MessageSet>, ia: set<nat>, ib: set<nat>)
    requires ia !! ib && Disjoint(sets)
    requires Union(a, sets, ia) && Union(b, sets, ib)
    ensures a + b == b + a && Union(a + b, sets, ia + ib)
  {
  }

  /** However the reduction is shaped and whichever operands are swapped, the
      merged thread messages are the union over the feeds, and the global parts
      and messages are those of the feeds in some order. */
  lemma {:induction false} ReduceIsUnion(t: Tree, sets: map<nat, MessageSet>) returns (parts: seq<nat>, msgs: seq<nat>)
    requires IsOrder(Leaves(t), Elements(Leaves(t))) && Elements(Leaves(t)) <= sets.Keys && Disjoint(sets)
    ensures Permutes(parts, Leaves(t)) && Permutes(msgs, Leaves(t))
    ensures Elements(parts) == Elements(msgs) == Elements(Leaves(t))
    ensures Reduce(t, sets).parts == Collect(parts, PartsOf(sets))
    ensures Reduce(t, sets).feedMsgs == Collect(msgs, MsgsOf(sets))
    ensures Union(Reduce(t, sets).threads, sets, Elements(Leaves(t)))
  {
    match t
    case Identity =>
      parts, msgs := [], [];
    case One(id) =>
      parts, msgs := [id], [id];
      assert id in Elements(Leaves(t));
      assert [id][1..] == [];
    case Merge(l, r, sp, sm, st) =>
      LeavesSplit(t);
      SplitOrder(Leaves(l), Leaves(r));
      var pl, ml := ReduceIsUnion(l, sets);
      var pr, mr := ReduceIsUnion(r, sets);
      parts := Swapped(pl, pr, sp);
      msgs := Swapped(ml, mr, sm);
      SwappedCollect(pl, pr, sp, Leaves(l), Leaves(r), PartsOf(sets));
      SwappedCollect(ml, mr, sm, Leaves(l), Leaves(r), MsgsOf(sets));
      UnionOfTwo(Reduce(l, sets).threads, Reduce(r, sets).threads, sets, Elements(Leaves(l)), Elements(Leaves(r)));
  }

  function Swapped<T>(a: seq<T>, b: seq<T>, swap: bool): seq<T> {
    if swap then b + a else a + b
  }

  lemma SwappedCollect(a: seq<nat>, b: seq<nat>, swap: bool, x: seq<nat>, y: seq<nat>, f: map<nat, seq<Msg>>)
    requires Elements(a) <= f.Keys && Elements(b) <= f.Keys && Permutes(a, x) && Permutes(b, y)
    ensures Permutes(Swapped(a, b, swap), x + y)
    ensures Elements(Swapped(a, b, swap)) == Elements(a) + Elements(b)
    ensures Collect(Swapped(a, b, swap), f) == Swapped(Collect(a, f), Collect(b, f), swap)
  {
    CollectConcat(a, b, f);
    CollectConcat(b, a, f);
  }

  lemma SplitOrder(a: seq<nat>, b: seq<nat>)
    requires IsOrder(a + b, Elements(a + b))
    ensures IsOrder(a, Elements(a)) && IsOrder(b, Elements(b)) && Elements(a) !! Elements(b)
  {
    var s := a + b;
    forall i, j | 0 <= i < |a| && 0 <= j < |b|
      ensures a[i] != b[j]
    {
      assert s[i] == a[i] && s[|a| + j] == b[j];
    }
    forall i, j | 0 <= i < j < |a|
      ensures a[i] != a[j]
    {
      assert s[i] == a[i] && s[j] == a[j];
    }
    forall i, j | 0 <= i < j < |b|
      ensures b[i] != b[j]
    {
      assert s[|a| + i] == b[i] && s[|a| + j] == b[j];
    }
  }
}

/** The dispatcher and one pulse of it, against the client registry. */
module Pulsars {
  import opened Wrappers
  import opened Feeds
  import opened Reduction
  import opened SetMaps
  import Codec
  import Reg = Registries

  datatype Global = Global(needInit: set<nat>, initCache: Option<Msg>, pending: Option<seq<Event>>)

  datatype Pulsar = Pulsar(feeds: map<nat, Feed>, global: Global)

  datatype Sys = Sys(reg: Reg.Registry, pul: Pulsar)

  // ---------------------------------------------------------------- requests

  function InsertThreadReq(p: Pulsar, id: nat, time: nat, subject: string): Pulsar {
    var f := AddPost(NewFeed(FeedData(id, map[], map[]), []), id, time);
    Pulsar(
      p.feeds[id := f],
      p.global.(initCache := None, pending := Written(p.global.pending, InsertThread(id, time, subject))))
  }

  /** Requests about one thread. */
  datatype ThreadReq =
    | NewPost(id: nat, time: nat, page: nat)
    | NewImage(post: nat, spoilered: bool, image: string)
    | NewBody(post: nat, body: string)

  function Handle(f: Feed, req: ThreadReq): Feed {
    match req
    case NewPost(id, time, page) => EncodePost(AddPost(f, id, time), id, InsertPost(id, f.id, time, page))
    case NewImage(post, spoilered, image) =>
      if post !in f.data.openPosts then f
      else
        var p := f.data.openPosts[post].(hasImage := true, imageSpoilered := spoilered);
        EncodePost(
          f.(data := f.data.(openPosts := f.data.openPosts[post := p])),
          post, InsertImage(post, spoilered, image))
    case NewBody(post, body) => f.(pendingBodies := f.pendingBodies[post := body])
  }

  /** Handles a request on a thread's feed, after clearing every cache it may
      touch. */
  function ModThread(p: Pulsar, thread: nat, req: ThreadReq): Pulsar {
    if thread !in p.feeds then p
    else Pulsar(p.feeds[thread := Handle(ClearCache(p.feeds[thread]), req)], p.global.(initCache := None))
  }

  /** Drops recent posts created at or before `threshold`, taken modulo 2^32. */
  function CleanFeed(f: Feed, threshold: nat): Feed {
    f.(data := f.data.(recentPosts :=
      map id | id in f.data.recentPosts &&
        f.data.recentPosts[id] > threshold % 0x1_0000_0000 :: f.data.recentPosts[id]))
  }

  function CleanUpReq(p: Pulsar, threshold: nat): Pulsar {
    p.(feeds := map id | id in p.feeds :: CleanFeed(p.feeds[id], threshold))
  }

  // ------------------------------------------------------------------- pulse

  function Bucket(m: SetMap, k: nat): set<nat> {
    if k in m then m[k] else {}
  }

  /** Feeds with the clients registered in `need` added to those waiting. */
  function Awaited(feeds: map<nat, Feed>, need: SetMap): map<nat, Feed> {
    map id | id in feeds :: feeds[id].(needInit := feeds[id].needInit + Bucket(need, id))
  }

  /** The registry snapshot: registrations move to the feeds that are known. */
  function Drained(s: Sys): Sys {
    var need := s.reg.needInit;
    Sys(
      Reg.Drain(s.reg, s.pul.feeds.Keys),
      Pulsar(
        Awaited(s.pul.feeds, need),
        s.pul.global.(needInit := s.pul.global.needInit + Bucket(need, 0))))
  }

  predicate BuildGlobal(p: Pulsar) {
    p.global.needInit != {} && p.global.initCache.None?
  }

  predicate IsProcessed(s: Sys, id: nat)
    requires id in s.pul.feeds
  {
    BuildGlobal(s.pul) || s.pul.feeds[id].needInit != {} || id in s.reg.byThread
  }

  /** The scheduler's freedom in a pulse: the order in which each feed's pending
      bodies are drained, and the shape of the reduction. */
  datatype Choice = Choice(orders: map<nat, seq<nat>>, tree: Tree)

  predicate ValidChoice(s: Sys, ch: Choice) {
    && (forall id :: id in s.pul.feeds ==>
      id in ch.orders && IsOrder(ch.orders[id], s.pul.feeds[id].pendingBodies.Keys))
    && IsOrder(Leaves(ch.tree), s.pul.feeds.Keys)
  }

  /** One feed's new state and messages; a feed nobody needs is passed over. */
  function RoundOf(b: Bodies, s: Sys, id: nat, order: seq<nat>): (Feed, MessageSet)
    requires id in s.pul.feeds && IsOrder(order, s.pul.feeds[id].pendingBodies.Keys)
  {
    if IsProcessed(s, id)
    then Process(b, s.pul.feeds[id], order, Get(s.reg.byThread, id), BuildGlobal(s.pul))
    else (s.pul.feeds[id], NOTHING)
  }

  function Round(b: Bodies, s: Sys, ch: Choice, id: nat): (Feed, MessageSet)
    requires ValidChoice(s, ch) && id in s.pul.feeds
  {
    RoundOf(b, s, id, ch.orders[id])
  }

  function Sets(b: Bodies, s: Sys, ch: Choice): (r: map<nat, MessageSet>)
    requires ValidChoice(s, ch)
  {
    map id | id in s.pul.feeds :: Round(b, s, ch, id).1
  }

  function NewFeeds(b: Bodies, s: Sys, ch: Choice): (r: map<nat, Feed>)
    requires ValidChoice(s, ch)
  {
    map id | id in s.pul.feeds :: Round(b, s, ch, id).0
  }

  function Merged(b: Bodies, s: Sys, ch: Choice): MessageSet
    requires ValidChoice(s, ch)
  {
    Reduce(ch.tree, Sets(b, s, ch))
  }

  /** How thread messages are assigned: as the source is written, their keys are
      read as thread IDs; they are built as client IDs. */
  datatype Keying = AsWritten | ByClient

  function AssignThreads(k: Keying, threads: map<nat, Msg>, reg: Reg.Registry): map<nat, Msg> {
    match k
    case ByClient => threads
    case AsWritten =>
      map c | c in reg.clients && reg.clients[c].thread.Some? && reg.clients[c].thread.value in threads
        :: threads[reg.clients[c].thread.value]
  }

  function AssignGlobal(waiting: set<nat>, ms: MessageSet, clients: Option<set<nat>>, m: map<nat, Msg>): map<nat, Msg> {
    if clients.None? then m
    else if ms.parts != [] && ms.feedMsgs == [] then
      m + map c | c in waiting && c in clients.value :: Codec.Joined(ms.parts)
    else if ms.parts != [] then
      var single := Codec.Joined(ms.feedMsgs);
      var withInit := Codec.Joined(ms.parts + [single]);
      m + map c | c in clients.value :: if c in waiting then withInit else single
    else if ms.feedMsgs != [] then
      m + map c | c in clients.value :: Codec.Joined(ms.feedMsgs)
    else m
  }

  function MergeServerWide(pending: Option<seq<Event>>, all: set<nat>, m: map<nat, Msg>): map<nat, Msg> {
    match pending
    case None => m
    case Some(p) =>
      var msg: Msg := Codec.Leaf(p);
      map c | c in all + m.Keys :: if c in m then Codec.Joined([m[c], msg]) else msg
  }

  predicate NothingToSend(ms: MessageSet, p: Pulsar) {
    ms.parts == [] && ms.feedMsgs == [] && ms.threads == map[] && p.global.pending.None?
  }

  /** The state a pulse leaves. */
  function PulseState(b: Bodies, s: Sys, ch: Choice): Sys
    requires ValidChoice(Drained(s), ch)
  {
    var d := Drained(s);
    var feeds := NewFeeds(b, d, ch);
    if NothingToSend(Merged(b, d, ch), d.pul) then Sys(d.reg, d.pul.(feeds := feeds))
    else Sys(d.reg, Pulsar(feeds, d.pul.global.(needInit := {}, pending := None)))
  }

  /** The message a pulse writes to each client. */
  function PulseOut(k: Keying, b: Bodies, s: Sys, ch: Choice): map<nat, Msg>
    requires ValidChoice(Drained(s), ch)
  {
    var d := Drained(s);
    var ms := Merged(b, d, ch);
    if NothingToSend(ms, d.pul) then map[]
    else
      var m1 := AssignThreads(k, ms.threads, d.reg);
      var m2 := AssignGlobal(d.pul.global.needInit, ms, Get(d.reg.byThread, 0), m1);
      MergeServerWide(d.pul.global.pending, d.reg.clients.Keys, m2)
  }

  // -------------------------------------------------------------- invariants

  predicate OnlyNotices(p: Option<seq<Event>>) {
    p.Some? ==> p.value != [] && forall e :: e in p.value ==> e.InsertThread?
  }

  ghost predicate FeedsOk(feeds: map<nat, Feed>, dropped: map<nat, map<nat, nat>>) {
    && 0 !in feeds
    && forall id :: id in feeds ==>
         id in dropped && FeedOk(feeds[id], dropped[id]) && feeds[id].id == id && feeds[id].needInit == {}
  }

  ghost predicate GlobalOk(p: Pulsar) {
    && p.global.initCache.None?
    && OnlyNotices(p.global.pending)
    && (p.global.pending.Some? ==> p.feeds != map[])
  }

  /** What holds between operations. `dropped` names, per feed, the recent posts
      cleaned up since the feed's caches were last cleared. */
  ghost predicate SysOk(s: Sys, dropped: map<nat, map<nat, nat>>) {
    Reg.Consistent(s.reg) && FeedsOk(s.pul.feeds, dropped) && GlobalOk(s.pul)
  }

  /** The state right after the snapshot, inside a pulse. */
  ghost predicate DrainedOk(s: Sys, dropped: map<nat, map<nat, nat>>) {
    && Reg.Consistent(s.reg)
    && 0 !in s.pul.feeds
    && (forall id :: id in s.pul.feeds ==>
          && id in dropped
          && FeedOk(s.pul.feeds[id], dropped[id])
          && s.pul.feeds[id].id == id
          && forall c :: c in s.pul.feeds[id].needInit ==> Has(s.reg.byThread, id, c))
    && GlobalOk(s.pul)
  }

  lemma DrainedIsOk(s: Sys, dropped: map<nat, map<nat, nat>>)
    requires SysOk(s, dropped)
    ensures DrainedOk(Drained(s), dropped)
    ensures Drained(s).reg.clients == s.reg.clients && Drained(s).reg.byThread == s.reg.byThread
    ensures forall id, c :: id in s.pul.feeds ==>
            (c in Drained(s).pul.feeds[id].needInit <==> Has(s.reg.needInit, id, c))
  {
    var d := Drained(s);
    Reg.DrainConsistent(s.reg, s.pul.feeds.Keys);
    forall id | id in s.pul.feeds
      ensures FeedOk(d.pul.feeds[id], dropped[id])
    {
      SameCaches(s.pul.feeds[id], d.pul.feeds[id], dropped[id]);
    }
  }

  /** What a client decodes from the messages of a pulse. */
  function Heard(m: map<nat, Msg>, c: nat): seq<Event> {
    if c in m then Codec.Content(m[c]) else []
  }

  /** The events a feed has to send in a pulse: those pending, and the patches
      of the bodies changed. */
  function Outgoing(b: Bodies, s: Sys, ch: Choice, id: nat): seq<Event>
    requires ValidChoice(s, ch) && id in s.pul.feeds
  {
    PendingEvents(s.pul.feeds[id]) + Patches(ChangesOf(b, s.pul.feeds[id], ch.orders[id]))
  }

  lemma RoundClients(b: Bodies, s: Sys, ch: Choice, id: nat, c: nat)
    requires ValidChoice(s, ch) && Sends(Sets(b, s, ch), id, c)
    ensures Has(s.reg.byThread, id, c)
  {
  }

  lemma SetsAreDisjoint(b: Bodies, s: Sys, ch: Choice)
    requires ValidChoice(s, ch) && Reg.Consistent(s.reg)
    ensures Disjoint(Sets(b, s, ch))
  {
    forall x, y, c | Sends(Sets(b, s, ch), x, c) && Sends(Sets(b, s, ch), y, c)
      ensures x == y
    {
      RoundClients(b, s, ch, x, c);
      RoundClients(b, s, ch, y, c);
    }
  }

  /** The merged thread messages hold for each client what its own feed sends. */
  lemma MergedThreads(b: Bodies, s: Sys, ch: Choice, c: nat)
    requires ValidChoice(s, ch) && Reg.Consistent(s.reg)
    ensures var ms := Merged(b, s, ch);
            && (c in ms.threads <==>
                  c in s.reg.clients && s.reg.clients[c].thread.Some? &&
                    Sends(Sets(b, s, ch), s.reg.clients[c].thread.value, c))
            && (c in ms.threads ==> ms.threads[c] == Sets(b, s, ch)[s.reg.clients[c].thread.value].threads[c])
  {
    SetsAreDisjoint(b, s, ch);
    var sets := Sets(b, s, ch);
    var _, _ := ReduceIsUnion(ch.tree, sets);
    if c in Merged(b, s, ch).threads {
      var id :| id in s.pul.feeds && Sends(sets, id, c);
      RoundClients(b, s, ch, id, c);
    }
  }

  /** A subscribed client hears what its feed has to send, after an init message
      exactly if it was waiting for one. */
  lemma ThreadHeard(b: Bodies, s: Sys, ch: Choice, dropped: map<nat, map<nat, nat>>, c: nat, t: nat)
    requires SafeBodies(b) && DrainedOk(s, dropped) && ValidChoice(s, ch)
    requires c in s.reg.clients && s.reg.clients[c].thread == Some(t)
    ensures var threads := Merged(b, s, ch).threads;
            var h := Heard(threads, c);
            && (t !in s.pul.feeds ==> c !in threads)
            && (t in s.pul.feeds ==>
                  && (c in threads <==> c in s.pul.feeds[t].needInit || Outgoing(b, s, ch, t) != [])
                  && (c !in s.pul.feeds[t].needInit ==> h == Outgoing(b, s, ch, t))
                  && (c in s.pul.feeds[t].needInit ==>
                        && h != []
                        && h[0].FeedInit?
                        && h[0].data.thread == t
                        && Serves(h[0].data, Round(b, s, ch, t).0.data, dropped[t])
                        && h[1..] == Outgoing(b, s, ch, t)))
  {
    MergedThreads(b, s, ch, c);
    assert Has(s.reg.byThread, t, c);
    if t in s.pul.feeds {
      var f, o, cs := s.pul.feeds[t], ch.orders[t], Get(s.reg.byThread, t);
      ProcessMessages(b, f, o, cs, BuildGlobal(s.pul), dropped[t]);
      ProcessSpec(b, f, o, cs, BuildGlobal(s.pul), dropped[t]);
    }
  }

  lemma {:induction false} ContentsConcat(a: seq<Msg>, b: seq<Msg>)
    ensures Codec.Contents(a + b) == Codec.Contents(a) + Codec.Contents(b)
  {
    if a == [] {
      assert a + b == b;
    } else {
      ContentsConcat(a[1..], b);
      assert (a + b)[1..] == a[1..] + b;
      Assoc(Codec.Content(a[0]), Codec.Contents(a[1..]), Codec.Contents(b));
    }
  }

  lemma ContentsOne(m: Msg)
    ensures Codec.Contents([m]) == Codec.Content(m)
  {
  }

  /** What the global feed adds for a client: the init parts if it waits for
      them, then the feeds' messages to the thread index. */
  function GlobalHeard(waiting: set<nat>, ms: MessageSet, c: nat): seq<Event> {
    (if c in waiting then Codec.Contents(ms.parts) else []) + Codec.Contents(ms.feedMsgs)
  }

  lemma AssignGlobalHeard(waiting: set<nat>, ms: MessageSet, clients: Option<set<nat>>, m: map<nat, Msg>, c: nat)
    ensures var m2 := AssignGlobal(waiting, ms, clients, m);
            && ((clients.None? || c !in clients.value) ==> (c in m2 <==> c in m) && Heard(m2, c) == Heard(m, c))
            && (clients.Some? && c in clients.value && c !in m ==> Heard(m2, c) == GlobalHeard(waiting, ms, c))
  {
    var single := Codec.Joined(ms.feedMsgs);
    ContentsConcat(ms.parts, [single]);
    ContentsOne(single);
    assert Codec.Contents<Event>([]) == [];
  }

  lemma MergeHeard(pending: Option<seq<Event>>, all: set<nat>, m: map<nat, Msg>, c: nat)
    ensures var m3 := MergeServerWide(pending, all, m);
            && (c in all ==> Heard(m3, c) == Heard(m, c) + (if pending.Some? then pending.value else []))
            && (c !in all && c !in m ==> c !in m3)
  {
    if pending.Some? && c in m {
      var msg: Msg := Codec.Leaf(pending.value);
      assert [m[c], msg] == [m[c]] + [msg];
      ContentsConcat([m[c]], [msg]);
      ContentsOne(m[c]);
      ContentsOne(msg);
    }
  }

  function ServerWide(s: Sys): seq<Event> {
    if s.pul.global.pending.Some? then s.pul.global.pending.value else []
  }

  /** What the thread messages as assigned give a client. */
  function FromThreads(k: Keying, b: Bodies, s: Sys, ch: Choice, c: nat): seq<Event>
    requires ValidChoice(s, ch)
  {
    Heard(AssignThreads(k, Merged(b, s, ch).threads, s.reg), c)
  }

  /** The fan-out of a pulse. Every connected client hears its assigned thread
      messages, or, on the global feed, the global messages, and then the
      server-wide messages once; nobody else is written to. */
  lemma PulseHeard(k: Keying, b: Bodies, s: Sys, ch: Choice, c: nat)
    requires ValidChoice(Drained(s), ch) && Reg.Consistent(s.reg) && 0 !in s.pul.feeds
    requires k == AsWritten ==> 0 !in s.reg.clients
    ensures var d := Drained(s);
            var out := PulseOut(k, b, s, ch);
            && (c !in s.reg.clients ==> c !in out)
            && (c in s.reg.clients && s.reg.clients[c].thread != Some(0) ==>
                  Heard(out, c) == FromThreads(k, b, d, ch, c) + ServerWide(s))
            && (c in s.reg.clients && s.reg.clients[c].thread == Some(0) ==>
                  Heard(out, c) == GlobalHeard(d.pul.global.needInit, Merged(b, d, ch), c) + ServerWide(s))
  {
    var d := Drained(s);
    Reg.DrainConsistent(s.reg, s.pul.feeds.Keys);
    var ms := Merged(b, d, ch);
    var m1 := AssignThreads(k, ms.threads, d.reg);
    MergedThreads(b, d, ch, c);
    MergedThreads(b, d, ch, 0);
    assert c in m1 ==> c in s.reg.clients && s.reg.clients[c].thread != Some(0);
    assert Has(d.reg.byThread, 0, c) <==> c in s.reg.clients && s.reg.clients[c].thread == Some(0);
    var m2 := AssignGlobal(d.pul.global.needInit, ms, Get(d.reg.byThread, 0), m1);
    AssignGlobalHeard(d.pul.global.needInit, ms, Get(d.reg.byThread, 0), m1, c);
    MergeHeard(d.pul.global.pending, d.reg.clients.Keys, m2, c);
    if NothingToSend(ms, d.pul) {
      assert Codec.Contents<Event>([]) == [];
    }
  }

  // ---------------------------------------------------- invariant of a pulse

  lemma RoundOk(b: Bodies, s: Sys, ch: Choice, dropped: map<nat, map<nat, nat>>, id: nat)
    requires SafeBodies(b) && DrainedOk(s, dropped) && ValidChoice(s, ch) && id in s.pul.feeds
    ensures var f := Round(b, s, ch, id).0;
            FeedOk(f, dropped[id]) && f.id == id && f.needInit == {}
  {
    if IsProcessed(s, id) {
      ProcessSpec(b, s.pul.feeds[id], ch.orders[id], Get(s.reg.byThread, id), BuildGlobal(s.pul), dropped[id]);
    }
  }

  lemma NewFeedsOk(b: Bodies, s: Sys, ch: Choice, dropped: map<nat, map<nat, nat>>)
    requires SafeBodies(b) && DrainedOk(s, dropped) && ValidChoice(s, ch)
    ensures FeedsOk(NewFeeds(b, s, ch), dropped)
    ensures NewFeeds(b, s, ch).Keys == s.pul.feeds.Keys
    ensures NewFeeds(b, s, ch) == map[] <==> s.pul.feeds == map[]
  {
    var feeds := NewFeeds(b, s, ch);
    assert feeds.Keys == s.pul.feeds.Keys;
    forall id | id in feeds
      ensures id in dropped && FeedOk(feeds[id], dropped[id]) && feeds[id].id == id && feeds[id].needInit == {}
    {
      RoundOk(b, s, ch, dropped, id);
    }
    if s.pul.feeds != map[] {
      var id :| id in s.pul.feeds;
      assert id in feeds;
    }
  }

  /** A pulse keeps the invariant; in particular no thread feed has clients left
      waiting after it. */
  lemma PulseKeepsOk(b: Bodies, s: Sys, ch: Choice, dropped: map<nat, map<nat, nat>>)
    requires SafeBodies(b) && SysOk(s, dropped) && ValidChoice(Drained(s), ch)
    ensures SysOk(PulseState(b, s, ch), dropped)
  {
    DrainedIsOk(s, dropped);
    NewFeedsOk(b, Drained(s), ch, dropped);
  }
}
