/** The dispatcher as the source runs it: fields updated in place and loops over
    hash maps. Every method is proved against the functions of `Pulsars`. */
module Dispatcher {
  import opened Wrappers
  import opened Feeds
  import opened Reduction
  import opened SetMaps
  import opened Pulsars
  import Codec
  import Histories
  import Reg = Registries

  /** Some order of a finite set. */
  ghost function SomeOrder(s: set<nat>): (r: seq<nat>)
    ensures IsOrder(r, s)
  {
    if s == {} then []
    else
      var x :| x in s;
      var rest := SomeOrder(s - {x});
      OrderExtends(rest, s - {x}, x);
      rest + [x]
  }

  lemma OrderExtends(order: seq<nat>, s: set<nat>, x: nat)
    requires IsOrder(order, s) && x !in s
    ensures IsOrder(order + [x], s + {x})
  {
  }

  lemma OrderShrinks(order: seq<nat>, all: set<nat>, rest: set<nat>, x: nat)
    requires rest <= all && x in rest && IsOrder(order, all - rest)
    ensures IsOrder(order + [x], all - (rest - {x}))
  {
    OrderExtends(order, all - rest, x);
    assert all - (rest - {x}) == all - rest + {x};
  }

  lemma {:induction false} ChangesSnoc(b: Bodies, f: Feed, order: seq<nat>, id: nat)
    requires (forall x :: x in order ==> x in f.pendingBodies) && id in f.pendingBodies
    ensures forall x :: x in order + [id] ==> x in f.pendingBodies
    ensures Changes(b, f, order + [id]) ==
            Changes(b, f, order) + (var c := ChangeOf(b, f, id); if c.Some? then [c.value] else [])
  {
    if order == [] {
      assert order + [id] == [id] && [id][1..] == [];
    } else {
      assert order[0] in order && forall x :: x in order[1..] ==> x in order;
      ChangesSnoc(b, f, order[1..], id);
      assert (order + [id])[1..] == order[1..] + [id];
      var c := ChangeOf(b, f, order[0]);
      Assoc(if c.Some? then [c.value] else [], Changes(b, f, order[1..]),
        var c' := ChangeOf(b, f, id); if c'.Some? then [c'.value] else []);
    }
  }

  /** Parses and diffs every pending body, in the order the map yields them. */
  method CollectChanges(b: Bodies, f: Feed) returns (changes: seq<Change>, ghost order: seq<nat>)
    ensures IsOrder(order, f.pendingBodies.Keys)
    ensures changes == ChangesOf(b, f, order)
    ensures forall c :: c in changes <==> IsChange(b, f, c)
  {
    changes := [];
    var rest := f.pendingBodies.Keys;
    order := [];
    while rest != {}
      invariant rest <= f.pendingBodies.Keys
      invariant IsOrder(order, f.pendingBodies.Keys - rest)
      invariant forall id :: id in order ==> id in f.pendingBodies
      invariant changes == Changes(b, f, order)
      decreases |rest|
    {
      var id :| id in rest;
      ChangesSnoc(b, f, order, id);
      OrderShrinks(order, f.pendingBodies.Keys, rest, id);
      var c := ChangeOf(b, f, id);
      changes := changes + (if c.Some? then [c.value] else []);
      rest := rest - {id};
      order := order + [id];
    }
    assert f.pendingBodies.Keys - rest == f.pendingBodies.Keys;
    ChangesAreAll(b, f, order);
  }

  lemma ChangesAreAll(b: Bodies, f: Feed, order: seq<nat>)
    requires IsOrder(order, f.pendingBodies.Keys)
    ensures forall c :: c in ChangesOf(b, f, order) <==> IsChange(b, f, c)
  {
    assert forall id :: id in order <==> id in Elements(order);
    Histories.ChangesExact(b, f, order);
  }

  /** The change takes an open post to the tree of its pending text, which parses
      and differs from its body. */
  predicate IsChange(b: Bodies, f: Feed, c: Change) {
    && c.id in f.pendingBodies
    && c.id in f.data.openPosts
    && b.parse(f.pendingBodies[c.id]) == Some(c.body)
    && b.diff(f.data.openPosts[c.id].body, c.body) == Some(c.patch)
  }

  /** Writes the changes into the open posts and the pending encoders. */
  method WriteChanges(f: Feed, changes: seq<Change>) returns (g: Feed)
    requires forall c :: c in changes ==> c.id in f.data.openPosts
    ensures g == MakeChanges(f, changes)
  {
    g := f;
    var i := 0;
    while i < |changes|
      invariant 0 <= i <= |changes|
      invariant forall c :: c in changes[i..] ==> c.id in g.data.openPosts
      invariant MakeChanges(g, changes[i..]) == MakeChanges(f, changes)
    {
      assert changes[i..][0] == changes[i] && changes[i..][1..] == changes[i + 1..];
      assert changes[i] in changes[i..] && forall c :: c in changes[i + 1..] ==> c in changes[i..];
      g := MakeChange(g, changes[i]);
      i := i + 1;
    }
  }

  method DiffOpenBodies(b: Bodies, f: Feed) returns (g: Feed, ghost order: seq<nat>)
    ensures IsOrder(order, f.pendingBodies.Keys)
    ensures g == DiffBodies(b, f, order)
    ensures g.data.openPosts.Keys == f.data.openPosts.Keys
    ensures forall id :: id in f.data.openPosts ==>
              g.data.openPosts[id].body ==
              var body := f.data.openPosts[id].body;
              if id in f.pendingBodies then Histories.Revised(b, body, f.pendingBodies[id]) else body
  {
    var changes;
    changes, order := CollectChanges(b, f);
    g := WriteChanges(f.(pendingBodies := map[]), changes);
    forall id | id in f.data.openPosts
      ensures g.data.openPosts.Keys == f.data.openPosts.Keys
      ensures g.data.openPosts[id].body ==
              var body := f.data.openPosts[id].body;
              if id in f.pendingBodies then Histories.Revised(b, body, f.pendingBodies[id]) else body
    {
      Histories.BodyAfterDiff(b, f, order, id);
    }
    Histories.BodyAfterDiff(b, f, order, 0);
  }

  lemma {:induction false} ReduceFrame(t: Tree, sets: map<nat, MessageSet>, more: map<nat, MessageSet>)
    requires Elements(Leaves(t)) <= sets.Keys <= more.Keys
    requires forall id :: id in sets ==> more[id] == sets[id]
    ensures Reduce(t, more) == Reduce(t, sets)
  {
    match t
    case Identity =>
    case One(id) => assert Leaves(t) == [id] && id in Leaves(t);
    case Merge(l, r, _, _, _) =>
      LeavesSplit(t);
      ReduceFrame(l, sets, more);
      ReduceFrame(r, sets, more);
  }

  /** The assignment of thread messages as written: the keys of `threads` are
      looked up as feeds. */
  method AssignThreadMessages(threads: map<nat, Msg>, byFeed: SetMap, ghost reg: Reg.Registry)
    returns (m: map<nat, Msg>)
    requires Reg.Consistent(reg) && reg.byThread == byFeed
    ensures m == AssignThreads(AsWritten, threads, reg)
  {
    m := map[];
    var rest := threads.Keys;
    while rest != {}
      invariant rest <= threads.Keys
      invariant forall c :: c in m <==>
                  c in reg.clients && reg.clients[c].thread.Some? && reg.clients[c].thread.value in threads.Keys - rest
      invariant forall c :: c in m ==> m[c] == threads[reg.clients[c].thread.value]
      decreases |rest|
    {
      var thread :| thread in rest;
      rest := rest - {thread};
      if thread in byFeed {
        var msg := threads[thread];
        var clients := byFeed[thread];
        assert forall c :: c in clients <==> Has(byFeed, thread, c);
        m := m + map c | c in clients :: msg;
      } else {
        assert forall c :: !Has(byFeed, thread, c);
      }
    }
  }

  /** Builds one feed's messages and clears what they took from it. */
  method ProcessFeed(b: Bodies, f: Feed, cs: Option<set<nat>>, buildGlobal: bool)
    returns (g: Feed, ms: MessageSet, ghost order: seq<nat>)
    ensures IsOrder(order, f.pendingBodies.Keys)
    ensures (g, ms) == Process(b, f, order, cs, buildGlobal)
  {
    g, order := DiffOpenBodies(b, f);
    var pending := g.pending;
    g := g.(pending := None);
    ghost var f2 := g;
    NeedInitKept(b, f, order);
    var threads: map<nat, Msg> := map[];
    if cs.Some? {
      if g.needInit != {} {
        var waiting, init := g.needInit, GetInit(g).1;
        g := GetInit(g).0;
        if pending.None? {
          threads := map c | c in waiting && c in cs.value :: init;
        } else {
          var withInit, single := WithInit(init, pending.value), Codec.Leaf(pending.value);
          threads := map c | c in cs.value :: if c in waiting then withInit else single;
        }
      } else if pending.Some? {
        threads := map c | c in cs.value :: Codec.Leaf(pending.value);
      }
    }
    assert threads == ThreadMessages(f.needInit, pending, cs, GetInit(f2).1);
    g := g.(needInit := {});
    var parts: seq<Msg> := [];
    if buildGlobal {
      parts := [GetGlobalPart(g).1];
      g := GetGlobalPart(g).0;
    }
    var feedMsgs: seq<Msg> := if g.pendingGlobal.Some? then [Codec.Leaf(g.pendingGlobal.value)] else [];
    g := g.(pendingGlobal := None);
    ms := MessageSet(parts, feedMsgs, threads);
  }

  lemma NeedInitKept(b: Bodies, f: Feed, order: seq<nat>)
    requires IsOrder(order, f.pendingBodies.Keys)
    ensures DiffBodies(b, f, order).needInit == f.needInit
  {
    MakeChangesFrame(f.(pendingBodies := map[]), ChangesOf(b, f, order));
  }

  /** The aggregation after the feeds in `done`; `round` is what processing a feed
      in some order of its pending bodies gives. */
  ghost predicate Aggregated(before: map<nat, Feed>, round: Rounds, ch: Choice, done: set<nat>, feeds: map<nat, Feed>,
                             sets: map<nat, MessageSet>)
  {
    && done <= before.Keys
    && done == ch.orders.Keys == feeds.Keys == sets.Keys
    && IsOrder(Leaves(ch.tree), done)
    && forall id :: id in done ==>
         IsOrder(ch.orders[id], before[id].pendingBodies.Keys) && (feeds[id], sets[id]) == round(id, ch.orders[id])
  }

  type Rounds = (nat, seq<nat>) -> (Feed, MessageSet)

  ghost function RoundsOf(b: Bodies, d: Sys): Rounds {
    (id, order) =>
      if id in d.pul.feeds && IsOrder(order, d.pul.feeds[id].pendingBodies.Keys) then RoundOf(b, d, id, order)
      else (NewFeed(FeedData(0, map[], map[]), []), NOTHING)
  }

  lemma AggregatedOneMore(before: map<nat, Feed>, round: Rounds, ch: Choice, done: set<nat>, feeds: map<nat, Feed>,
                          sets: map<nat, MessageSet>,
                          id: nat, order: seq<nat>, g: Feed, ms: MessageSet, tree: Tree)
    requires Aggregated(before, round, ch, done, feeds, sets)
    requires id in before && id !in done && IsOrder(order, before[id].pendingBodies.Keys)
    requires (g, ms) == round(id, order) && tree.Merge? && tree.left == ch.tree && tree.right == One(id)
    ensures Aggregated(before, round, Choice(ch.orders[id := order], tree), done + {id}, feeds[id := g], sets[id := ms])
  {
    assert Leaves(tree) == Leaves(ch.tree) + [id];
    OrderExtends(Leaves(ch.tree), done, id);
  }

  lemma ReduceOneMore(t: Tree, sets: map<nat, MessageSet>, id: nat, ms: MessageSet, sp: bool, sm: bool, st: bool)
    requires Elements(Leaves(t)) <= sets.Keys && id !in sets
    ensures var t' := Merge(t, One(id), sp, sm, st);
            && Elements(Leaves(t')) <= sets[id := ms].Keys
            && Reduce(t', sets[id := ms]) == MergeSets(Reduce(t, sets), ms, sp, sm, st)
  {
    var t' := Merge(t, One(id), sp, sm, st);
    LeavesSplit(t');
    assert Leaves(One(id)) == [id] && Elements([id]) == {id};
    ReduceFrame(t, sets, sets[id := ms]);
  }

  /** One merge of the reduction. */
  function MergeSets(a: MessageSet, b: MessageSet, sp: bool, sm: bool, st: bool): MessageSet {
    MessageSet(
      Swapped(a.parts, b.parts, sp),
      Swapped(a.feedMsgs, b.feedMsgs, sm),
      if st then b.threads + a.threads else a.threads + b.threads)
  }

  ghost predicate Partly(before: map<nat, Feed>, round: Rounds, ch: Choice, rest: set<nat>, feeds: map<nat, Feed>,
                         sets: map<nat, MessageSet>, ms: MessageSet)
  {
    && rest <= before.Keys
    && Aggregated(before, round, ch, before.Keys - rest, feeds, sets)
    && ms == Reduce(ch.tree, sets)
  }

  lemma PartlyOneMore(before: map<nat, Feed>, round: Rounds, ch: Choice, rest: set<nat>, feeds: map<nat, Feed>,
                      sets: map<nat, MessageSet>,
                      ms: MessageSet, id: nat, order: seq<nat>, g: Feed, one: MessageSet, sp: bool, sm: bool, st: bool)
    requires Partly(before, round, ch, rest, feeds, sets, ms)
    requires id in rest && IsOrder(order, before[id].pendingBodies.Keys) && (g, one) == round(id, order)
    ensures Partly(before, round, Choice(ch.orders[id := order], Merge(ch.tree, One(id), sp, sm, st)), rest - {id},
                   feeds[id := g], sets[id := one], MergeSets(ms, one, sp, sm, st))
  {
    AggregatedOneMore(before, round, ch, before.Keys - rest, feeds, sets, id, order, g, one,
      Merge(ch.tree, One(id), sp, sm, st));
    ReduceOneMore(ch.tree, sets, id, one, sp, sm, st);
    assert before.Keys - rest + {id} == before.Keys - (rest - {id});
  }

  lemma AggregatedAll(b: Bodies, d: Sys, ch: Choice, feeds: map<nat, Feed>, sets: map<nat, MessageSet>)
    requires Aggregated(d.pul.feeds, RoundsOf(b, d), ch, d.pul.feeds.Keys, feeds, sets)
    ensures ValidChoice(d, ch) && feeds == NewFeeds(b, d, ch) && sets == Sets(b, d, ch)
  {
    forall id | id in d.pul.feeds
      ensures (feeds[id], sets[id]) == Round(b, d, ch, id)
    {
      RoundAt(b, d, id, ch.orders[id]);
    }
    SameEntries(feeds, NewFeeds(b, d, ch));
    SameEntries(sets, Sets(b, d, ch));
  }

  lemma RoundAt(b: Bodies, d: Sys, id: nat, order: seq<nat>)
    requires id in d.pul.feeds && IsOrder(order, d.pul.feeds[id].pendingBodies.Keys)
    ensures RoundsOf(b, d)(id, order) == RoundOf(b, d, id, order)
  {
  }

  lemma SameEntries<T>(a: map<nat, T>, b: map<nat, T>)
    requires a.Keys == b.Keys && forall k :: k in a ==> a[k] == b[k]
    ensures a == b
  {
  }

  /** One feed's part in the aggregation; feeds nobody needs are passed over. */
  method RunRound(b: Bodies, f: Feed, cs: Option<set<nat>>, buildGlobal: bool, ghost d: Sys, ghost id: nat)
    returns (g: Feed, ms: MessageSet, ghost order: seq<nat>)
    requires id in d.pul.feeds && d.pul.feeds[id] == f && Get(d.reg.byThread, id) == cs &&
             BuildGlobal(d.pul) == buildGlobal
    ensures IsOrder(order, f.pendingBodies.Keys)
    ensures (g, ms) == RoundsOf(b, d)(id, order)
  {
    g, ms, order := f, NOTHING, SomeOrder(f.pendingBodies.Keys);
    if buildGlobal || f.needInit != {} || cs.Some? {
      g, ms, order := ProcessFeed(b, f, cs, buildGlobal);
    }
  }

  /** Processes the feeds one by one and merges their messages, with operands
      swapped or not as their capacities happen to be. */
  method AggregateFeedMessages(b: Bodies, feeds: map<nat, Feed>, byFeed: SetMap, buildGlobal: bool, ghost d: Sys)
    returns (feeds': map<nat, Feed>, ms: MessageSet, ghost ch: Choice)
    requires d.pul.feeds == feeds && d.reg.byThread == byFeed && BuildGlobal(d.pul) == buildGlobal
    ensures ValidChoice(d, ch) && feeds' == NewFeeds(b, d, ch) && ms == Merged(b, d, ch)
  {
    feeds', ms, ch := map[], NOTHING, Choice(map[], Identity);
    ghost var sets: map<nat, MessageSet> := map[];
    ghost var round := RoundsOf(b, d);
    var rest := feeds.Keys;
    while rest != {}
      invariant Partly(feeds, round, ch, rest, feeds', sets, ms)
      decreases |rest|
    {
      var id :| id in rest;
      var g, one, order := RunRound(b, feeds[id], Get(byFeed, id), buildGlobal, d, id);
      var sp, sm, st: bool := *, *, *;
      PartlyOneMore(feeds, round, ch, rest, feeds', sets, ms, id, order, g, one, sp, sm, st);
      ms := MergeSets(ms, one, sp, sm, st);
      feeds' := feeds'[id := g];
      sets := sets[id := one];
      ch := Choice(ch.orders[id := order], Merge(ch.tree, One(id), sp, sm, st));
      rest := rest - {id};
    }
    assert feeds.Keys - rest == d.pul.feeds.Keys;
    AggregatedAll(b, d, ch, feeds', sets);
  }

  /** Inserts every entry of `values`, one by one. */
  method InsertAll(given: map<nat, Msg>, values: map<nat, Msg>) returns (m: map<nat, Msg>)
    ensures m == given + values
  {
    m := given;
    var rest := values.Keys;
    while rest != {}
      invariant rest <= values.Keys
      invariant m.Keys == given.Keys + (values.Keys - rest)
      invariant forall c :: c in m ==> m[c] == if c in values && c !in rest then values[c] else given[c]
      decreases |rest|
    {
      var c :| c in rest;
      m := m[c := values[c]];
      rest := rest - {c};
    }
  }

  /** Appends the server-wide messages to every queued one, and sends them to the
      clients that have none. */
  method MergeServerWideMessages(pending: Option<seq<Event>>, all: set<nat>, queued: map<nat, Msg>)
    returns (m: map<nat, Msg>)
    ensures m == MergeServerWide(pending, all, queued)
  {
    m := queued;
    if pending.Some? {
      var msg: Msg := Codec.Leaf(pending.value);
      m := InsertAll(m, map c | c in queued :: Codec.Joined([queued[c], msg]));
      m := InsertAll(m, map c | c in all && c !in queued :: msg);
    }
  }

  /** Assigns the global feed's messages to its clients. */
  method AssignGlobalFeedMessages(waiting: set<nat>, ms: MessageSet, clients: Option<set<nat>>, given: map<nat, Msg>)
    returns (m: map<nat, Msg>)
    ensures m == AssignGlobal(waiting, ms, clients, given)
  {
    m := given;
    if clients.None? {
      return;
    }
    if ms.parts != [] && ms.feedMsgs == [] {
      var msg: Msg := Codec.Joined(ms.parts);
      m := InsertAll(m, map c | c in waiting && c in clients.value :: msg);
    } else if ms.parts != [] {
      var single: Msg := Codec.Joined(ms.feedMsgs);
      var withInit: Msg := Codec.Joined(ms.parts + [single]);
      m := InsertAll(m, map c | c in clients.value :: if c in waiting then withInit else single);
    } else if ms.feedMsgs != [] {
      var msg: Msg := Codec.Joined(ms.feedMsgs);
      m := InsertAll(m, map c | c in clients.value :: msg);
    }
  }

  class PulsarThread {
    const bodies: Bodies
    var feeds: map<nat, Feed>
    var global: Global

    ghost function State(): Pulsar
      reads this
    {
      Pulsar(feeds, global)
    }

    constructor (bodies: Bodies)
      ensures this.bodies == bodies && State() == Pulsar(map[], Global({}, None, None))
    {
      this.bodies := bodies;
      feeds, global := map[], Global({}, None, None);
    }

    method InsertThread(id: nat, time: nat, subject: string)
      modifies this
      ensures State() == InsertThreadReq(old(State()), id, time, subject)
    {
      global := global.(initCache := None);
      var f := NewFeed(FeedData(id, map[], map[]), []);
      f := AddPost(f, id, time);
      feeds := feeds[id := f];
      global := global.(pending := Written(global.pending, Event.InsertThread(id, time, subject)));
    }

    method OnThread(thread: nat, req: ThreadReq)
      modifies this
      ensures State() == ModThread(old(State()), thread, req)
    {
      if thread in feeds {
        global := global.(initCache := None);
        var f := ClearCache(feeds[thread]);
        f := Handle(f, req);
        feeds := feeds[thread := f];
      }
    }

    method CleanUp(threshold: nat)
      modifies this`feeds
      ensures State() == CleanUpReq(old(State()), threshold)
    {
      var rest := feeds.Keys;
      while rest != {}
        invariant feeds.Keys == old(feeds).Keys && rest <= feeds.Keys
        invariant forall id :: id in feeds ==>
                    feeds[id] == if id in rest then old(feeds)[id] else CleanFeed(old(feeds)[id], threshold)
        decreases |rest|
      {
        var id :| id in rest;
        feeds := feeds[id := CleanFeed(feeds[id], threshold)];
        rest := rest - {id};
      }
    }

    /** Takes the registrations the dispatcher can serve out of the registry. */
    method Snapshot(r: Reg.ClientRegistry)
      requires 0 !in feeds
      modifies this, r`needInit
      ensures Sys(r.State(), State()) == Drained(Sys(old(r.State()), old(State())))
    {
      var waiting;
      feeds, waiting, r.needInit := Take(feeds, global.needInit, r.needInit);
      global := global.(needInit := waiting);
    }

    /** One pulse against the registry; `out` is what is written to each client. */
    method SendMessages(r: Reg.ClientRegistry) returns (out: map<nat, Msg>, ghost ch: Choice)
      requires 0 !in feeds && r.Valid()
      modifies this, r`needInit
      ensures var s := Sys(old(r.State()), old(State()));
              && ValidChoice(Drained(s), ch)
              && Sys(r.State(), State()) == PulseState(bodies, s, ch)
              && out == PulseOut(AsWritten, bodies, s, ch)
    {
      Reg.DrainConsistent(r.State(), feeds.Keys);
      Snapshot(r);
      ghost var d := Sys(r.State(), State());
      var all, byFeed := r.clients.Keys, r.byThread;
      var ms;
      feeds, ms, ch := AggregateFeedMessages(bodies, feeds, byFeed, global.needInit != {} && global.initCache.None?, d);
      if ms.parts == [] && ms.feedMsgs == [] && ms.threads == map[] && global.pending.None? {
        return map[], ch;
      }
      out := AssignThreadMessages(ms.threads, byFeed, d.reg);
      out := AssignGlobalFeedMessages(global.needInit, ms, Get(byFeed, 0), out);
      global := global.(needInit := {});
      out := MergeServerWideMessages(global.pending, all, out);
      global := global.(pending := None);
    }
  }

  /** The drainer's loop over the registered clients of each feed. */
  method Take(feeds: map<nat, Feed>, waiting: set<nat>, need: SetMap)
    returns (feeds': map<nat, Feed>, waiting': set<nat>, notReady: SetMap)
    requires 0 !in feeds
    ensures feeds' == Awaited(feeds, need)
    ensures waiting' == waiting + Bucket(need, 0)
    ensures notReady == Unready(need, feeds)
  {
    feeds', waiting', notReady := feeds, waiting, map[];
    ghost var taken: SetMap := map[];
    AwaitedNone(feeds);
    var rest := need.Keys;
    while rest != {}
      invariant rest <= need.Keys && taken == need - rest
      invariant feeds' == Awaited(feeds, taken)
      invariant waiting' == waiting + Bucket(taken, 0)
      invariant notReady == Unready(taken, feeds)
      decreases |rest|
    {
      var feed :| feed in rest;
      AwaitedOneMore(feeds, taken, feed, need[feed]);
      UnreadyOneMore(feeds, taken, feed, need[feed]);
      TakenOneMore(need, rest, feed);
      rest := rest - {feed};
      taken := taken[feed := need[feed]];
      if feed == 0 {
        waiting' := waiting' + need[feed];
      } else if feed in feeds' {
        feeds' := feeds'[feed := feeds'[feed].(needInit := feeds'[feed].needInit + need[feed])];
      } else {
        notReady := notReady[feed := need[feed]];
      }
    }
    assert taken == need;
  }

  lemma TakenOneMore(need: SetMap, rest: set<nat>, feed: nat)
    requires feed in rest && feed in need
    ensures need - (rest - {feed}) == (need - rest)[feed := need[feed]]
  {
  }

  function Unready(need: SetMap, feeds: map<nat, Feed>): SetMap {
    map f | f in need && f != 0 && f !in feeds :: need[f]
  }

  lemma UnreadyOneMore(feeds: map<nat, Feed>, taken: SetMap, feed: nat, clients: set<nat>)
    requires feed !in taken
    ensures Unready(taken[feed := clients], feeds) ==
              if feed == 0 || feed in feeds then Unready(taken, feeds) else Unready(taken, feeds)[feed := clients]
  {
  }

  lemma AwaitedOneMore(feeds: map<nat, Feed>, taken: SetMap, feed: nat, clients: set<nat>)
    requires feed !in taken
    ensures Awaited(feeds, taken[feed := clients]) ==
              if feed !in feeds then Awaited(feeds, taken)
              else
                var w := Awaited(feeds, taken);
                w[feed := w[feed].(needInit := w[feed].needInit + clients)]
  {
    assert forall id :: id != feed ==> Bucket(taken[feed := clients], id) == Bucket(taken, id);
    if feed in feeds {
      var w := Awaited(feeds, taken);
      assert w[feed].needInit + clients == feeds[feed].needInit + clients;
    }
  }

  lemma AwaitedNone(feeds: map<nat, Feed>)
    ensures Awaited(feeds, map[]) == feeds
  {
    forall id | id in feeds
      ensures Awaited(feeds, map[])[id] == feeds[id]
    {
      assert feeds[id].needInit + {} == feeds[id].needInit;
    }
  }
}
