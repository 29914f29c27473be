/** Which posts of a thread the index shows, told by the requests alone. */
module IndexPosts {
  import opened Wrappers
  import opened Feeds
  import opened Pulsars
  import opened Dispatch
  import opened IndexStreams

  // ------------------------------------------------------------ the last five

  function Above(all: set<nat>, id: nat): set<nat> {
    set x | x in all && x > id
  }

  lemma {:induction false} AscendingSize(s: seq<nat>)
    requires Ascending(s)
    ensures |Elements(s)| == |s|
  {
    if s == [] {
    } else {
      FirstIsLeast(s);
      AscendingSize(s[1..]);
    }
  }

  /** The five largest are those that have fewer than five above them. */
  lemma LargestFiveExact(heap: seq<nat>, all: set<nat>, id: nat)
    requires LargestFive(heap, all) && id in all
    ensures id in heap <==> |Above(all, id)| < 5
  {
    AscendingSize(heap);
    assert id in heap <==> id in Elements(heap);
    if id in heap {
      SubsetSize(Above(all, id), Elements(heap) - {id});
    } else {
      SubsetSize(Elements(heap), Above(all, id));
      SubsetSize(Elements(heap) + {id}, all);
    }
  }

  // ------------------------------------------------------- a thread's posts

  /** The posts of a thread that its feed has seen, after a step; none if there is no
      such thread. */
  function Made(step: Step, t: nat, seen: Option<set<nat>>): Option<set<nat>> {
    match step
    case NewThread(t', _, _) => if t' == t then Some({t}) else seen
    case ThreadStep(t', NewPost(id, _, _)) => if t' == t && seen.Some? then Some(seen.value + {id}) else seen
    case _ => seen
  }

  function MadeIn(steps: seq<Step>, t: nat, seen: Option<set<nat>>): Option<set<nat>>
    decreases |steps|
  {
    if steps == [] then seen else MadeIn(steps[1..], t, Made(steps[0], t, seen))
  }

  /** Every new post of the thread has a larger ID than those seen before. */
  predicate Growing(steps: seq<Step>, t: nat, seen: Option<set<nat>>)
    decreases |steps|
  {
    steps != [] ==>
      && (steps[0].ThreadStep? && steps[0].thread == t && steps[0].req.NewPost? && seen.Some? ==>
            forall x :: x in seen.value ==> x < steps[0].req.id)
      && Growing(steps[1..], t, Made(steps[0], t, seen))
  }

  /** The index shows a thread's first post and the last five seen. */
  predicate Listed(t: nat, seen: set<nat>, id: nat) {
    id == t || (id in seen && |Above(seen, id)| < 5)
  }

  /** The feed keeps the last five apart. */
  ghost predicate Keeps(f: Feed, t: nat, seen: set<nat>) {
    f.data.thread == t && LargestFive(f.last5, seen)
  }

  ghost predicate Knows(s: Sys, t: nat, seen: Option<set<nat>>) {
    (t in s.pul.feeds <==> seen.Some?) && (seen.Some? ==> Keeps(s.pul.feeds[t], t, seen.value))
  }

  lemma RequestKeeps(f: Feed, req: ThreadReq, t: nat, seen: set<nat>)
    requires Keeps(f, t, seen)
    requires req.NewPost? ==> forall x :: x in seen ==> x < req.id
    ensures Keeps(Handle(ClearCache(f), req), t, Made(ThreadStep(t, req), t, Some(seen)).value)
  {
    if req.NewPost? {
      InsertKeepsLargestFive(f.last5, seen, req.id);
    }
  }

  lemma NewThreadKeeps(t: nat, time: nat)
    ensures Keeps(AddPost(NewFeed(FeedData(t, map[], map[]), []), t, time), t, {t})
  {
    InsertKeepsLargestFive([], {}, t);
  }

  lemma RoundKeeps(b: Bodies, d: Sys, ch: Choice, dropped: map<nat, map<nat, nat>>, t: nat, seen: set<nat>)
    requires SafeBodies(b) && DrainedOk(d, dropped) && ValidChoice(d, ch) && t in d.pul.feeds
    requires Keeps(d.pul.feeds[t], t, seen)
    ensures Keeps(Round(b, d, ch, t).0, t, seen)
  {
    var f, order := d.pul.feeds[t], ch.orders[t];
    if IsProcessed(d, t) {
      ProcessSpec(b, f, order, Get(d.reg.byThread, t), BuildGlobal(d.pul), dropped[t]);
      MakeChangesFrame(f.(pendingBodies := map[]), ChangesOf(b, f, order));
    }
  }

  lemma PulseKeeps(b: Bodies, s: Sys, ch: Choice, dropped: map<nat, map<nat, nat>>, t: nat, seen: Option<set<nat>>)
    requires SafeBodies(b) && SysOk(s, dropped) && ValidChoice(Drained(s), ch) && Knows(s, t, seen)
    ensures Knows(PulseState(b, s, ch), t, seen)
  {
    PulseFeeds(b, s, ch);
    if t in s.pul.feeds {
      DrainedIsOk(s, dropped);
      RoundKeeps(b, Drained(s), ch, dropped, t, seen.value);
    }
  }

  lemma StepKeeps(b: Bodies, s: Sys, step: Step, dropped: map<nat, map<nat, nat>>, t: nat, seen: Option<set<nat>>)
    requires SafeBodies(b) && SysOk(s, dropped) && Legal(s, step) && Knows(s, t, seen) && Growing([step], t, seen)
    ensures Knows(Next(b, s, step), t, Made(step, t, seen))
  {
    match step
    case Pulse(ch) => PulseKeeps(b, s, ch, dropped, t, seen);
    case ThreadStep(t', req) => ThreadStepKeeps(b, s, t', req, t, seen);
    case NewThread(t', time, _) => NewThreadKeeps(t, time);
    case _ =>
  }

  lemma ThreadStepKeeps(b: Bodies, s: Sys, t': nat, req: ThreadReq, t: nat, seen: Option<set<nat>>)
    requires Knows(s, t, seen) && Growing([ThreadStep(t', req)], t, seen)
    ensures Knows(Next(b, s, ThreadStep(t', req)), t, Made(ThreadStep(t', req), t, seen))
  {
    if seen.Some? && t' == t {
      RequestKeeps(s.pul.feeds[t], req, t, seen.value);
    }
  }

  /** Over every run in which a thread's post IDs grow, its feed keeps the last five
      posts seen apart. */
  lemma {:induction false} RunKeeps(b: Bodies, s: Sys, steps: seq<Step>, dropped: map<nat, map<nat, nat>>, t: nat,
                                    seen: Option<set<nat>>)
    requires SafeBodies(b) && SysOk(s, dropped) && AllLegal(b, s, steps)
    requires Knows(s, t, seen) && Growing(steps, t, seen)
    ensures Knows(Final(b, s, steps), t, MadeIn(steps, t, seen))
    decreases |steps|
  {
    if steps == [] {
    } else {
      assert Growing([steps[0]], t, seen) by { assert [steps[0]][1..] == []; }
      StepKeeps(b, s, steps[0], dropped, t, seen);
      StepKeepsOk(b, s, steps[0], dropped);
      RunKeeps(b, Next(b, s, steps[0]), steps[1..], NextDropped(s, steps[0], dropped), t, Made(steps[0], t, seen));
    }
  }

  // ------------------------------------------------------ what the index gets

  lemma InGlobalExact(f: Feed, t: nat, seen: set<nat>, id: nat)
    requires Keeps(f, t, seen)
    ensures InGlobal(f, id) <==> Listed(t, seen, id)
  {
    assert id in f.last5 ==> id in Elements(f.last5);
    if id in seen {
      LargestFiveExact(f.last5, seen, id);
    }
  }

  /** The data served to the index are those of the listed posts. */
  lemma PartExact(f: Feed, t: nat, seen: set<nat>)
    requires Keeps(f, t, seen)
    ensures GlobalData(f).openPosts == map id | id in f.data.openPosts && Listed(t, seen, id) :: f.data.openPosts[id]
    ensures GlobalData(f).recentPosts ==
            map id | id in f.data.recentPosts && Listed(t, seen, id) :: f.data.recentPosts[id]
  {
    forall id
      ensures InGlobal(f, id) <==> Listed(t, seen, id)
    {
      InGlobalExact(f, t, seen, id);
    }
  }

  /** The patches of listed posts. */
  function ListedPatches(t: nat, seen: set<nat>, cs: seq<Change>): seq<Event> {
    if cs == [] then []
    else (if Listed(t, seen, cs[0].id) then [PatchPostBody(cs[0].patch)] else []) + ListedPatches(t, seen, cs[1..])
  }

  lemma {:induction false} PatchesExact(f: Feed, t: nat, seen: set<nat>, cs: seq<Change>)
    requires Keeps(f, t, seen) && forall c :: c in cs ==> c.id in f.data.openPosts
    ensures IndexPatches(f, cs) == ListedPatches(t, seen, cs)
  {
    if cs == [] {
    } else {
      assert cs[0] in cs && forall c :: c in cs[1..] ==> c in cs;
      InGlobalExact(f, t, seen, cs[0].id);
      PatchesExact(f, t, seen, cs[1..]);
    }
  }

  /** A request writes to the index every new post, and images of open posts that are listed. */
  lemma RequestExact(f: Feed, req: ThreadReq, t: nat, seen: set<nat>)
    requires Keeps(f, t, seen)
    ensures IndexRequestEvents(f, req) ==
            match req
            case NewPost(id, time, page) => [InsertPost(id, f.id, time, page)]
            case NewImage(post, spoilered, image) =>
              if post in f.data.openPosts && Listed(t, seen, post) then [InsertImage(post, spoilered, image)] else []
            case NewBody(_, _) => []
  {
    if req.NewImage? {
      InGlobalExact(f, t, seen, req.post);
    }
  }

  /** A pulse writes to the index the patches of listed posts whose bodies change,
      among those it writes to the thread. */
  lemma PulsePatchesExact(b: Bodies, s: Sys, ch: Choice, t: nat, seen: set<nat>)
    requires ValidChoice(Drained(s), ch) && t in s.pul.feeds && Knows(s, t, Some(seen))
    ensures t in Drained(s).pul.feeds
    ensures var d := Drained(s);
            var cs := ChangesOf(b, d.pul.feeds[t], ch.orders[t]);
            && PulsePatches(b, d, ch, t) == (if IsProcessed(d, t) then Patches(cs) else [])
            && RoundPatches(b, d, ch, t) == (if IsProcessed(d, t) then ListedPatches(t, seen, cs) else [])
  {
    PatchesExact(Drained(s).pul.feeds[t], t, seen, ChangesOf(b, Drained(s).pul.feeds[t], ch.orders[t]));
  }

  function ListedRecent(recent: map<nat, nat>, t: nat, seen: set<nat>): map<nat, nat> {
    map id | id in recent && Listed(t, seen, id) :: recent[id]
  }

  /** An init part of the thread that holds exactly the listed open posts, and of
      the recent posts the listed ones, with at most listed ones cleaned up since. */
  ghost predicate ShowsListed(e: Event, data: FeedData, dropped: map<nat, nat>, t: nat, seen: set<nat>) {
    && e.FeedInit?
    && e.data.thread == t
    && e.data.openPosts == (map id | id in data.openPosts && Listed(t, seen, id) :: data.openPosts[id])
    && SubMap(ListedRecent(data.recentPosts, t, seen), e.data.recentPosts)
    && SubMap(e.data.recentPosts, ListedRecent(data.recentPosts + dropped, t, seen))
  }

  lemma ServesListed(e: Event, f: Feed, dropped: map<nat, nat>, t: nat, seen: set<nat>)
    requires ServesIndex(e, f, dropped) && Keeps(f, t, seen) && f.id == t
    ensures ShowsListed(e, f.data, dropped, t, seen)
  {
    PartExact(f, t, seen);
    forall id
      ensures InGlobal(f, id) <==> Listed(t, seen, id)
    {
      InGlobalExact(f, t, seen, id);
    }
  }

  lemma PulseShowsLastFive(k: Keying, b: Bodies, s: Sys, ch: Choice, dropped: map<nat, map<nat, nat>>, c: nat, t: nat,
                           seen: set<nat>) returns (i: nat)
    requires SafeBodies(b) && SysOk(s, dropped) && ValidChoice(Drained(s), ch) && ZeroFree(k, s)
    requires Owed(s, c) && t in s.pul.feeds && Knows(s, t, Some(seen))
    ensures i < |Heard(PulseOut(k, b, s, ch), c)|
    ensures t in PulseState(b, s, ch).pul.feeds && t in dropped
    ensures ShowsListed(Heard(PulseOut(k, b, s, ch), c)[i], PulseState(b, s, ch).pul.feeds[t].data, dropped[t], t, seen)
  {
    var order := IndexIsServed(k, b, s, ch, dropped, c);
    assert t in Elements(order);
    i :| 0 <= i < |order| && order[i] == t;
    PulseKeeps(b, s, ch, dropped, t, Some(seen));
    PulseKeepsOk(b, s, ch, dropped);
    ServesListed(Heard(PulseOut(k, b, s, ch), c)[i], PulseState(b, s, ch).pul.feeds[t], dropped[t], t, seen);
  }

  // ------------------------------------------------------------- from the start

  /** What the start-up scan makes of a thread's recent posts. */
  ghost predicate Scanned(recent: set<nat>, heap: seq<nat>) {
    if recent == {} then heap == [] else |heap| == 1 && heap[0] in recent && forall x :: x in recent ==> x <= heap[0]
  }

  /** Data as it is loaded at start-up, and scanned. */
  ghost predicate StartsWith(data: map<nat, FeedData>, heaps: map<nat, seq<nat>>) {
    && heaps.Keys == data.Keys
    && 0 !in data
    && forall t :: t in data ==>
         data[t].thread == t && SafeData(data[t]) && Scanned(data[t].recentPosts.Keys, heaps[t])
  }

  /** Of a loaded thread, the newest of its recent posts counts as seen. */
  function Newest(recent: set<nat>): set<nat> {
    set x | x in recent && forall y :: y in recent ==> y <= x
  }

  function SeenAtStart(data: map<nat, FeedData>, t: nat): Option<set<nat>> {
    if t in data then Some(Newest(data[t].recentPosts.Keys)) else None
  }

  lemma LoadedKnows(data: map<nat, FeedData>, heaps: map<nat, seq<nat>>, t: nat)
    requires StartsWith(data, heaps)
    ensures Knows(Loaded(data, heaps), t, SeenAtStart(data, t))
  {
    if t in data {
      var recent, heap := data[t].recentPosts.Keys, heaps[t];
      if recent == {} {
        assert Newest(recent) == {};
      } else {
        assert Newest(recent) == {heap[0]};
      }
      assert Elements(heap) == Newest(recent);
    }
  }

  lemma {:induction false} RunStaysZeroFree(k: Keying, b: Bodies, s: Sys, steps: seq<Step>)
    requires AllLegal(b, s, steps) && ZeroFree(k, s) && NoZero(k, steps)
    ensures ZeroFree(k, Final(b, s, steps))
    decreases |steps|
  {
    if steps == [] {
    } else {
      StaysZeroFree(k, b, s, steps);
      RunStaysZeroFree(k, b, Next(b, s, steps[0]), steps[1..]);
    }
  }

  /** After any run from start-up, with growing post IDs, a client owed the index
      hears of each thread its first post and the last five of those made since
      start-up and the newest recent one at it: all that are open as open posts,
      and those still recent as such. */
  lemma IndexShowsLastFive(k: Keying, b: Bodies, data: map<nat, FeedData>, heaps: map<nat, seq<nat>>, steps: seq<Step>,
                           ch: Choice, c: nat, t: nat) returns (i: nat)
    requires SafeBodies(b) && StartsWith(data, heaps)
    requires AllLegal(b, Loaded(data, heaps), steps) && NoZero(k, steps) && Growing(steps, t, SeenAtStart(data, t))
    requires var s := Final(b, Loaded(data, heaps), steps);
             ValidChoice(Drained(s), ch) && Owed(s, c) && t in s.pul.feeds
    ensures var s := Final(b, Loaded(data, heaps), steps);
            var dropped := FinalDropped(b, Loaded(data, heaps), steps, map t | t in data :: map[]);
            && i < |Heard(PulseOut(k, b, s, ch), c)|
            && t in PulseState(b, s, ch).pul.feeds && t in dropped
            && MadeIn(steps, t, SeenAtStart(data, t)).Some?
            && ShowsListed(Heard(PulseOut(k, b, s, ch), c)[i], PulseState(b, s, ch).pul.feeds[t].data, dropped[t], t,
                 MadeIn(steps, t, SeenAtStart(data, t)).value)
  {
    var start, none, seen := Loaded(data, heaps), map t | t in data :: map[], SeenAtStart(data, t);
    LoadedIsOk(data, heaps);
    LoadedKnows(data, heaps, t);
    RunKeepsOk(b, start, steps, none);
    RunKeeps(b, start, steps, none, t, seen);
    RunStaysZeroFree(k, b, start, steps);
    i := PulseShowsLastFive(k, b, Final(b, start, steps), ch, FinalDropped(b, start, steps, none), c, t,
      MadeIn(steps, t, seen).value);
  }
}
