/** Thread feeds: their data, cached initialisation messages and pending
    message encoders. */
module Feeds {
  import opened Wrappers
  import opened Codec
  import opened PostBody

  datatype OpenPost = OpenPost(hasImage: bool, imageSpoilered: bool, createdOn: nat, thread: nat, body: Node)

  datatype FeedData = FeedData(thread: nat, recentPosts: map<nat, nat>, openPosts: map<nat, OpenPost>)

  /** The payloads the dispatcher sends. */
  datatype Event =
    | FeedInit(data: FeedData)
    | InsertThread(id: nat, time: nat, subject: string)
    | InsertPost(id: nat, thread: nat, time: nat, page: nat)
    | InsertImage(post: nat, spoilered: bool, image: string)
    | PatchPostBody(patch: PatchNode)

  /** An encoded message. What a client decodes from it is its `Content`. */
  type Msg = Batch<Event>

  /** The body parser for open posts, and the differ. `None` is a parse error and
      no difference. */
  datatype Bodies = Bodies(parse: string -> Option<Node>, diff: (Node, Node) -> Option<PatchNode>)

  datatype Feed = Feed(
    id: nat,
    needInit: set<nat>,
    initCache: Option<Msg>,
    globalPart: Option<Msg>,
    pending: Option<seq<Event>>,
    pendingGlobal: Option<seq<Event>>,
    last5: seq<nat>,
    data: FeedData,
    pendingBodies: map<nat, string>)

  // ------------------------------------------------------- last posts' heap

  /** Insertion into the ascending content of the min-heap. */
  function Push(heap: seq<nat>, id: nat): seq<nat> {
    if heap == [] || id < heap[0] then [id] + heap else [heap[0]] + Push(heap[1..], id)
  }

  function Elements(s: seq<nat>): set<nat> {
    set x | x in s
  }

  predicate Ascending(s: seq<nat>) {
    forall i, j :: 0 <= i < j < |s| ==> s[i] < s[j]
  }

  /** `heap` is the top part of `all`, in order. */
  ghost predicate TopOf(heap: seq<nat>, all: set<nat>) {
    && Ascending(heap)
    && Elements(heap) <= all
    && forall x, y :: x in Elements(heap) && y in all && y !in Elements(heap) ==> y < x
  }

  /** `heap` holds exactly the (up to) five largest of `all`. */
  ghost predicate LargestFive(heap: seq<nat>, all: set<nat>) {
    TopOf(heap, all) && |heap| == (if |all| < 5 then |all| else 5)
  }

  /** What a new post does to the heap. */
  function PushLast(heap: seq<nat>, id: nat): seq<nat> {
    Push(if |heap| == 5 then heap[1..] else heap, id)
  }

  lemma {:induction false} PushLargest(heap: seq<nat>, id: nat)
    requires forall x :: x in heap ==> x < id
    ensures Push(heap, id) == heap + [id]
  {
    if heap == [] {
    } else {
      assert heap[0] in heap && forall x :: x in heap[1..] ==> x in heap;
      PushLargest(heap[1..], id);
      assert heap == [heap[0]] + heap[1..];
    }
  }

  lemma TopOfRest(heap: seq<nat>, all: set<nat>)
    requires TopOf(heap, all) && heap != []
    ensures TopOf(heap[1..], all)
  {
    FirstIsLeast(heap);
  }

  lemma FirstIsLeast(heap: seq<nat>)
    requires Ascending(heap) && heap != []
    ensures Ascending(heap[1..]) && Elements(heap) == {heap[0]} + Elements(heap[1..])
    ensures forall x :: x in Elements(heap[1..]) ==> heap[0] < x
  {
  }

  lemma TopOfExtended(heap: seq<nat>, all: set<nat>, id: nat)
    requires TopOf(heap, all) && forall x :: x in all ==> x < id
    ensures TopOf(heap + [id], all + {id})
  {
    assert Elements(heap + [id]) == Elements(heap) + {id};
    forall i | 0 <= i < |heap|
      ensures heap[i] < id
    {
      assert heap[i] in Elements(heap);
    }
  }

  /** As long as post IDs increase, the heap holds the last five. */
  lemma InsertKeepsLargestFive(heap: seq<nat>, all: set<nat>, id: nat)
    requires LargestFive(heap, all) && forall x :: x in all ==> x < id
    ensures LargestFive(PushLast(heap, id), all + {id})
  {
    var kept := if |heap| == 5 then heap[1..] else heap;
    if |heap| == 5 {
      TopOfRest(heap, all);
    }
    forall x | x in kept
      ensures x < id
    {
      assert x in Elements(kept);
    }
    PushLargest(kept, id);
    TopOfExtended(kept, all, id);
    assert id !in all;
    assert |all + {id}| == |all| + 1;
  }

  /** The start-up scan over the recent posts of a loaded thread, in whatever
      order the hash map yields them: it pops whenever the heap is not empty. */
  method ScanRecent(ids: seq<nat>) returns (heap: seq<nat>)
    ensures ids == [] ==> heap == []
    ensures ids != [] ==> |heap| == 1 && heap[0] in ids && forall x :: x in ids ==> x <= heap[0]
  {
    heap := [];
    var i := 0;
    while i < |ids|
      invariant 0 <= i <= |ids|
      invariant i == 0 ==> heap == []
      invariant i > 0 ==> |heap| == 1 && heap[0] in ids && forall j :: 0 <= j < i ==> ids[j] <= heap[0]
    {
      var id := ids[i];
      if heap == [] {
        heap := Push(heap, id);
      } else if heap[0] < id {
        heap := heap[1..];
        heap := Push(heap, id);
      }
      i := i + 1;
    }
  }

  /** After start-up the heap holds the last five posts exactly when the thread
      has at most one recent post. */
  lemma ScanRecentExact(ids: seq<nat>, heap: seq<nat>)
    requires ids == [] ==> heap == []
    requires ids != [] ==> |heap| == 1 && heap[0] in ids && forall x :: x in ids ==> x <= heap[0]
    ensures LargestFive(heap, Elements(ids)) <==> |Elements(ids)| <= 1
  {
    var all := Elements(ids);
    if ids == [] {
      assert all == {};
    } else {
      assert ids[0] in all;
      assert heap[0] in all;
      assert {heap[0]} <= all;
      if |all| <= 1 {
        assert all - {heap[0]} == {} by { assert |all - {heap[0]}| == 0; }
        assert all == {heap[0]};
      }
    }
  }

  // ------------------------------------------------------------- operations

  function NewFeed(data: FeedData, heap: seq<nat>): Feed {
    Feed(data.thread, {}, None, None, None, None, heap, data, map[])
  }

  function ClearCache(f: Feed): Feed {
    f.(initCache := None, globalPart := None)
  }

  /** Is a post shown in the global thread index? */
  predicate InGlobal(f: Feed, id: nat) {
    id == f.data.thread || id in f.last5
  }

  function InitMsg(f: Feed): Msg {
    Leaf([FeedInit(f.data)])
  }

  /** The part of a feed's data that the global index shows. */
  function GlobalData(f: Feed): FeedData {
    FeedData(
      f.id,
      map id | id in f.data.recentPosts && InGlobal(f, id) :: f.data.recentPosts[id],
      map id | id in f.data.openPosts && InGlobal(f, id) :: f.data.openPosts[id])
  }

  function GlobalMsg(f: Feed): Msg {
    Leaf([FeedInit(GlobalData(f))])
  }

  /** Returns the cached init message, or encodes and caches it. */
  function GetInit(f: Feed): (Feed, Msg) {
    match f.initCache
    case Some(m) => (f, m)
    case None => (f.(initCache := Some(InitMsg(f))), InitMsg(f))
  }

  function GetGlobalPart(f: Feed): (Feed, Msg) {
    match f.globalPart
    case Some(m) => (f, m)
    case None => (f.(globalPart := Some(GlobalMsg(f))), GlobalMsg(f))
  }

  function Written(enc: Option<seq<Event>>, e: Event): Option<seq<Event>> {
    Some((if enc.None? then [] else enc.value) + [e])
  }

  function EncodePost(f: Feed, post: nat, e: Event): Feed {
    var f1 := f.(pending := Written(f.pending, e));
    if InGlobal(f1, post) then f1.(pendingGlobal := Written(f1.pendingGlobal, e)) else f1
  }

  function AddPost(f: Feed, id: nat, time: nat): Feed {
    f.(last5 := PushLast(f.last5, id),
       data := f.data.(
         recentPosts := f.data.recentPosts[id := time],
         openPosts := f.data.openPosts[id := OpenPost(false, false, time, f.id, Empty)]))
  }

  datatype Change = Change(id: nat, patch: PatchNode, body: Node)

  /** The change a pending body makes to its open post, if any. */
  function ChangeOf(b: Bodies, f: Feed, id: nat): Option<Change>
    requires id in f.pendingBodies
  {
    if id !in f.data.openPosts then None
    else match b.parse(f.pendingBodies[id])
      case None => None
      case Some(body) =>
        match b.diff(f.data.openPosts[id].body, body)
        case None => None
        case Some(p) => Some(Change(id, p, body))
  }

  /** All changes, computed before any is made, in the order of a drained map. */
  function Changes(b: Bodies, f: Feed, order: seq<nat>): (r: seq<Change>)
    requires forall id :: id in order ==> id in f.pendingBodies
    ensures forall c :: c in r ==> c.id in f.data.openPosts
  {
    if order == [] then []
    else
      assert order[0] in order && forall id :: id in order[1..] ==> id in order;
      var c := ChangeOf(b, f, order[0]);
      (if c.Some? then [c.value] else []) + Changes(b, f, order[1..])
  }

  function SetBody(f: Feed, id: nat, body: Node): Feed
    requires id in f.data.openPosts
  {
    f.(data := f.data.(openPosts := f.data.openPosts[id := f.data.openPosts[id].(body := body)]))
  }

  function MakeChange(f: Feed, c: Change): Feed
    requires c.id in f.data.openPosts
  {
    EncodePost(SetBody(f, c.id, c.body), c.id, PatchPostBody(c.patch))
  }

  function MakeChanges(f: Feed, cs: seq<Change>): Feed
    requires forall c :: c in cs ==> c.id in f.data.openPosts
    decreases |cs|
  {
    if cs == [] then f
    else
      assert cs[0] in cs && forall c :: c in cs[1..] ==> c in cs;
      MakeChanges(MakeChange(f, cs[0]), cs[1..])
  }

  predicate IsOrder(order: seq<nat>, keys: set<nat>) {
    (forall i, j :: 0 <= i < j < |order| ==> order[i] != order[j]) && Elements(order) == keys
  }

  /** Parses, diffs and applies all pending bodies. */
  function DiffBodies(b: Bodies, f: Feed, order: seq<nat>): Feed
    requires IsOrder(order, f.pendingBodies.Keys)
  {
    assert forall id :: id in order ==> id in Elements(order);
    MakeChanges(f.(pendingBodies := map[]), Changes(b, f, order))
  }

  // -------------------------------------------------------------- aggregation

  /** Messages of one or several feeds for one pulse. `threads` maps client IDs. */
  datatype MessageSet = MessageSet(parts: seq<Msg>, feedMsgs: seq<Msg>, threads: map<nat, Msg>)

  function WithInit(init: Msg, p: seq<Event>): Msg {
    Joined([init, Leaf(p)])
  }

  /** The thread messages of a feed with waiting clients `w`, pending events `p`
      and, if any subscribe, clients `cs`. */
  function ThreadMessages(w: set<nat>, p: Option<seq<Event>>, cs: Option<set<nat>>, init: Msg): (r: map<nat, Msg>)
    ensures forall c :: c in r ==> cs.Some? && c in cs.value
  {
    if cs.None? then map[]
    else if w != {} && p.None? then map c | c in w && c in cs.value :: init
    else if w != {} then map c | c in cs.value :: if c in w then WithInit(init, p.value) else Leaf(p.value)
    else if p.Some? then map c | c in cs.value :: Leaf(p.value)
    else map[]
  }

  /** The feed once its thread messages are built: the encoder is taken, the init
      message was cached if anyone needed it, and nobody waits any more. */
  function Prepared(b: Bodies, f: Feed, order: seq<nat>, cs: Option<set<nat>>): Feed
    requires IsOrder(order, f.pendingBodies.Keys)
  {
    var f2 := DiffBodies(b, f, order).(pending := None);
    (if f.needInit != {} && cs.Some? then GetInit(f2).0 else f2).(needInit := {})
  }

  /** One feed's share of a pulse: new feed state and messages. */
  function Process(b: Bodies, f: Feed, order: seq<nat>, cs: Option<set<nat>>, buildGlobal: bool): (Feed, MessageSet)
    requires IsOrder(order, f.pendingBodies.Keys)
  {
    var f1 := DiffBodies(b, f, order);
    var threads := ThreadMessages(f.needInit, f1.pending, cs, GetInit(f1.(pending := None)).1);
    var f4 := Prepared(b, f, order, cs);
    var (f5, part) := GetGlobalPart(f4);
    var g := if buildGlobal then f5 else f4;
    (g.(pendingGlobal := None),
     MessageSet(
       if buildGlobal then [part] else [],
       if g.pendingGlobal.Some? then [Leaf(g.pendingGlobal.value)] else [],
       threads))
  }

  // -------------------------------------------------------------- properties

  predicate SubMap(a: map<nat, nat>, b: map<nat, nat>) {
    forall k :: k in a ==> k in b && b[k] == a[k]
  }

  /** Data a cached message may hold: the current open posts, and the current
      recent posts together with some of those dropped since. */
  predicate Serves(d: FeedData, now: FeedData, dropped: map<nat, nat>) {
    && d.thread == now.thread
    && d.openPosts == now.openPosts
    && SubMap(now.recentPosts, d.recentPosts)
    && SubMap(d.recentPosts, now.recentPosts + dropped)
  }

  function Select(f: Feed, m: map<nat, nat>): map<nat, nat> {
    map id | id in m && InGlobal(f, id) :: m[id]
  }

  predicate IsInit(m: Msg) {
    m.Leaf? && |m.msgs| == 1 && m.msgs[0].FeedInit?
  }

  /** A cache exists only while no body is pending, and it holds what would be
      encoded now but for recent posts dropped since it was last cleared. */
  predicate CacheOk(f: Feed, dropped: map<nat, nat>) {
    && f.data.thread == f.id
    && (forall id :: id in dropped ==> id !in f.data.recentPosts)
    && (f.initCache.Some? ==>
          && f.pendingBodies == map[]
          && IsInit(f.initCache.value)
          && Serves(f.initCache.value.msgs[0].data, f.data, dropped))
    && (f.globalPart.Some? ==>
          && f.pendingBodies == map[]
          && IsInit(f.globalPart.value)
          && Serves(f.globalPart.value.msgs[0].data, GlobalData(f), Select(f, dropped)))
  }

  /** Events a thread feed sends to its clients. */
  predicate IsFeedEvent(e: Event) {
    e.InsertPost? || e.InsertImage? || e.PatchPostBody?
  }

  predicate OnlyFeedEvents(p: Option<seq<Event>>) {
    p.Some? ==> p.value != [] && forall e :: e in p.value ==> IsFeedEvent(e)
  }

  predicate SafeEvent(e: Event) {
    match e
    case PatchPostBody(p) => PatchSafe(p)
    case FeedInit(d) => SafeData(d)
    case _ => true
  }

  /** No open post's body holds a node that must not reach clients. */
  predicate SafeData(d: FeedData) {
    forall id :: id in d.openPosts ==> OpenSafe(d.openPosts[id].body)
  }

  predicate SafeEvents(p: Option<seq<Event>>) {
    p.Some? ==> forall e :: e in p.value ==> SafeEvent(e)
  }

  /** What every operation keeps of a feed. */
  predicate FeedOk(f: Feed, dropped: map<nat, nat>) {
    && CacheOk(f, dropped)
    && OnlyFeedEvents(f.pending)
    && OnlyFeedEvents(f.pendingGlobal)
    && SafeData(f.data)
    && SafeEvents(f.pending)
    && SafeEvents(f.pendingGlobal)
  }

  /** The parser and differ keep unsafe nodes out of bodies and patches. */
  ghost predicate SafeBodies(b: Bodies) {
    && (forall s {:trigger b.parse(s)} :: b.parse(s).Some? ==> OpenSafe(b.parse(s).value))
    && (forall x, y {:trigger b.diff(x, y)} :: OpenSafe(y) && b.diff(x, y).Some? ==> PatchSafe(b.diff(x, y).value))
  }

  function PendingEvents(f: Feed): seq<Event> {
    if f.pending.None? then [] else f.pending.value
  }

  /** The patches one round of diffing writes. */
  function Patches(cs: seq<Change>): seq<Event> {
    if cs == [] then [] else [PatchPostBody(cs[0].patch)] + Patches(cs[1..])
  }

  lemma {:induction false} MakeChangesFrame(f: Feed, cs: seq<Change>)
    requires forall c :: c in cs ==> c.id in f.data.openPosts
    ensures var g := MakeChanges(f, cs);
            && g == f.(pending := g.pending, pendingGlobal := g.pendingGlobal, data := g.data)
            && g.data == f.data.(openPosts := g.data.openPosts)
            && g.data.openPosts.Keys == f.data.openPosts.Keys
            && PendingEvents(g) == PendingEvents(f) + Patches(cs)
            && (g.pending.None? <==> f.pending.None? && cs == [])
    decreases |cs|
  {
    if cs == [] {
    } else {
      assert cs[0] in cs && forall c :: c in cs[1..] ==> c in cs;
      var f1 := MakeChange(f, cs[0]);
      MakeChangeFrame(f, cs[0]);
      MakeChangesFrame(f1, cs[1..]);
      var e := [PatchPostBody(cs[0].patch)];
      assert PendingEvents(f) + e + Patches(cs[1..]) == PendingEvents(f) + (e + Patches(cs[1..]));
    }
  }

  lemma MakeChangeFrame(f: Feed, c: Change)
    requires c.id in f.data.openPosts
    ensures var g := MakeChange(f, c);
            && g == f.(pending := g.pending, pendingGlobal := g.pendingGlobal, data := g.data)
            && g.data == f.data.(openPosts := g.data.openPosts)
            && g.data.openPosts.Keys == f.data.openPosts.Keys
            && PendingEvents(g) == PendingEvents(f) + [PatchPostBody(c.patch)]
            && g.pending.Some?
  {
  }

  lemma {:induction false} ChangesAreSafe(b: Bodies, f: Feed, order: seq<nat>)
    requires SafeBodies(b) && forall id :: id in order ==> id in f.pendingBodies
    ensures forall c :: c in Changes(b, f, order) ==> OpenSafe(c.body) && PatchSafe(c.patch)
  {
    if order == [] {
    } else {
      assert order[0] in order && forall id :: id in order[1..] ==> id in order;
      ChangesAreSafe(b, f, order[1..]);
    }
  }

  lemma {:induction false} MakeChangesSafe(f: Feed, cs: seq<Change>)
    requires forall c :: c in cs ==> c.id in f.data.openPosts && OpenSafe(c.body) && PatchSafe(c.patch)
    requires SafeData(f.data) && SafeEvents(f.pending) && SafeEvents(f.pendingGlobal)
    requires OnlyFeedEvents(f.pending) && OnlyFeedEvents(f.pendingGlobal)
    ensures var g := MakeChanges(f, cs);
            && SafeData(g.data) && SafeEvents(g.pending) && SafeEvents(g.pendingGlobal)
            && OnlyFeedEvents(g.pending) && OnlyFeedEvents(g.pendingGlobal)
    decreases |cs|
  {
    if cs == [] {
    } else {
      assert cs[0] in cs && forall c :: c in cs[1..] ==> c in cs;
      var f1 := MakeChange(f, cs[0]);
      assert f1.data.openPosts.Keys == f.data.openPosts.Keys;
      MakeChangesSafe(f1, cs[1..]);
    }
  }

  /** Every open post a pending body changed holds that body afterwards, and
      every other open post is as it was. */
  lemma {:induction false} MakeChangesBodies(f: Feed, cs: seq<Change>, id: nat)
    requires forall c :: c in cs ==> c.id in f.data.openPosts
    requires forall i, j :: 0 <= i < j < |cs| ==> cs[i].id != cs[j].id
    requires id in f.data.openPosts
    ensures MakeChanges(f, cs).data.openPosts.Keys == f.data.openPosts.Keys
    ensures forall c :: c in cs && c.id == id ==>
            MakeChanges(f, cs).data.openPosts[id] == f.data.openPosts[id].(body := c.body)
    ensures (forall c :: c in cs ==> c.id != id) ==> MakeChanges(f, cs).data.openPosts[id] == f.data.openPosts[id]
    decreases |cs|
  {
    if cs == [] {
    } else {
      assert cs[0] in cs && forall c :: c in cs[1..] ==> c in cs;
      var f1 := MakeChange(f, cs[0]);
      assert f1.data.openPosts.Keys == f.data.openPosts.Keys;
      MakeChangesBodies(f1, cs[1..], id);
      if cs[0].id == id {
        forall c | c in cs[1..]
          ensures c.id != id
        {
          var i :| 0 <= i < |cs[1..]| && cs[1..][i] == c;
          assert cs[i + 1] == c;
        }
      }
      assert forall c :: c in cs ==> c == cs[0] || c in cs[1..];
    }
  }

  /** Without pending bodies diffing changes nothing. */
  lemma NothingToDiff(b: Bodies, f: Feed, order: seq<nat>)
    requires IsOrder(order, f.pendingBodies.Keys) && f.pendingBodies == map[]
    ensures DiffBodies(b, f, order) == f
  {
    assert forall i :: 0 <= i < |order| ==> order[i] in Elements(order);
  }

  lemma DiffBodiesOk(b: Bodies, f: Feed, order: seq<nat>, dropped: map<nat, nat>)
    requires SafeBodies(b) && FeedOk(f, dropped) && IsOrder(order, f.pendingBodies.Keys)
    ensures FeedOk(DiffBodies(b, f, order), dropped)
  {
    assert forall id :: id in order ==> id in Elements(order);
    if f.pendingBodies == map[] {
      NothingToDiff(b, f, order);
    } else {
      ChangesAreSafe(b, f, order);
      MakeChangesSafe(f.(pendingBodies := map[]), Changes(b, f, order));
      MakeChangesFrame(f.(pendingBodies := map[]), Changes(b, f, order));
    }
  }

  lemma FreshInit(f: Feed, dropped: map<nat, nat>)
    requires CacheOk(f, dropped) && f.pendingBodies == map[]
    ensures CacheOk(GetInit(f).0, dropped)
    ensures IsInit(GetInit(f).1) && Serves(GetInit(f).1.msgs[0].data, f.data, dropped)
  {
    var g := GetInit(f).0;
    assert GlobalData(g) == GlobalData(f);
    assert Select(g, dropped) == Select(f, dropped);
  }

  lemma FreshPart(f: Feed, dropped: map<nat, nat>)
    requires CacheOk(f, dropped) && f.pendingBodies == map[]
    ensures CacheOk(GetGlobalPart(f).0, dropped)
    ensures IsInit(GetGlobalPart(f).1) && Serves(GetGlobalPart(f).1.msgs[0].data, GlobalData(f), Select(f, dropped))
    ensures GetGlobalPart(f).1.msgs[0].data.openPosts ==
            map id | id in f.data.openPosts && (id == f.id || id in f.last5) :: f.data.openPosts[id]
  {
  }

  lemma PreparedOk(b: Bodies, f: Feed, order: seq<nat>, cs: Option<set<nat>>, dropped: map<nat, nat>)
    requires SafeBodies(b) && FeedOk(f, dropped) && IsOrder(order, f.pendingBodies.Keys)
    ensures var g := Prepared(b, f, order, cs);
            && FeedOk(g, dropped)
            && g.needInit == {} && g.pending == None && g.pendingBodies == map[]
            && g.id == f.id && g.last5 == f.last5
            && g.data == DiffBodies(b, f, order).data
            && g.pendingGlobal == DiffBodies(b, f, order).pendingGlobal
  {
    var f1 := DiffBodies(b, f, order);
    DiffBodiesOk(b, f, order, dropped);
    MakeChangesFrame(f.(pendingBodies := map[]), ChangesOf(b, f, order));
    var f2 := f1.(pending := None);
    SameCaches(f1, f2, dropped);
    FreshInit(f2, dropped);
    var f3 := if f.needInit != {} && cs.Some? then GetInit(f2).0 else f2;
    SameCaches(f3, f3.(needInit := {}), dropped);
  }

  /** What one feed's share of a pulse leaves behind. */
  lemma ProcessSpec(b: Bodies, f: Feed, order: seq<nat>, cs: Option<set<nat>>, buildGlobal: bool,
                    dropped: map<nat, nat>)
    requires SafeBodies(b) && FeedOk(f, dropped) && IsOrder(order, f.pendingBodies.Keys)
    ensures var g := Process(b, f, order, cs, buildGlobal).0;
            && FeedOk(g, dropped)
            && g.needInit == {} && g.pending == None && g.pendingGlobal == None && g.pendingBodies == map[]
            && g.id == f.id && g.last5 == f.last5
            && g.data == DiffBodies(b, f, order).data
  {
    PreparedOk(b, f, order, cs, dropped);
    var f4 := Prepared(b, f, order, cs);
    FreshPart(f4, dropped);
    var f5 := if buildGlobal then GetGlobalPart(f4).0 else f4;
    SameCaches(f5, f5.(pendingGlobal := None), dropped);
  }

  function ChangesOf(b: Bodies, f: Feed, order: seq<nat>): (r: seq<Change>)
    requires IsOrder(order, f.pendingBodies.Keys)
    ensures forall c :: c in r ==> c.id in f.data.openPosts
  {
    assert forall id :: id in order ==> id in Elements(order);
    Changes(b, f, order)
  }

  lemma SameCaches(f: Feed, g: Feed, dropped: map<nat, nat>)
    requires CacheOk(f, dropped)
    requires g == f.(needInit := g.needInit, pending := g.pending, pendingGlobal := g.pendingGlobal)
    ensures CacheOk(g, dropped)
  {
    assert GlobalData(g) == GlobalData(f);
    assert Select(g, dropped) == Select(f, dropped);
  }

  /** The messages of one feed in a pulse: with waiting clients W and pending
      events p, every subscribed client in W gets the init message and then p,
      and every other subscribed client gets p; nobody else gets anything. */
  lemma ProcessMessages(b: Bodies, f: Feed, order: seq<nat>, cs: Option<set<nat>>, buildGlobal: bool,
                        dropped: map<nat, nat>)
    requires SafeBodies(b) && FeedOk(f, dropped) && IsOrder(order, f.pendingBodies.Keys)
    ensures var (g, ms) := Process(b, f, order, cs, buildGlobal);
            var p := PendingEvents(f) + Patches(ChangesOf(b, f, order));
            && (forall c :: c in ms.threads <==> cs.Some? && c in cs.value && (c in f.needInit || p != []))
            && (forall c :: c in ms.threads && c !in f.needInit ==> Content(ms.threads[c]) == p)
            && (forall c :: c in ms.threads && c in f.needInit ==>
                  && Content(ms.threads[c]) != []
                  && Content(ms.threads[c])[0].FeedInit?
                  && Serves(Content(ms.threads[c])[0].data, g.data, dropped)
                  && Content(ms.threads[c])[1..] == p)
  {
    var f1 := DiffBodies(b, f, order);
    DiffBodiesOk(b, f, order, dropped);
    MakeChangesFrame(f.(pendingBodies := map[]), ChangesOf(b, f, order));
    var p := PendingEvents(f) + Patches(ChangesOf(b, f, order));
    assert PendingEvents(f1) == p;
    PatchesEmpty(ChangesOf(b, f, order));
    var f2 := f1.(pending := None);
    SameCaches(f1, f2, dropped);
    FreshInit(f2, dropped);
    var init := GetInit(f2).1;
    if f1.pending.Some? {
      WithInitContent(init, p);
    } else {
      assert Content(init)[1..] == p;
    }
  }

  lemma PatchesEmpty(cs: seq<Change>)
    ensures Patches(cs) == [] <==> cs == []
  {
  }

  lemma WithInitContent(init: Msg, p: seq<Event>)
    requires IsInit(init)
    ensures Content(WithInit(init, p)) == [init.msgs[0]] + p
  {
    var parts := [init, Leaf(p)];
    assert parts[1..] == [Leaf(p)] && parts[1..][1..] == [];
    assert Contents(parts[1..]) == p + Contents(parts[1..][1..]) == p;
    assert Content(init) == [init.msgs[0]];
  }

  /** The part a feed contributes to an initialisation of the global index. */
  lemma ProcessParts(b: Bodies, f: Feed, order: seq<nat>, cs: Option<set<nat>>, buildGlobal: bool,
                     dropped: map<nat, nat>)
    requires SafeBodies(b) && FeedOk(f, dropped) && IsOrder(order, f.pendingBodies.Keys)
    ensures var (g, ms) := Process(b, f, order, cs, buildGlobal);
            && (!buildGlobal ==> ms.parts == [])
            && (buildGlobal ==>
                  && |ms.parts| == 1
                  && IsInit(ms.parts[0])
                  && Serves(ms.parts[0].msgs[0].data, GlobalData(g), Select(g, dropped)))
  {
    PreparedOk(b, f, order, cs, dropped);
    PartServes(Prepared(b, f, order, cs), dropped);
  }

  lemma PartServes(f: Feed, dropped: map<nat, nat>)
    requires CacheOk(f, dropped) && f.pendingBodies == map[]
    ensures var (f', part) := GetGlobalPart(f);
            var g := f'.(pendingGlobal := None);
            IsInit(part) && Serves(part.msgs[0].data, GlobalData(g), Select(g, dropped))
  {
  }

  predicate SafeMsg(m: Msg) {
    forall e :: e in Content(m) ==> SafeEvent(e)
  }

  /** No message of a set holds a node that must not reach clients. */
  predicate SafeSet(ms: MessageSet) {
    && (forall m :: m in ms.parts ==> SafeMsg(m))
    && (forall m :: m in ms.feedMsgs ==> SafeMsg(m))
    && (forall c :: c in ms.threads ==> SafeMsg(ms.threads[c]))
  }

  lemma {:induction false} PatchesAreSafe(cs: seq<Change>)
    requires forall c :: c in cs ==> PatchSafe(c.patch)
    ensures forall e :: e in Patches(cs) ==> SafeEvent(e)
  {
    if cs == [] {
    } else {
      assert cs[0] in cs && forall c :: c in cs[1..] ==> c in cs;
      PatchesAreSafe(cs[1..]);
    }
  }

  lemma ThreadMessagesAreSafe(b: Bodies, f: Feed, order: seq<nat>, cs: Option<set<nat>>, buildGlobal: bool,
                              dropped: map<nat, nat>, c: nat)
    requires SafeBodies(b) && FeedOk(f, dropped) && IsOrder(order, f.pendingBodies.Keys)
    requires c in Process(b, f, order, cs, buildGlobal).1.threads
    ensures SafeMsg(Process(b, f, order, cs, buildGlobal).1.threads[c])
  {
    ProcessSpec(b, f, order, cs, buildGlobal, dropped);
    ProcessMessages(b, f, order, cs, buildGlobal, dropped);
    assert forall id :: id in order ==> id in Elements(order);
    ChangesAreSafe(b, f, order);
    PatchesAreSafe(ChangesOf(b, f, order));
    var h := Content(Process(b, f, order, cs, buildGlobal).1.threads[c]);
    if c in f.needInit {
      assert h == [h[0]] + h[1..];
    }
  }

  lemma PartsAreSafe(b: Bodies, f: Feed, order: seq<nat>, cs: Option<set<nat>>, buildGlobal: bool,
                     dropped: map<nat, nat>)
    requires SafeBodies(b) && FeedOk(f, dropped) && IsOrder(order, f.pendingBodies.Keys)
    ensures forall m :: m in Process(b, f, order, cs, buildGlobal).1.parts ==> SafeMsg(m)
  {
    ProcessSpec(b, f, order, cs, buildGlobal, dropped);
    ProcessParts(b, f, order, cs, buildGlobal, dropped);
    var g := Process(b, f, order, cs, buildGlobal).0;
    assert SafeData(GlobalData(g));
  }

  lemma FeedMsgsAreSafe(b: Bodies, f: Feed, order: seq<nat>, cs: Option<set<nat>>, buildGlobal: bool,
                        dropped: map<nat, nat>)
    requires SafeBodies(b) && FeedOk(f, dropped) && IsOrder(order, f.pendingBodies.Keys)
    ensures forall m :: m in Process(b, f, order, cs, buildGlobal).1.feedMsgs ==> SafeMsg(m)
  {
    PreparedOk(b, f, order, cs, dropped);
  }

  lemma ProcessIsSafe(b: Bodies, f: Feed, order: seq<nat>, cs: Option<set<nat>>, buildGlobal: bool,
                      dropped: map<nat, nat>)
    requires SafeBodies(b) && FeedOk(f, dropped) && IsOrder(order, f.pendingBodies.Keys)
    ensures SafeSet(Process(b, f, order, cs, buildGlobal).1)
  {
    PartsAreSafe(b, f, order, cs, buildGlobal, dropped);
    FeedMsgsAreSafe(b, f, order, cs, buildGlobal, dropped);
    forall c | c in Process(b, f, order, cs, buildGlobal).1.threads
      ensures SafeMsg(Process(b, f, order, cs, buildGlobal).1.threads[c])
    {
      ThreadMessagesAreSafe(b, f, order, cs, buildGlobal, dropped, c);
    }
  }
}
