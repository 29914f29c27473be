/** What the requests to a thread, the clean-ups and the pulses so far say of its
    posts, told without the feed that holds them. */
module Histories {
  import opened Wrappers
  import opened PostBody
  import opened Feeds
  import opened Pulsars
  import opened Dispatch
  import opened IndexStreams
  import Diff
  import Fragments

  // ---------------------------------------------------- one round of diffing

  lemma {:induction false} ChangesExact(b: Bodies, f: Feed, order: seq<nat>)
    requires forall id :: id in order ==> id in f.pendingBodies
    ensures forall c :: c in Changes(b, f, order) ==> c.id in order && ChangeOf(b, f, c.id) == Some(c)
    ensures forall id :: id in order && ChangeOf(b, f, id).Some? ==> ChangeOf(b, f, id).value in Changes(b, f, order)
  {
    if order == [] {
    } else {
      assert order[0] in order && forall id :: id in order[1..] ==> id in order;
      ChangesExact(b, f, order[1..]);
      assert forall id :: id in order ==> id == order[0] || id in order[1..];
    }
  }

  predicate DistinctIds(cs: seq<Change>) {
    forall i, j :: 0 <= i < j < |cs| ==> cs[i].id != cs[j].id
  }

  lemma {:induction false} ChangesAreDistinct(b: Bodies, f: Feed, order: seq<nat>, keys: set<nat>)
    requires IsOrder(order, keys) && forall id :: id in order ==> id in f.pendingBodies
    ensures DistinctIds(Changes(b, f, order))
    decreases |order|
  {
    if order == [] {
    } else {
      assert order[0] in order && forall id :: id in order[1..] ==> id in order;
      RestIsOrder(order, keys);
      ChangesAreDistinct(b, f, order[1..], keys - {order[0]});
      ChangesExact(b, f, order[1..]);
      assert order[0] !in order[1..];
    }
  }

  /** A post's body once a text waiting for it was seen by a pulse. */
  function Revised(b: Bodies, before: Node, text: string): Node {
    match b.parse(text)
    case None => before
    case Some(body) => if b.diff(before, body).None? then before else body
  }

  /** After a round of diffing an open post holds the tree of the text that waited
      for it, if that parses and differs, and else the body it had. Nothing else
      of the feed's data changes. */
  lemma BodyAfterDiff(b: Bodies, f: Feed, order: seq<nat>, id: nat)
    requires IsOrder(order, f.pendingBodies.Keys)
    ensures var g := DiffBodies(b, f, order);
            && g.data == f.data.(openPosts := g.data.openPosts)
            && g.data.openPosts.Keys == f.data.openPosts.Keys
            && (id in f.data.openPosts ==>
                  var x := f.data.openPosts[id];
                  g.data.openPosts[id] ==
                  if id in f.pendingBodies then x.(body := Revised(b, x.body, f.pendingBodies[id])) else x)
  {
    var cs := ChangesOf(b, f, order);
    assert forall id :: id in order <==> id in f.pendingBodies by {
      assert forall id :: id in order <==> id in Elements(order);
    }
    MakeChangesFrame(f.(pendingBodies := map[]), cs);
    ChangesExact(b, f, order);
    ChangesAreDistinct(b, f, order, f.pendingBodies.Keys);
    if id in f.data.openPosts {
      MakeChangesBodies(f.(pendingBodies := map[]), cs, id);
    }
  }

  // ------------------------------------------------------------- one post

  /** What is said of one post: as an open post, as a recent one, and the text that
      waits to become its body. */
  datatype Post = Post(open: Option<OpenPost>, recent: Option<nat>, waiting: Option<string>)

  /** Somebody is on the thread or waits for the index, so that a pulse works on the
      thread's feed. */
  ghost predicate Attended(s: Sys, t: nat) {
    (exists c :: On(s, c, t)) || (exists c :: WaitsForIndex(s, c))
  }

  function NewOpen(t: nat, time: nat): OpenPost {
    OpenPost(false, false, time, t, Empty)
  }

  function Requested(p: Post, t: nat, req: ThreadReq, id: nat): Post {
    match req
    case NewPost(i, time, _) => if i == id then p.(open := Some(NewOpen(t, time)), recent := Some(time)) else p
    case NewImage(i, spoilered, _) =>
      if i == id && p.open.Some?
      then p.(open := Some(p.open.value.(hasImage := true, imageSpoilered := spoilered)))
      else p
    case NewBody(i, text) => if i == id then p.(waiting := Some(text)) else p
  }

  function Cleaned(p: Post, threshold: nat): Post {
    if p.recent.Some? && p.recent.value <= threshold % 0x1_0000_0000 then p.(recent := None) else p
  }

  function Pulsed(b: Bodies, p: Post): Post {
    if p.open.Some? && p.waiting.Some?
    then Post(Some(p.open.value.(body := Revised(b, p.open.value.body, p.waiting.value))), p.recent, None)
    else p.(waiting := None)
  }

  /** What a step says of the post `id` of thread `t`; nothing is said of the posts
      of unknown threads. */
  ghost function Told(b: Bodies, s: Sys, step: Step, t: nat, id: nat, p: Option<Post>): Option<Post> {
    match step
    case NewThread(t', time, _) =>
      if t' != t then p
      else if id == t then Some(Post(Some(NewOpen(t, time)), Some(time), None))
      else Some(Post(None, None, None))
    case ThreadStep(t', req) => if t' == t && p.Some? then Some(Requested(p.value, t, req, id)) else p
    case Clean(threshold) => if p.Some? then Some(Cleaned(p.value, threshold)) else p
    case Pulse(_) => if p.Some? && Attended(s, t) then Some(Pulsed(b, p.value)) else p
    case _ => p
  }

  ghost function ToldIn(b: Bodies, s: Sys, steps: seq<Step>, t: nat, id: nat, p: Option<Post>): Option<Post>
    requires AllLegal(b, s, steps)
    decreases |steps|
  {
    if steps == [] then p
    else ToldIn(b, Next(b, s, steps[0]), steps[1..], t, id, Told(b, s, steps[0], t, id, p))
  }

  /** What the thread's feed holds of the post. */
  function Held(f: Feed, id: nat): Post {
    Post(Get(f.data.openPosts, id), Get(f.data.recentPosts, id), Get(f.pendingBodies, id))
  }

  function HeldBy(s: Sys, t: nat, id: nat): Option<Post> {
    if t in s.pul.feeds then Some(Held(s.pul.feeds[t], id)) else None
  }

  lemma RequestIsHeld(f: Feed, req: ThreadReq, id: nat)
    ensures Held(Handle(ClearCache(f), req), id) == Requested(Held(f, id), f.id, req, id)
  {
  }

  lemma RoundIsHeld(b: Bodies, d: Sys, ch: Choice, dropped: map<nat, map<nat, nat>>, t: nat, id: nat)
    requires SafeBodies(b) && DrainedOk(d, dropped) && ValidChoice(d, ch) && t in d.pul.feeds
    ensures Held(Round(b, d, ch, t).0, id) ==
            var p := Held(d.pul.feeds[t], id); if IsProcessed(d, t) then Pulsed(b, p) else p
  {
    var f, order := d.pul.feeds[t], ch.orders[t];
    if IsProcessed(d, t) {
      ProcessSpec(b, f, order, Get(d.reg.byThread, t), BuildGlobal(d.pul), dropped[t]);
      BodyAfterDiff(b, f, order, id);
    }
  }

  lemma AttendedIsProcessed(s: Sys, dropped: map<nat, map<nat, nat>>, t: nat)
    requires SysOk(s, dropped) && t in s.pul.feeds
    ensures IsProcessed(Drained(s), t) <==> Attended(s, t)
    ensures DrainedOk(Drained(s), dropped)
  {
    ProcessedExactly(s, dropped, t);
    DrainedIsOk(s, dropped);
  }

  lemma SnapshotHolds(s: Sys, t: nat, id: nat)
    requires t in s.pul.feeds
    ensures t in Drained(s).pul.feeds && Held(Drained(s).pul.feeds[t], id) == Held(s.pul.feeds[t], id)
  {
  }

  /** What a pulse leaves of a post. */
  lemma PulsedIsHeld(b: Bodies, s: Sys, ch: Choice, dropped: map<nat, map<nat, nat>>, t: nat, id: nat)
    requires SafeBodies(b) && SysOk(s, dropped) && ValidChoice(Drained(s), ch) && t in s.pul.feeds
    ensures Held(Round(b, Drained(s), ch, t).0, id) ==
            var p := Held(s.pul.feeds[t], id); if Attended(s, t) then Pulsed(b, p) else p
  {
    AttendedIsProcessed(s, dropped, t);
    SnapshotHolds(s, t, id);
    RoundIsHeld(b, Drained(s), ch, dropped, t, id);
  }

  lemma PulseIsHeld(b: Bodies, s: Sys, ch: Choice, dropped: map<nat, map<nat, nat>>, t: nat, id: nat)
    requires SafeBodies(b) && SysOk(s, dropped) && ValidChoice(Drained(s), ch)
    ensures HeldBy(PulseState(b, s, ch), t, id) == Told(b, s, Pulse(ch), t, id, HeldBy(s, t, id))
  {
    PulseFeeds(b, s, ch);
    if t in s.pul.feeds {
      PulsedIsHeld(b, s, ch, dropped, t, id);
    }
  }

  lemma ThreadStepIsHeld(b: Bodies, s: Sys, t': nat, req: ThreadReq, t: nat, id: nat)
    requires t in s.pul.feeds ==> s.pul.feeds[t].id == t
    ensures HeldBy(Next(b, s, ThreadStep(t', req)), t, id) == Told(b, s, ThreadStep(t', req), t, id, HeldBy(s, t, id))
  {
    if t in s.pul.feeds {
      RequestIsHeld(s.pul.feeds[t], req, id);
    }
  }

  lemma CleanIsHeld(p: Pulsar, threshold: nat, t: nat, id: nat)
    requires t in p.feeds
    ensures t in CleanUpReq(p, threshold).feeds
    ensures Held(CleanUpReq(p, threshold).feeds[t], id) == Cleaned(Held(p.feeds[t], id), threshold)
  {
  }

  lemma NewThreadIsHeld(p: Pulsar, t': nat, time: nat, subject: string, t: nat, id: nat)
    ensures var q := InsertThreadReq(p, t', time, subject);
            && (t' != t ==> (t in q.feeds <==> t in p.feeds) && (t in p.feeds ==> q.feeds[t] == p.feeds[t]))
            && (t' == t ==>
                  && t in q.feeds
                  && Held(q.feeds[t], id) ==
                     if id == t then Post(Some(NewOpen(t, time)), Some(time), None) else Post(None, None, None))
  {
  }

  lemma StepIsHeld(b: Bodies, s: Sys, step: Step, dropped: map<nat, map<nat, nat>>, t: nat, id: nat)
    requires SafeBodies(b) && SysOk(s, dropped) && Legal(s, step)
    ensures HeldBy(Next(b, s, step), t, id) == Told(b, s, step, t, id, HeldBy(s, t, id))
  {
    match step
    case Pulse(ch) => PulseIsHeld(b, s, ch, dropped, t, id);
    case ThreadStep(t', req) => ThreadStepIsHeld(b, s, t', req, t, id);
    case NewThread(t', time, subject) => NewThreadIsHeld(s.pul, t', time, subject, t, id);
    case Clean(threshold) =>
      if t in s.pul.feeds {
        CleanIsHeld(s.pul, threshold, t, id);
      }
    case _ =>
  }

  /** After every run a thread's feed holds of each post exactly what the run says:
      when it was created, its image, the tree of the last text a pulse saw on an
      attended thread, the text that came since, and its time unless cleaned up. */
  lemma {:induction false} RunIsHeld(b: Bodies, s: Sys, steps: seq<Step>, dropped: map<nat, map<nat, nat>>, t: nat,
                                     id: nat)
    requires SafeBodies(b) && SysOk(s, dropped) && AllLegal(b, s, steps)
    ensures HeldBy(Final(b, s, steps), t, id) == ToldIn(b, s, steps, t, id, HeldBy(s, t, id))
    decreases |steps|
  {
    if steps == [] {
    } else {
      StepIsHeld(b, s, steps[0], dropped, t, id);
      StepKeepsOk(b, s, steps[0], dropped);
      RunIsHeld(b, Next(b, s, steps[0]), steps[1..], NextDropped(s, steps[0], dropped), t, id);
    }
  }

  // ------------------------------------------------------- a text's way in

  /** The step gives the post another text or starts it anew. */
  predicate Rewrites(step: Step, t: nat, id: nat) {
    && step.ThreadStep?
    && step.thread == t
    && ((step.req.NewBody? && step.req.post == id) || (step.req.NewPost? && step.req.id == id))
  }

  /** A pulse of the run works on the thread. */
  ghost predicate SeenByPulse(b: Bodies, s: Sys, steps: seq<Step>, t: nat)
    requires AllLegal(b, s, steps)
    decreases |steps|
  {
    && steps != []
    && ((steps[0].Pulse? && Attended(s, t)) || SeenByPulse(b, Next(b, s, steps[0]), steps[1..], t))
  }

  /** The post is open with this body and this text waiting. */
  predicate IsOpen(s: Sys, t: nat, id: nat, body: Node, waiting: Option<string>) {
    SaysOpen(HeldBy(s, t, id), body, waiting)
  }

  predicate SaysOpen(p: Option<Post>, body: Node, waiting: Option<string>) {
    p.Some? && p.value.open.Some? && p.value.open.value.body == body && p.value.waiting == waiting
  }

  lemma QuietStep(b: Bodies, s: Sys, step: Step, dropped: map<nat, map<nat, nat>>, t: nat, id: nat, body: Node,
                  waiting: Option<string>)
    requires SafeBodies(b) && SysOk(s, dropped) && Legal(s, step) && !Rewrites(step, t, id)
    requires IsOpen(s, t, id, body, waiting)
    ensures if step.Pulse? && Attended(s, t) && waiting.Some?
            then IsOpen(Next(b, s, step), t, id, Revised(b, body, waiting.value), None)
            else IsOpen(Next(b, s, step), t, id, body, waiting)
  {
    StepIsHeld(b, s, step, dropped, t, id);
    QuietTold(b, s, step, t, id, HeldBy(s, t, id), body, waiting);
  }

  lemma QuietTold(b: Bodies, s: Sys, step: Step, t: nat, id: nat, p: Option<Post>, body: Node, waiting: Option<string>)
    requires !Rewrites(step, t, id) && (step.NewThread? ==> step.thread != t) && SaysOpen(p, body, waiting)
    ensures if step.Pulse? && Attended(s, t) && waiting.Some?
            then SaysOpen(Told(b, s, step, t, id, p), Revised(b, body, waiting.value), None)
            else SaysOpen(Told(b, s, step, t, id, p), body, waiting)
  {
  }

  lemma {:induction false} NothingWaits(b: Bodies, s: Sys, steps: seq<Step>, dropped: map<nat, map<nat, nat>>, t: nat,
                                        id: nat, body: Node)
    requires SafeBodies(b) && SysOk(s, dropped) && AllLegal(b, s, steps)
    requires (forall step :: step in steps ==> !Rewrites(step, t, id)) && IsOpen(s, t, id, body, None)
    ensures IsOpen(Final(b, s, steps), t, id, body, None)
    decreases |steps|
  {
    if steps == [] {
    } else {
      assert steps[0] in steps && forall step :: step in steps[1..] ==> step in steps;
      QuietStep(b, s, steps[0], dropped, t, id, body, None);
      StepKeepsOk(b, s, steps[0], dropped);
      NothingWaits(b, Next(b, s, steps[0]), steps[1..], NextDropped(s, steps[0], dropped), t, id, body);
    }
  }

  /** A text that is not followed by another becomes its post's body with the first
      pulse that works on the thread, stays it, and waits until then. */
  lemma {:induction false} TextIsSettled(b: Bodies, s: Sys, steps: seq<Step>, dropped: map<nat, map<nat, nat>>, t: nat,
                                         id: nat, body: Node, text: string)
    requires SafeBodies(b) && SysOk(s, dropped) && AllLegal(b, s, steps)
    requires (forall step :: step in steps ==> !Rewrites(step, t, id)) && IsOpen(s, t, id, body, Some(text))
    ensures if SeenByPulse(b, s, steps, t)
            then IsOpen(Final(b, s, steps), t, id, Revised(b, body, text), None)
            else IsOpen(Final(b, s, steps), t, id, body, Some(text))
    decreases |steps|
  {
    if steps == [] {
    } else {
      assert steps[0] in steps && forall step :: step in steps[1..] ==> step in steps;
      var s', dropped' := Next(b, s, steps[0]), NextDropped(s, steps[0], dropped);
      QuietStep(b, s, steps[0], dropped, t, id, body, Some(text));
      StepKeepsOk(b, s, steps[0], dropped);
      if steps[0].Pulse? && Attended(s, t) {
        NothingWaits(b, s', steps[1..], dropped', t, id, Revised(b, body, text));
      } else {
        TextIsSettled(b, s', steps[1..], dropped', t, id, body, text);
      }
    }
  }

  /** The differ finds no difference exactly on equal trees. */
  ghost predicate TellsApart(b: Bodies) {
    forall x, y {:trigger b.diff(x, y)} :: b.diff(x, y).None? <==> x == y
  }

  /** From any request that sets an open post's body on: if no later one does and a
      pulse works on the thread, the post ends with the tree of the text, or with
      the body it had if the text does not parse. */
  lemma LastTextIsShown(b: Bodies, s: Sys, steps: seq<Step>, dropped: map<nat, map<nat, nat>>, t: nat, id: nat,
                        text: string)
    requires SafeBodies(b) && TellsApart(b) && SysOk(s, dropped)
    requires t in s.pul.feeds && id in s.pul.feeds[t].data.openPosts
    requires var s' := Next(b, s, ThreadStep(t, NewBody(id, text)));
             AllLegal(b, s', steps) && SeenByPulse(b, s', steps, t)
    requires forall step :: step in steps ==> !Rewrites(step, t, id)
    ensures var end := Final(b, Next(b, s, ThreadStep(t, NewBody(id, text))), steps);
            && t in end.pul.feeds
            && id in end.pul.feeds[t].data.openPosts
            && end.pul.feeds[t].data.openPosts[id].body ==
               match b.parse(text) {
                 case Some(n) => n
                 case None => s.pul.feeds[t].data.openPosts[id].body
               }
  {
    var step, body := ThreadStep(t, NewBody(id, text)), s.pul.feeds[t].data.openPosts[id].body;
    StepIsHeld(b, s, step, dropped, t, id);
    StepKeepsOk(b, s, step, dropped);
    TextIsSettled(b, Next(b, s, step), steps, NextDropped(s, step, dropped), t, id, body, text);
  }

  /** The intended differ tells trees apart; so does any that tells texts apart, on
      pairs it returns from. */
  lemma DifferTellsApart(o: Fragments.Oracles, td: Diff.TextDiffer, x: Node, y: Node)
    requires Diff.Detects(td)
    ensures Diff.DiffTree(td, x, y) != Diff.Hangs ==> (BodiesOf(o, td).diff(x, y).None? <==> x == y)
    ensures TellsApart(BodiesOf(o, Diff.TrimmedText))
  {
    Diff.UnchangedIsEqual(td, x, y);
    var b := BodiesOf(o, Diff.TrimmedText);
    forall x, y
      ensures b.diff(x, y).None? <==> x == y
    {
      Diff.UnchangedIsEqual(Diff.TrimmedText, x, y);
      Diff.TrimmedReturns(x, y);
    }
  }

  // ---------------------------------------------------------- patches sent

  lemma {:induction false} PatchAt(cs: seq<Change>, i: nat)
    requires i < |cs|
    ensures |Patches(cs)| == |cs| && Patches(cs)[i] == PatchPostBody(cs[i].patch)
  {
    if |cs| == 1 {
      assert cs[1..] == [];
    } else {
      PatchAt(cs[1..], if i > 0 then i - 1 else 0);
    }
  }

  /** The body of an open post. */
  function BodyIn(s: Sys, t: nat, id: nat): Option<Node> {
    if t in s.pul.feeds && id in s.pul.feeds[t].data.openPosts
    then Some(s.pul.feeds[t].data.openPosts[id].body)
    else None
  }

  function BodyOf(f: Feed, id: nat): Option<Node> {
    if id in f.data.openPosts then Some(f.data.openPosts[id].body) else None
  }

  /** Each change of a round is the difference of one open post's bodies before and
      after, and every post whose body differs has its change. */
  lemma ChangesAreDifferences(b: Bodies, f: Feed, order: seq<nat>, id: nat)
    requires IsOrder(order, f.pendingBodies.Keys)
    ensures var g := DiffBodies(b, f, order);
            && (forall c :: c in ChangesOf(b, f, order) && c.id == id ==>
                  && id in f.data.openPosts
                  && id in g.data.openPosts
                  && b.diff(f.data.openPosts[id].body, g.data.openPosts[id].body) == Some(c.patch))
            && (BodyOf(g, id) != BodyOf(f, id) ==> exists c :: c in ChangesOf(b, f, order) && c.id == id)
  {
    assert forall id :: id in order <==> id in f.pendingBodies by {
      assert forall id :: id in order <==> id in Elements(order);
    }
    ChangesExact(b, f, order);
    BodyAfterDiff(b, f, order, id);
  }

  /** The patch takes the old body to the new one wherever the differ is right. */
  ghost predicate Leads(td: Diff.TextDiffer, prev: Node, next: Node, e: Event) {
    && e.PatchPostBody?
    && Diff.DiffTree(td, prev, next) == Diff.Patched(e.patch)
    && (Diff.TreeRight(td, prev, next) <==> Diff.Apply(prev, e.patch) == Some(next))
  }

  lemma RoundBodies(b: Bodies, d: Sys, ch: Choice, dropped: map<nat, map<nat, nat>>, t: nat, id: nat)
    requires SafeBodies(b) && DrainedOk(d, dropped) && ValidChoice(d, ch) && t in d.pul.feeds
    ensures BodyOf(Round(b, d, ch, t).0, id) ==
            if IsProcessed(d, t) then BodyOf(DiffBodies(b, d.pul.feeds[t], ch.orders[t]), id)
            else BodyOf(d.pul.feeds[t], id)
  {
    if IsProcessed(d, t) {
      ProcessSpec(b, d.pul.feeds[t], ch.orders[t], Get(d.reg.byThread, t), BuildGlobal(d.pul), dropped[t]);
    }
  }

  lemma PulseBodies(b: Bodies, s: Sys, ch: Choice, t: nat, id: nat)
    requires ValidChoice(Drained(s), ch) && t in s.pul.feeds
    ensures t in Drained(s).pul.feeds && BodyIn(s, t, id) == BodyOf(Drained(s).pul.feeds[t], id)
    ensures BodyIn(PulseState(b, s, ch), t, id) == BodyOf(Round(b, Drained(s), ch, t).0, id)
  {
    SnapshotHolds(s, t, id);
    PulseFeeds(b, s, ch);
    NewFeedIs(b, Drained(s), ch, t);
  }

  lemma NewFeedIs(b: Bodies, d: Sys, ch: Choice, t: nat)
    requires ValidChoice(d, ch) && t in d.pul.feeds
    ensures t in NewFeeds(b, d, ch) && NewFeeds(b, d, ch)[t] == Round(b, d, ch, t).0
  {
  }

  lemma SameThreads(b: Bodies, s: Sys, ch: Choice, t: nat)
    requires ValidChoice(Drained(s), ch)
    ensures t in PulseState(b, s, ch).pul.feeds <==> t in s.pul.feeds
    ensures t in Drained(s).pul.feeds <==> t in s.pul.feeds
  {
    PulseFeeds(b, s, ch);
  }

  lemma ChangeLeads(o: Fragments.Oracles, td: Diff.TextDiffer, f: Feed, order: seq<nat>, i: nat)
    requires IsOrder(order, f.pendingBodies.Keys) && i < |ChangesOf(BodiesOf(o, td), f, order)|
    ensures var b := BodiesOf(o, td);
            var cs := ChangesOf(b, f, order);
            var before, after := BodyOf(f, cs[i].id), BodyOf(DiffBodies(b, f, order), cs[i].id);
            && before.Some? && after.Some?
            && i < |Patches(cs)|
            && Leads(td, before.value, after.value, Patches(cs)[i])
  {
    var cs := ChangesOf(BodiesOf(o, td), f, order);
    PatchAt(cs, i);
    ChangesAreDifferences(BodiesOf(o, td), f, order, cs[i].id);
    assert cs[i] in cs;
  }

  lemma RoundPatchLeads(o: Fragments.Oracles, td: Diff.TextDiffer, d: Sys, ch: Choice,
                        dropped: map<nat, map<nat, nat>>, t: nat, i: nat) returns (id: nat)
    requires DrainedOk(d, dropped) && ValidChoice(d, ch) && i < |PulsePatches(BodiesOf(o, td), d, ch, t)|
    ensures var b := BodiesOf(o, td);
            && t in d.pul.feeds
            && var before, after := BodyOf(d.pul.feeds[t], id), BodyOf(Round(b, d, ch, t).0, id);
            && before.Some? && after.Some?
            && Leads(td, before.value, after.value, PulsePatches(b, d, ch, t)[i])
  {
    var b := BodiesOf(o, td);
    BodiesAreSafe(o, td);
    var cs := ChangesOf(b, d.pul.feeds[t], ch.orders[t]);
    PatchesSize(cs);
    id := cs[i].id;
    ChangeLeads(o, td, d.pul.feeds[t], ch.orders[t], i);
    RoundBodies(b, d, ch, dropped, t, id);
  }

  /** Every patch a pulse writes for a thread leads from the stored body of one of
      its open posts before the pulse to the one after it. */
  lemma PatchLeads(o: Fragments.Oracles, td: Diff.TextDiffer, s: Sys, ch: Choice, dropped: map<nat, map<nat, nat>>,
                   t: nat, i: nat) returns (id: nat)
    requires SysOk(s, dropped) && ValidChoice(Drained(s), ch)
    requires i < |PulsePatches(BodiesOf(o, td), Drained(s), ch, t)|
    ensures var b := BodiesOf(o, td);
            var before, after := BodyIn(s, t, id), BodyIn(PulseState(b, s, ch), t, id);
            && before.Some? && after.Some?
            && Leads(td, before.value, after.value, PulsePatches(b, Drained(s), ch, t)[i])
  {
    DrainedIsOk(s, dropped);
    id := RoundPatchLeads(o, td, Drained(s), ch, dropped, t, i);
    SameThreads(BodiesOf(o, td), s, ch, t);
    PulseBodies(BodiesOf(o, td), s, ch, t, id);
  }

  lemma {:induction false} PatchesSize(cs: seq<Change>)
    ensures |Patches(cs)| == |cs|
  {
    if cs == [] {
    } else {
      PatchesSize(cs[1..]);
    }
  }

  lemma RoundChangeIsPatched(o: Fragments.Oracles, td: Diff.TextDiffer, d: Sys, ch: Choice,
                             dropped: map<nat, map<nat, nat>>, t: nat, id: nat) returns (i: nat)
    requires DrainedOk(d, dropped) && ValidChoice(d, ch) && t in d.pul.feeds
    requires BodyOf(Round(BodiesOf(o, td), d, ch, t).0, id) != BodyOf(d.pul.feeds[t], id)
    ensures var b := BodiesOf(o, td);
            var before, after := BodyOf(d.pul.feeds[t], id), BodyOf(Round(b, d, ch, t).0, id);
            && before.Some? && after.Some?
            && i < |PulsePatches(b, d, ch, t)|
            && Leads(td, before.value, after.value, PulsePatches(b, d, ch, t)[i])
  {
    var b := BodiesOf(o, td);
    BodiesAreSafe(o, td);
    RoundBodies(b, d, ch, dropped, t, id);
    i := ChangeOfBody(b, d.pul.feeds[t], ch.orders[t], id);
    ChangeLeads(o, td, d.pul.feeds[t], ch.orders[t], i);
  }

  lemma ChangeOfBody(b: Bodies, f: Feed, order: seq<nat>, id: nat) returns (i: nat)
    requires IsOrder(order, f.pendingBodies.Keys) && BodyOf(DiffBodies(b, f, order), id) != BodyOf(f, id)
    ensures i < |ChangesOf(b, f, order)| && ChangesOf(b, f, order)[i].id == id
  {
    ChangesAreDifferences(b, f, order, id);
    var c :| c in ChangesOf(b, f, order) && c.id == id;
    i :| 0 <= i < |ChangesOf(b, f, order)| && ChangesOf(b, f, order)[i] == c;
  }

  /** Every stored body a pulse changes has a patch that leads to it. */
  lemma ChangedBodyIsPatched(o: Fragments.Oracles, td: Diff.TextDiffer, s: Sys, ch: Choice,
                             dropped: map<nat, map<nat, nat>>, t: nat, id: nat) returns (i: nat)
    requires SysOk(s, dropped) && ValidChoice(Drained(s), ch)
    requires BodyIn(PulseState(BodiesOf(o, td), s, ch), t, id) != BodyIn(s, t, id)
    ensures var b := BodiesOf(o, td);
            var before, after := BodyIn(s, t, id), BodyIn(PulseState(b, s, ch), t, id);
            && before.Some? && after.Some?
            && i < |PulsePatches(b, Drained(s), ch, t)|
            && Leads(td, before.value, after.value, PulsePatches(b, Drained(s), ch, t)[i])
  {
    DrainedIsOk(s, dropped);
    SameThreads(BodiesOf(o, td), s, ch, t);
    PulseBodies(BodiesOf(o, td), s, ch, t, id);
    i := RoundChangeIsPatched(o, td, Drained(s), ch, dropped, t, id);
  }
}
