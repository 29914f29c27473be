/** What a client can tell of a thread's open posts from the messages it hears. */
module Views {
  import opened Wrappers
  import opened Feeds
  import opened Pulsars
  import opened Dispatch
  import Reg = Registries

  /** An open post without its body. */
  datatype Meta = Meta(createdOn: nat, thread: nat, hasImage: bool, imageSpoilered: bool)

  type View = map<nat, Meta>

  function Shown(posts: map<nat, OpenPost>): View {
    map id | id in posts :: Meta(posts[id].createdOn, posts[id].thread, posts[id].hasImage, posts[id].imageSpoilered)
  }

  /** A view after one more message. */
  function See(v: View, e: Event): View {
    match e
    case FeedInit(data) => Shown(data.openPosts)
    case InsertPost(id, thread, time, _) => v[id := Meta(time, thread, false, false)]
    case InsertImage(post, spoilered, _) =>
      if post in v then v[post := v[post].(hasImage := true, imageSpoilered := spoilered)] else v
    case _ => v
  }

  function SeeAll(v: View, es: seq<Event>): View {
    if es == [] then v else See(SeeAll(v, es[..|es| - 1]), es[|es| - 1])
  }

  lemma SeeOneMore(v: View, es: seq<Event>, e: Event)
    ensures SeeAll(v, es + [e]) == See(SeeAll(v, es), e)
  {
  }

  lemma {:induction false} SeeConcat(v: View, a: seq<Event>, b: seq<Event>)
    ensures SeeAll(v, a + b) == SeeAll(SeeAll(v, a), b)
    decreases |b|
  {
    if b == [] {
      assert a + b == a;
    } else {
      var b', e := b[..|b| - 1], b[|b| - 1];
      assert b == b' + [e];
      Assoc(a, b', [e]);
      SeeConcat(v, a, b');
      SeeOneMore(v, a + b', e);
    }
  }

  predicate IsUnseen(e: Event) {
    e.PatchPostBody? || e.InsertThread?
  }

  lemma {:induction false} UnseenChangesNothing(v: View, es: seq<Event>)
    requires forall e :: e in es ==> IsUnseen(e)
    ensures SeeAll(v, es) == v
    decreases |es|
  {
    if es == [] {
    } else {
      assert es[|es| - 1] in es;
      UnseenChangesNothing(v, es[..|es| - 1]);
    }
  }

  // ------------------------------------------------- seeing a stream twice

  /** What a stream does to one entry of a view. */
  datatype Effect = Keep | Image(spoilered: bool) | Put(entry: Option<Meta>)

  function At(v: View, id: nat): Option<Meta> {
    if id in v then Some(v[id]) else None
  }

  function Act(f: Effect, x: Option<Meta>): Option<Meta> {
    match f
    case Keep => x
    case Image(spoilered) => if x.Some? then Some(x.value.(hasImage := true, imageSpoilered := spoilered)) else None
    case Put(entry) => entry
  }

  function Later(f: Effect, e: Event, id: nat): Effect {
    match e
    case FeedInit(data) => Put(At(Shown(data.openPosts), id))
    case InsertPost(post, thread, time, _) => if post == id then Put(Some(Meta(time, thread, false, false))) else f
    case InsertImage(post, spoilered, _) =>
      if post != id then f
      else if f.Put? then Put(Act(Image(spoilered), f.entry))
      else Image(spoilered)
    case _ => f
  }

  function EffectOf(es: seq<Event>, id: nat): Effect {
    if es == [] then Keep else Later(EffectOf(es[..|es| - 1], id), es[|es| - 1], id)
  }

  lemma {:induction false} EffectIsExact(v: View, es: seq<Event>, id: nat)
    ensures At(SeeAll(v, es), id) == Act(EffectOf(es, id), At(v, id))
    decreases |es|
  {
    if es == [] {
    } else {
      EffectIsExact(v, es[..|es| - 1], id);
    }
  }

  /** Seeing a stream again changes nothing. */
  lemma {:induction false} SeenAgain(v: View, es: seq<Event>)
    ensures SeeAll(SeeAll(v, es), es) == SeeAll(v, es)
  {
    var once := SeeAll(v, es);
    var twice := SeeAll(once, es);
    forall id: nat
      ensures At(twice, id) == At(once, id)
    {
      EffectIsExact(v, es, id);
      EffectIsExact(once, es, id);
    }
    SameEntries(twice, once);
  }

  lemma SameEntries(a: View, b: View)
    requires forall id: nat :: At(a, id) == At(b, id)
    ensures a == b
  {
    forall id: nat
      ensures id in a <==> id in b
      ensures id in a && id in b ==> a[id] == b[id]
    {
      assert At(a, id) == At(b, id);
    }
  }

  // ------------------------------------------------------- feeds and requests

  /** The open posts come from some view by seeing all that is pending. */
  ghost predicate Settled(f: Feed) {
    exists v: View :: SeeAll(v, PendingEvents(f)) == Shown(f.data.openPosts)
  }

  ghost predicate AllSettled(s: Sys) {
    forall id :: id in s.pul.feeds ==> Settled(s.pul.feeds[id])
  }

  lemma SettledWhenEmpty(f: Feed)
    requires PendingEvents(f) == []
    ensures Settled(f)
  {
    assert SeeAll(Shown(f.data.openPosts), PendingEvents(f)) == Shown(f.data.openPosts);
  }

  /** What is pending is already in the open posts. */
  lemma SettledSeesNothingNew(f: Feed)
    requires Settled(f)
    ensures SeeAll(Shown(f.data.openPosts), PendingEvents(f)) == Shown(f.data.openPosts)
  {
    var v: View :| SeeAll(v, PendingEvents(f)) == Shown(f.data.openPosts);
    SeenAgain(v, PendingEvents(f));
  }

  /** A request's events tell all it does to the open posts. */
  lemma RequestIsShown(f: Feed, req: ThreadReq)
    ensures Shown(Handle(ClearCache(f), req).data.openPosts) == SeeAll(Shown(f.data.openPosts), RequestEvents(f, req))
  {
    var es := RequestEvents(f, req);
    if es == [] {
    } else {
      assert es[..0] == [];
    }
  }

  lemma RequestSettles(f: Feed, req: ThreadReq)
    requires Settled(f)
    ensures Settled(Handle(ClearCache(f), req))
  {
    var v: View :| SeeAll(v, PendingEvents(f)) == Shown(f.data.openPosts);
    RequestIsShown(f, req);
    HandleWrites(f, req);
    SeeConcat(v, PendingEvents(f), RequestEvents(f, req));
    assert SeeAll(v, PendingEvents(Handle(ClearCache(f), req))) == Shown(Handle(ClearCache(f), req).data.openPosts);
  }

  lemma {:induction false} BodiesAreNotShown(f: Feed, cs: seq<Change>)
    requires forall c :: c in cs ==> c.id in f.data.openPosts
    ensures Shown(MakeChanges(f, cs).data.openPosts) == Shown(f.data.openPosts)
    decreases |cs|
  {
    if cs == [] {
    } else {
      assert cs[0] in cs && forall c :: c in cs[1..] ==> c in cs;
      assert Shown(MakeChange(f, cs[0]).data.openPosts) == Shown(f.data.openPosts);
      BodiesAreNotShown(MakeChange(f, cs[0]), cs[1..]);
    }
  }

  lemma RoundIsNotShown(b: Bodies, d: Sys, ch: Choice, dropped: map<nat, map<nat, nat>>, t: nat)
    requires SafeBodies(b) && DrainedOk(d, dropped) && ValidChoice(d, ch) && t in d.pul.feeds
    ensures Shown(Round(b, d, ch, t).0.data.openPosts) == Shown(d.pul.feeds[t].data.openPosts)
    ensures PendingEvents(Round(b, d, ch, t).0) == if IsProcessed(d, t) then [] else PendingEvents(d.pul.feeds[t])
  {
    if IsProcessed(d, t) {
      var f, order := d.pul.feeds[t], ch.orders[t];
      ProcessSpec(b, f, order, Get(d.reg.byThread, t), BuildGlobal(d.pul), dropped[t]);
      BodiesAreNotShown(f.(pendingBodies := map[]), ChangesOf(b, f, order));
    }
  }

  lemma PulseSettles(b: Bodies, s: Sys, ch: Choice, dropped: map<nat, map<nat, nat>>)
    requires SafeBodies(b) && SysOk(s, dropped) && ValidChoice(Drained(s), ch) && AllSettled(s)
    ensures AllSettled(PulseState(b, s, ch))
  {
    var d := Drained(s);
    DrainedIsOk(s, dropped);
    forall t | t in PulseState(b, s, ch).pul.feeds
      ensures Settled(PulseState(b, s, ch).pul.feeds[t])
    {
      RoundSettles(b, d, ch, dropped, t, s.pul.feeds[t]);
    }
  }

  lemma RoundSettles(b: Bodies, d: Sys, ch: Choice, dropped: map<nat, map<nat, nat>>, t: nat, f: Feed)
    requires SafeBodies(b) && DrainedOk(d, dropped) && ValidChoice(d, ch) && t in d.pul.feeds
    requires Settled(f) && d.pul.feeds[t] == f.(needInit := d.pul.feeds[t].needInit)
    ensures Settled(Round(b, d, ch, t).0)
  {
    RoundIsNotShown(b, d, ch, dropped, t);
    if IsProcessed(d, t) {
      SettledWhenEmpty(Round(b, d, ch, t).0);
    } else {
      var v: View :| SeeAll(v, PendingEvents(f)) == Shown(f.data.openPosts);
      assert SeeAll(v, PendingEvents(Round(b, d, ch, t).0)) == Shown(Round(b, d, ch, t).0.data.openPosts);
    }
  }

  lemma StepSettles(b: Bodies, s: Sys, step: Step, dropped: map<nat, map<nat, nat>>)
    requires SafeBodies(b) && SysOk(s, dropped) && Legal(s, step) && AllSettled(s)
    ensures AllSettled(Next(b, s, step))
  {
    match step
    case Pulse(ch) => PulseSettles(b, s, ch, dropped);
    case NewThread(t, time, subject) => SettledWhenEmpty(Next(b, s, step).pul.feeds[t]);
    case ThreadStep(t, req) =>
      if t in s.pul.feeds {
        RequestSettles(s.pul.feeds[t], req);
      }
    case Clean(threshold) =>
      forall id | id in Next(b, s, step).pul.feeds
        ensures Settled(Next(b, s, step).pul.feeds[id])
      {
        CleanSettles(s.pul.feeds[id], threshold);
      }
    case _ =>
  }

  lemma CleanSettles(f: Feed, threshold: nat)
    requires Settled(f)
    ensures Settled(CleanFeed(f, threshold))
  {
    var v: View :| SeeAll(v, PendingEvents(f)) == Shown(f.data.openPosts);
    var g := CleanFeed(f, threshold);
    assert SeeAll(v, PendingEvents(g)) == Shown(g.data.openPosts);
  }

  // ------------------------------------------------------------ a client's view

  function ShownBy(s: Sys, t: nat): View
    requires t in s.pul.feeds
  {
    Shown(s.pul.feeds[t].data.openPosts)
  }

  /** The client still waits for the feed's init message, or its view lacks
      exactly what is pending. */
  predicate InSync(s: Sys, c: nat, t: nat, v: View) {
    Waits(s, c, t) || (t in s.pul.feeds && SeeAll(v, PendingOf(s, t)) == ShownBy(s, t))
  }

  /** What the feed's share of a pulse makes of a view. */
  lemma RoundIsSeen(b: Bodies, d: Sys, ch: Choice, dropped: map<nat, map<nat, nat>>, c: nat, t: nat, v: View)
    requires SafeBodies(b) && DrainedOk(d, dropped) && ValidChoice(d, ch) && On(d, c, t) && t in d.pul.feeds
    requires Settled(d.pul.feeds[t])
    requires c !in d.pul.feeds[t].needInit ==> SeeAll(v, PendingEvents(d.pul.feeds[t])) == ShownBy(d, t)
    ensures SeeAll(v, FromThreads(ByClient, b, d, ch, c)) == ShownBy(d, t)
  {
    var ft, f := FromThreads(ByClient, b, d, ch, c), d.pul.feeds[t];
    var patches := Patches(ChangesOf(b, f, ch.orders[t]));
    ThreadHeard(b, d, ch, dropped, c, t);
    PatchesAreUnseen(ChangesOf(b, f, ch.orders[t]));
    if c in f.needInit {
      RoundIsNotShown(b, d, ch, dropped, t);
      SettledSeesNothingNew(f);
      InitIsSeen(v, ft, PendingEvents(f), patches, ShownBy(d, t));
    } else {
      SeeConcat(v, PendingEvents(f), patches);
      UnseenChangesNothing(ShownBy(d, t), patches);
    }
  }

  lemma {:induction false} PatchesAreUnseen(cs: seq<Change>)
    ensures forall e :: e in Patches(cs) ==> IsUnseen(e)
  {
    if cs == [] {
    } else {
      PatchesAreUnseen(cs[1..]);
    }
  }

  lemma InitIsSeen(v: View, ft: seq<Event>, pending: seq<Event>, patches: seq<Event>, shown: View)
    requires ft != [] && ft[0].FeedInit? && ft[1..] == pending + patches && Shown(ft[0].data.openPosts) == shown
    requires SeeAll(shown, pending) == shown && forall e :: e in patches ==> IsUnseen(e)
    ensures SeeAll(v, ft) == shown
  {
    assert ft == [ft[0]] + (pending + patches);
    SeeConcat(v, [ft[0]], pending + patches);
    SeeConcat(shown, pending, patches);
    UnseenChangesNothing(shown, patches);
    assert [ft[0]][..0] == [];
  }

  lemma PulseKeepsInSync(b: Bodies, s: Sys, ch: Choice, dropped: map<nat, map<nat, nat>>, c: nat, t: nat, v: View)
    requires SafeBodies(b) && SysOk(s, dropped) && ValidChoice(Drained(s), ch) && AllSettled(s)
    requires On(s, c, t) && t != 0 && InSync(s, c, t, v)
    ensures InSync(PulseState(b, s, ch), c, t, SeeAll(v, Heard(PulseOut(ByClient, b, s, ch), c)))
  {
    OnlyUnknownFeedsAreAwaited(b, s, ch, dropped, c, t);
    if t in s.pul.feeds {
      var d := Drained(s);
      DrainedIsOk(s, dropped);
      DrainedSettles(s, t);
      RoundIsSeen(b, d, ch, dropped, c, t, v);
      PulseHeard(ByClient, b, s, ch, c);
      SeeConcat(v, FromThreads(ByClient, b, d, ch, c), ServerWide(s));
      UnseenChangesNothing(ShownBy(d, t), ServerWide(s));
      AfterPulse(b, s, ch, dropped, c, t);
    }
  }

  lemma DrainedSettles(s: Sys, t: nat)
    requires t in s.pul.feeds && Settled(s.pul.feeds[t])
    ensures Settled(Drained(s).pul.feeds[t]) && ShownBy(Drained(s), t) == ShownBy(s, t)
    ensures PendingEvents(Drained(s).pul.feeds[t]) == PendingOf(s, t)
  {
    var f, g := s.pul.feeds[t], Drained(s).pul.feeds[t];
    var v: View :| SeeAll(v, PendingEvents(f)) == Shown(f.data.openPosts);
    assert SeeAll(v, PendingEvents(g)) == Shown(g.data.openPosts);
  }

  lemma AfterPulse(b: Bodies, s: Sys, ch: Choice, dropped: map<nat, map<nat, nat>>, c: nat, t: nat)
    requires SafeBodies(b) && SysOk(s, dropped) && ValidChoice(Drained(s), ch) && On(s, c, t) && t in s.pul.feeds
    ensures PendingOf(PulseState(b, s, ch), t) == []
    ensures t in PulseState(b, s, ch).pul.feeds && ShownBy(PulseState(b, s, ch), t) == ShownBy(s, t)
  {
    PulseEmptiesPending(b, s, ch, dropped, c, t);
    DrainedIsOk(s, dropped);
    RoundIsNotShown(b, Drained(s), ch, dropped, t);
    assert PulseState(b, s, ch).pul.feeds[t] == Round(b, Drained(s), ch, t).0;
  }

  lemma RequestKeepsInSync(b: Bodies, s: Sys, step: Step, c: nat, t: nat, v: View)
    requires Legal(s, step) && !step.Pulse? && Reg.Consistent(s.reg)
    requires On(s, c, t) && On(Next(b, s, step), c, t) && InSync(s, c, t, v)
    ensures InSync(Next(b, s, step), c, t, v)
  {
    var s' := Next(b, s, step);
    if Waits(s, c, t) {
      StillWaits(b, s, step, c, t);
    } else {
      RequestPending(b, s, step, t);
      SeeConcat(v, PendingOf(s, t), Emitted(b, s, step, t));
      if step.ThreadStep? && step.thread == t {
        RequestIsShown(s.pul.feeds[t], step.req);
      } else {
        assert ShownBy(s', t) == ShownBy(s, t);
      }
    }
  }

  lemma StillWaits(b: Bodies, s: Sys, step: Step, c: nat, t: nat)
    requires Legal(s, step) && !step.Pulse? && Reg.Consistent(s.reg) && Waits(s, c, t) && On(Next(b, s, step), c, t)
    ensures Waits(Next(b, s, step), c, t)
  {
  }

  /** Right after a pulse, a client on a known feed is up to date. */
  lemma PulseBringsUpToDate(b: Bodies, s: Sys, ch: Choice, dropped: map<nat, map<nat, nat>>, c: nat, t: nat, v: View)
    requires SafeBodies(b) && SysOk(s, dropped) && ValidChoice(Drained(s), ch) && AllSettled(s)
    requires On(s, c, t) && t != 0 && t in s.pul.feeds && InSync(s, c, t, v)
    ensures t in PulseState(b, s, ch).pul.feeds
    ensures SeeAll(v, Heard(PulseOut(ByClient, b, s, ch), c)) == ShownBy(PulseState(b, s, ch), t)
  {
    OnlyUnknownFeedsAreAwaited(b, s, ch, dropped, c, t);
    PulseKeepsInSync(b, s, ch, dropped, c, t, v);
    AfterPulse(b, s, ch, dropped, c, t);
  }

  function ViewAfter(b: Bodies, s: Sys, steps: seq<Step>, c: nat, v: View): View
    requires AllLegal(b, s, steps)
    decreases |steps|
  {
    if steps == [] then v
    else ViewAfter(b, Next(b, s, steps[0]), steps[1..], c, SeeAll(v, Heard(Out(ByClient, b, s, steps[0]), c)))
  }

  /** Convergence. Over any run during which a client stays on a thread feed, from
      any view if it still waits for the init message: the view it builds from
      all it hears, once what is pending has reached it too, is exactly the
      thread's open posts with their creation times and images. In particular
      hearing pending events again after an init message that already holds them
      does no harm. */
  lemma {:induction false} ViewsConverge(b: Bodies, s: Sys, steps: seq<Step>, dropped: map<nat, map<nat, nat>>,
                                         c: nat, t: nat, v: View)
    requires SafeBodies(b) && SysOk(s, dropped) && AllSettled(s) && AllLegal(b, s, steps)
    requires t != 0 && Stays(b, s, steps, c, t) && InSync(s, c, t, v)
    ensures InSync(Final(b, s, steps), c, t, ViewAfter(b, s, steps, c, v))
    decreases |steps|
  {
    if steps == [] {
    } else {
      var step := steps[0];
      StepKeepsInSync(b, s, step, dropped, c, t, v);
      StepKeepsOk(b, s, step, dropped);
      StepSettles(b, s, step, dropped);
      ViewsConverge(b, Next(b, s, step), steps[1..], NextDropped(s, step, dropped), c, t,
        SeeAll(v, Heard(Out(ByClient, b, s, step), c)));
    }
  }

  lemma StepKeepsInSync(b: Bodies, s: Sys, step: Step, dropped: map<nat, map<nat, nat>>, c: nat, t: nat, v: View)
    requires SafeBodies(b) && SysOk(s, dropped) && AllSettled(s) && Legal(s, step)
    requires On(s, c, t) && On(Next(b, s, step), c, t) && t != 0 && InSync(s, c, t, v)
    ensures InSync(Next(b, s, step), c, t, SeeAll(v, Heard(Out(ByClient, b, s, step), c)))
  {
    if step.Pulse? {
      PulseKeepsInSync(b, s, step.choice, dropped, c, t, v);
    } else {
      RequestKeepsInSync(b, s, step, c, t, v);
      assert Heard(Out(ByClient, b, s, step), c) == [];
    }
  }

  /** Feeds are settled right after loading. */
  lemma LoadedIsSettled(data: map<nat, FeedData>, heaps: map<nat, seq<nat>>)
    requires heaps.Keys == data.Keys
    ensures AllSettled(Loaded(data, heaps))
  {
    forall t | t in data
      ensures Settled(Loaded(data, heaps).pul.feeds[t])
    {
      SettledWhenEmpty(Loaded(data, heaps).pul.feeds[t]);
    }
  }
}
