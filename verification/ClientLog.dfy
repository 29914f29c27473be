/** What a connection does, told by its messages alone. */
module ClientLogs {
  import opened Wrappers
  import opened ByteStrings
  import opened MessageTypes
  import opened Drafts
  import opened Clients
  import Utf8

  /** The post a client has open: who it is, where it is and what it says. */
  datatype Writing = Writing(id: nat, thread: nat, text: string)

  /** What an edit makes of a text. A patch keeps as many characters behind its
      position as it should remove. */
  function Edited(text: string, e: Edit): string {
    match e
    case Append(t) => text + t
    case Backspace(n) => if n <= |text| then text[..|text| - n] else text
    case Patch(p, r, ins) => if p + r <= |text| then text[..p] + ins + text[p..p + r] else text
  }

  /** The post open after a message, given the one open before. */
  function Opened(w: Option<Writing>, i: Input): Option<Writing> {
    match i.req
    case InsertThreadReq(_) =>
      if i.env.newThread.Some? then Some(Writing(i.env.newThread.value, i.env.newThread.value, "")) else w
    case InsertPostReq(thread, _) =>
      if i.env.needCaptcha == Some(false) && i.env.newPost.Some?
      then Some(Writing(i.env.newPost.value, thread, ""))
      else w
    case EditReq(e) => if w.Some? then Some(w.value.(text := Edited(w.value.text, e))) else w
    case _ => w
  }

  function OpenedIn(inputs: seq<Input>): Option<Writing> {
    if inputs == [] then None else Opened(OpenedIn(inputs[..|inputs| - 1]), inputs[|inputs| - 1])
  }

  /** What a message does that is accepted while `w` is open. */
  function Does(w: Option<Writing>, i: Input): seq<Effect> {
    match i.req
    case HandshakeReq(_, NewPubKey(key)) =>
      (match i.env.registerKey(key)
       case Some(Registration(priv, _, true)) => [KeySet(priv)]
       case _ => []) + [Sent(Handshake)]
    case HandshakeReq(_, Saved(_, _, _)) => [Sent(Handshake)]
    case SynchronizeReq(feed) => [Subscribed(feed), Sent(Synchronize)]
    case InsertThreadReq(_) =>
      if i.env.newThread.Some? then [ThreadCreated(i.env.newThread.value), Sent(InsertThreadAck)] else []
    case InsertPostReq(thread, _) =>
      if i.env.needCaptcha == Some(true) then [Sent(NeedCaptcha)]
      else if i.env.newPost.Some? then [PostCreated(i.env.newPost.value, thread), Sent(InsertPostAck)]
      else []
    case EditReq(e) =>
      if w.Some? then [BodySet(w.value.id, w.value.thread, Utf8.Encode(Edited(w.value.text, e)))] else []
    case Unreadable(_) => []
  }

  function DoneIn(inputs: seq<Input>): seq<Effect> {
    if inputs == [] then []
    else
      var prev, i := inputs[..|inputs| - 1], inputs[|inputs| - 1];
      DoneIn(prev) + Does(OpenedIn(prev), i)
  }

  function AsWriting(d: Option<Draft>): Option<Writing> {
    if d.Some? then Some(Writing(d.value.id, d.value.thread, d.value.text)) else None
  }

  lemma StepIsLogged(s: Session, i: Input)
    requires Step(s, i).Live? && (s.open.Some? ==> s.conn == Synchronizing)
    ensures Step(s, i).effects == Does(AsWriting(s.open), i)
    ensures AsWriting(Step(s, i).session.open) == Opened(AsWriting(s.open), i)
  {
  }

  /** Everything a live connection did, in order, and the post it has open, are
      told by its messages and what the services answered: it subscribed to the
      feeds it asked for, created what it asked for where it asked for it, and
      set the bodies its edits make. */
  lemma {:induction false} RunIsLogged(inputs: seq<Input>)
    requires Run(FRESH, inputs).Live?
    ensures Run(FRESH, inputs).effects == DoneIn(inputs)
    ensures AsWriting(Run(FRESH, inputs).session.open) == OpenedIn(inputs)
    decreases |inputs|
  {
    if inputs == [] {
    } else {
      var prev := inputs[..|inputs| - 1];
      RunIsLogged(prev);
      RunIsAuthenticated(prev);
      StepIsLogged(Run(FRESH, prev).session, inputs[|inputs| - 1]);
    }
  }

  // ---------------------------------------------------------- subscriptions

  function FeedsAsked(inputs: seq<Input>): seq<nat> {
    if inputs == [] then []
    else
      FeedsAsked(inputs[..|inputs| - 1]) +
      (var r := inputs[|inputs| - 1].req; if r.SynchronizeReq? then [r.feed] else [])
  }

  function FeedsJoined(effects: seq<Effect>): seq<nat> {
    if effects == [] then []
    else
      FeedsJoined(effects[..|effects| - 1]) +
      (var e := effects[|effects| - 1]; if e.Subscribed? then [e.feed] else [])
  }

  lemma {:induction false} JoinedConcat(a: seq<Effect>, b: seq<Effect>)
    ensures FeedsJoined(a + b) == FeedsJoined(a) + FeedsJoined(b)
    decreases |b|
  {
    if b == [] {
      assert a + b == a;
    } else {
      var n := |b| - 1;
      assert (a + b)[..|a| + n] == a + b[..n];
      JoinedConcat(a, b[..n]);
    }
  }

  lemma JoinedOfOne(w: Option<Writing>, i: Input)
    ensures FeedsJoined(Does(w, i)) == if i.req.SynchronizeReq? then [i.req.feed] else []
  {
    var es := Does(w, i);
    if |es| == 2 {
      JoinedConcat([es[0]], [es[1]]);
      assert es == [es[0]] + [es[1]];
    }
  }

  /** A live connection joined exactly the feeds it asked for, in order. */
  lemma {:induction false} RunSubscribes(inputs: seq<Input>)
    requires Run(FRESH, inputs).Live?
    ensures FeedsJoined(Run(FRESH, inputs).effects) == FeedsAsked(inputs)
  {
    RunIsLogged(inputs);
    LogSubscribes(inputs);
  }

  lemma {:induction false} LogSubscribes(inputs: seq<Input>)
    ensures FeedsJoined(DoneIn(inputs)) == FeedsAsked(inputs)
  {
    if inputs == [] {
    } else {
      var prev, i := inputs[..|inputs| - 1], inputs[|inputs| - 1];
      LogSubscribes(prev);
      JoinedConcat(DoneIn(prev), Does(OpenedIn(prev), i));
      JoinedOfOne(OpenedIn(prev), i);
    }
  }

  // --------------------------------------------------------------- acceptance

  /** The handshake is answered at once: a key of proper length the database takes,
      or a known ID with a signature that verifies. */
  predicate Welcomes(i: Input) {
    && i.req.HandshakeReq?
    && i.req.version == VERSION
    && match i.req.auth
       case NewPubKey(key) => 1 <= |key| <= 1024 && i.env.registerKey(key).Some?
       case Saved(id, nonce, signature) =>
         var known := i.env.lookupKey(id);
         known.Some? && i.env.verify(known.value.1, id, nonce, signature) == Some(true)
  }

  /** The reshake is a signature over the ID on record, made with the key offered. */
  predicate Confirms(s: Session, key: Bytes, i: Input) {
    && i.req.HandshakeReq?
    && i.req.version == VERSION
    && i.req.auth.Saved?
    && i.req.auth.id == s.pubKey.pubId
    && i.env.verify(key, s.pubKey.pubId, i.req.auth.nonce, i.req.auth.signature) == Some(true)
  }

  predicate FeedExists(feed: nat, env: Env) {
    feed == 0 || env.threadExists(feed) == Some(true)
  }

  /** The edit has a proper length, stays inside the text and keeps the count in
      bounds. */
  predicate Fits(d: Draft, e: Edit) {
    && 0 <= d.charLength + Delta(e) <= MAX_LENGTH
    && match e
       case Append(t) => LengthOk(t)
       case Backspace(n) => n > 0
       case Patch(p, r, ins) => LengthOk(ins) && p + r < |d.text|
  }

  /** What a synchronized client may send. */
  predicate Serves(w: Option<Draft>, i: Input) {
    match i.req
    case SynchronizeReq(feed) => FeedExists(feed, i.env)
    case InsertThreadReq(ok) => w.None? && ok && i.env.newThread.Some?
    case InsertPostReq(_, nameOk) =>
      && w.None?
      && (|| i.env.needCaptcha == Some(true)
          || (i.env.needCaptcha == Some(false) && nameOk && i.env.newPost.Some?))
    case EditReq(e) => w.Some? && Fits(w.value, e)
    case _ => false
  }

  /** A message is accepted exactly under these conditions, and then moves the
      connection on: a fresh key or a verified signature accepts the handshake, a
      known key asks for a reshake, and the first subscription ends it. */
  lemma AcceptanceExact(s: Session, i: Input)
    ensures var r := Step(s, i);
            match s.conn
            case Connected =>
              && (r.Live? <==> Welcomes(i))
              && (r.Live? ==>
                    r.session.conn ==
                    if i.req.auth.NewPubKey? && !i.env.registerKey(i.req.auth.key).value.isNew
                    then RequestedReshake(i.req.auth.key) else AcceptedHandshake)
            case RequestedReshake(key) =>
              (r.Live? <==> Confirms(s, key, i)) && (r.Live? ==> r.session.conn == AcceptedHandshake)
            case AcceptedHandshake =>
              && (r.Live? <==> i.req.SynchronizeReq? && FeedExists(i.req.feed, i.env))
              && (r.Live? ==> r.session.conn == Synchronizing)
            case Synchronizing => (r.Live? <==> Serves(s.open, i)) && (r.Live? ==> r.session.conn == Synchronizing)
  {
  }
}
