/** Edits of an open post's text, with the separately kept character count. */
module Drafts {
  import opened Wrappers

  type u16 = n: int | 0 <= n < 0x1_0000

  datatype Draft = Draft(id: nat, thread: nat, text: string, charLength: int)

  datatype Edit =
    | Append(text: string)
    | Backspace(n: u16)
    | Patch(position: u16, remove: u16, insert: string)

  datatype EditError =
    | NoPostOpen
    | InvalidLength
    | ZeroBackspace
    | LengthOutOfBounds
    | PositionOutOfBounds
    | RemoveOutOfBounds

  const MAX_LENGTH := 2000

  predicate LengthOk(s: string) {
    1 <= |s| <= MAX_LENGTH
  }

  /** How an edit changes the kept count. */
  function Delta(e: Edit): int {
    match e
    case Append(t) => |t|
    case Backspace(n) => -(n as int)
    case Patch(_, r, ins) => |ins| - r
  }

  /** An edit as the handler performs it. Every error closes the client. */
  function ApplyEdit(d: Draft, e: Edit): Result<Draft, EditError> {
    var len := d.charLength + Delta(e);
    match e
    case Append(t) =>
      if !LengthOk(t) then Err(InvalidLength)
      else if len < 0 || len > MAX_LENGTH then Err(LengthOutOfBounds)
      else Ok(d.(text := d.text + t, charLength := len))
    case Backspace(n) =>
      if n == 0 then Err(ZeroBackspace)
      else if len < 0 || len > MAX_LENGTH then Err(LengthOutOfBounds)
      else Ok(d.(text := if n <= |d.text| then d.text[..|d.text| - n] else d.text, charLength := len))
    case Patch(p, r, ins) =>
      if !LengthOk(ins) then Err(InvalidLength)
      else if len < 0 || len > MAX_LENGTH then Err(LengthOutOfBounds)
      else if p >= |d.text| then Err(PositionOutOfBounds)
      else if r >= |d.text| - p then Err(RemoveOutOfBounds)
      else Ok(d.(text := d.text[..p] + ins + d.text[p..p + r], charLength := len))
  }

  /** The kept count is the number of characters, and in bounds. */
  predicate Counted(d: Draft) {
    d.charLength == |d.text| <= MAX_LENGTH
  }

  /** What a patch is documented to do: remove after the position, then insert. */
  function Splice(text: string, p: nat, r: nat, ins: string): string
    requires p + r <= |text|
  {
    text[..p] + ins + text[p + r..]
  }

  /** Appends and backspaces keep the count right, and are rejected exactly when
      they would take the text out of bounds. */
  lemma PlainEditKeepsCount(d: Draft, e: Edit)
    requires Counted(d) && !e.Patch?
    ensures ApplyEdit(d, e).Ok? ==> Counted(ApplyEdit(d, e).value)
    ensures e.Append? ==> (ApplyEdit(d, e).Ok? <==> 1 <= |e.text| <= MAX_LENGTH - |d.text|)
    ensures e.Backspace? ==> (ApplyEdit(d, e).Ok? <==> 1 <= e.n <= |d.text|)
  {
  }

  /** A backspace undoes an append of as many characters. */
  lemma BackspaceUndoesAppend(d: Draft, t: string)
    requires Counted(d) && ApplyEdit(d, Append(t)).Ok?
    ensures ApplyEdit(ApplyEdit(d, Append(t)).value, Backspace(|t|)) == Ok(d)
  {
  }

  /** The patch handler keeps what it should remove and drops what it should
      keep. An accepted patch leaves a right count if and only if the text ends
      2 * remove characters after the position, and it performs the documented
      splice if and only if the text after the position is one string twice. */
  lemma PatchExactness(d: Draft, p: u16, r: u16, ins: string)
    requires Counted(d) && ApplyEdit(d, Patch(p, r, ins)).Ok?
    ensures p + r < |d.text|
    ensures Counted(ApplyEdit(d, Patch(p, r, ins)).value) <==> |d.text| == p + 2 * r
    ensures ApplyEdit(d, Patch(p, r, ins)).value.text == Splice(d.text, p, r, ins) <==>
              d.text[p..p + r] == d.text[p + r..]
  {
    var head := d.text[..p] + ins;
    assert (head + d.text[p..p + r])[|head|..] == d.text[p..p + r];
    assert (head + d.text[p + r..])[|head|..] == d.text[p + r..];
  }

  /** By how much the kept count exceeds the number of characters. */
  function Drift(d: Draft): int {
    d.charLength - |d.text|
  }

  /** What an accepted edit adds to that: a patch what it leaves out of the text,
      and a backspace over the start all it was asked to remove. */
  function DriftOf(d: Draft, e: Edit): int {
    match e
    case Append(_) => 0
    case Backspace(n) => if n <= |d.text| then 0 else -(n as int)
    case Patch(p, r, _) => |d.text| - p - 2 * r
  }

  lemma EditDrift(d: Draft, e: Edit)
    requires ApplyEdit(d, e).Ok?
    ensures Drift(ApplyEdit(d, e).value) == Drift(d) + DriftOf(d, e)
    ensures 0 <= ApplyEdit(d, e).value.charLength <= MAX_LENGTH
  {
  }

  /** Patches the documentation allows and the handler rejects: one at the end
      of the text, one that removes up to the end, one that only removes. */
  lemma PatchRejections(d: Draft, p: u16, r: u16, ins: string)
    ensures p == |d.text| ==> ApplyEdit(d, Patch(p, r, ins)).Err?
    ensures p + r == |d.text| ==> ApplyEdit(d, Patch(p, r, ins)).Err?
    ensures ins == [] ==> ApplyEdit(d, Patch(p, r, ins)).Err?
  {
  }

  /** Inserting at the front of a text loses the text. */
  lemma PatchLosesTail(d: Draft, ins: string)
    requires Counted(d) && d.text != "" && LengthOk(ins) && |d.text| + |ins| <= MAX_LENGTH
    ensures ApplyEdit(d, Patch(0, 0, ins)) == Ok(d.(text := ins, charLength := |d.text| + |ins|))
    ensures Splice(d.text, 0, 0, ins) == ins + d.text
  {
    assert d.text[..0] == "" && d.text[0..0] == "" && d.text[0..] == d.text;
    assert "" + ins == ins && ins + "" == ins;
  }
}

/** One websocket client's protocol state: handshake, reshake, synchronisation
    and the edits of its open post. */
module Clients {
  import opened Wrappers
  import opened ByteStrings
  import opened MessageTypes
  import opened Drafts
  import Utf8

  const VERSION := 1

  datatype PubKey = PubKey(privId: nat, pubId: nat)

  datatype ConnState = Connected | AcceptedHandshake | RequestedReshake(key: Bytes) | Synchronizing

  datatype Authorization = NewPubKey(key: Bytes) | Saved(id: nat, nonce: Bytes, signature: Bytes)

  /** A received message. `Unreadable` is one whose payload does not decode. */
  datatype Request =
    | HandshakeReq(version: nat, auth: Authorization)
    | SynchronizeReq(feed: nat)
    | InsertThreadReq(wellFormed: bool)
    | InsertPostReq(thread: nat, nameOk: bool)
    | EditReq(edit: Edit)
    | Unreadable(typ: MessageType)

  function TypeOf(r: Request): MessageType {
    match r
    case HandshakeReq(_, _) => Handshake
    case SynchronizeReq(_) => Synchronize
    case InsertThreadReq(_) => InsertThread
    case InsertPostReq(_, _) => InsertPost
    case EditReq(Append(_)) => MessageType.Append
    case EditReq(Backspace(_)) => MessageType.Backspace
    case EditReq(Patch(_, _, _)) => PatchPostBody
    case Unreadable(t) => t
  }

  datatype Registration = Registration(privId: nat, pubId: nat, isNew: bool)

  /** What the database, the configuration and the signature check answer while
      one message is handled. `None` is an error of theirs. */
  datatype Env = Env(
    registerKey: Bytes -> Option<Registration>,
    lookupKey: nat -> Option<(nat, Bytes)>,
    verify: (Bytes, nat, Bytes, Bytes) -> Option<bool>,
    threadExists: nat -> Option<bool>,
    needCaptcha: Option<bool>,
    newThread: Option<nat>,
    newPost: Option<nat>)

  datatype Input = Input(req: Request, env: Env)

  datatype Effect =
    | Sent(typ: MessageType)
    | KeySet(privId: nat)
    | Subscribed(feed: nat)
    | ThreadCreated(id: nat)
    | PostCreated(id: nat, thread: nat)
    | BodySet(id: nat, thread: nat, body: Bytes)

  datatype Session = Session(conn: ConnState, open: Option<Draft>, syncedOnce: bool, pubKey: PubKey)

  const FRESH := Session(Connected, None, false, PubKey(0, 0))

  datatype Outcome = Closed | Live(session: Session, effects: seq<Effect>)

  // ------------------------------------------------------------ one message

  function HandleSaved(s: Session, key: Bytes, nonce: Bytes, signature: Bytes, env: Env): Outcome {
    if env.verify(key, s.pubKey.pubId, nonce, signature) == Some(true)
    then Live(s.(conn := AcceptedHandshake), [Sent(Handshake)])
    else Closed
  }

  function HandleHandshake(s: Session, req: Request, env: Env): Outcome {
    if !req.HandshakeReq? || req.version != VERSION then Closed
    else match req.auth
      case NewPubKey(key) =>
        if !(1 <= |key| <= 1024) then Closed
        else match env.registerKey(key) {
          case None => Closed
          case Some(Registration(priv, pub, isNew)) =>
            var s' := s.(pubKey := PubKey(priv, pub));
            if isNew
            then Live(s'.(conn := AcceptedHandshake), [KeySet(priv), Sent(Handshake)])
            else Live(s'.(conn := RequestedReshake(key)), [Sent(Handshake)])
        }
      case Saved(id, nonce, signature) =>
        match env.lookupKey(id)
        case None => Closed
        case Some((priv, key)) => HandleSaved(s.(pubKey := PubKey(priv, id)), key, nonce, signature, env)
  }

  function HandleReshake(s: Session, key: Bytes, req: Request, env: Env): Outcome {
    if !req.HandshakeReq? || req.version != VERSION then Closed
    else match req.auth
      case NewPubKey(_) => Closed
      case Saved(id, nonce, signature) =>
        if id != s.pubKey.pubId then Closed else HandleSaved(s, key, nonce, signature, env)
  }

  function SynchronizeTo(s: Session, feed: nat, env: Env): Outcome {
    if feed != 0 && env.threadExists(feed) != Some(true) then Closed
    else Live(s.(syncedOnce := true), [Subscribed(feed), Sent(Synchronize)])
  }

  function CreateThread(s: Session, wellFormed: bool, env: Env): Outcome {
    if s.open.Some? || !wellFormed then Closed
    else match env.newThread
      case None => Closed
      case Some(id) => Live(s.(open := Some(Draft(id, id, "", 0))), [ThreadCreated(id), Sent(InsertThreadAck)])
  }

  function CreatePost(s: Session, thread: nat, nameOk: bool, env: Env): Outcome {
    if s.open.Some? || env.needCaptcha.None? then Closed
    else if env.needCaptcha.value then Live(s, [Sent(NeedCaptcha)])
    else if !nameOk then Closed
    else match env.newPost
      case None => Closed
      case Some(id) => Live(s.(open := Some(Draft(id, thread, "", 0))), [PostCreated(id, thread), Sent(InsertPostAck)])
  }

  function EditOpen(s: Session, e: Edit): Outcome {
    if s.open.None? then Closed
    else match ApplyEdit(s.open.value, e)
      case Err(_) => Closed
      case Ok(d) => Live(s.(open := Some(d)), [BodySet(d.id, d.thread, Utf8.Encode(d.text))])
  }

  function Step(s: Session, i: Input): Outcome {
    match s.conn
    case Connected =>
      if TypeOf(i.req) != Handshake then Closed else HandleHandshake(s, i.req, i.env)
    case RequestedReshake(key) =>
      if TypeOf(i.req) != Handshake then Closed else HandleReshake(s, key, i.req, i.env)
    case AcceptedHandshake =>
      if !i.req.SynchronizeReq? then Closed
      else SynchronizeTo(s.(conn := Synchronizing), i.req.feed, i.env)
    case Synchronizing =>
      match i.req
      case InsertThreadReq(ok) => CreateThread(s, ok, i.env)
      case SynchronizeReq(feed) => SynchronizeTo(s, feed, i.env)
      case InsertPostReq(thread, nameOk) => CreatePost(s, thread, nameOk, i.env)
      case EditReq(e) => EditOpen(s, e)
      case HandshakeReq(_, _) => Closed
      case Unreadable(_) => Closed
  }

  // ------------------------------------------------------------- whole runs

  /** All messages of a connection, whatever buffers they came in. */
  function Run(s: Session, inputs: seq<Input>): Outcome {
    if inputs == [] then Live(s, [])
    else
      var prev := Run(s, inputs[..|inputs| - 1]);
      if prev.Closed? then Closed
      else
        var last := Step(prev.session, inputs[|inputs| - 1]);
        if last.Closed? then Closed else Live(last.session, prev.effects + last.effects)
  }

  lemma {:induction false} ClosedStays(s: Session, inputs: seq<Input>, k: nat)
    requires k <= |inputs| && Run(s, inputs[..k]).Closed?
    ensures Run(s, inputs).Closed?
    decreases |inputs|
  {
    if k == |inputs| {
      assert inputs[..k] == inputs;
    } else {
      var prev := inputs[..|inputs| - 1];
      assert prev[..k] == inputs[..k];
      ClosedStays(s, prev, k);
    }
  }

  /** The message of step `k` was a handshake that proves who the client is: a
      fresh registration of its key, or a signature over the public ID that
      verifies against the key on record for that ID. */
  ghost predicate Proves(inputs: seq<Input>, k: nat, id: PubKey) {
    && k < |inputs|
    && Run(FRESH, inputs[..k]).Live?
    && var s := Run(FRESH, inputs[..k]).session;
       var i := inputs[k];
       && i.req.HandshakeReq?
       && i.req.version == VERSION
       && match i.req.auth
          case NewPubKey(key) =>
            s.conn == Connected && i.env.registerKey(key) == Some(Registration(id.privId, id.pubId, true))
          case Saved(pubId, nonce, signature) =>
            && pubId == id.pubId
            && (exists key ::
                  && i.env.verify(key, pubId, nonce, signature) == Some(true)
                  && (|| (s.conn == Connected && i.env.lookupKey(pubId) == Some((id.privId, key)))
                      || (s.conn == RequestedReshake(key) && Registered(inputs, k, key, id))))
  }

  /** The message offers the key for registration. */
  predicate AskedFor(i: Input, key: Bytes) {
    i.req.HandshakeReq? && i.req.auth == NewPubKey(key)
  }

  /** Some earlier step offered `key` and was told by the database that it belongs
      to `id`. */
  ghost predicate Registered(inputs: seq<Input>, k: nat, key: Bytes, id: PubKey) {
    exists j :: 0 <= j < k <= |inputs| && AskedFor(inputs[j], key) &&
      inputs[j].env.registerKey(key) == Some(Registration(id.privId, id.pubId, false))
  }

  ghost predicate Proven(inputs: seq<Input>, id: PubKey) {
    exists k: nat :: Proves(inputs, k, id)
  }

  predicate Accepted(s: Session) {
    s.conn == AcceptedHandshake || s.conn == Synchronizing
  }

  lemma ProvenExtends(inputs: seq<Input>, i: Input, id: PubKey)
    requires Proven(inputs, id)
    ensures Proven(inputs + [i], id)
  {
    var k: nat :| Proves(inputs, k, id);
    assert (inputs + [i])[..k] == inputs[..k];
    if inputs[k].req.auth.Saved? {
      var pubId, nonce, signature := inputs[k].req.auth.id, inputs[k].req.auth.nonce, inputs[k].req.auth.signature;
      var s := Run(FRESH, inputs[..k]).session;
      var key :| && inputs[k].env.verify(key, pubId, nonce, signature) == Some(true)
                 && (|| (s.conn == Connected && inputs[k].env.lookupKey(pubId) == Some((id.privId, key)))
                     || (s.conn == RequestedReshake(key) && Registered(inputs, k, key, id)));
      if s.conn != Connected {
        var j :| 0 <= j < k && AskedFor(inputs[j], key) &&
          inputs[j].env.registerKey(key) == Some(Registration(id.privId, id.pubId, false));
        assert (inputs + [i])[j] == inputs[j];
      }
    }
    assert Proves(inputs + [i], k, id);
  }

  /** What holds of the session after any run. */
  ghost predicate SessionOk(inputs: seq<Input>, s: Session) {
    && (Accepted(s) ==> Proven(inputs, s.pubKey))
    && (s.conn.RequestedReshake? ==> Registered(inputs, |inputs|, s.conn.key, s.pubKey))
    && (s.open.Some? ==> s.conn == Synchronizing)
  }

  lemma HandshakeStepOk(inputs: seq<Input>, i: Input)
    requires Run(FRESH, inputs).Live? && SessionOk(inputs, Run(FRESH, inputs).session)
    requires !Accepted(Run(FRESH, inputs).session)
    requires Run(FRESH, inputs + [i]).Live?
    ensures SessionOk(inputs + [i], Run(FRESH, inputs + [i]).session)
  {
    var all := inputs + [i];
    var k := |inputs|;
    assert all[..k] == inputs && all[k] == i;
    var s := Run(FRESH, inputs).session;
    var s' := Step(s, i).session;
    if s.conn == Connected {
      if i.req.auth.NewPubKey? {
        if s'.conn == AcceptedHandshake {
          assert Proves(all, k, s'.pubKey);
        } else {
          assert all[k].env.registerKey(s'.conn.key) == Some(Registration(s'.pubKey.privId, s'.pubKey.pubId, false));
        }
      } else {
        assert Proves(all, k, s'.pubKey);
      }
    } else {
      var j :| 0 <= j < k && AskedFor(inputs[j], s.conn.key) &&
        inputs[j].env.registerKey(s.conn.key) == Some(Registration(s.pubKey.privId, s.pubKey.pubId, false));
      assert all[j] == inputs[j];
      assert Registered(all, k, s.conn.key, s.pubKey);
      assert Proves(all, k, s'.pubKey);
    }
  }

  /** No session is accepted, subscribed or editing without a handshake step that
      proves the very identity it goes on using. */
  lemma {:induction false} RunIsAuthenticated(inputs: seq<Input>)
    requires Run(FRESH, inputs).Live?
    ensures SessionOk(inputs, Run(FRESH, inputs).session)
    decreases |inputs|
  {
    if inputs == [] {
    } else {
      var prev, i := inputs[..|inputs| - 1], inputs[|inputs| - 1];
      RunIsAuthenticated(prev);
      assert inputs == prev + [i];
      var s := Run(FRESH, prev).session;
      if Accepted(s) {
        AcceptedStepOk(prev, i);
      } else {
        HandshakeStepOk(prev, i);
      }
    }
  }

  lemma AcceptedStepOk(inputs: seq<Input>, i: Input)
    requires Run(FRESH, inputs).Live? && SessionOk(inputs, Run(FRESH, inputs).session)
    requires Accepted(Run(FRESH, inputs).session) && Run(FRESH, inputs + [i]).Live?
    ensures SessionOk(inputs + [i], Run(FRESH, inputs + [i]).session)
  {
    assert (inputs + [i])[..|inputs|] == inputs;
    var s := Run(FRESH, inputs).session;
    ProvenExtends(inputs, i, s.pubKey);
    StepEffects(s, i);
  }

  predicate Creates(e: Effect) {
    e.ThreadCreated? || e.PostCreated?
  }

  /** Effect `c` created post `id`, nothing else was created, and every edit came
      later and was of that post. */
  predicate CreatedAt(effects: seq<Effect>, c: nat, id: nat) {
    && c < |effects|
    && Creates(effects[c])
    && effects[c].id == id
    && (forall j :: 0 <= j < |effects| && Creates(effects[j]) ==> j == c)
    && (forall j :: 0 <= j < |effects| && effects[j].BodySet? ==> c < j && effects[j].id == id)
  }

  /** At most one post is ever created, and it is the one open. */
  ghost predicate OnePost(s: Session, effects: seq<Effect>) {
    if s.open.None? then forall e :: e in effects ==> !Creates(e) && !e.BodySet?
    else exists c: nat :: CreatedAt(effects, c, s.open.value.id)
  }

  lemma StepEffects(s: Session, i: Input)
    requires Step(s, i).Live?
    ensures var r := Step(s, i);
            && (forall e :: e in r.effects && (Creates(e) || e.BodySet?) ==> s.conn == Synchronizing)
            && (forall e :: e in r.effects && e.Subscribed? ==> Accepted(s))
            && (Accepted(s) ==> r.session.pubKey == s.pubKey)
  {
  }

  lemma StepCreates(s: Session, i: Input)
    requires Step(s, i).Live?
    ensures var r := Step(s, i);
            && (s.open.Some? ==>
                  && r.session.open.Some?
                  && r.session.open.value.id == s.open.value.id
                  && (forall e :: e in r.effects ==> !Creates(e) && (e.BodySet? ==> e.id == s.open.value.id)))
            && (s.open.None? && r.session.open.None? ==> forall e :: e in r.effects ==> !Creates(e) && !e.BodySet?)
            && (s.open.None? && r.session.open.Some? ==> CreatedAt(r.effects, 0, r.session.open.value.id))
  {
  }

  lemma OnePostExtends(s: Session, effects: seq<Effect>, i: Input)
    requires OnePost(s, effects) && Step(s, i).Live?
    ensures OnePost(Step(s, i).session, effects + Step(s, i).effects)
  {
    StepCreates(s, i);
    var r := Step(s, i);
    var all := effects + r.effects;
    if s.open.Some? {
      var c: nat :| CreatedAt(effects, c, s.open.value.id);
      assert CreatedAt(all, c, s.open.value.id);
    } else if r.session.open.Some? {
      var id := r.session.open.value.id;
      forall j | 0 <= j < |all|
        ensures (Creates(all[j]) ==> j == |effects|) && (all[j].BodySet? ==> |effects| < j && all[j].id == id)
      {
        if j < |effects| {
          assert all[j] == effects[j] && effects[j] in effects;
        } else {
          assert all[j] == r.effects[j - |effects|];
        }
      }
      assert CreatedAt(all, |effects|, id);
    }
  }

  predicate Privileged(e: Effect) {
    e.Subscribed? || Creates(e) || e.BodySet?
  }

  /** The safety of whole runs: nothing is subscribed, created or edited unless
      the identity in use was proven, and at most one post is created, with
      edits of that post only, after its creation. */
  lemma {:induction false} RunEffects(inputs: seq<Input>)
    requires Run(FRESH, inputs).Live?
    ensures var r := Run(FRESH, inputs);
            && OnePost(r.session, r.effects)
            && ((exists e :: e in r.effects && Privileged(e)) ==>
              Accepted(r.session) && Proven(inputs, r.session.pubKey))
    decreases |inputs|
  {
    if inputs == [] {
    } else {
      var prev, i := inputs[..|inputs| - 1], inputs[|inputs| - 1];
      RunEffects(prev);
      var s, es := Run(FRESH, prev).session, Run(FRESH, prev).effects;
      StepEffects(s, i);
      OnePostExtends(s, es, i);
      var all := Run(FRESH, inputs).effects;
      assert forall e :: e in all ==> e in es || e in Step(s, i).effects;
    }
    RunIsAuthenticated(inputs);
  }

  /** The sum of what the edits of a run add to the kept count's excess. */
  function DriftInRun(inputs: seq<Input>): int {
    if inputs == [] then 0
    else
      var prev, last := inputs[..|inputs| - 1], inputs[|inputs| - 1];
      var r := Run(FRESH, prev);
      DriftInRun(prev) +
      if r.Live? && r.session.open.Some? && last.req.EditReq? then DriftOf(r.session.open.value, last.req.edit) else 0
  }

  /** Over every run the kept count stays within bounds, and it exceeds the number
      of characters by exactly what the edits added: it is right if and only if
      that is nothing. */
  lemma {:induction false} RunDriftExact(inputs: seq<Input>)
    requires Run(FRESH, inputs).Live?
    ensures var open := Run(FRESH, inputs).session.open;
            if open.None? then DriftInRun(inputs) == 0
            else
              && 0 <= open.value.charLength <= MAX_LENGTH
              && Drift(open.value) == DriftInRun(inputs)
              && (Counted(open.value) <==> DriftInRun(inputs) == 0)
    decreases |inputs|
  {
    if inputs == [] {
    } else {
      var prev, last := inputs[..|inputs| - 1], inputs[|inputs| - 1];
      RunDriftExact(prev);
      var s := Run(FRESH, prev).session;
      if s.open.Some? && last.req.EditReq? && s.conn == Synchronizing {
        EditDrift(s.open.value, last.req.edit);
      }
      if s.open.Some? {
        RunIsAuthenticated(prev);
      }
    }
  }

  /** The kept count stays right over any run whose patches, if any, hit text
      that ends 2 * remove characters after their position. */
  ghost predicate PatchesBalanced(inputs: seq<Input>) {
    forall k :: 0 <= k < |inputs| && PatchesAt(inputs, k) ==>
      var d := Run(FRESH, inputs[..k]).session.open;
      d.Some? ==> |d.value.text| == inputs[k].req.edit.position + 2 * inputs[k].req.edit.remove
  }

  /** Message `k` is a patch to a client still connected. */
  predicate PatchesAt(inputs: seq<Input>, k: nat)
    requires k < |inputs|
  {
    inputs[k].req.EditReq? && inputs[k].req.edit.Patch? && Run(FRESH, inputs[..k]).Live?
  }

  lemma {:induction false} RunKeepsCount(inputs: seq<Input>)
    requires Run(FRESH, inputs).Live? && PatchesBalanced(inputs)
    ensures Run(FRESH, inputs).session.open.Some? ==> Counted(Run(FRESH, inputs).session.open.value)
    decreases |inputs|
  {
    if inputs == [] {
    } else {
      var k := |inputs| - 1;
      var prev := inputs[..k];
      forall j | 0 <= j < k
        ensures prev[..j] == inputs[..j]
      {
      }
      RunKeepsCount(prev);
      var s := Run(FRESH, prev).session;
      if inputs[k].req.EditReq? && s.open.Some? && Step(s, inputs[k]).Live? {
        var e := inputs[k].req.edit;
        if e.Patch? {
          PatchExactness(s.open.value, e.position, e.remove, e.insert);
        } else {
          PlainEditKeepsCount(s.open.value, e);
        }
      }
    }
  }

  // ------------------------------------------------------- the client object

  /** The open post as the server stores it: UTF-8 bytes and a count. */
  datatype OpenPost = OpenPost(id: nat, thread: nat, body: Bytes, charLength: int)

  method Shortened(body: Bytes, n: u16, ghost text: string) returns (r: Bytes)
    requires body == Utf8.Encode(text) && n > 0
    ensures r == Utf8.Encode(if n <= |text| then text[..|text| - n] else text)
  {
    r := Utf8.DropLast(body, n);
    Utf8.CodePointsOfEncoded(text);
    if n <= |text| {
      Utf8.DropLastExact(text, n, r);
    }
  }

  lemma EncodedCut(text: string, k: nat)
    requires k <= |text|
    ensures var i := |Utf8.Encode(text[..k])|;
            i <= |Utf8.Encode(text)| && Utf8.Encode(text)[..i] == Utf8.Encode(text[..k]) &&
              Utf8.Encode(text)[i..] == Utf8.Encode(text[k..])
  {
    Utf8.SplitEncoded(text, k);
  }

  method Patched(body: Bytes, pos: u16, remove: u16, ins: string, ghost text: string)
    returns (r: Result<Bytes, EditError>)
    requires body == Utf8.Encode(text)
    ensures r.Ok? <==> pos < |text| && remove < |text| - pos
    ensures r.Ok? ==> r.value == Utf8.Encode(text[..pos] + ins + text[pos..pos + remove])
    ensures r.Err? ==> r.error == if pos >= |text| then PositionOutOfBounds else RemoveOutOfBounds
  {
    var at := Utf8.BytePos(body, pos);
    Utf8.BytePosExact(text, pos, at);
    if at.None? {
      return Err(PositionOutOfBounds);
    }
    EncodedCut(text, pos);
    var end := body[at.value..];
    var upTo := Utf8.BytePos(end, remove);
    Utf8.BytePosExact(text[pos..], remove, upTo);
    if upTo.None? {
      return Err(RemoveOutOfBounds);
    }
    EncodedCut(text[pos..], remove);
    assert text[pos..][..remove] == text[pos..pos + remove];
    Utf8.EncodeConcat(text[..pos], ins);
    Utf8.EncodeConcat(text[..pos] + ins, text[pos..pos + remove]);
    r := Ok(body[..at.value] + Utf8.Encode(ins) + end[..upTo.value]);
  }

  class Client {
    var conn: ConnState
    var openPost: Option<OpenPost>
    var syncedOnce: bool
    var pubKey: PubKey

    // The text the open post's bytes encode
    ghost var text: string

    ghost predicate Valid()
      reads this
    {
      openPost.Some? ==> openPost.value.body == Utf8.Encode(text)
    }

    ghost function Abs(): Session
      reads this
    {
      Session(
        conn,
        if openPost.None? then None
        else Some(Draft(openPost.value.id, openPost.value.thread, text, openPost.value.charLength)),
        syncedOnce,
        pubKey)
    }

    constructor ()
      ensures Valid() && Abs() == FRESH
    {
      conn, openPost, syncedOnce, pubKey, text := Connected, None, false, PubKey(0, 0), "";
    }

    /** Byte-level edit of the open post; it refines `ApplyEdit` on its text. */
    method UpdateBody(e: Edit) returns (r: Result<Bytes, EditError>)
      requires Valid()
      modifies this
      ensures conn == old(conn) && syncedOnce == old(syncedOnce) && pubKey == old(pubKey)
      ensures old(openPost).None? ==> r.Err?
      ensures old(openPost).Some? ==>
                var spec := ApplyEdit(old(Abs()).open.value, e);
                && (r.Ok? <==> spec.Ok?)
                && (r.Ok? ==> Valid() && Abs().open == Some(spec.value) && r.value == Utf8.Encode(spec.value.text))
    {
      match e {
        case Append(t) => if !LengthOk(t) { return Err(InvalidLength); }
        case Backspace(n) => if n == 0 { return Err(ZeroBackspace); }
        case Patch(_, _, ins) => if !LengthOk(ins) { return Err(InvalidLength); }
      }
      if openPost.None? {
        return Err(NoPostOpen);
      }
      var p := openPost.value;
      p := p.(charLength := p.charLength + Delta(e));
      openPost := Some(p);
      if p.charLength < 0 || p.charLength > MAX_LENGTH {
        return Err(LengthOutOfBounds);
      }
      match e {
        case Append(t) =>
          Utf8.EncodeConcat(text, t);
          p := p.(body := p.body + Utf8.Encode(t));
          text := text + t;
        case Backspace(n) =>
          var body := Shortened(p.body, n, text);
          p := p.(body := body);
          text := if n <= |text| then text[..|text| - n] else text;
        case Patch(pos, remove, ins) =>
          var body := Patched(p.body, pos, remove, ins, text);
          if body.Err? {
            return Err(body.error);
          }
          p := p.(body := body.value);
          text := text[..pos] + ins + text[pos..pos + remove];
      }
      openPost := Some(p);
      r := Ok(p.body);
    }

    method HandleAuthSaved(nonce: Bytes, signature: Bytes, key: Bytes, env: Env)
      returns (ok: bool, effects: seq<Effect>)
      requires Valid()
      modifies this`conn
      ensures Valid()
      ensures (if ok then Live(Abs(), effects) else Closed) == HandleSaved(old(Abs()), key, nonce, signature, env)
    {
      effects := [];
      if env.verify(key, pubKey.pubId, nonce, signature) != Some(true) {
        return false, [];
      }
      effects := [Sent(MessageType.Handshake)];
      conn := AcceptedHandshake;
      ok := true;
    }

    method Handshake(req: Request, env: Env) returns (ok: bool, effects: seq<Effect>)
      requires Valid()
      modifies this`conn, this`pubKey
      ensures Valid()
      ensures (if ok then Live(Abs(), effects) else Closed) == HandleHandshake(old(Abs()), req, env)
    {
      if !req.HandshakeReq? || req.version != VERSION {
        return false, [];
      }
      match req.auth {
        case NewPubKey(key) =>
          if |key| < 1 || |key| > 1024 {
            return false, [];
          }
          var reg := env.registerKey(key);
          if reg.None? {
            return false, [];
          }
          pubKey := PubKey(reg.value.privId, reg.value.pubId);
          if reg.value.isNew {
            conn := AcceptedHandshake;
            return true, [KeySet(reg.value.privId), Sent(MessageType.Handshake)];
          }
          conn := RequestedReshake(key);
          return true, [Sent(MessageType.Handshake)];
        case Saved(id, nonce, signature) =>
          var found := env.lookupKey(id);
          if found.None? {
            return false, [];
          }
          pubKey := PubKey(found.value.0, id);
          ok, effects := HandleAuthSaved(nonce, signature, found.value.1, env);
      }
    }

    method SyncTo(feed: nat, env: Env) returns (ok: bool, effects: seq<Effect>)
      requires Valid()
      modifies this`syncedOnce
      ensures Valid()
      ensures (if ok then Live(Abs(), effects) else Closed) == SynchronizeTo(old(Abs()), feed, env)
      ensures ok <==> feed == 0 || env.threadExists(feed) == Some(true)
      ensures effects == if ok then [Subscribed(feed), Sent(Synchronize)] else []
    {
      if feed != 0 && env.threadExists(feed) != Some(true) {
        return false, [];
      }
      effects := [Subscribed(feed)];
      if !syncedOnce {
        syncedOnce := true;
      }
      effects := effects + [Sent(Synchronize)];
      ok := true;
    }

    /** Handles one message of a received buffer. */
    method Receive(i: Input) returns (ok: bool, effects: seq<Effect>)
      requires Valid()
      modifies this
      ensures ok ==> Valid()
      ensures (if ok then Live(Abs(), effects) else Closed) == Step(old(Abs()), i)
    {
      effects := [];
      match conn {
        case Connected =>
          if TypeOf(i.req) != MessageType.Handshake {
            return false, [];
          }
          ok, effects := Handshake(i.req, i.env);
        case RequestedReshake(key) =>
          if !i.req.HandshakeReq? || i.req.version != VERSION || !i.req.auth.Saved? || i.req.auth.id != pubKey.pubId {
            return false, [];
          }
          ok, effects := HandleAuthSaved(i.req.auth.nonce, i.req.auth.signature, key, i.env);
        case AcceptedHandshake =>
          if !i.req.SynchronizeReq? {
            return false, [];
          }
          conn := Synchronizing;
          ok, effects := SyncTo(i.req.feed, i.env);
        case Synchronizing =>
          match i.req {
            case SynchronizeReq(feed) =>
              ok, effects := SyncTo(feed, i.env);
            case InsertThreadReq(wellFormed) =>
              if openPost.Some? || !wellFormed || i.env.newThread.None? {
                return false, [];
              }
              var id := i.env.newThread.value;
              text, openPost := "", Some(OpenPost(id, id, [], 0));
              return true, [ThreadCreated(id), Sent(InsertThreadAck)];
            case InsertPostReq(thread, nameOk) =>
              if openPost.Some? || i.env.needCaptcha.None? {
                return false, [];
              }
              if i.env.needCaptcha.value {
                return true, [Sent(NeedCaptcha)];
              }
              if !nameOk || i.env.newPost.None? {
                return false, [];
              }
              text, openPost := "", Some(OpenPost(i.env.newPost.value, thread, [], 0));
              return true, [PostCreated(i.env.newPost.value, thread), Sent(InsertPostAck)];
            case EditReq(e) =>
              var r := UpdateBody(e);
              if r.Err? {
                return false, [];
              }
              return true, [BodySet(openPost.value.id, openPost.value.thread, r.value)];
            case HandshakeReq(_, _) =>
              return false, [];
            case Unreadable(_) =>
              return false, [];
          }
      }
    }

    /** Handles a received buffer; `false` closes the client. */
    method ReceiveMessage(inputs: seq<Input>) returns (ok: bool, effects: seq<Effect>)
      requires Valid()
      modifies this
      ensures ok ==> Valid()
      ensures (if ok then Live(Abs(), effects) else Closed) ==
              (if inputs == [] then Closed else Run(old(Abs()), inputs))
    {
      effects := [];
      if inputs == [] {
        return false, [];
      }
      var k := 0;
      while k < |inputs|
        invariant 0 <= k <= |inputs|
        invariant Valid()
        invariant Live(Abs(), effects) == Run(old(Abs()), inputs[..k])
      {
        assert inputs[..k + 1][..k] == inputs[..k];
        var es;
        ok, es := Receive(inputs[k]);
        if !ok {
          ClosedStays(old(Abs()), inputs, k + 1);
          return false, [];
        }
        effects := effects + es;
        k := k + 1;
      }
      assert inputs[..k] == inputs;
      ok := true;
    }
  }
}
