/** Diffing of post body trees into patches.

    The tree walk takes the text differ as a parameter. `LiteralText` is the
    source's; `TrimmedText` binds old and new in order and reverses both sides
    for the common suffix. */
module Diff {
  import opened Wrappers
  import opened PostBody

  datatype TextKind = PlainText | Link | CodeBlock

  /** `Stuck` is a call that never returns. */
  datatype TextResult = Same | Stuck | Changed(patch: TextPatch)

  type TextDiffer = (TextKind, string, string) -> TextResult

  datatype TreeResult = Unchanged | Hangs | Patched(patch: PatchNode)

  // ------------------------------------------------------------ text diffing

  /** Length of the longest common prefix. */
  function Common(a: string, b: string): (n: nat)
    ensures n <= |a| && n <= |b|
    ensures a[..n] == b[..n]
    ensures n < |a| && n < |b| ==> a[n] != b[n]
  {
    CommonFrom(a, b, 0)
  }

  function CommonFrom(a: string, b: string, i: nat): (n: nat)
    requires i <= |a| && i <= |b|
    ensures i <= n <= |a| && n <= |b|
    ensures forall j :: i <= j < n ==> a[j] == b[j]
    ensures n < |a| && n < |b| ==> a[n] != b[n]
    decreases |a| - i
  {
    if i < |a| && i < |b| && a[i] == b[i] then CommonFrom(a, b, i + 1) else i
  }

  function Reverse(s: string): (r: string)
    ensures |r| == |s|
    ensures forall i :: 0 <= i < |s| ==> r[i] == s[|s| - 1 - i]
  {
    seq(|s|, i requires 0 <= i < |s| => s[|s| - 1 - i])
  }

  /** What an iterator yields on its `i`-th call. */
  function Next(s: string, i: nat): Option<char> {
    if i < |s| then Some(s[i]) else None
  }

  /** The comparing loop exits at the first call that yields different items. On
      equal sequences there is none. */
  lemma {:induction false} LoopExits(a: string, b: string, i: nat)
    ensures (forall j: nat :: Next(a, j) == Next(b, j)) <==> a == b
    ensures (Next(a, i) != Next(b, i) && forall j: nat :: j < i ==> Next(a, j) == Next(b, j)) <==>
            a != b && i == Common(a, b)
  {
    var n := Common(a, b);
    forall j: nat | j < n
      ensures Next(a, j) == Next(b, j)
    {
      assert a[..n][j] == b[..n][j];
    }
    assert a[..|a|] == a && b[..|b|] == b;
    if a != b {
      assert Next(a, n) != Next(b, n);
    }
  }

  /** `diff_i`, called on sequences that differ. */
  method DiffIndex(a: string, b: string) returns (i: nat)
    requires a != b
    ensures i == Common(a, b)
  {
    i := 0;
    LoopExits(a, b, 0);
    while Next(a, i) == Next(b, i)
      invariant i <= |a| && i <= |b| && a[..i] == b[..i]
      invariant forall j: nat :: j < i ==> Next(a, j) == Next(b, j)
      decreases |a| - i
    {
      assert a[..|a|] == a && b[..|b|] == b;
      assert a[..i + 1] == a[..i] + [a[i]];
      assert b[..i + 1] == b[..i] + [b[i]];
      i := i + 1;
    }
    LoopExits(a, b, i);
  }

  function U16(n: nat): nat {
    n % 0x1_0000
  }

  function MakePatch(prev: string, next: string, start: nat, end: nat): TextPatch
    requires start + end <= |prev| && start + end <= |next|
  {
    TextPatch(U16(start), U16(|prev| - end - start), next[start..|next| - end])
  }

  /** `diff_text`: only the old side is reversed for the suffix. */
  function DiffText(prev: string, next: string): TextResult {
    if prev == next then Same
    else
      var start := Common(prev, next);
      var o, n := prev[start..], next[start..];
      if Reverse(o) == n then Stuck
      else Changed(MakePatch(prev, next, start, Common(Reverse(o), n)))
  }

  /** The source's text differ: `Text` nodes bind their sides the other way. */
  function LiteralText(kind: TextKind, prev: string, next: string): TextResult {
    if kind == PlainText then DiffText(next, prev) else DiffText(prev, next)
  }

  /** The evident intent: the same kind of trimming at both ends. */
  function TrimmedText(kind: TextKind, prev: string, next: string): TextResult {
    if prev == next then Same
    else
      var start := Common(prev, next);
      Changed(MakePatch(prev, next, start, Common(Reverse(prev[start..]), Reverse(next[start..]))))
  }

  method ComputeDiffText(prev: string, next: string) returns (r: TextPatch)
    requires DiffText(prev, next).Changed?
    ensures r == DiffText(prev, next).patch
  {
    var start := DiffIndex(prev, next);
    var o, n := prev[start..], next[start..];
    assert Reverse(o) != n;
    var end := DiffIndex(Reverse(o), n);
    r := TextPatch(U16(start), U16(|prev| - end - start), next[start..|next| - end]);
  }

  /** Removal after the position, then insertion at the position. */
  function ApplyText(t: string, p: TextPatch): Option<string> {
    if p.position + p.remove > |t| then None
    else Some(t[..p.position] + p.insert + t[p.position + p.remove..])
  }

  predicate Short(s: string) {
    |s| < 0x1_0000
  }

  /** The differ's answer for these texts takes old to new. */
  predicate RightOn(td: TextDiffer, kind: TextKind, prev: string, next: string) {
    match td(kind, prev, next)
    case Same => prev == next
    case Stuck => false
    case Changed(p) => ApplyText(prev, p) == Some(next)
  }

  /** A patch trimming `start` and `end` characters is right exactly when the
      trimmed suffixes agree. */
  lemma {:induction false} MakePatchRight(prev: string, next: string, start: nat, end: nat)
    requires Short(prev) && Short(next)
    requires start + end <= |prev| && start + end <= |next| && prev[..start] == next[..start]
    ensures ApplyText(prev, MakePatch(prev, next, start, end)) == Some(next) <==>
            prev[|prev| - end..] == next[|next| - end..]
  {
    var p := MakePatch(prev, next, start, end);
    var head := prev[..start] + p.insert;
    assert head == next[..|next| - end];
    assert next == next[..|next| - end] + next[|next| - end..];
    assert (head + prev[|prev| - end..])[|head|..] == prev[|prev| - end..];
  }

  /** The same, told of what follows the common prefix. */
  lemma {:induction false} PatchOfTails(prev: string, next: string, start: nat, end: nat)
    requires Short(prev) && Short(next)
    requires start + end <= |prev| && start + end <= |next| && prev[..start] == next[..start]
    ensures var o, n := prev[start..], next[start..];
            ApplyText(prev, MakePatch(prev, next, start, end)) == Some(next) <==> o[|o| - end..] == n[|n| - end..]
  {
    MakePatchRight(prev, next, start, end);
    TailOfTail(prev, start, end);
    TailOfTail(next, start, end);
  }

  lemma {:induction false} ReverseCut(s: string, k: nat)
    requires k <= |s|
    ensures Reverse(s)[..k] == Reverse(s[|s| - k..])
  {
  }

  lemma {:induction false} ReverseInvolution(s: string)
    ensures Reverse(Reverse(s)) == s
  {
  }

  lemma {:induction false} SameEnds(o: string, n: string, end: nat)
    requires end == Common(Reverse(o), Reverse(n))
    ensures o[|o| - end..] == n[|n| - end..]
  {
    ReverseCut(o, end);
    ReverseCut(n, end);
    ReverseInvolution(o[|o| - end..]);
    ReverseInvolution(n[|n| - end..]);
  }

  /** The intended form is right on every pair of texts. */
  lemma {:induction false} TrimmedTextRight(kind: TextKind, prev: string, next: string)
    requires Short(prev) && Short(next)
    ensures RightOn(TrimmedText, kind, prev, next)
  {
    if prev != next {
      var start := Common(prev, next);
      var o, n := prev[start..], next[start..];
      var end := Common(Reverse(o), Reverse(n));
      SameEnds(o, n, end);
      PatchOfTails(prev, next, start, end);
    }
  }

  /** `diff_text` on two different texts: with `o` and `n` what follows their
      common prefix, it never returns exactly when `n` is `o` backwards, and its
      patch is right exactly when the last characters of `n`, as many as were
      matched against the end of `o`, are its first ones backwards. */
  lemma {:induction false} DiffTextExact(prev: string, next: string)
    requires prev != next && Short(prev) && Short(next)
    ensures var start := Common(prev, next);
            var o, n := prev[start..], next[start..];
            var end := Common(Reverse(o), n);
            && (DiffText(prev, next).Stuck? <==> n == Reverse(o))
            && (DiffText(prev, next).Changed? ==>
                  (ApplyText(prev, DiffText(prev, next).patch) == Some(next) <==> n[|n| - end..] == Reverse(n[..end])))
  {
    var start := Common(prev, next);
    var o, n := prev[start..], next[start..];
    var end := Common(Reverse(o), n);
    MatchedEnd(o, n, end);
    MatchedPatch(prev, next, start, end, Reverse(n[..end]));
  }

  lemma {:induction false} MatchedPatch(prev: string, next: string, start: nat, end: nat, tail: string)
    requires Short(prev) && Short(next) && start + end <= |prev| && start + end <= |next| &&
             prev[..start] == next[..start]
    requires tail == prev[start..][|prev| - start - end..]
    ensures ApplyText(prev, MakePatch(prev, next, start, end)) == Some(next) <==>
            next[start..][|next| - start - end..] == tail
  {
    PatchOfTails(prev, next, start, end);
  }

  lemma {:induction false} TailOfTail(s: string, start: nat, end: nat)
    requires start + end <= |s|
    ensures s[start..][|s| - start - end..] == s[|s| - end..]
  {
  }

  /** What was matched at the end of `o` is the beginning of `n` backwards. */
  lemma {:induction false} MatchedEnd(o: string, n: string, end: nat)
    requires end == Common(Reverse(o), n)
    ensures o[|o| - end..] == Reverse(n[..end])
  {
  }

  /** `O` and `N` are what follows the common prefix of old and new text. */
  lemma {:induction false} SwappedSidesNeverFit(O: string, N: string, end: nat)
    requires O != N && Reverse(N) != O && (O == [] || N == [] || O[0] != N[0])
    requires end == Common(Reverse(N), O) && |N| - end <= |O|
    ensures O[..|O| - end] + O[|N| - end..] != N
  {
  }

  /** On two different `Text` nodes the source's patch is never right: the sides
      are swapped, so the patch leads from new to old. */
  lemma {:induction false} LiteralPlainTextNeverRight(prev: string, next: string)
    requires prev != next && Short(prev) && Short(next)
    ensures !RightOn(LiteralText, PlainText, prev, next)
  {
    var start := Common(next, prev);
    var N, O := next[start..], prev[start..];
    assert prev == prev[..start] + O && next == prev[..start] + N;
    if Reverse(N) != O {
      var end := Common(Reverse(N), O);
      if ApplyText(prev, MakePatch(next, prev, start, end)) == Some(next) {
        SwappedPatch(prev, next, start, end);
        SwappedSidesNeverFit(O, N, end);
      }
    }
  }

  lemma {:induction false} SwappedPatch(prev: string, next: string, start: nat, end: nat)
    requires Short(prev) && Short(next) && start + end <= |prev| && start + end <= |next|
    requires ApplyText(prev, MakePatch(next, prev, start, end)) == Some(next)
    ensures var N, O := next[start..], prev[start..];
            |N| - end <= |O| && O[..|O| - end] + O[|N| - end..] == N
  {
    var p := MakePatch(next, prev, start, end);
    Unwrapped(start);
    Unwrapped(|next| - end - start);
    assert p.position + p.remove == |next| - end;
    Rejoined(prev, next, start, |prev| - end, |next| - end);
  }

  lemma Unwrapped(n: nat)
    requires n < 0x1_0000
    ensures U16(n) == n
  {
  }

  lemma {:induction false} Rejoined(prev: string, next: string, start: nat, i: nat, j: nat)
    requires start <= i <= |prev| && start <= j <= |prev|
    requires prev[..start] + prev[start..i] + prev[j..] == next
    ensures prev[start..][..i - start] + prev[start..][j - start..] == next[start..]
  {
  }

  /** What follows the common prefix is not reversed, and where it is trimmed it
      reads the same from both ends. */
  predicate MirrorTail(prev: string, next: string) {
    var start := Common(prev, next);
    var o, n := prev[start..], next[start..];
    var end := Common(Reverse(o), n);
    n != Reverse(o) && n[|n| - end..] == Reverse(n[..end])
  }

  /** When the source's text differ is right: on links and code blocks whose
      changed part mirrors, and on no changed plain text. */
  predicate LiteralSafe(kind: TextKind, prev: string, next: string) {
    prev == next || (kind != PlainText && MirrorTail(prev, next))
  }

  lemma {:induction false} LiteralTextExact(kind: TextKind, prev: string, next: string)
    requires Short(prev) && Short(next)
    ensures RightOn(LiteralText, kind, prev, next) <==> LiteralSafe(kind, prev, next)
  {
    if prev != next {
      if kind == PlainText {
        LiteralPlainTextNeverRight(prev, next);
      } else {
        DiffTextExact(prev, next);
      }
    }
  }

  lemma CommonOfPrefix(p: string, x: string)
    ensures Common(p, p + x) == |p| && (p + x)[|p|..] == x
  {
    assert forall i :: 0 <= i < |p| ==> (p + x)[i] == p[i];
  }

  /** The source on links and code: right wherever only an end was added, ... */
  lemma {:induction false} AddedEndIsRight(kind: TextKind, p: string, x: string)
    requires kind != PlainText && x != "" && Short(p + x)
    ensures RightOn(LiteralText, kind, p, p + x)
  {
    CommonOfPrefix(p, x);
    assert p[|p|..] == "" && Reverse("") == "" && x[..0] == "" && x[|x|..] == "";
    DiffTextExact(p, p + x);
  }

  /** ... wrong where the ends merely face each other, ... */
  lemma {:induction false} FacingEndsAreWrong()
    ensures !RightOn(LiteralText, Link, "ab", "bcd")
  {
  }

  /** ... and stuck on a reversal. */
  lemma {:induction false} ReversalIsStuck()
    ensures DiffText("ab", "ba") == Stuck
  {
  }

  // ------------------------------------------------------------ tree diffing

  function Lift(r: TextResult): TreeResult {
    match r
    case Same => Unchanged
    case Stuck => Hangs
    case Changed(p) => Patched(Patch(p))
  }

  function AsOption(r: TreeResult): Option<PatchNode> {
    if r.Patched? then Some(r.patch) else None
  }

  predicate SameWrapper(a: Node, b: Node) {
    || (a.Spoiler? && b.Spoiler?)
    || (a.Bold? && b.Bold?)
    || (a.Italic? && b.Italic?)
    || (a.Quoted? && b.Quoted?)
  }

  /** `diff` over a pair of trees. Neither a wrapper nor its loss shows in the
      patch. */
  function DiffTree(td: TextDiffer, prev: Node, next: Node): TreeResult
    decreases prev
  {
    if prev.Siblings? && next.Siblings? then
      var l, r := DiffTree(td, prev.left, next.left), DiffTree(td, prev.right, next.right);
      if l.Hangs? || r.Hangs? then Hangs
      else if l.Unchanged? && r.Unchanged? then Unchanged
      else Patched(SiblingsPatch(AsOption(l), AsOption(r)))
    else if prev.Text? && next.Text? then Lift(td(PlainText, prev.text, next.text))
    else if prev.URL? && next.URL? then Lift(td(Link, prev.url, next.url))
    else if prev.Code? && next.Code? then Lift(td(CodeBlock, prev.html, next.html))
    else if SameWrapper(prev, next) then DiffTree(td, prev.inner, next.inner)
    else if prev == next then Unchanged
    else Patched(Replace(next))
  }

  function Rewrap(w: Node, inner: Option<Node>): Option<Node>
    requires IsWrapper(w)
  {
    match inner
    case None => None
    case Some(i) =>
      match w
      case Spoiler(_) => Some(Spoiler(i))
      case Bold(_) => Some(Bold(i))
      case Italic(_) => Some(Italic(i))
      case Quoted(_) => Some(Quoted(i))
  }

  /** Applies a patch: a replacement takes the place of the node it meets, other
      patches pass through wrappers to what they can change. */
  function Apply(n: Node, p: PatchNode): Option<Node>
    decreases n
  {
    if p.Replace? then Some(p.node)
    else if IsWrapper(n) then Rewrap(n, Apply(n.inner, p))
    else if p.SiblingsPatch? then
      if !n.Siblings? then None
      else
        var l := if p.left.None? then Some(n.left) else Apply(n.left, p.left.value);
        var r := if p.right.None? then Some(n.right) else Apply(n.right, p.right.value);
        if l.None? || r.None? then None else Some(Siblings(l.value, r.value))
    else match n
      case Text(t) => (match ApplyText(t, p.patch) case Some(x) => Some(Text(x)) case None => None)
      case URL(t) => (match ApplyText(t, p.patch) case Some(x) => Some(URL(x)) case None => None)
      case Code(t) => (match ApplyText(t, p.patch) case Some(x) => Some(Code(x)) case None => None)
      case _ => None
  }

  /** The pair differs in kind, possibly below common wrappers, so that its patch
      is a bare replacement. */
  predicate Replaced(prev: Node, next: Node)
    decreases prev
  {
    if SameWrapper(prev, next) then Replaced(prev.inner, next.inner)
    else
      && prev != next
      && !(prev.Siblings? && next.Siblings?)
      && !(prev.Text? && next.Text?)
      && !(prev.URL? && next.URL?)
      && !(prev.Code? && next.Code?)
  }

  /** Somewhere a replacement happens below a common wrapper. */
  predicate Ambiguous(prev: Node, next: Node)
    decreases prev
  {
    if SameWrapper(prev, next) then Replaced(prev.inner, next.inner) || Ambiguous(prev.inner, next.inner)
    else prev.Siblings? && next.Siblings? && (Ambiguous(prev.left, next.left) || Ambiguous(prev.right, next.right))
  }

  /** `ok` holds of every pair of texts the walk meets. */
  predicate AllTexts(ok: (TextKind, string, string) -> bool, prev: Node, next: Node)
    decreases prev
  {
    if prev.Siblings? && next.Siblings? then AllTexts(ok, prev.left, next.left) && AllTexts(ok, prev.right, next.right)
    else if prev.Text? && next.Text? then ok(PlainText, prev.text, next.text)
    else if prev.URL? && next.URL? then ok(Link, prev.url, next.url)
    else if prev.Code? && next.Code? then ok(CodeBlock, prev.html, next.html)
    else if SameWrapper(prev, next) then AllTexts(ok, prev.inner, next.inner)
    else true
  }

  /** The text differ is right on every pair of texts the walk meets. */
  predicate TextsRight(td: TextDiffer, prev: Node, next: Node) {
    AllTexts(Rightness(td), prev, next)
  }

  function Rightness(td: TextDiffer): (TextKind, string, string) -> bool {
    (k, a, b) => RightOn(td, k, a, b)
  }

  /** The differ reports no change exactly on equal texts. */
  ghost predicate Detects(td: TextDiffer) {
    forall k, a, b {:trigger td(k, a, b)} :: td(k, a, b) == Same <==> a == b
  }

  /** The walk's answer takes old to new. */
  predicate TreeRight(td: TextDiffer, prev: Node, next: Node) {
    match DiffTree(td, prev, next)
    case Unchanged => prev == next
    case Hangs => false
    case Patched(p) => Apply(prev, p) == Some(next)
  }

  function Depth(n: Node): nat {
    match n
    case Siblings(l, r) => 1 + Depth(l) + Depth(r)
    case Spoiler(i) => 1 + Depth(i)
    case Bold(i) => 1 + Depth(i)
    case Italic(i) => 1 + Depth(i)
    case Quoted(i) => 1 + Depth(i)
    case _ => 0
  }

  /** No patch at all exactly on equal trees. */
  lemma {:induction false} UnchangedIsEqual(td: TextDiffer, prev: Node, next: Node)
    requires Detects(td)
    ensures DiffTree(td, prev, next) == Unchanged <==> prev == next
    decreases prev
  {
    if prev.Siblings? && next.Siblings? {
      UnchangedIsEqual(td, prev.left, next.left);
      UnchangedIsEqual(td, prev.right, next.right);
    } else if SameWrapper(prev, next) {
      UnchangedIsEqual(td, prev.inner, next.inner);
    }
  }

  lemma {:induction false} ReplacedIsReplace(td: TextDiffer, prev: Node, next: Node)
    ensures Replaced(prev, next) <==> DiffTree(td, prev, next).Patched? && DiffTree(td, prev, next).patch.Replace?
    ensures Replaced(prev, next) ==> Depth(DiffTree(td, prev, next).patch.node) <= Depth(next)
    decreases prev
  {
    if SameWrapper(prev, next) {
      ReplacedIsReplace(td, prev.inner, next.inner);
    } else {
      LeafReplaced(td, prev, next);
    }
  }

  lemma LeafReplaced(td: TextDiffer, prev: Node, next: Node)
    requires !SameWrapper(prev, next)
    ensures Replaced(prev, next) <==> DiffTree(td, prev, next).Patched? && DiffTree(td, prev, next).patch.Replace?
    ensures Replaced(prev, next) ==> DiffTree(td, prev, next).patch.node == next
  {
  }

  /** Exactness of the tree differ, for any text differ that detects changes: its
      patch takes old to new if and only if the text differ is right on every
      pair of texts met and no node is replaced below a common wrapper. */
  lemma {:induction false} DiffTreeExact(td: TextDiffer, prev: Node, next: Node)
    requires Detects(td)
    ensures TreeRight(td, prev, next) <==> TextsRight(td, prev, next) && !Ambiguous(prev, next)
    decreases prev
  {
    if prev.Siblings? && next.Siblings? {
      DiffTreeExact(td, prev.left, next.left);
      DiffTreeExact(td, prev.right, next.right);
      SiblingsRight(td, prev, next);
    } else if SameWrapper(prev, next) {
      DiffTreeExact(td, prev.inner, next.inner);
      WrapperRight(td, prev, next);
    } else {
      LeafRight(td, prev, next);
    }
  }

  lemma {:induction false} LeafRight(td: TextDiffer, prev: Node, next: Node)
    requires Detects(td) && !(prev.Siblings? && next.Siblings?) && !SameWrapper(prev, next)
    ensures TreeRight(td, prev, next) <==> TextsRight(td, prev, next)
  {
  }

  /** A pair of siblings is right exactly when both sides are. */
  lemma {:induction false} SiblingsRight(td: TextDiffer, prev: Node, next: Node)
    requires Detects(td) && prev.Siblings? && next.Siblings?
    ensures TreeRight(td, prev, next) <==> TreeRight(td, prev.left, next.left) && TreeRight(td, prev.right, next.right)
  {
  }

  /** Below a common wrapper a patch is right exactly when it is right for what is
      wrapped and is not a bare replacement. */
  lemma {:induction false} WrapperRight(td: TextDiffer, prev: Node, next: Node)
    requires Detects(td) && SameWrapper(prev, next)
    ensures TreeRight(td, prev, next) <==> TreeRight(td, prev.inner, next.inner) && !Replaced(prev.inner, next.inner)
  {
    UnchangedIsEqual(td, prev.inner, next.inner);
    ReplacedIsReplace(td, prev.inner, next.inner);
  }

  /** Every text in the tree is shorter than 65536 characters. */
  predicate ShortTexts(n: Node) {
    match n
    case Siblings(l, r) => ShortTexts(l) && ShortTexts(r)
    case Text(t) => Short(t)
    case URL(t) => Short(t)
    case Code(t) => Short(t)
    case Spoiler(i) => ShortTexts(i)
    case Bold(i) => ShortTexts(i)
    case Italic(i) => ShortTexts(i)
    case Quoted(i) => ShortTexts(i)
    case _ => true
  }

  predicate WrapperFree(n: Node) {
    !IsWrapper(n) && (n.Siblings? ==> WrapperFree(n.left) && WrapperFree(n.right))
  }

  lemma {:induction false} TextsAgree(ok: (TextKind, string, string) -> bool, ok': (TextKind, string, string) -> bool,
                                      prev: Node, next: Node)
    requires ShortTexts(prev) && ShortTexts(next)
    requires forall k, a, b :: Short(a) && Short(b) ==> ok(k, a, b) == ok'(k, a, b)
    ensures AllTexts(ok, prev, next) == AllTexts(ok', prev, next)
    decreases prev
  {
    if prev.Siblings? && next.Siblings? {
      TextsAgree(ok, ok', prev.left, next.left);
      TextsAgree(ok, ok', prev.right, next.right);
    } else if SameWrapper(prev, next) {
      TextsAgree(ok, ok', prev.inner, next.inner);
    }
  }

  lemma {:induction false} AllTextsTrue(prev: Node, next: Node)
    ensures AllTexts((k, a, b) => true, prev, next)
    decreases prev
  {
    if prev.Siblings? && next.Siblings? {
      AllTextsTrue(prev.left, next.left);
      AllTextsTrue(prev.right, next.right);
    } else if SameWrapper(prev, next) {
      AllTextsTrue(prev.inner, next.inner);
    }
  }

  lemma {:induction false} TrimmedTextsRight(prev: Node, next: Node)
    requires ShortTexts(prev) && ShortTexts(next)
    ensures TextsRight(TrimmedText, prev, next)
  {
    forall k, a, b | Short(a) && Short(b)
      ensures RightOn(TrimmedText, k, a, b)
    {
      TrimmedTextRight(k, a, b);
    }
    AllTextsTrue(prev, next);
    TextsAgree(Rightness(TrimmedText), (k, a, b) => true, prev, next);
  }

  lemma {:induction false} WrapperFreeIsUnambiguous(prev: Node, next: Node)
    requires WrapperFree(prev) || WrapperFree(next)
    ensures !Ambiguous(prev, next)
    decreases prev
  {
    if prev.Siblings? && next.Siblings? {
      WrapperFreeIsUnambiguous(prev.left, next.left);
      WrapperFreeIsUnambiguous(prev.right, next.right);
    }
  }

  /** As intended, the differ is right on a pair of trees if and only if no node
      is replaced below a common wrapper; in particular on all wrapper-free
      trees. */
  lemma {:induction false} IntendedDiffExact(prev: Node, next: Node)
    requires ShortTexts(prev) && ShortTexts(next)
    ensures TreeRight(TrimmedText, prev, next) <==> !Ambiguous(prev, next)
    ensures WrapperFree(prev) || WrapperFree(next) ==> TreeRight(TrimmedText, prev, next)
    ensures DiffTree(TrimmedText, prev, next) == Unchanged <==> prev == next
  {
    UnchangedIsEqual(TrimmedText, prev, next);
    DiffTreeExact(TrimmedText, prev, next);
    TrimmedTextsRight(prev, next);
    if WrapperFree(prev) || WrapperFree(next) {
      WrapperFreeIsUnambiguous(prev, next);
    }
  }

  /** No way of applying patches can repair the lost wrapper: replacing below a
      wrapper and replacing the wrapper itself give the same patch. */
  lemma {:induction false} WrapperLossIsFatal(td: TextDiffer, x: Node, y: Node,
                                              apply: (Node, PatchNode) -> Option<Node>)
    requires Replaced(x, y) && !IsWrapper(x) && !y.Spoiler?
    ensures DiffTree(td, Spoiler(x), Spoiler(y)) == DiffTree(td, Spoiler(x), y) == Patched(Replace(y))
    ensures !(apply(Spoiler(x), Replace(y)) == Some(Spoiler(y)) && apply(Spoiler(x), Replace(y)) == Some(y))
  {
  }

  /** The source's differ is right on a pair of trees if and only if no plain
      text changed, every changed link and code block mirrors, and no node is
      replaced below a common wrapper. */
  lemma {:induction false} LiteralDiffExact(prev: Node, next: Node)
    requires ShortTexts(prev) && ShortTexts(next)
    ensures TreeRight(LiteralText, prev, next) <==> AllTexts(LiteralSafe, prev, next) && !Ambiguous(prev, next)
  {
    DiffTreeExact(LiteralText, prev, next);
    forall k, a, b | Short(a) && Short(b)
      ensures RightOn(LiteralText, k, a, b) == LiteralSafe(k, a, b)
    {
      LiteralTextExact(k, a, b);
    }
    TextsAgree(Rightness(LiteralText), LiteralSafe, prev, next);
  }

  // ------------------------------------------------------ when a diff returns

  lemma CommonSymmetric(a: string, b: string)
    ensures Common(a, b) == Common(b, a)
  {
    var n, m := Common(a, b), Common(b, a);
    assert forall i :: 0 <= i < m ==> a[..m][i] == a[i] && b[..m][i] == b[i];
    assert forall i :: 0 <= i < n ==> a[..n][i] == a[i] && b[..n][i] == b[i];
  }

  /** What follows the common prefix of two different texts is reversed. */
  predicate Reversal(prev: string, next: string) {
    prev != next && next[Common(prev, next)..] == Reverse(prev[Common(prev, next)..])
  }

  lemma LiteralStuckExact(kind: TextKind, prev: string, next: string)
    ensures LiteralText(kind, prev, next) == Stuck <==> Reversal(prev, next)
  {
    CommonSymmetric(prev, next);
    ReverseInvolution(prev[Common(prev, next)..]);
    ReverseInvolution(next[Common(prev, next)..]);
  }

  function Unstuck(td: TextDiffer): (TextKind, string, string) -> bool {
    (k, a, b) => td(k, a, b) != Stuck
  }

  /** A diff never returns if and only if some pair of texts it meets is stuck. */
  lemma {:induction false} HangsExact(td: TextDiffer, prev: Node, next: Node)
    ensures DiffTree(td, prev, next) == Hangs <==> !AllTexts(Unstuck(td), prev, next)
    decreases prev
  {
    if prev.Siblings? && next.Siblings? {
      HangsExact(td, prev.left, next.left);
      HangsExact(td, prev.right, next.right);
    } else if SameWrapper(prev, next) {
      HangsExact(td, prev.inner, next.inner);
    } else {
      LeafHangs(td, prev, next);
    }
  }

  lemma LeafHangs(td: TextDiffer, prev: Node, next: Node)
    requires !(prev.Siblings? && next.Siblings?) && !SameWrapper(prev, next)
    ensures DiffTree(td, prev, next) == Hangs <==> !AllTexts(Unstuck(td), prev, next)
  {
  }

  function Unreversed(): (TextKind, string, string) -> bool {
    (k, a, b) => !Reversal(a, b)
  }

  lemma {:induction false} SameTexts(ok: (TextKind, string, string) -> bool, ok': (TextKind, string, string) -> bool,
                                     prev: Node, next: Node)
    requires forall k, a, b :: ok(k, a, b) == ok'(k, a, b)
    ensures AllTexts(ok, prev, next) == AllTexts(ok', prev, next)
    decreases prev
  {
    if prev.Siblings? && next.Siblings? {
      SameTexts(ok, ok', prev.left, next.left);
      SameTexts(ok, ok', prev.right, next.right);
    } else if SameWrapper(prev, next) {
      SameTexts(ok, ok', prev.inner, next.inner);
    }
  }

  /** The source's diff returns if and only if it meets no text that was reversed
      behind a common prefix; the intended one always does. */
  lemma DiffReturnsExact(prev: Node, next: Node)
    ensures DiffTree(LiteralText, prev, next) != Hangs <==> AllTexts(Unreversed(), prev, next)
    ensures DiffTree(TrimmedText, prev, next) != Hangs
  {
    HangsExact(LiteralText, prev, next);
    forall k, a, b
      ensures Unstuck(LiteralText)(k, a, b) == Unreversed()(k, a, b)
    {
      LiteralStuckExact(k, a, b);
    }
    SameTexts(Unstuck(LiteralText), Unreversed(), prev, next);
    TrimmedReturns(prev, next);
  }

  lemma TrimmedReturns(prev: Node, next: Node)
    ensures DiffTree(TrimmedText, prev, next) != Hangs
  {
    HangsExact(TrimmedText, prev, next);
    forall k, a, b
      ensures Unstuck(TrimmedText)(k, a, b)
    {
      assert TrimmedText(k, a, b) != Stuck;
    }
    SameTexts(Unstuck(TrimmedText), (k, a, b) => true, prev, next);
    AllTextsTrue(prev, next);
  }

  /** A patch holds no unsafe node if the new tree holds none. */
  lemma {:induction false} PatchIsSafe(td: TextDiffer, prev: Node, next: Node)
    requires OpenSafe(next) && DiffTree(td, prev, next).Patched?
    ensures PatchSafe(DiffTree(td, prev, next).patch)
    decreases prev
  {
    if prev.Siblings? && next.Siblings? {
      if DiffTree(td, prev.left, next.left).Patched? {
        PatchIsSafe(td, prev.left, next.left);
      }
      if DiffTree(td, prev.right, next.right).Patched? {
        PatchIsSafe(td, prev.right, next.right);
      }
    } else if SameWrapper(prev, next) {
      PatchIsSafe(td, prev.inner, next.inner);
    }
  }
}
