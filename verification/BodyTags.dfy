/** Which tags of a tree stand around which of its leaves, read off the body. */
module BodyTags {
  import opened Wrappers
  import opened PostBody
  import opened Strings
  import opened Fragments
  import opened Parser
  import opened BodyTexts

  // ----------------------------------------------------------- trees, flat

  datatype Token = Leaf(node: Node) | Begin(tag: string) | End(tag: string)

  function Between(tag: string, ts: seq<Token>): seq<Token> {
    [Begin(tag)] + ts + [End(tag)]
  }

  /** The delimiter of a tag's node. */
  function TagOf(n: Node): string
    requires IsWrapper(n)
  {
    match n
    case Spoiler(_) => "**"
    case Bold(_) => "@@"
    case Italic(_) => "~~"
    case Quoted(_) => ">"
  }

  /** The leaves of a tree in order, each tag around them named by its delimiter. */
  function Tokens(n: Node): seq<Token> {
    if n.Empty? then []
    else if n.Siblings? then Tokens(n.left) + Tokens(n.right)
    else if IsWrapper(n) then Between(TagOf(n), Tokens(n.inner))
    else [Leaf(n)]
  }

  function ResultTokens(r: Result<Node, string>): seq<Token> {
    if r.Ok? then Tokens(r.value) else []
  }

  /** What a part of the body puts into the tree. */
  function PartTokens(o: Oracles, p: Part): seq<Token> {
    match p
    case Block(text) => ResultTokens(Highlighted(o, text))
    case Line(text, flags) => ResultTokens(ParseFragment(o, text, flags))
    case Open(tag) => [Begin(tag)]
    case Close(tag) => [End(tag)]
  }

  function PartsTokens(o: Oracles, ps: seq<Part>): seq<Token> {
    if ps == [] then [] else PartTokens(o, ps[0]) + PartsTokens(o, ps[1..])
  }

  lemma {:induction false} TokensConcat(o: Oracles, a: seq<Part>, b: seq<Part>)
    ensures PartsTokens(o, a + b) == PartsTokens(o, a) + PartsTokens(o, b)
    decreases |a|
  {
    if a == [] {
      assert a + b == b;
    } else {
      assert (a + b)[1..] == a[1..] + b;
      TokensConcat(o, a[1..], b);
      Assoc(PartTokens(o, a[0]), PartsTokens(o, a[1..]), PartsTokens(o, b));
    }
  }

  lemma TokensOfOne(o: Oracles, p: Part)
    ensures PartsTokens(o, [p]) == PartTokens(o, p)
  {
    assert [p][1..] == [];
    assert PartTokens(o, p) + [] == PartTokens(o, p);
  }

  lemma TokensEnclosed(o: Oracles, tag: string, ps: seq<Part>)
    ensures PartsTokens(o, Enclosed(tag, ps)) == Between(tag, PartsTokens(o, ps))
  {
    TokensConcat(o, [Open(tag)] + ps, [Close(tag)]);
    TokensConcat(o, [Open(tag)], ps);
    TokensOfOne(o, Open(tag));
    TokensOfOne(o, Close(tag));
  }

  // ------------------------------------------------- trees against the walk

  /** The tree has the leaves of the parts, under their tags. */
  predicate Tagged(o: Oracles, r: Result<Node, string>, ps: seq<Part>) {
    r.Ok? ==> Tokens(r.value) == PartsTokens(o, ps)
  }

  lemma PairTagged(o: Oracles, l: Result<Node, string>, r: Result<Node, string>, a: seq<Part>, b: seq<Part>)
    requires Tagged(o, l, a) && Tagged(o, r, b)
    ensures Tagged(o, Pair(l, r), a + b)
  {
    TokensConcat(o, a, b);
  }

  lemma WrapTagged(o: Oracles, l: Level, r: Result<Node, string>, ps: seq<Part>)
    requires Tagged(o, r, ps) && 0 < l < QUOTES
    ensures Tagged(o, Wrapped(l, r), Enclosed(Delimiter(l), ps))
  {
    TokensEnclosed(o, Delimiter(l), ps);
  }

  lemma QuoteTagged(o: Oracles, r: Result<Node, string>, ps: seq<Part>)
    requires Tagged(o, r, ps)
    ensures Tagged(o, InQuotes(r), Enclosed(">", ps))
  {
    TokensEnclosed(o, ">", ps);
  }

  lemma EmptyLine(o: Oracles, flags: Flags)
    ensures ParseFragment(o, "", flags) == Ok(Empty)
  {
    assert SplitOn("", ' ') == [""];
    UnmatchedTextIsKept(o, "", flags);
  }

  lemma LineTagged(o: Oracles, line: string, flags: Flags)
    ensures Tagged(o, ParseLine(o, line, flags), LineParts(line, flags))
  {
    var part := Line(line, LineFlags(line, flags));
    LineParsed(o, line, flags);
    TokensOfOne(o, part);
    if flags.atLineStart && line == "" {
      EmptyLine(o, part.flags);
    } else if flags.atLineStart && line[0] == '>' {
      QuoteTagged(o, ParseFragment(o, line, part.flags), [part]);
    }
  }

  function Tagging(o: Oracles): Fit {
    (r, ps) => Tagged(o, r, ps)
  }

  lemma TaggingFollows(o: Oracles)
    ensures Follows(o, (p: Part) => true, Tagging(o))
  {
    var fit := Tagging(o);
    forall line, flags
      ensures fit(ParseLine(o, line, flags), LineParts(line, flags))
    {
      LineTagged(o, line, flags);
    }
    forall text
      ensures fit(Highlighted(o, text), [Block(text)])
    {
      TokensOfOne(o, Block(text));
    }
    forall l: Level, r, ps | 0 < l < QUOTES && fit(r, ps)
      ensures fit(Wrapped(l, r), Enclosed(Delimiter(l), ps))
    {
      WrapTagged(o, l, r, ps);
    }
    forall l, r, a, b | fit(l, a) && fit(r, b)
      ensures fit(Pair(l, r), a + b)
    {
      PairTagged(o, l, r, a, b);
    }
  }

  /** The tree of a body has exactly the leaves of its parts, in order, under exactly
      the tags that are open around them there: a spoiler for "**", bold for "@@",
      italics for "~~" and a quote for the '>' at the start of their line. */
  lemma TagsAreKept(o: Oracles, body: string, open: bool)
    requires ParseBody(o, body, open).Ok?
    ensures Tokens(ParseBody(o, body, open).value) == PartsTokens(o, BodyParts(body, open))
  {
    var flags := Flags(open, false, true);
    TaggingFollows(o);
    ParseFits(o, (p: Part) => true, Tagging(o), false, 0, body, flags);
    assert Tagging(o)(ParseOn(o, false, 0, body, flags), BodyParts(body, open));
    OffIsParse(o, 0, body, flags);
    if body == "" {
      EmptyBody(o, flags);
    }
  }

  lemma EmptyBody(o: Oracles, flags: Flags)
    requires flags.atLineStart
    ensures Parse(o, 0, "", flags) == Ok(Empty)
  {
    NoneInEmpty(0);
    NoneInEmpty(1);
    NoneInEmpty(2);
    NoneInEmpty(3);
    assert Parse(o, 2, "", flags) == Parse(o, 4, "", flags);
    assert !OccursAt("", "\n", 0);
  }

  lemma NoneInEmpty(l: Level)
    requires l < QUOTES
    ensures Find("", Delimiter(l)).None?
  {
    DelimiterIsMarkup(l);
  }

  // ------------------------------------------------------------ counting tags

  /** How many nodes of the tree are for this tag. */
  function TagCount(tag: string, n: Node): nat {
    if n.Siblings? then TagCount(tag, n.left) + TagCount(tag, n.right)
    else if IsWrapper(n) then (if TagOf(n) == tag then 1 else 0) + TagCount(tag, n.inner)
    else 0
  }

  function Begins(tag: string, ts: seq<Token>): nat {
    if ts == [] then 0 else (if ts[0] == Begin(tag) then 1 else 0) + Begins(tag, ts[1..])
  }

  function Opens(tag: string, ps: seq<Part>): nat {
    if ps == [] then 0 else (if ps[0] == Open(tag) then 1 else 0) + Opens(tag, ps[1..])
  }

  lemma {:induction false} BeginsConcat(tag: string, a: seq<Token>, b: seq<Token>)
    ensures Begins(tag, a + b) == Begins(tag, a) + Begins(tag, b)
    decreases |a|
  {
    if a == [] {
      assert a + b == b;
    } else {
      assert (a + b)[1..] == a[1..] + b;
      BeginsConcat(tag, a[1..], b);
    }
  }

  lemma BeginsBetween(tag: string, t: string, ts: seq<Token>)
    ensures Begins(tag, Between(t, ts)) == (if t == tag then 1 else 0) + Begins(tag, ts)
  {
    BeginsConcat(tag, [Begin(t)] + ts, [End(t)]);
    BeginsConcat(tag, [Begin(t)], ts);
    assert [Begin(t)][1..] == [] && [End(t)][1..] == [];
  }

  lemma {:induction false} TagsCounted(tag: string, n: Node)
    ensures Begins(tag, Tokens(n)) == TagCount(tag, n)
  {
    if n.Siblings? {
      TagsCounted(tag, n.left);
      TagsCounted(tag, n.right);
      BeginsConcat(tag, Tokens(n.left), Tokens(n.right));
    } else if IsWrapper(n) {
      TagsCounted(tag, n.inner);
      BeginsBetween(tag, TagOf(n), Tokens(n.inner));
    }
  }

  lemma {:induction false} PlainHasNoTags(tag: string, n: Node, flags: Flags)
    requires n == Empty || Plain(n, flags)
    ensures TagCount(tag, n) == 0
  {
    if n.Siblings? {
      PlainHasNoTags(tag, n.left, flags);
      PlainHasNoTags(tag, n.right, flags);
    }
  }

  lemma PartTags(o: Oracles, tag: string, p: Part)
    ensures Begins(tag, PartTokens(o, p)) == if p == Open(tag) then 1 else 0
  {
    if p.Line? {
      FragmentIsPlain(o, p.text, p.flags);
      var r := ParseFragment(o, p.text, p.flags);
      if r.Ok? {
        PlainHasNoTags(tag, r.value, p.flags);
        TagsCounted(tag, r.value);
      }
    }
  }

  lemma {:induction false} PartsTags(o: Oracles, tag: string, ps: seq<Part>)
    ensures Begins(tag, PartsTokens(o, ps)) == Opens(tag, ps)
  {
    if ps == [] {
    } else {
      PartTags(o, tag, ps[0]);
      PartsTags(o, tag, ps[1..]);
      BeginsConcat(tag, PartTokens(o, ps[0]), PartsTokens(o, ps[1..]));
    }
  }

  /** The tree has one node of a kind for each tag of it opened in the body. */
  lemma TagsMatchNodes(o: Oracles, body: string, open: bool, tag: string)
    requires ParseBody(o, body, open).Ok?
    ensures TagCount(tag, ParseBody(o, body, open).value) == Opens(tag, BodyParts(body, open))
  {
    TagsAreKept(o, body, open);
    TagsCounted(tag, ParseBody(o, body, open).value);
    PartsTags(o, tag, BodyParts(body, open));
  }

  // ---------------------------------------------------- leaves and their tags

  /** A leaf with the tags around it, outermost first. */
  datatype Standing = Standing(under: seq<string>, node: Node)

  function Standings(under: seq<string>, n: Node): seq<Standing>
    decreases n
  {
    if n.Empty? then []
    else if n.Siblings? then Standings(under, n.left) + Standings(under, n.right)
    else if IsWrapper(n) then Standings(under + [TagOf(n)], n.inner)
    else [Standing(under, n)]
  }

  /** The same of a row of tokens: a tag stands around what follows until it ends. */
  function Stack(under: seq<string>, ts: seq<Token>): seq<string>
    decreases |ts|
  {
    if ts == [] then under else Stack(StackOne(under, ts[0]), ts[1..])
  }

  function StackOne(under: seq<string>, t: Token): seq<string> {
    match t
    case Begin(tag) => under + [tag]
    case End(_) => if under == [] then [] else under[..|under| - 1]
    case Leaf(_) => under
  }

  function Row(under: seq<string>, ts: seq<Token>): seq<Standing>
    decreases |ts|
  {
    if ts == [] then []
    else (if ts[0].Leaf? then [Standing(under, ts[0].node)] else []) + Row(StackOne(under, ts[0]), ts[1..])
  }

  lemma {:induction false} RowConcat(under: seq<string>, a: seq<Token>, b: seq<Token>)
    ensures Stack(under, a + b) == Stack(Stack(under, a), b)
    ensures Row(under, a + b) == Row(under, a) + Row(Stack(under, a), b)
    decreases |a|
  {
    if a == [] {
      assert a + b == b;
    } else {
      assert (a + b)[1..] == a[1..] + b;
      var next := StackOne(under, a[0]);
      RowConcat(next, a[1..], b);
      Assoc(if a[0].Leaf? then [Standing(under, a[0].node)] else [], Row(next, a[1..]), Row(Stack(next, a[1..]), b));
    }
  }

  lemma RowBetween(under: seq<string>, tag: string, ts: seq<Token>)
    requires Stack(under + [tag], ts) == under + [tag]
    ensures Stack(under, Between(tag, ts)) == under
    ensures Row(under, Between(tag, ts)) == Row(under + [tag], ts)
  {
    RowConcat(under, [Begin(tag)] + ts, [End(tag)]);
    RowConcat(under, [Begin(tag)], ts);
    assert [Begin(tag)][1..] == [] && [End(tag)][1..] == [];
    assert Stack(under, [Begin(tag)]) == under + [tag];
    assert (under + [tag])[..|under|] == under;
  }

  /** Reading the row of a tree's tokens gives its leaves and their tags. */
  lemma {:induction false} RowOfTree(under: seq<string>, n: Node)
    ensures Stack(under, Tokens(n)) == under
    ensures Row(under, Tokens(n)) == Standings(under, n)
    decreases n
  {
    if n.Empty? {
    } else if n.Siblings? {
      RowOfTree(under, n.left);
      RowOfTree(under, n.right);
      RowConcat(under, Tokens(n.left), Tokens(n.right));
    } else if IsWrapper(n) {
      RowOfTree(under + [TagOf(n)], n.inner);
      RowBetween(under, TagOf(n), Tokens(n.inner));
    } else {
      assert [Leaf(n)][1..] == [];
    }
  }

  /** Every leaf stands under exactly the tags open at its place in the body. */
  lemma LeavesStandUnderTags(o: Oracles, body: string, open: bool)
    requires ParseBody(o, body, open).Ok?
    ensures Standings([], ParseBody(o, body, open).value) == Row([], PartsTokens(o, BodyParts(body, open)))
  {
    TagsAreKept(o, body, open);
    RowOfTree([], ParseBody(o, body, open).value);
  }

  // ------------------------------------------------------- parts in the body

  /** A part as it is written: tags by their opening delimiter. */
  function Written(p: Part): string {
    match p
    case Block(text) => "``" + text
    case Line(text, _) => text
    case Open(tag) => if tag == ">" then "" else tag
    case Close(_) => ""
  }

  function WrittenAll(ps: seq<Part>): string {
    if ps == [] then "" else Written(ps[0]) + WrittenAll(ps[1..])
  }

  lemma {:induction false} WrittenConcat(a: seq<Part>, b: seq<Part>)
    ensures WrittenAll(a + b) == WrittenAll(a) + WrittenAll(b)
    decreases |a|
  {
    if a == [] {
      assert a + b == b;
    } else {
      assert (a + b)[1..] == a[1..] + b;
      WrittenConcat(a[1..], b);
      Assoc(Written(a[0]), WrittenAll(a[1..]), WrittenAll(b));
    }
  }

  lemma WrittenOne(p: Part)
    ensures WrittenAll([p]) == Written(p)
  {
    assert [p][1..] == [];
    assert Written(p) + "" == Written(p);
  }

  lemma WrittenEnclosed(tag: string, ps: seq<Part>)
    ensures WrittenAll(Enclosed(tag, ps)) == (if tag == ">" then "" else tag) + WrittenAll(ps)
  {
    WrittenConcat([Open(tag)] + ps, [Close(tag)]);
    WrittenConcat([Open(tag)], ps);
    WrittenOne(Open(tag));
    WrittenOne(Close(tag));
    var w := (if tag == ">" then "" else tag) + WrittenAll(ps);
    assert w + "" == w;
  }

  lemma WrittenLine(line: string, flags: Flags)
    ensures WrittenAll(LineParts(line, flags)) == line
  {
    var part := Line(line, LineFlags(line, flags));
    WrittenOne(part);
    WrittenEnclosed(">", [part]);
    assert "" + line == line;
  }

  /** Two parts of a text, with or without what is between them. */
  lemma WithinAround(a: string, x: string, mark: string, b: string, y: string, whole: string)
    requires Within(a, x) && Within(b, y) && whole == x + mark + y
    ensures Within(a + b, whole)
  {
    WithinConcat(a, x, "", mark);
    assert a + "" == a;
    WithinConcat(a, x + mark, b, y);
  }

  lemma {:induction false} LinesWritten(frag: string, flags: Flags)
    ensures Within(WrittenAll(Lines(frag, flags)), frag)
    decreases |frag|
  {
    match Find(frag, "\n")
    case None =>
      WrittenLine(frag, flags);
      WithinSelf(frag);
    case Some(pos) =>
      var line, rest, f := frag[..pos], frag[pos + 1..], flags.(atLineStart := true);
      CutAt(frag, "\n", pos);
      WrittenLine(line, flags);
      WithinSelf(line);
      LinesWritten(rest, f);
      WrittenConcat(LineParts(line, flags), Lines(rest, f));
      WithinAround(line, line, "\n", WrittenAll(Lines(rest, f)), rest, frag);
  }

  /** The parts of a body and the delimiters of the tags opened stand in the body,
      in this order. */
  lemma {:induction false} PartsWritten(on: bool, l: Level, frag: string, flags: Flags)
    ensures Within(WrittenAll(Parts(on, l, frag, flags)), frag)
    decreases |frag|, 5 - l, 2
  {
    if l == QUOTES {
      LinesWritten(frag, flags);
    } else {
      match Find(frag, Delimiter(l))
      case None => PartsWritten(on, l + 1, frag, flags);
      case Some(start) => TagWritten(on, l, frag, flags, start);
    }
  }

  lemma {:induction false} TagWritten(on: bool, l: Level, frag: string, flags: Flags, start: nat)
    requires l < QUOTES && Find(frag, Delimiter(l)) == Some(start)
    ensures Within(WrittenAll(Parts(on, l, frag, flags)), frag)
    decreases |frag|, 5 - l, 1
  {
    var a, d, b, f := frag[..start], Delimiter(l), frag[start + 2..], flags.(atLineStart := false);
    DelimiterIsMarkup(l);
    CutAt(frag, d, start);
    AfterWritten(on, l, b, f);
    if start == 0 {
      assert frag == d + b;
    } else {
      PartsWritten(on, l + 1, a, flags);
      WrittenConcat(Parts(on, l + 1, a, flags), PartsAfter(on, l, b, f));
      assert frag == a + (d + b);
      WithinConcat(WrittenAll(Parts(on, l + 1, a, flags)), a, WrittenAll(PartsAfter(on, l, b, f)), d + b);
    }
  }

  lemma {:induction false} AfterWritten(on: bool, l: Level, frag: string, flags: Flags)
    requires l < QUOTES
    ensures Within(WrittenAll(PartsAfter(on, l, frag, flags)), Delimiter(l) + frag)
    decreases |frag| + 1, 5 - l, 0
  {
    match Find(frag, Delimiter(l))
    case None => InsideWritten(on, l, frag, flags);
    case Some(end) =>
      var a, d, b := frag[..end], Delimiter(l), frag[end + 2..];
      DelimiterIsMarkup(l);
      CutAt(frag, d, end);
      if end > 0 {
        InsideWritten(on, l, a, flags);
        PartsWritten(on, 0, b, flags);
        WrittenConcat(PartsInside(on, l, a, flags), Parts(on, 0, b, flags));
        Rejoin(d, a, b, frag);
        WithinAround(WrittenAll(PartsInside(on, l, a, flags)), d + a, d, WrittenAll(Parts(on, 0, b, flags)), b,
          d + frag);
      } else if on {
        PartsWritten(on, 0, b, flags);
        Rejoin(d, a, b, frag);
        WithinAround("", d + a, d, WrittenAll(Parts(on, 0, b, flags)), b, d + frag);
        assert "" + WrittenAll(Parts(on, 0, b, flags)) == WrittenAll(Parts(on, 0, b, flags));
      }
  }

  lemma Rejoin(d: string, a: string, b: string, frag: string)
    requires frag == a + d + b
    ensures d + frag == d + a + d + b
  {
  }

  lemma {:induction false} InsideWritten(on: bool, l: Level, frag: string, flags: Flags)
    requires l < QUOTES
    ensures Within(WrittenAll(PartsInside(on, l, frag, flags)), Delimiter(l) + frag)
    decreases |frag| + 1, 5 - l - 1, 3
  {
    if l == 0 {
      WrittenOne(Block(frag));
      WithinSelf("``" + frag);
    } else {
      var d, inner := Delimiter(l), Parts(on, l + 1, frag, flags);
      PartsWritten(on, l + 1, frag, flags);
      WrittenEnclosed(d, inner);
      WithinSelf(d);
      WithinConcat(d, d, WrittenAll(inner), frag);
    }
  }
}
