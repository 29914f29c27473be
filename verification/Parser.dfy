/** Words of a line: commands, links, URLs and plain text. */
module Fragments {
  import opened Wrappers
  import opened PostBody
  import opened Decimal
  import opened Strings

  /** Parser flags: the source's OPEN, QUOTED and AT_LINE_START bits. */
  datatype Flags = Flags(open: bool, quoted: bool, atLineStart: bool)

  datatype Location = NotFetched | DoesNotExist | Exists(thread: nat, page: nat)

  /** Everything the parser asks of other code. `command` covers the hash
      commands, `embed` the provider patterns, `highlight` the HTML of a code
      block; the link lookup is told whether it may fetch. */
  datatype Oracles = Oracles(
    command: string -> Option<PendingNode>,
    validUrl: string -> bool,
    embed: string -> Option<(Provider, string)>,
    locate: (nat, bool) -> Result<Location, string>,
    highlight: string -> Result<string, string>)

  /** No lookup and no highlighting fails. */
  ghost predicate NeverFails(o: Oracles) {
    && (forall id, fetch {:trigger o.locate(id, fetch)} :: o.locate(id, fetch).Ok?)
    && (forall s {:trigger o.highlight(s)} :: o.highlight(s).Ok?)
  }

  function Repeat(c: char, n: nat): string {
    if n == 0 then "" else [c] + Repeat(c, n - 1)
  }

  /** Index of the first character that is not `c`, from `i` on. */
  function SkipChar(s: string, c: char, i: nat): (r: nat)
    requires i <= |s|
    ensures i <= r <= |s|
    ensures r < |s| ==> s[r] != c
    decreases |s| - i
  {
    if i < |s| && s[i] == c then SkipChar(s, c, i + 1) else i
  }

  // ------------------------------------------------------------------- links

  function PrependExtra(n: Node, extra: nat): Node {
    if extra > 0 then Siblings(Text(Repeat('>', extra)), n) else n
  }

  function ParsePostLink(o: Oracles, word: string, extra: nat, flags: Flags): Result<Option<Node>, string>
    requires 2 + extra <= |word|
  {
    match ParseUnsigned(word[2 + extra..], U64_MAX)
    case None => Ok(None)
    case Some(id) =>
      var loc :- o.locate(id, !flags.open);
      match loc
      case DoesNotExist => Ok(None)
      case NotFetched => Ok(Some(PrependExtra(PostLink(id, 0, 0), extra)))
      case Exists(thread, page) => Ok(Some(PrependExtra(PostLink(id, thread, page), extra)))
  }

  /** The end of a reference's label is searched from behind its start but
      compared with positions in the whole word, so no reference is ever
      recognised. */
  function ParseReference(word: string, extra: nat): (r: Option<Node>)
    ensures r == None
  {
    if extra == 0 then None
    else match IndexOf(word, '/')
      case None => None
      case Some(slash) =>
        var start := slash + 1;
        match IndexOf(word[start..], '/')
        case None => None
        case Some(end) =>
          if (end - start) % 0x1_0000_0000_0000_0000 <= 1 || end != |word| - 1 then None
          else assert false; None
  }

  function ParseLink(o: Oracles, word: string, flags: Flags): Result<Option<Node>, string> {
    if |word| < 2 || word[..2] != ">>" then Ok(None)
    else
      var i := SkipChar(word, '>', 2);
      if i == |word| then Ok(None)
      else if IsDigit(word[i]) then ParsePostLink(o, word, i - 2, flags)
      else if word[i] == '/' then Ok(ParseReference(word, i - 2))
      else Ok(None)
  }

  // -------------------------------------------------------------------- URLs

  predicate StartsWith(s: string, prefix: string) {
    |prefix| <= |s| && s[..|prefix|] == prefix
  }

  function ParseHttpUrl(o: Oracles, word: string, flags: Flags): Option<Node> {
    if !o.validUrl(word) then None
    else if flags.open then Some(URL(word))
    else match o.embed(word)
      case Some((provider, data)) => Some(Embed(provider, data))
      case None => Some(URL(word))
  }

  function ParseUrl(o: Oracles, word: string, flags: Flags): Option<Node> {
    if StartsWith(word, "http") then ParseHttpUrl(o, word, flags)
    else if StartsWith(word, "magnet:?") || StartsWith(word, "ftp") || StartsWith(word, "bitcoin")
    then if o.validUrl(word) then Some(URL(word)) else None
    else None
  }

  // ------------------------------------------------------------------- words

  predicate IsPunctuation(c: char) {
    c in {'!', '"', '\'', '(', ')', ',', '-', '.', ':', ';', '?', '[', ']'}
  }

  /** Splits off one leading and one trailing punctuation mark. */
  function SplitPunctuation(word: string): (r: (string, string, string))
    ensures r.0 + r.1 + r.2 == word
    ensures |r.0| <= 1 && |r.2| <= 1 && (word != "" ==> r.1 != "")
  {
    if |word| < 2 then ("", word, "")
    else
      var (lead, rest) := if IsPunctuation(word[0]) then (word[..1], word[1..]) else ("", word);
      SplitTrailing(lead, rest)
  }

  function SplitTrailing(lead: string, rest: string): (r: (string, string, string))
    ensures r.0 == lead && r.0 + r.1 + r.2 == lead + rest
    ensures |r.2| <= 1 && (rest != "" ==> r.1 != "")
  {
    if |rest| < 2 || !IsPunctuation(rest[|rest| - 1]) then (lead, rest, "")
    else
      assert rest == rest[..|rest| - 1] + rest[|rest| - 1..];
      (lead, rest[..|rest| - 1], rest[|rest| - 1..])
  }

  /** Nodes so far and the text not yet put into one. */
  datatype Acc = Acc(out: seq<Node>, text: string)

  /** A word's node, if it has one, and what is put before it. */
  function Match(o: Oracles, word: string, flags: Flags): Result<Option<(string, Node)>, string>
    requires word != ""
  {
    if word[0] == '#' then
      if flags.quoted || flags.open then Ok(None)
      else match o.command(word[1..])
        case Some(p) => Ok(Some(("", Pending(p))))
        case None => Ok(None)
    else if word[0] == '>' then
      var link :- ParseLink(o, word, flags);
      match link
      case Some(n) => Ok(Some(("", n)))
      case None => Ok(None)
    else
      var start := SkipChar(word, '>', 0);
      match ParseUrl(o, word[start..], flags)
      case Some(n) => Ok(Some((Repeat('>', start + 1), n)))
      case None => Ok(None)
  }

  function AddWord(o: Oracles, acc: Acc, first: bool, word: string, flags: Flags): Result<Acc, string> {
    var (lead, core, trail) := SplitPunctuation(word);
    var text := acc.text + (if first then "" else " ") + lead;
    if core == "" then Ok(Acc(acc.out, text + trail))
    else
      var m :- Match(o, core, flags);
      match m
      case None => Ok(Acc(acc.out, text + core + trail))
      case Some((before, n)) =>
        var full := text + before;
        Ok(Acc(if full == "" then acc.out + [n] else acc.out + [Text(full), n], trail))
  }

  function AddWords(o: Oracles, words: seq<string>, flags: Flags): Result<Acc, string> {
    if words == [] then Ok(Acc([], ""))
    else
      var acc :- AddWords(o, words[..|words| - 1], flags);
      AddWord(o, acc, |words| == 1, words[|words| - 1], flags)
  }

  function Finish(acc: Acc): seq<Node> {
    if acc.text == "" then acc.out else acc.out + [Text(acc.text)]
  }

  /** Packs nodes as right-leaning siblings. */
  function Pack(out: seq<Node>): Node {
    if out == [] then Empty
    else
      var right := Pack(out[1..]);
      if right.Empty? then out[0] else Siblings(out[0], right)
  }

  function ParseFragment(o: Oracles, frag: string, flags: Flags): Result<Node, string> {
    var acc :- AddWords(o, SplitOn(frag, ' '), flags);
    Ok(Pack(Finish(acc)))
  }

  lemma AddWordsStep(o: Oracles, words: seq<string>, i: nat, flags: Flags)
    requires i < |words|
    ensures var acc := AddWords(o, words[..i], flags);
            AddWords(o, words[..i + 1], flags) ==
              if acc.Err? then acc else AddWord(o, acc.value, i == 0, words[i], flags)
  {
    assert words[..i + 1][..i] == words[..i];
  }

  /** The word loop in the source's form. */
  method FragmentLoop(o: Oracles, frag: string, flags: Flags) returns (r: Result<Node, string>)
    ensures r == ParseFragment(o, frag, flags)
  {
    var words := SplitOn(frag, ' ');
    var out: seq<Node>, text := [], "";
    var i := 0;
    while i < |words|
      invariant 0 <= i <= |words|
      invariant AddWords(o, words[..i], flags) == Ok(Acc(out, text))
    {
      AddWordsStep(o, words, i, flags);
      var next := AddWord(o, Acc(out, text), i == 0, words[i], flags);
      if next.Err? {
        FailureStays(o, words, i + 1, flags);
        return Err(next.error);
      }
      out, text := next.value.out, next.value.text;
      i := i + 1;
    }
    assert words[..i] == words;
    if text != "" {
      out := out + [Text(text)];
    }
    return Ok(Pack(out));
  }

  lemma {:induction false} FailureStays(o: Oracles, words: seq<string>, k: nat, flags: Flags)
    requires k <= |words| && AddWords(o, words[..k], flags).Err?
    ensures AddWords(o, words, flags) == AddWords(o, words[..k], flags)
    decreases |words|
  {
    if k == |words| {
      assert words[..k] == words;
    } else {
      assert words[..|words| - 1][..k] == words[..k];
      FailureStays(o, words[..|words| - 1], k, flags);
    }
  }

  // -------------------------------------------------------------- properties

  /** A node a fragment may yield: no tags, no empty parts, nothing pending or
      embedded in an open post, and nothing pending in a quoted line. */
  predicate Plain(n: Node, flags: Flags) {
    match n
    case Siblings(l, r) => !l.Empty? && !r.Empty? && Plain(l, flags) && Plain(r, flags)
    case Text(_) => true
    case PostLink(_, _, _) => true
    case URL(_) => true
    case Embed(_, _) => !flags.open
    case Pending(_) => !flags.open && !flags.quoted
    case _ => false
  }

  lemma MatchIsPlain(o: Oracles, word: string, flags: Flags)
    requires word != ""
    ensures NeverFails(o) ==> Match(o, word, flags).Ok?
    ensures Match(o, word, flags).Ok? && Match(o, word, flags).value.Some? ==>
            Plain(Match(o, word, flags).value.value.1, flags)
  {
  }

  lemma {:induction false} AddWordsIsPlain(o: Oracles, words: seq<string>, flags: Flags)
    ensures NeverFails(o) ==> AddWords(o, words, flags).Ok?
    ensures AddWords(o, words, flags).Ok? ==>
              forall n :: n in AddWords(o, words, flags).value.out ==> Plain(n, flags)
  {
    if words == [] {
    } else {
      AddWordsIsPlain(o, words[..|words| - 1], flags);
      var core := SplitPunctuation(words[|words| - 1]).1;
      if core != "" {
        MatchIsPlain(o, core, flags);
      }
    }
  }

  lemma {:induction false} PackIsPlain(out: seq<Node>, flags: Flags)
    requires forall n :: n in out ==> Plain(n, flags)
    ensures out == [] ==> Pack(out) == Empty
    ensures out != [] ==> Plain(Pack(out), flags)
  {
    if out == [] {
    } else {
      assert out[0] in out && forall n :: n in out[1..] ==> n in out;
      PackIsPlain(out[1..], flags);
    }
  }

  /** A fragment yields nothing or a plain node, and fails only with its
      oracles. */
  lemma FragmentIsPlain(o: Oracles, frag: string, flags: Flags)
    ensures NeverFails(o) ==> ParseFragment(o, frag, flags).Ok?
    ensures ParseFragment(o, frag, flags).Ok? ==>
              ParseFragment(o, frag, flags).value == Empty || Plain(ParseFragment(o, frag, flags).value, flags)
  {
    AddWordsIsPlain(o, SplitOn(frag, ' '), flags);
    if AddWords(o, SplitOn(frag, ' '), flags).Ok? {
      PackIsPlain(Finish(AddWords(o, SplitOn(frag, ' '), flags).value), flags);
    }
  }

  /** No word of the fragment stands for anything but itself. */
  predicate Unmatched(o: Oracles, words: seq<string>, flags: Flags) {
    forall w :: w in words ==>
      var core := SplitPunctuation(w).1;
      core == "" || Match(o, core, flags) == Ok(None)
  }

  lemma {:induction false} UnmatchedWords(o: Oracles, words: seq<string>, flags: Flags)
    requires Unmatched(o, words, flags)
    ensures AddWords(o, words, flags) == Ok(Acc([], JoinOn(words, ' ')))
  {
    if words == [] {
    } else {
      var prev, w := words[..|words| - 1], words[|words| - 1];
      assert w in words && forall v :: v in prev ==> v in words;
      UnmatchedWords(o, prev, flags);
      var (lead, core, trail) := SplitPunctuation(w);
      var text := JoinOn(prev, ' ') + (if |words| == 1 then "" else " ");
      assert text + w == JoinOn(words, ' ');
      JoinParts(text, lead, core, trail);
    }
  }

  lemma JoinParts(text: string, lead: string, core: string, trail: string)
    ensures text + lead + core + trail == text + (lead + core + trail)
    ensures core == "" ==> text + lead + trail == text + (lead + core + trail)
  {
  }

  lemma PackTwo(a: Node, b: Node)
    requires !b.Empty?
    ensures Pack([b]) == b && Pack([a, b]) == Siblings(a, b)
  {
  }

  /** Text none of whose words means anything is kept to the character. */
  lemma UnmatchedTextIsKept(o: Oracles, frag: string, flags: Flags)
    requires Unmatched(o, SplitOn(frag, ' '), flags)
    ensures ParseFragment(o, frag, flags) == Ok(if frag == "" then Empty else Text(frag))
  {
    UnmatchedWords(o, SplitOn(frag, ' '), flags);
    JoinUndoesSplit(frag, ' ');
    var none: seq<Node> := [];
    assert none + [Text(frag)] == [Text(frag)];
    PackTwo(Text(frag), Text(frag));
  }

  /** A URL on its own gains a '>' that is not in the source text. */
  lemma LoneUrl(o: Oracles, url: string, flags: Flags)
    requires StartsWith(url, "http") && ' ' !in url && SplitPunctuation(url) == ("", url, "")
    requires flags.open && o.validUrl(url)
    ensures ParseFragment(o, url, flags) == Ok(Siblings(Text(">"), URL(url)))
  {
    assert url[0] == "http"[0];
    assert SplitOn(url, ' ') == [url];
    assert [url][..0] == [];
    assert url[0..] == url;
    assert Repeat('>', 1) == ">" by { assert Repeat('>', 0) == ""; }
    assert SkipChar(url, '>', 0) == 0;
    assert Match(o, url, flags) == Ok(Some((">", URL(url))));
    var none: seq<Node> := [];
    assert none + [Text(">"), URL(url)] == [Text(">"), URL(url)];
    assert "" + "" + "" == "" && "" + ">" == ">";
    assert AddWord(o, Acc([], ""), true, url, flags) == Ok(Acc([Text(">"), URL(url)], ""));
    assert AddWords(o, [url], flags) == Ok(Acc([Text(">"), URL(url)], ""));
    PackTwo(Text(">"), URL(url));
  }
}

/** The recursive parser of formatting tags. */
module Parser {
  import opened Wrappers
  import opened PostBody
  import opened Fragments
  import Utf8

  /** Tag levels from the outside in. Level 4 is the quoting of lines. */
  type Level = n: nat | n <= 4

  const QUOTES: Level := 4

  function Delimiter(l: Level): string
    requires l < QUOTES
  {
    if l == 0 then "``" else if l == 1 then "**" else if l == 2 then "@@" else "~~"
  }

  /** Does `pat` occur in `s` at `i`? */
  predicate OccursAt(s: string, pat: string, i: nat) {
    i + |pat| <= |s| && s[i..i + |pat|] == pat
  }

  /** First occurrence. */
  function Find(s: string, pat: string): (r: Option<nat>)
    ensures r.Some? ==> OccursAt(s, pat, r.value) && forall j: nat :: j < r.value ==> !OccursAt(s, pat, j)
    ensures r.None? ==> forall j: nat :: !OccursAt(s, pat, j)
  {
    FindFrom(s, pat, 0)
  }

  function FindFrom(s: string, pat: string, i: nat): (r: Option<nat>)
    requires i <= |s|
    ensures r.Some? ==> i <= r.value && OccursAt(s, pat, r.value) && forall j: nat :: i <= j < r.value ==>
            !OccursAt(s, pat, j)
    ensures r.None? ==> forall j: nat :: i <= j ==> !OccursAt(s, pat, j)
    decreases |s| - i
  {
    if OccursAt(s, pat, i) then Some(i)
    else if i == |s| then None
    else FindFrom(s, pat, i + 1)
  }

  /** A sibling pair, without a node for an empty side. */
  function Pair(l: Result<Node, string>, r: Result<Node, string>): Result<Node, string> {
    var left :- l;
    var right :- r;
    Ok(if right.Empty? then left else if left.Empty? then right else Siblings(left, right))
  }

  function Wrap(l: Level, inner: Node): Node
    requires 0 < l < QUOTES
  {
    if l == 1 then Spoiler(inner) else if l == 2 then Bold(inner) else Italic(inner)
  }

  /** The parser at one level: `parse_code`, `parse_spoilers`, `parse_bolds`,
      `parse_italics` and `parse_quoted`. */
  function Parse(o: Oracles, l: Level, frag: string, flags: Flags): Result<Node, string>
    decreases |frag|, 5 - l, 2
  {
    if l == QUOTES then ParseQuoted(o, frag, flags)
    else
      var d := Delimiter(l);
      match Find(frag, d)
      case None => Parse(o, l + 1, frag, flags)
      case Some(start) =>
        var rest := frag[start + 2..];
        if start == 0 then WithRemainder(o, l, rest, flags.(atLineStart := false))
        else Pair(Parse(o, l + 1, frag[..start], flags), WithRemainder(o, l, rest, flags.(atLineStart := false)))
  }

  /** What follows an opening delimiter. */
  function WithRemainder(o: Oracles, l: Level, frag: string, flags: Flags): Result<Node, string>
    requires l < QUOTES
    decreases |frag| + 1, 5 - l, 0
  {
    match Find(frag, Delimiter(l))
    case Some(end) =>
      if end == 0 then Ok(Empty)
      else Pair(Matched(o, l, frag[..end], flags), Parse(o, 0, frag[end + 2..], flags))
    case None => Matched(o, l, frag, flags)
  }

  function Matched(o: Oracles, l: Level, frag: string, flags: Flags): Result<Node, string>
    requires l < QUOTES
    decreases |frag| + 1, 5 - l - 1, 3
  {
    if l == 0 then
      var html :- o.highlight(frag);
      Ok(Code(html))
    else
      var inner :- Parse(o, l + 1, frag, flags);
      Ok(Wrap(l, inner))
  }

  function ParseQuoted(o: Oracles, frag: string, flags: Flags): Result<Node, string>
    decreases |frag|, 1, 1
  {
    var f := flags.(atLineStart := false);
    match Find(frag, "\n")
    case Some(pos) =>
      Pair(
        if flags.atLineStart then WrapQuoted(o, frag[..pos], f) else ParseFragment(o, frag[..pos], flags),
        ParseQuoted(o, frag[pos + 1..], flags.(atLineStart := true)))
    case None =>
      if flags.atLineStart then WrapQuoted(o, frag, f) else ParseFragment(o, frag, flags)
  }

  function WrapQuoted(o: Oracles, line: string, flags: Flags): Result<Node, string> {
    if line == "" then Ok(Empty)
    else if line[0] == '>' then
      var inner :- ParseFragment(o, line, flags.(quoted := true));
      Ok(Quoted(inner))
    else ParseFragment(o, line, flags)
  }

  const MAX_BYTES := 2000

  /** The parser's entry point. */
  function ParseBody(o: Oracles, body: string, open: bool): Result<Node, string> {
    if |Utf8.Encode(body)| > MAX_BYTES then Err("post body too long")
    else if body == "" then Ok(Empty)
    else Parse(o, 0, body, Flags(open, false, true))
  }

  // -------------------------------------------------------------- properties

  /** Tags nest strictly in the order Code, Spoiler, Bold, Italic, Quoted: below
      a tag of some rank only tags of higher rank occur, and none has a rank
      under `rank`. No sibling is empty, nothing pending or embedded occurs in an
      open post, and no command in a quote. */
  predicate Nested(n: Node, rank: nat, open: bool) {
    match n
    case Siblings(l, r) => !l.Empty? && !r.Empty? && Nested(l, rank, open) && Nested(r, rank, open)
    case Code(_) => rank <= 0
    case Spoiler(i) => rank <= 1 && Nested(i, 2, open)
    case Bold(i) => rank <= 2 && Nested(i, 3, open)
    case Italic(i) => rank <= 3 && Nested(i, 4, open)
    case Quoted(i) => rank <= 4 && Nested(i, 5, open) && Uncommanded(i)
    case Embed(_, _) => !open
    case Pending(_) => !open
    case _ => true
  }

  /** The fragment holds no command. */
  predicate Uncommanded(n: Node) {
    if n.Siblings? then Uncommanded(n.left) && Uncommanded(n.right) else !n.Pending?
  }

  lemma {:induction false} NestedWeaken(n: Node, rank: nat, lower: nat, open: bool)
    requires lower <= rank && Nested(n, rank, open)
    ensures Nested(n, lower, open)
  {
    if n.Siblings? {
      NestedWeaken(n.left, rank, lower, open);
      NestedWeaken(n.right, rank, lower, open);
    }
  }

  lemma {:induction false} PlainIsNested(n: Node, flags: Flags)
    requires n == Empty || Plain(n, flags)
    ensures Nested(n, 5, flags.open)
    ensures flags.quoted ==> Uncommanded(n)
  {
    if n.Siblings? {
      PlainIsNested(n.left, flags);
      PlainIsNested(n.right, flags);
    }
  }

  lemma {:induction false} NestedIsOpenSafe(n: Node, rank: nat)
    requires Nested(n, rank, true)
    ensures OpenSafe(n)
  {
    match n
    case Siblings(l, r) =>
      NestedIsOpenSafe(l, rank);
      NestedIsOpenSafe(r, rank);
    case Spoiler(i) => NestedIsOpenSafe(i, 2);
    case Bold(i) => NestedIsOpenSafe(i, 3);
    case Italic(i) => NestedIsOpenSafe(i, 4);
    case Quoted(i) => NestedIsOpenSafe(i, 5);
    case _ =>
  }

  /** A result that is well nested, and fails only if an oracle does. */
  ghost predicate Good(o: Oracles, r: Result<Node, string>, rank: nat, open: bool) {
    (NeverFails(o) ==> r.Ok?) && (r.Ok? ==> Nested(r.value, rank, open))
  }

  /** `frag` holds no delimiter of a level above `l`. */
  ghost predicate Clean(frag: string, l: Level) {
    forall k: nat, i: nat :: k < l && k < QUOTES ==> !OccursAt(frag, Delimiter(k), i)
  }

  lemma CleanPart(frag: string, l: Level, a: nat, b: nat)
    requires Clean(frag, l) && a <= b <= |frag|
    ensures Clean(frag[a..b], l)
  {
    forall k: nat, i: nat | k < l && k < QUOTES
      ensures !OccursAt(frag[a..b], Delimiter(k), i)
    {
      if i + 2 <= b - a {
        var part := frag[a..b];
        assert part[i] == frag[a + i] && part[i + 1] == frag[a + i + 1];
        assert part[i..i + 2] == [part[i], part[i + 1]];
        assert frag[a + i..a + i + 2] == [frag[a + i], frag[a + i + 1]];
        assert !OccursAt(frag, Delimiter(k), a + i);
      }
    }
  }

  /** The part before the first delimiter of a level holds none of that level. */
  lemma CleanBefore(frag: string, l: Level, end: nat)
    requires l < QUOTES && Clean(frag, l) && end <= |frag|
    requires forall i: nat :: i < end ==> !OccursAt(frag, Delimiter(l), i)
    ensures Clean(frag[..end], l + 1)
  {
    forall k: nat, i: nat | k < l + 1 && k < QUOTES
      ensures !OccursAt(frag[..end], Delimiter(k), i)
    {
      if i + 2 <= end {
        assert frag[..end][i..i + 2] == frag[i..i + 2];
        assert !OccursAt(frag, Delimiter(k), i);
      }
    }
  }

  lemma PairIsGood(o: Oracles, l: Result<Node, string>, r: Result<Node, string>, rank: nat, open: bool)
    requires Good(o, l, rank, open) && Good(o, r, rank, open)
    ensures Good(o, Pair(l, r), rank, open)
  {
  }

  lemma FragmentIsGood(o: Oracles, frag: string, flags: Flags)
    ensures Good(o, ParseFragment(o, frag, flags), 5, flags.open)
    ensures flags.quoted && ParseFragment(o, frag, flags).Ok? ==> Uncommanded(ParseFragment(o, frag, flags).value)
  {
    FragmentIsPlain(o, frag, flags);
    if ParseFragment(o, frag, flags).Ok? {
      PlainIsNested(ParseFragment(o, frag, flags).value, flags);
    }
  }

  lemma GoodWeaken(o: Oracles, r: Result<Node, string>, rank: nat, lower: nat, open: bool)
    requires lower <= rank && Good(o, r, rank, open)
    ensures Good(o, r, lower, open)
  {
    if r.Ok? {
      NestedWeaken(r.value, rank, lower, open);
    }
  }

  lemma LineIsGood(o: Oracles, line: string, flags: Flags)
    ensures Good(o, WrapQuoted(o, line, flags), 4, flags.open)
    ensures Good(o, ParseFragment(o, line, flags), 4, flags.open)
  {
    FragmentIsGood(o, line, flags);
    FragmentIsGood(o, line, flags.(quoted := true));
    GoodWeaken(o, ParseFragment(o, line, flags), 5, 4, flags.open);
  }

  lemma {:induction false} QuotedIsGood(o: Oracles, frag: string, flags: Flags)
    ensures Good(o, ParseQuoted(o, frag, flags), 4, flags.open)
    decreases |frag|
  {
    var f := flags.(atLineStart := false);
    match Find(frag, "\n")
    case Some(pos) =>
      LineIsGood(o, frag[..pos], f);
      LineIsGood(o, frag[..pos], flags);
      QuotedIsGood(o, frag[pos + 1..], flags.(atLineStart := true));
      PairIsGood(o,
        if flags.atLineStart then WrapQuoted(o, frag[..pos], f) else ParseFragment(o, frag[..pos], flags),
        ParseQuoted(o, frag[pos + 1..], flags.(atLineStart := true)), 4, flags.open);
    case None =>
      LineIsGood(o, frag, f);
      LineIsGood(o, frag, flags);
  }

  /** Parsing from any level `k` up, text that holds no delimiter above level `l`
      yields only tags from rank `l` on. This covers the remainders that re-enter
      at the top from inside a tag. */
  lemma {:induction false} ParseIsGood(o: Oracles, k: Level, l: Level, frag: string, flags: Flags)
    requires k <= l && Clean(frag, l)
    ensures Good(o, Parse(o, k, frag, flags), l, flags.open)
    decreases |frag|, 5 - k, 2
  {
    if k == QUOTES {
      QuotedIsGood(o, frag, flags);
    } else {
      match Find(frag, Delimiter(k))
      case None => UntaggedIsGood(o, k, l, frag, flags);
      case Some(start) =>
        assert k == l;
        TagIsGood(o, l, frag, flags, start);
    }
  }

  /** Text without a tag of level `k`. */
  lemma {:induction false} UntaggedIsGood(o: Oracles, k: Level, l: Level, frag: string, flags: Flags)
    requires k <= l && k < QUOTES && Clean(frag, l) && Find(frag, Delimiter(k)).None?
    ensures Good(o, Parse(o, k, frag, flags), l, flags.open)
    decreases |frag|, 5 - k, 1
  {
    if k < l {
      ParseIsGood(o, k + 1, l, frag, flags);
    } else {
      CleanBefore(frag, k, |frag|);
      assert frag[..|frag|] == frag;
      InnerIsGood(o, k, frag, flags);
    }
  }

  /** Text with a tag of its own level at `start`. */
  lemma {:induction false} TagIsGood(o: Oracles, l: Level, frag: string, flags: Flags, start: nat)
    requires l < QUOTES && Clean(frag, l) && Find(frag, Delimiter(l)) == Some(start)
    ensures Good(o, Parse(o, l, frag, flags), l, flags.open)
    decreases |frag|, 5 - l, 1
  {
    var rest, f := frag[start + 2..], flags.(atLineStart := false);
    CleanPart(frag, l, start + 2, |frag|);
    assert frag[start + 2..|frag|] == rest;
    RemainderIsGood(o, l, rest, f);
    if start > 0 {
      CleanBefore(frag, l, start);
      InnerIsGood(o, l, frag[..start], flags);
      PairIsGood(o, Parse(o, l + 1, frag[..start], flags), WithRemainder(o, l, rest, f), l, flags.open);
    }
  }

  lemma {:induction false} InnerIsGood(o: Oracles, l: Level, frag: string, flags: Flags)
    requires l < QUOTES && Clean(frag, l + 1)
    ensures Good(o, Parse(o, l + 1, frag, flags), l, flags.open)
    decreases |frag|, 5 - l, 0
  {
    ParseIsGood(o, l + 1, l + 1, frag, flags);
    GoodWeaken(o, Parse(o, l + 1, frag, flags), l + 1, l, flags.open);
  }

  lemma {:induction false} RemainderIsGood(o: Oracles, l: Level, frag: string, flags: Flags)
    requires l < QUOTES && Clean(frag, l)
    ensures Good(o, WithRemainder(o, l, frag, flags), l, flags.open)
    decreases |frag| + 1, 5 - l, 0
  {
    match Find(frag, Delimiter(l))
    case Some(end) =>
      if end > 0 {
        CleanBefore(frag, l, end);
        MatchedIsGood(o, l, frag[..end], flags);
        CleanPart(frag, l, end + 2, |frag|);
        assert frag[end + 2..|frag|] == frag[end + 2..];
        ParseIsGood(o, 0, l, frag[end + 2..], flags);
        PairIsGood(o, Matched(o, l, frag[..end], flags), Parse(o, 0, frag[end + 2..], flags), l, flags.open);
      }
    case None =>
      CleanBefore(frag, l, |frag|);
      assert frag[..|frag|] == frag;
      MatchedIsGood(o, l, frag, flags);
  }

  lemma {:induction false} MatchedIsGood(o: Oracles, l: Level, frag: string, flags: Flags)
    requires l < QUOTES && Clean(frag, l + 1)
    ensures Good(o, Matched(o, l, frag, flags), l, flags.open)
    decreases |frag| + 1, 5 - l - 1, 3
  {
    if l > 0 {
      ParseIsGood(o, l + 1, l + 1, frag, flags);
    }
  }

  /** Every body parses to a tree whose tags nest strictly in order, with no
      empty sibling; the tree of an open post holds nothing pending and no embed.
      With oracles that do not fail, only a body over 2000 bytes is rejected. */
  lemma ParseBodyIsGood(o: Oracles, body: string, open: bool)
    ensures ParseBody(o, body, open).Ok? ==> Nested(ParseBody(o, body, open).value, 0, open)
    ensures ParseBody(o, body, true).Ok? ==> OpenSafe(ParseBody(o, body, true).value)
    ensures NeverFails(o) ==> (ParseBody(o, body, open).Err? <==> |Utf8.Encode(body)| > MAX_BYTES)
  {
    ParseIsGood(o, 0, 0, body, Flags(open, false, true));
    ParseIsGood(o, 0, 0, body, Flags(true, false, true));
    if ParseBody(o, body, true).Ok? {
      NestedIsOpenSafe(ParseBody(o, body, true).value, 0);
    }
  }

  /** An empty tag pair swallows everything behind it, wherever it stands. */
  lemma EmptyPairSwallows(o: Oracles, l: Level, frag: string, flags: Flags, start: nat)
    requires l < QUOTES && Find(frag, Delimiter(l)) == Some(start) && OccursAt(frag, Delimiter(l), start + 2)
    ensures Parse(o, l, frag, flags) == if start == 0 then Ok(Empty) else Parse(o, l + 1, frag[..start], flags)
  {
    var rest := frag[start + 2..];
    assert rest[..2] == frag[start + 2..start + 4];
    assert OccursAt(rest, Delimiter(l), 0);
    assert Find(rest, Delimiter(l)) == Some(0);
  }
}
