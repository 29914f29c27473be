/** What the parser keeps of a body's text. */
module BodyTexts {
  import opened Wrappers
  import opened PostBody
  import opened Decimal
  import opened Strings
  import opened Fragments
  import opened Parser

  // -------------------------------------------------------------- shown text

  /** The text of a tree; `read` says how nodes other than text are shown. */
  function Show(read: Node -> string, n: Node): string {
    match n
    case Empty => ""
    case NewLine => ""
    case Text(t) => t
    case Siblings(l, r) => Show(read, l) + Show(read, r)
    case Spoiler(i) => Show(read, i)
    case Bold(i) => Show(read, i)
    case Italic(i) => Show(read, i)
    case Quoted(i) => Show(read, i)
    case _ => read(n)
  }

  function ShowAll(read: Node -> string, out: seq<Node>): string {
    if out == [] then "" else Show(read, out[0]) + ShowAll(read, out[1..])
  }

  lemma {:induction false} ShowAllConcat(read: Node -> string, a: seq<Node>, b: seq<Node>)
    ensures ShowAll(read, a + b) == ShowAll(read, a) + ShowAll(read, b)
    decreases |a|
  {
    if a == [] {
      assert a + b == b;
    } else {
      assert (a + b)[1..] == a[1..] + b;
      ShowAllConcat(read, a[1..], b);
      Assoc(Show(read, a[0]), ShowAll(read, a[1..]), ShowAll(read, b));
    }
  }

  lemma {:induction false} ShowPack(read: Node -> string, out: seq<Node>)
    ensures Show(read, Pack(out)) == ShowAll(read, out)
  {
    if out == [] {
    } else {
      ShowPack(read, out[1..]);
    }
  }

  lemma ShowPair(read: Node -> string, l: Result<Node, string>, r: Result<Node, string>)
    requires Pair(l, r).Ok?
    ensures l.Ok? && r.Ok? && Show(read, Pair(l, r).value) == Show(read, l.value) + Show(read, r.value)
  {
  }

  // --------------------------------------------------- fragments, to the letter

  /** The word is taken for a URL. */
  predicate IsUrl(o: Oracles, core: string, flags: Flags) {
    core != "" && core[0] != '#' && core[0] != '>' && ParseUrl(o, core, flags).Some?
  }

  /** What a matched word is put behind: a '>' exactly if it is a URL, wherever it
      stands and whether the post is open or not. */
  lemma UrlGainsQuote(o: Oracles, core: string, flags: Flags)
    requires core != "" && Match(o, core, flags).Ok? && Match(o, core, flags).value.Some?
    ensures Match(o, core, flags).value.value.0 == (if IsUrl(o, core, flags) then ">" else "")
    ensures IsUrl(o, core, flags) <==>
            Match(o, core, flags).value.value.1.URL? || Match(o, core, flags).value.value.1.Embed?
    ensures Match(o, core, flags).value.value.1.URL? ==> Match(o, core, flags).value.value.1.url == core
  {
    assert core[0..] == core;
    assert Repeat('>', 1) == ">" by { assert Repeat('>', 0) == ""; }
  }

  /** The word is '>' signs and the digits of a number in range. */
  predicate IsLinkText(core: string) {
    && |core| >= 2
    && core[..2] == ">>"
    && var digits := core[SkipChar(core, '>', 2)..];
       AllDigits(digits) && Value(digits) <= U64_MAX
  }

  lemma LinkMatchExact(o: Oracles, core: string, flags: Flags)
    requires core != "" && core[0] == '>' && Match(o, core, flags).Ok?
    ensures var m := Match(o, core, flags).value;
            && (m.Some? <==>
                  && IsLinkText(core)
                  && o.locate(Value(core[SkipChar(core, '>', 2)..]), !flags.open).value != DoesNotExist)
            && (m.Some? ==> m.value.1.PostLink? || m.value.1.Siblings?)
  {
    if |core| >= 2 && core[..2] == ">>" {
      var i := SkipChar(core, '>', 2);
      assert i < |core| ==> core[i..][0] == core[i];
    }
  }

  predicate OtherUrl(core: string) {
    StartsWith(core, "magnet:?") || StartsWith(core, "ftp") || StartsWith(core, "bitcoin")
  }

  lemma UrlMatchExact(o: Oracles, core: string, flags: Flags)
    requires core != "" && core[0] != '#' && core[0] != '>'
    ensures var web := StartsWith(core, "http");
            && Match(o, core, flags).Ok?
            && var m := Match(o, core, flags).value;
            && (m.Some? <==> o.validUrl(core) && (web || OtherUrl(core)))
            && (m.Some? ==>
                  m.value.1 ==
                  if web && !flags.open && o.embed(core).Some? then Embed(o.embed(core).value.0, o.embed(core).value.1)
                  else URL(core))
  {
    assert core[0..] == core;
  }

  lemma UrlStart(core: string)
    requires StartsWith(core, "http") || OtherUrl(core)
    ensures core != "" && core[0] != '#' && core[0] != '>'
  {
    assert StartsWith(core, "http") ==> core[0] == "http"[0];
    assert StartsWith(core, "magnet:?") ==> core[0] == "magnet:?"[0];
    assert StartsWith(core, "ftp") ==> core[0] == "ftp"[0];
    assert StartsWith(core, "bitcoin") ==> core[0] == "bitcoin"[0];
  }

  /** What a word means. It is a command only in a closed post outside of quotes, an
      embed only in a closed post, a URL if it is valid and no embed, and a link if
      it names a post that exists or is not known yet. */
  lemma MatchExact(o: Oracles, core: string, flags: Flags)
    requires core != "" && Match(o, core, flags).Ok?
    ensures var m := Match(o, core, flags).value;
            var web := StartsWith(core, "http");
            && (m.Some? && m.value.1.Pending? <==>
                  core[0] == '#' && !flags.quoted && !flags.open && o.command(core[1..]).Some?)
            && (m.Some? && m.value.1.Pending? ==> o.command(core[1..]) == Some(m.value.1.pending))
            && (m.Some? && m.value.1.Embed? <==> web && o.validUrl(core) && !flags.open && o.embed(core).Some?)
            && (m.Some? && m.value.1.URL? <==>
                  o.validUrl(core) && (if web then flags.open || o.embed(core).None? else OtherUrl(core)))
            && (m.Some? && (m.value.1.PostLink? || m.value.1.Siblings?) <==>
                  && IsLinkText(core)
                  && o.locate(Value(core[SkipChar(core, '>', 2)..]), !flags.open).value != DoesNotExist)
  {
    if StartsWith(core, "http") || OtherUrl(core) {
      UrlStart(core);
    }
    if IsLinkText(core) {
      assert core[0] == core[..2][0];
    }
    if core[0] == '>' {
      LinkMatchExact(o, core, flags);
    } else if core[0] != '#' {
      UrlMatchExact(o, core, flags);
    }
  }

  /** A word as it comes out of the parser. */
  function Marked(o: Oracles, w: string, flags: Flags): string {
    var (lead, core, trail) := SplitPunctuation(w);
    lead + (if IsUrl(o, core, flags) then ">" else "") + core + trail
  }

  function MarkedAll(o: Oracles, words: seq<string>, flags: Flags): (r: seq<string>)
    ensures |r| == |words|
  {
    seq(|words|, i requires 0 <= i < |words| => Marked(o, words[i], flags))
  }

  /** A matched word is shown as itself. */
  predicate ShownAsIs(o: Oracles, read: Node -> string, core: string, flags: Flags) {
    core != "" && Match(o, core, flags).Ok? && Match(o, core, flags).value.Some? ==>
      Show(read, Match(o, core, flags).value.value.1) == core
  }

  predicate AllShownAsIs(o: Oracles, read: Node -> string, words: seq<string>, flags: Flags) {
    forall w :: w in words ==> ShownAsIs(o, read, SplitPunctuation(w).1, flags)
  }

  function ShowAcc(read: Node -> string, acc: Acc): string {
    ShowAll(read, acc.out) + acc.text
  }

  /** A word as the tree shows it. */
  function Rendered(o: Oracles, read: Node -> string, w: string, flags: Flags): string {
    var (lead, core, trail) := SplitPunctuation(w);
    lead + RenderedCore(o, read, core, flags) + trail
  }

  function RenderedCore(o: Oracles, read: Node -> string, core: string, flags: Flags): string {
    if core == "" then ""
    else match Match(o, core, flags)
      case Ok(Some((before, n))) => before + Show(read, n)
      case _ => core
  }

  function Renderer(o: Oracles, read: Node -> string, flags: Flags): string -> string {
    w => Rendered(o, read, w, flags)
  }

  function Marker(o: Oracles, flags: Flags): string -> string {
    w => Marked(o, w, flags)
  }

  /** The words with spaces between them, each as `show` has it. */
  function JoinWith(show: string -> string, words: seq<string>): string {
    if words == [] then ""
    else
      var n := |words| - 1;
      JoinWith(show, words[..n]) + (if n == 0 then "" else " ") + show(words[n])
  }

  lemma {:induction false} JoinWithSame(a: string -> string, b: string -> string, words: seq<string>)
    requires forall w :: w in words ==> a(w) == b(w)
    ensures JoinWith(a, words) == JoinWith(b, words)
  {
    if words == [] {
    } else {
      var n := |words| - 1;
      assert words[n] in words && forall v :: v in words[..n] ==> v in words;
      JoinWithSame(a, b, words[..n]);
    }
  }

  lemma {:induction false} JoinWithIsJoin(show: string -> string, words: seq<string>, shown: seq<string>)
    requires |shown| == |words| && forall i :: 0 <= i < |words| ==> shown[i] == show(words[i])
    ensures JoinWith(show, words) == JoinOn(shown, ' ')
    decreases |words|
  {
    if words == [] {
    } else {
      var n := |words| - 1;
      JoinWithIsJoin(show, words[..n], shown[..n]);
      assert shown == shown[..n] + [shown[n]];
      JoinOneMore(shown[..n], shown[n]);
    }
  }

  lemma JoinOneMore(words: seq<string>, w: string)
    ensures JoinOn(words + [w], ' ') == JoinOn(words, ' ') + (if words == [] then "" else " ") + w
  {
    assert (words + [w])[..|words|] == words;
    assert "" + "" + w == w;
  }

  lemma AddWordShows(o: Oracles, read: Node -> string, acc: Acc, first: bool, w: string, flags: Flags)
    requires AddWord(o, acc, first, w, flags).Ok?
    ensures ShowAcc(read, AddWord(o, acc, first, w, flags).value) ==
            ShowAcc(read, acc) + (if first then "" else " ") + Rendered(o, read, w, flags)
  {
    var (lead, core, trail) := SplitPunctuation(w);
    var gap := if first then "" else " ";
    var text := acc.text + gap + lead;
    var shown := ShowAll(read, acc.out);
    if core == "" || Match(o, core, flags).value.None? {
      Regroup(shown, acc.text, gap, lead, core, trail);
    } else {
      var (before, n) := Match(o, core, flags).value.value;
      MatchedShows(read, acc.out, text + before, n);
      Assoc(text, before, Show(read, n));
      Regroup(shown, acc.text, gap, lead, before + Show(read, n), trail);
    }
  }

  lemma UnmatchedIsNoUrl(o: Oracles, core: string, flags: Flags)
    requires core == "" || Match(o, core, flags).Err? || Match(o, core, flags).value.None?
    ensures !IsUrl(o, core, flags)
  {
    if core == "" {
    } else {
      assert core[0..] == core;
    }
  }

  lemma MatchedShows(read: Node -> string, out: seq<Node>, full: string, n: Node)
    ensures ShowAll(read, if full == "" then out + [n] else out + [Text(full), n]) ==
            ShowAll(read, out) + (full + Show(read, n))
  {
    if full == "" {
      ShowAllConcat(read, out, [n]);
      ShowOne(read, n);
      assert "" + Show(read, n) == Show(read, n);
    } else {
      ShowAllConcat(read, out, [Text(full), n]);
      ShowOne(read, n);
      assert [Text(full), n][1..] == [n];
    }
  }

  lemma ShowOne(read: Node -> string, n: Node)
    ensures ShowAll(read, [n]) == Show(read, n)
  {
    assert [n][1..] == [];
  }

  lemma Regroup(shown: string, text: string, gap: string, lead: string, core: string, trail: string)
    ensures shown + (text + gap + lead + core) + trail == shown + text + gap + (lead + core + trail)
    ensures shown + (text + gap + lead + core + trail) == shown + text + gap + (lead + core + trail)
    ensures core == "" ==> shown + (text + gap + lead + trail) == shown + text + gap + (lead + core + trail)
  {
  }

  lemma {:induction false} AddWordsShow(o: Oracles, read: Node -> string, words: seq<string>, flags: Flags)
    requires AddWords(o, words, flags).Ok?
    ensures ShowAcc(read, AddWords(o, words, flags).value) == JoinWith(Renderer(o, read, flags), words)
  {
    if words == [] {
    } else {
      var prev := words[..|words| - 1];
      AddWordsShow(o, read, prev, flags);
      AddWordShows(o, read, AddWords(o, prev, flags).value, |words| == 1, words[|words| - 1], flags);
    }
  }

  /** A fragment shows its words one by one, whatever they are matched to. */
  lemma FragmentRenders(o: Oracles, read: Node -> string, frag: string, flags: Flags)
    requires ParseFragment(o, frag, flags).Ok?
    ensures Show(read, ParseFragment(o, frag, flags).value) == JoinWith(Renderer(o, read, flags), SplitOn(frag, ' '))
  {
    AddWordsShow(o, read, SplitOn(frag, ' '), flags);
    var acc := AddWords(o, SplitOn(frag, ' '), flags).value;
    ShowPack(read, Finish(acc));
    ShowAllConcat(read, acc.out, [Text(acc.text)]);
    ShowOne(read, Text(acc.text));
  }

  lemma RenderedIsMarked(o: Oracles, read: Node -> string, w: string, flags: Flags)
    requires ShownAsIs(o, read, SplitPunctuation(w).1, flags)
    ensures Rendered(o, read, w, flags) == Marked(o, w, flags)
  {
    var (lead, core, trail) := SplitPunctuation(w);
    var mark := if IsUrl(o, core, flags) then ">" else "";
    if core == "" || Match(o, core, flags).Err? || Match(o, core, flags).value.None? {
      UnmatchedIsNoUrl(o, core, flags);
      assert mark + core == core;
    } else {
      UrlGainsQuote(o, core, flags);
    }
    Assoc(lead, mark, core);
  }

  /** One for every word taken for a URL. */
  function Urls(o: Oracles, words: seq<string>, flags: Flags): (r: seq<nat>)
    ensures |r| == |words|
  {
    seq(|words|, i requires 0 <= i < |words| => if IsUrl(o, SplitPunctuation(words[i]).1, flags) then 1 else 0)
  }

  function Sum(s: seq<nat>): nat {
    if s == [] then 0 else Sum(s[..|s| - 1]) + s[|s| - 1]
  }

  function UrlCount(o: Oracles, words: seq<string>, flags: Flags): nat {
    Sum(Urls(o, words, flags))
  }

  lemma {:induction false} JoinGains(marked: seq<string>, words: seq<string>, gains: seq<nat>)
    requires |marked| == |words| == |gains|
    requires forall i :: 0 <= i < |words| ==>
             |marked[i]| == |words[i]| + gains[i] && (gains[i] == 0 ==> marked[i] == words[i])
    ensures |JoinOn(marked, ' ')| == |JoinOn(words, ' ')| + Sum(gains)
    ensures Sum(gains) == 0 ==> marked == words
    decreases |words|
  {
    if words == [] {
    } else {
      var n := |words| - 1;
      JoinGains(marked[..n], words[..n], gains[..n]);
      SplitLast(words);
      SplitLast(marked);
      JoinedLength(words[..n], words[n]);
      JoinedLength(marked[..n], marked[n]);
    }
  }

  lemma SplitLast(words: seq<string>)
    requires words != []
    ensures words == words[..|words| - 1] + [words[|words| - 1]]
  {
  }

  lemma MarkedLength(o: Oracles, words: seq<string>, flags: Flags)
    ensures |JoinOn(MarkedAll(o, words, flags), ' ')| == |JoinOn(words, ' ')| + UrlCount(o, words, flags)
    ensures UrlCount(o, words, flags) == 0 ==> MarkedAll(o, words, flags) == words
  {
    forall i | 0 <= i < |words|
      ensures |MarkedAll(o, words, flags)[i]| == |words[i]| + Urls(o, words, flags)[i]
      ensures Urls(o, words, flags)[i] == 0 ==> MarkedAll(o, words, flags)[i] == words[i]
    {
      MarkedWord(o, words[i], flags);
    }
    JoinGains(MarkedAll(o, words, flags), words, Urls(o, words, flags));
  }

  lemma JoinedLength(words: seq<string>, w: string)
    ensures |JoinOn(words + [w], ' ')| == |JoinOn(words, ' ')| + |w| + if words == [] then 0 else 1
  {
    assert (words + [w])[..|words|] == words;
  }

  lemma MarkedWord(o: Oracles, w: string, flags: Flags)
    ensures |Marked(o, w, flags)| == |w| + if IsUrl(o, SplitPunctuation(w).1, flags) then 1 else 0
    ensures !IsUrl(o, SplitPunctuation(w).1, flags) ==> Marked(o, w, flags) == w
  {
    var (lead, core, trail) := SplitPunctuation(w);
    MarkedParts(lead, core, trail, w, IsUrl(o, core, flags));
  }

  lemma MarkedParts(lead: string, core: string, trail: string, w: string, url: bool)
    requires lead + core + trail == w
    ensures var r := lead + (if url then ">" else "") + core + trail;
            |r| == |w| + (if url then 1 else 0) && (!url ==> r == w)
  {
    assert lead + "" == lead;
  }

  /** A fragment comes out of the parser to the character, but for one '>' put in
      front of every URL: as it is if and only if it holds none. */
  lemma FragmentShows(o: Oracles, read: Node -> string, frag: string, flags: Flags)
    requires ParseFragment(o, frag, flags).Ok? && AllShownAsIs(o, read, SplitOn(frag, ' '), flags)
    ensures var shown := Show(read, ParseFragment(o, frag, flags).value);
            var words := SplitOn(frag, ' ');
            && shown == JoinOn(MarkedAll(o, words, flags), ' ')
            && |shown| == |frag| + UrlCount(o, words, flags)
            && (shown == frag <==> UrlCount(o, words, flags) == 0)
  {
    var words := SplitOn(frag, ' ');
    FragmentRenders(o, read, frag, flags);
    forall w | w in words
      ensures Renderer(o, read, flags)(w) == Marker(o, flags)(w)
    {
      RenderedIsMarked(o, read, w, flags);
    }
    JoinWithSame(Renderer(o, read, flags), Marker(o, flags), words);
    JoinWithIsJoin(Marker(o, flags), words, MarkedAll(o, words, flags));
    MarkedLength(o, words, flags);
    JoinUndoesSplit(frag, ' ');
  }

  // ------------------------------------------------------- letters of a body

  /** Characters of delimiters, and newlines. */
  const MARKUP := {'`', '*', '@', '~', '\n'}

  /** The text without the characters of `drop`. */
  function Letters(drop: set<char>, s: string): string {
    if s == "" then "" else (if s[0] in drop then "" else [s[0]]) + Letters(drop, s[1..])
  }

  lemma {:induction false} LettersConcat(drop: set<char>, a: string, b: string)
    ensures Letters(drop, a + b) == Letters(drop, a) + Letters(drop, b)
  {
    if a == "" {
      assert a + b == b;
    } else {
      assert (a + b)[1..] == a[1..] + b;
      LettersConcat(drop, a[1..], b);
      Assoc(if a[0] in drop then "" else [a[0]], Letters(drop, a[1..]), Letters(drop, b));
    }
  }

  lemma {:induction false} NoLetters(drop: set<char>, s: string)
    requires forall c :: c in s ==> c in drop
    ensures Letters(drop, s) == ""
  {
    if s == "" {
    } else {
      assert s[0] in s && forall c :: c in s[1..] ==> c in s;
      NoLetters(drop, s[1..]);
    }
  }

  /** A text in two parts with markup between them. */
  lemma LettersAround(drop: set<char>, whole: string, a: string, mark: string, b: string)
    requires whole == a + mark + b && forall c :: c in mark ==> c in drop
    ensures Letters(drop, whole) == Letters(drop, a) + Letters(drop, b)
  {
    LettersConcat(drop, a + mark, b);
    LettersConcat(drop, a, mark);
    NoLetters(drop, mark);
    assert Letters(drop, a) + "" == Letters(drop, a);
  }

  lemma LettersOfThree(drop: set<char>, a: string, b: string, c: string)
    ensures Letters(drop, a + b + c) == Letters(drop, a) + Letters(drop, b) + Letters(drop, c)
  {
    LettersConcat(drop, a + b, c);
    LettersConcat(drop, a, b);
  }

  /** `a` is what is left of `s` when some of its characters are taken out. */
  predicate Within(a: string, s: string)
    decreases |s|
  {
    a == "" || (s != "" && ((a[0] == s[0] && Within(a[1..], s[1..])) || Within(a, s[1..])))
  }

  lemma {:induction false} WithinSelf(s: string)
    ensures Within(s, s)
  {
    if s == "" {
    } else {
      WithinSelf(s[1..]);
    }
  }

  lemma {:induction false} WithinConcat(a: string, x: string, b: string, y: string)
    requires Within(a, x) && Within(b, y)
    ensures Within(a + b, x + y)
    decreases |x|
  {
    if x == "" {
      assert a + b == b && x + y == y;
    } else {
      assert (x + y)[1..] == x[1..] + y;
      if a != "" && a[0] == x[0] && Within(a[1..], x[1..]) {
        WithinConcat(a[1..], x[1..], b, y);
        assert (a + b)[1..] == a[1..] + b;
      } else {
        WithinConcat(a, x[1..], b, y);
      }
    }
  }

  // ------------------------------------------------ a parser that goes on

  /** The parser, and with `on` the one that differs from it in one branch: after
      an empty tag pair it goes on with what follows. */
  function ParseOn(o: Oracles, on: bool, l: Level, frag: string, flags: Flags): Result<Node, string>
    decreases |frag|, 5 - l, 2
  {
    if l == QUOTES then ParseQuoted(o, frag, flags)
    else match Find(frag, Delimiter(l))
      case None => ParseOn(o, on, l + 1, frag, flags)
      case Some(start) =>
        var rest, f := frag[start + 2..], flags.(atLineStart := false);
        if start == 0 then RemainderOn(o, on, l, rest, f)
        else Pair(ParseOn(o, on, l + 1, frag[..start], flags), RemainderOn(o, on, l, rest, f))
  }

  function RemainderOn(o: Oracles, on: bool, l: Level, frag: string, flags: Flags): Result<Node, string>
    requires l < QUOTES
    decreases |frag| + 1, 5 - l, 0
  {
    match Find(frag, Delimiter(l))
    case Some(end) =>
      if end > 0 then Pair(MatchedOn(o, on, l, frag[..end], flags), ParseOn(o, on, 0, frag[end + 2..], flags))
      else if on then ParseOn(o, on, 0, frag[2..], flags)
      else Ok(Empty)
    case None => MatchedOn(o, on, l, frag, flags)
  }

  function MatchedOn(o: Oracles, on: bool, l: Level, frag: string, flags: Flags): Result<Node, string>
    requires l < QUOTES
    decreases |frag| + 1, 5 - l - 1, 3
  {
    if l == 0 then Highlighted(o, frag) else Wrapped(l, ParseOn(o, on, l + 1, frag, flags))
  }

  function Highlighted(o: Oracles, text: string): Result<Node, string> {
    var html :- o.highlight(text);
    Ok(Code(html))
  }

  function Wrapped(l: Level, r: Result<Node, string>): Result<Node, string>
    requires 0 < l < QUOTES
  {
    var inner :- r;
    Ok(Wrap(l, inner))
  }

  lemma DelimiterIsMarkup(l: Level)
    requires l < QUOTES
    ensures |Delimiter(l)| == 2 && forall c :: c in Delimiter(l) ==> c in MARKUP
  {
  }

  lemma {:induction false} OffIsParse(o: Oracles, l: Level, frag: string, flags: Flags)
    ensures ParseOn(o, false, l, frag, flags) == Parse(o, l, frag, flags)
    decreases |frag|, 5 - l, 2
  {
    if l == QUOTES {
    } else {
      match Find(frag, Delimiter(l))
      case None => OffIsParse(o, l + 1, frag, flags);
      case Some(start) => OffIsTag(o, l, frag, flags, start);
    }
  }

  lemma {:induction false} OffIsTag(o: Oracles, l: Level, frag: string, flags: Flags, start: nat)
    requires l < QUOTES && Find(frag, Delimiter(l)) == Some(start)
    ensures ParseOn(o, false, l, frag, flags) == Parse(o, l, frag, flags)
    decreases |frag|, 5 - l, 1
  {
    DelimiterIsMarkup(l);
    var a, b, f := frag[..start], frag[start + 2..], flags.(atLineStart := false);
    OffIsRemainder(o, l, b, f);
    if start > 0 {
      OffIsParse(o, l + 1, a, flags);
    }
    OffTag(o, l, frag, flags, start);
  }

  lemma OffTag(o: Oracles, l: Level, frag: string, flags: Flags, start: nat)
    requires l < QUOTES && Find(frag, Delimiter(l)) == Some(start) && start + 2 <= |frag|
    requires start > 0 ==> ParseOn(o, false, l + 1, frag[..start], flags) == Parse(o, l + 1, frag[..start], flags)
    requires var b, f := frag[start + 2..], flags.(atLineStart := false);
             RemainderOn(o, false, l, b, f) == WithRemainder(o, l, b, f)
    ensures ParseOn(o, false, l, frag, flags) == Parse(o, l, frag, flags)
  {
  }

  lemma {:induction false} OffIsRemainder(o: Oracles, l: Level, frag: string, flags: Flags)
    requires l < QUOTES
    ensures RemainderOn(o, false, l, frag, flags) == WithRemainder(o, l, frag, flags)
    decreases |frag| + 1, 5 - l, 0
  {
    match Find(frag, Delimiter(l))
    case None => OffIsMatched(o, l, frag, flags);
    case Some(end) =>
      DelimiterIsMarkup(l);
      if end > 0 {
        OffIsMatched(o, l, frag[..end], flags);
        OffIsParse(o, 0, frag[end + 2..], flags);
      }
  }

  lemma {:induction false} OffIsMatched(o: Oracles, l: Level, frag: string, flags: Flags)
    requires l < QUOTES
    ensures MatchedOn(o, false, l, frag, flags) == Matched(o, l, frag, flags)
    decreases |frag| + 1, 5 - l - 1, 3
  {
    if l > 0 {
      OffIsParse(o, l + 1, frag, flags);
    }
  }

  /** Nothing that follows an empty pair met on the way parses to anything. */
  predicate Idle(o: Oracles, l: Level, frag: string, flags: Flags)
    decreases |frag|, 5 - l, 2
  {
    if l == QUOTES then true
    else match Find(frag, Delimiter(l))
      case None => Idle(o, l + 1, frag, flags)
      case Some(start) =>
        && (start > 0 ==> Idle(o, l + 1, frag[..start], flags))
        && IdleAfter(o, l, frag[start + 2..], flags.(atLineStart := false))
  }

  predicate IdleAfter(o: Oracles, l: Level, frag: string, flags: Flags)
    requires l < QUOTES
    decreases |frag| + 1, 5 - l, 0
  {
    match Find(frag, Delimiter(l))
    case Some(end) =>
      if end == 0 then ParseOn(o, true, 0, frag[2..], flags) == Ok(Empty)
      else IdleInside(o, l, frag[..end], flags) && Idle(o, 0, frag[end + 2..], flags)
    case None => IdleInside(o, l, frag, flags)
  }

  predicate IdleInside(o: Oracles, l: Level, frag: string, flags: Flags)
    requires l < QUOTES
    decreases |frag| + 1, 5 - l - 1, 3
  {
    l == 0 || Idle(o, l + 1, frag, flags)
  }

  function Size(n: Node): nat {
    match n
    case Empty => 0
    case Siblings(l, r) => 1 + Size(l) + Size(r)
    case Spoiler(i) => 1 + Size(i)
    case Bold(i) => 1 + Size(i)
    case Italic(i) => 1 + Size(i)
    case Quoted(i) => 1 + Size(i)
    case _ => 1
  }

  /** Where `r` succeeds, `on` is the same if `same`, and else fails or is larger. */
  predicate Grows(r: Result<Node, string>, on: Result<Node, string>, same: bool) {
    r.Ok? ==> if same then on == r else on.Err? || Size(on.value) > Size(r.value)
  }

  lemma PairGrows(a: Result<Node, string>, a': Result<Node, string>, p: bool, b: Result<Node, string>,
                  b': Result<Node, string>, q: bool)
    requires Grows(a, a', p) && Grows(b, b', q)
    ensures Grows(Pair(a, b), Pair(a', b'), p && q)
  {
  }

  lemma WrappedGrows(l: Level, r: Result<Node, string>, on: Result<Node, string>, same: bool)
    requires Grows(r, on, same) && 0 < l < QUOTES
    ensures Grows(Wrapped(l, r), Wrapped(l, on), same)
  {
  }

  lemma {:induction false} ParseGrows(o: Oracles, l: Level, frag: string, flags: Flags)
    ensures Grows(Parse(o, l, frag, flags), ParseOn(o, true, l, frag, flags), Idle(o, l, frag, flags))
    decreases |frag|, 5 - l, 2
  {
    if l == QUOTES {
    } else {
      match Find(frag, Delimiter(l))
      case None => ParseGrows(o, l + 1, frag, flags);
      case Some(start) => TagGrows(o, l, frag, flags, start);
    }
  }

  lemma {:induction false} TagGrows(o: Oracles, l: Level, frag: string, flags: Flags, start: nat)
    requires l < QUOTES && Find(frag, Delimiter(l)) == Some(start)
    ensures Grows(Parse(o, l, frag, flags), ParseOn(o, true, l, frag, flags), Idle(o, l, frag, flags))
    decreases |frag|, 5 - l, 1
  {
    DelimiterIsMarkup(l);
    var rest, f := frag[start + 2..], flags.(atLineStart := false);
    RemainderGrows(o, l, rest, f);
    if start > 0 {
      ParseGrows(o, l + 1, frag[..start], flags);
      PairGrows(
        Parse(o, l + 1, frag[..start], flags), ParseOn(o, true, l + 1, frag[..start], flags),
        Idle(o, l + 1, frag[..start], flags),
        WithRemainder(o, l, rest, f), RemainderOn(o, true, l, rest, f), IdleAfter(o, l, rest, f));
    }
  }

  lemma {:induction false} RemainderGrows(o: Oracles, l: Level, frag: string, flags: Flags)
    requires l < QUOTES
    ensures Grows(WithRemainder(o, l, frag, flags), RemainderOn(o, true, l, frag, flags), IdleAfter(o, l, frag, flags))
    decreases |frag| + 1, 5 - l, 0
  {
    match Find(frag, Delimiter(l))
    case None => InsideGrows(o, l, frag, flags);
    case Some(end) =>
      DelimiterIsMarkup(l);
      if end > 0 {
        InsideGrows(o, l, frag[..end], flags);
        ParseGrows(o, 0, frag[end + 2..], flags);
        PairGrows(
          Matched(o, l, frag[..end], flags), MatchedOn(o, true, l, frag[..end], flags),
          IdleInside(o, l, frag[..end], flags),
          Parse(o, 0, frag[end + 2..], flags), ParseOn(o, true, 0, frag[end + 2..], flags),
          Idle(o, 0, frag[end + 2..], flags));
      }
  }

  lemma {:induction false} InsideGrows(o: Oracles, l: Level, frag: string, flags: Flags)
    requires l < QUOTES
    ensures Grows(Matched(o, l, frag, flags), MatchedOn(o, true, l, frag, flags), IdleInside(o, l, frag, flags))
    decreases |frag| + 1, 5 - l - 1, 3
  {
    if l > 0 {
      ParseGrows(o, l + 1, frag, flags);
      WrappedGrows(l, Parse(o, l + 1, frag, flags), ParseOn(o, true, l + 1, frag, flags), Idle(o, l + 1, frag, flags));
    }
  }

  /** Where the parser succeeds, it agrees with one that goes on behind empty tag
      pairs if and only if nothing behind such a pair parses to anything. */
  lemma EmptyPairExact(o: Oracles, l: Level, frag: string, flags: Flags)
    requires Parse(o, l, frag, flags).Ok?
    ensures Parse(o, l, frag, flags) == ParseOn(o, true, l, frag, flags) <==> Idle(o, l, frag, flags)
  {
    ParseGrows(o, l, frag, flags);
  }

  // --------------------------------------------------- what the parser meets

  /** A part of the body that is put into the tree: a code block, or a line with
      the flags its words are parsed with. Between the parts stand the tags, by
      their delimiters, as they are opened and closed; a quoted line is one. */
  datatype Part =
    | Block(text: string)
    | Line(text: string, flags: Flags)
    | Open(tag: string)
    | Close(tag: string)

  function Enclosed(tag: string, ps: seq<Part>): seq<Part> {
    [Open(tag)] + ps + [Close(tag)]
  }

  function LineFlags(line: string, flags: Flags): Flags {
    var f := flags.(atLineStart := false);
    if !flags.atLineStart then flags
    else if line != "" && line[0] == '>' then f.(quoted := true)
    else f
  }

  /** A line, in a tag of its own if it is quoted. */
  function LineParts(line: string, flags: Flags): seq<Part> {
    var part := [Line(line, LineFlags(line, flags))];
    if flags.atLineStart && line != "" && line[0] == '>' then Enclosed(">", part) else part
  }

  function Lines(frag: string, flags: Flags): seq<Part>
    decreases |frag|
  {
    match Find(frag, "\n")
    case None => LineParts(frag, flags)
    case Some(pos) => LineParts(frag[..pos], flags) + Lines(frag[pos + 1..], flags.(atLineStart := true))
  }

  /** The parts of a body, in order, with the tags around them; without `on` all
      that follows an empty pair is cut out. */
  function Parts(on: bool, l: Level, frag: string, flags: Flags): seq<Part>
    decreases |frag|, 5 - l, 2
  {
    if l == QUOTES then Lines(frag, flags)
    else match Find(frag, Delimiter(l))
      case None => Parts(on, l + 1, frag, flags)
      case Some(start) =>
        var rest, f := frag[start + 2..], flags.(atLineStart := false);
        if start == 0 then PartsAfter(on, l, rest, f)
        else Parts(on, l + 1, frag[..start], flags) + PartsAfter(on, l, rest, f)
  }

  function PartsAfter(on: bool, l: Level, frag: string, flags: Flags): seq<Part>
    requires l < QUOTES
    decreases |frag| + 1, 5 - l, 0
  {
    match Find(frag, Delimiter(l))
    case Some(end) =>
      if end > 0 then PartsInside(on, l, frag[..end], flags) + Parts(on, 0, frag[end + 2..], flags)
      else if on then Parts(on, 0, frag[2..], flags)
      else []
    case None => PartsInside(on, l, frag, flags)
  }

  function PartsInside(on: bool, l: Level, frag: string, flags: Flags): seq<Part>
    requires l < QUOTES
    decreases |frag| + 1, 5 - l - 1, 3
  {
    if l == 0 then [Block(frag)] else Enclosed(Delimiter(l), Parts(on, l + 1, frag, flags))
  }

  function PartText(p: Part): string {
    if p.Block? || p.Line? then p.text else ""
  }

  function TextOf(ps: seq<Part>): string {
    if ps == [] then "" else PartText(ps[0]) + TextOf(ps[1..])
  }

  lemma {:induction false} TextOfConcat(a: seq<Part>, b: seq<Part>)
    ensures TextOf(a + b) == TextOf(a) + TextOf(b)
    decreases |a|
  {
    if a == [] {
      assert a + b == b;
    } else {
      assert (a + b)[1..] == a[1..] + b;
      TextOfConcat(a[1..], b);
      Assoc(PartText(a[0]), TextOf(a[1..]), TextOf(b));
    }
  }

  lemma TextOfOne(p: Part)
    ensures TextOf([p]) == PartText(p)
  {
    assert [p][1..] == [];
    assert PartText(p) + "" == PartText(p);
  }

  lemma TextOfEnclosed(tag: string, ps: seq<Part>)
    ensures TextOf(Enclosed(tag, ps)) == TextOf(ps)
  {
    TextOfConcat([Open(tag)] + ps, [Close(tag)]);
    TextOfConcat([Open(tag)], ps);
    TextOfOne(Open(tag));
    TextOfOne(Close(tag));
    assert "" + TextOf(ps) + "" == TextOf(ps);
  }

  lemma TextOfLine(line: string, flags: Flags)
    ensures TextOf(LineParts(line, flags)) == line
  {
    TextOfOne(Line(line, LineFlags(line, flags)));
    TextOfEnclosed(">", [Line(line, LineFlags(line, flags))]);
  }

  /** The tree shows the word with its letters. */
  predicate WordLegible(o: Oracles, read: Node -> string, drop: set<char>, w: string, flags: Flags) {
    Letters(drop, Rendered(o, read, w, flags)) == Letters(drop, w)
  }

  predicate BlockLegible(o: Oracles, read: Node -> string, drop: set<char>, text: string) {
    o.highlight(text).Ok? ==> Letters(drop, read(Code(o.highlight(text).value))) == Letters(drop, text)
  }

  predicate PartLegible(o: Oracles, read: Node -> string, drop: set<char>, p: Part) {
    match p
    case Block(text) => BlockLegible(o, read, drop, text)
    case Line(text, flags) => forall w :: w in SplitOn(text, ' ') ==> WordLegible(o, read, drop, w, flags)
    case _ => true
  }

  /** Every word and every code block the parser meets is shown with its letters. */
  predicate Legible(o: Oracles, read: Node -> string, drop: set<char>, ps: seq<Part>) {
    forall p :: p in ps ==> PartLegible(o, read, drop, p)
  }

  // ------------------------------------------------- trees against their parts

  /** The result shows the letters of the parts. */
  predicate Fits(drop: set<char>, read: Node -> string, r: Result<Node, string>, ps: seq<Part>) {
    r.Ok? ==> Letters(drop, Show(read, r.value)) == Letters(drop, TextOf(ps))
  }

  lemma PairFits(drop: set<char>, read: Node -> string, l: Result<Node, string>, r: Result<Node, string>,
                 a: seq<Part>, b: seq<Part>)
    requires Fits(drop, read, l, a) && Fits(drop, read, r, b)
    ensures Fits(drop, read, Pair(l, r), a + b)
  {
    TextOfConcat(a, b);
    LettersConcat(drop, TextOf(a), TextOf(b));
    if Pair(l, r).Ok? {
      ShowPair(read, l, r);
      LettersConcat(drop, Show(read, l.value), Show(read, r.value));
    }
  }

  lemma WrapperFits(drop: set<char>, read: Node -> string, r: Result<Node, string>, l: Level, ps: seq<Part>)
    requires Fits(drop, read, r, ps) && 0 < l < QUOTES
    ensures Fits(drop, read, Wrapped(l, r), Enclosed(Delimiter(l), ps))
  {
    TextOfEnclosed(Delimiter(l), ps);
  }

  lemma BlockFits(o: Oracles, read: Node -> string, drop: set<char>, text: string)
    requires Legible(o, read, drop, [Block(text)])
    ensures Fits(drop, read, Highlighted(o, text), [Block(text)])
  {
    assert Block(text) in [Block(text)];
    TextOfOne(Block(text));
  }

  lemma {:induction false} JoinWithLetters(drop: set<char>, show: string -> string, words: seq<string>)
    requires forall w :: w in words ==> Letters(drop, show(w)) == Letters(drop, w)
    ensures Letters(drop, JoinWith(show, words)) == Letters(drop, JoinOn(words, ' '))
  {
    if words == [] {
    } else {
      var n := |words| - 1;
      var prev, w, gap := words[..n], words[n], if n == 0 then "" else " ";
      assert w in words && forall v :: v in prev ==> v in words;
      JoinWithLetters(drop, show, prev);
      assert words == prev + [w];
      JoinOneMore(prev, w);
      LettersOfThree(drop, JoinWith(show, prev), gap, show(w));
      LettersOfThree(drop, JoinOn(prev, ' '), gap, w);
    }
  }

  lemma FragmentFits(o: Oracles, read: Node -> string, drop: set<char>, line: string, flags: Flags)
    requires PartLegible(o, read, drop, Line(line, flags))
    ensures Fits(drop, read, ParseFragment(o, line, flags), [Line(line, flags)])
  {
    TextOfOne(Line(line, flags));
    if ParseFragment(o, line, flags).Ok? {
      var words := SplitOn(line, ' ');
      FragmentRenders(o, read, line, flags);
      assert forall w :: w in words ==> WordLegible(o, read, drop, w, flags);
      JoinWithLetters(drop, Renderer(o, read, flags), words);
      JoinUndoesSplit(line, ' ');
    }
  }

  /** A line as the parser of quotes treats it. */
  function ParseLine(o: Oracles, line: string, flags: Flags): Result<Node, string> {
    if flags.atLineStart then WrapQuoted(o, line, flags.(atLineStart := false)) else ParseFragment(o, line, flags)
  }

  lemma LineFits(o: Oracles, read: Node -> string, drop: set<char>, line: string, flags: Flags)
    requires Legible(o, read, drop, LineParts(line, flags))
    ensures Fits(drop, read, ParseLine(o, line, flags), LineParts(line, flags))
  {
    var part := Line(line, LineFlags(line, flags));
    assert part in LineParts(line, flags);
    FragmentFits(o, read, drop, line, part.flags);
    LineParsed(o, line, flags);
    if flags.atLineStart && line == "" {
      TextOfOne(part);
    } else if flags.atLineStart && line[0] == '>' {
      QuotedNodeFits(drop, read, ParseFragment(o, line, part.flags), [part]);
    }
  }

  function InQuotes(r: Result<Node, string>): Result<Node, string> {
    var inner :- r;
    Ok(Quoted(inner))
  }

  /** A line is parsed as a fragment with its flags; at its start, an empty line is
      nothing and one that begins with '>' is quoted. */
  lemma LineParsed(o: Oracles, line: string, flags: Flags)
    ensures ParseLine(o, line, flags) ==
            if flags.atLineStart && line == "" then Ok(Empty)
            else if flags.atLineStart && line[0] == '>' then InQuotes(ParseFragment(o, line, LineFlags(line, flags)))
            else ParseFragment(o, line, LineFlags(line, flags))
  {
  }

  lemma QuotedNodeFits(drop: set<char>, read: Node -> string, r: Result<Node, string>, ps: seq<Part>)
    requires Fits(drop, read, r, ps)
    ensures Fits(drop, read, InQuotes(r), Enclosed(">", ps))
  {
    TextOfEnclosed(">", ps);
  }

  // ------------------------------------------- induction along the parser

  type Fit = (Result<Node, string>, seq<Part>) -> bool

  /** `fit` follows the parser's ways of making results: out of lines, code blocks
      and nothing, by wrapping and by pairing. */
  ghost predicate Follows(o: Oracles, ok: Part -> bool, fit: Fit) {
    && fit(Ok(Empty), [])
    && (forall line, flags {:trigger ParseLine(o, line, flags), LineParts(line, flags)} ::
          AllOk(ok, LineParts(line, flags)) ==> fit(ParseLine(o, line, flags), LineParts(line, flags)))
    && (forall text {:trigger Highlighted(o, text)} :: ok(Block(text)) ==> fit(Highlighted(o, text), [Block(text)]))
    && (forall l: Level, r, ps {:trigger fit(Wrapped(l, r), Enclosed(Delimiter(l), ps))} ::
          0 < l < QUOTES && fit(r, ps) ==> fit(Wrapped(l, r), Enclosed(Delimiter(l), ps)))
    && (forall l, r, a, b {:trigger fit(Pair(l, r), a + b)} :: fit(l, a) && fit(r, b) ==> fit(Pair(l, r), a + b))
  }

  predicate AllOk(ok: Part -> bool, ps: seq<Part>) {
    forall p :: p in ps ==> ok(p)
  }

  lemma OkParts(ok: Part -> bool, a: seq<Part>, b: seq<Part>)
    requires AllOk(ok, a + b)
    ensures AllOk(ok, a) && AllOk(ok, b)
  {
    assert forall p :: p in a ==> p in a + b;
    assert forall p :: p in b ==> p in a + b;
  }

  lemma {:induction false} LinesFit(o: Oracles, ok: Part -> bool, fit: Fit, frag: string, flags: Flags)
    requires Follows(o, ok, fit) && AllOk(ok, Lines(frag, flags))
    ensures fit(ParseQuoted(o, frag, flags), Lines(frag, flags))
    decreases |frag|
  {
    match Find(frag, "\n")
    case None =>
      assert ParseQuoted(o, frag, flags) == ParseLine(o, frag, flags);
    case Some(pos) =>
      var line, rest, f := frag[..pos], frag[pos + 1..], flags.(atLineStart := true);
      OkParts(ok, LineParts(line, flags), Lines(rest, f));
      LinesFit(o, ok, fit, rest, f);
      assert ParseQuoted(o, frag, flags) == Pair(ParseLine(o, line, flags), ParseQuoted(o, rest, f));
  }

  /** What follows the parser's ways holds of every result and its parts. */
  lemma {:induction false} ParseFits(o: Oracles, ok: Part -> bool, fit: Fit, on: bool, l: Level, frag: string,
                                     flags: Flags)
    requires Follows(o, ok, fit) && AllOk(ok, Parts(on, l, frag, flags))
    ensures fit(ParseOn(o, on, l, frag, flags), Parts(on, l, frag, flags))
    decreases |frag|, 5 - l, 2
  {
    if l == QUOTES {
      LinesFit(o, ok, fit, frag, flags);
    } else {
      match Find(frag, Delimiter(l))
      case None => ParseFits(o, ok, fit, on, l + 1, frag, flags);
      case Some(start) => TagFits(o, ok, fit, on, l, frag, flags, start);
    }
  }

  lemma {:induction false} TagFits(o: Oracles, ok: Part -> bool, fit: Fit, on: bool, l: Level, frag: string,
                                   flags: Flags, start: nat)
    requires Follows(o, ok, fit) && l < QUOTES && Find(frag, Delimiter(l)) == Some(start)
    requires AllOk(ok, Parts(on, l, frag, flags))
    ensures fit(ParseOn(o, on, l, frag, flags), Parts(on, l, frag, flags))
    decreases |frag|, 5 - l, 1
  {
    DelimiterIsMarkup(l);
    if start == 0 {
      AfterFits(o, ok, fit, on, l, frag[2..], flags.(atLineStart := false));
    } else {
      PrecededFits(o, ok, fit, on, l, frag[..start], frag[start + 2..], flags);
    }
  }

  /** Text `a` with a tag behind it, and `b` behind the tag's opening delimiter. */
  lemma {:induction false} PrecededFits(o: Oracles, ok: Part -> bool, fit: Fit, on: bool, l: Level, a: string,
                                        b: string, flags: Flags)
    requires Follows(o, ok, fit) && l < QUOTES
    requires AllOk(ok, Parts(on, l + 1, a, flags) + PartsAfter(on, l, b, flags.(atLineStart := false)))
    ensures var f := flags.(atLineStart := false);
            fit(Pair(ParseOn(o, on, l + 1, a, flags), RemainderOn(o, on, l, b, f)),
                Parts(on, l + 1, a, flags) + PartsAfter(on, l, b, f))
    decreases |a| + |b| + 2, 5 - l, 0
  {
    var f := flags.(atLineStart := false);
    OkParts(ok, Parts(on, l + 1, a, flags), PartsAfter(on, l, b, f));
    ParseFits(o, ok, fit, on, l + 1, a, flags);
    AfterFits(o, ok, fit, on, l, b, f);
  }

  lemma {:induction false} AfterFits(o: Oracles, ok: Part -> bool, fit: Fit, on: bool, l: Level, frag: string,
                                     flags: Flags)
    requires Follows(o, ok, fit) && l < QUOTES && AllOk(ok, PartsAfter(on, l, frag, flags))
    ensures fit(RemainderOn(o, on, l, frag, flags), PartsAfter(on, l, frag, flags))
    decreases |frag| + 1, 5 - l, 0
  {
    match Find(frag, Delimiter(l))
    case None => InsideFits(o, ok, fit, on, l, frag, flags);
    case Some(end) =>
      DelimiterIsMarkup(l);
      var a, b := frag[..end], frag[end + 2..];
      if end > 0 {
        OkParts(ok, PartsInside(on, l, a, flags), Parts(on, 0, b, flags));
        InsideFits(o, ok, fit, on, l, a, flags);
        ParseFits(o, ok, fit, on, 0, b, flags);
      } else if on {
        ParseFits(o, ok, fit, on, 0, b, flags);
      }
  }

  lemma {:induction false} InsideFits(o: Oracles, ok: Part -> bool, fit: Fit, on: bool, l: Level, frag: string,
                                      flags: Flags)
    requires Follows(o, ok, fit) && l < QUOTES && AllOk(ok, PartsInside(on, l, frag, flags))
    ensures fit(MatchedOn(o, on, l, frag, flags), PartsInside(on, l, frag, flags))
    decreases |frag| + 1, 5 - l - 1, 3
  {
    if l == 0 {
      assert Block(frag) in [Block(frag)];
    } else {
      OkEnclosed(ok, Delimiter(l), Parts(on, l + 1, frag, flags));
      ParseFits(o, ok, fit, on, l + 1, frag, flags);
      EnclosedFits(o, ok, fit, l, ParseOn(o, on, l + 1, frag, flags), Parts(on, l + 1, frag, flags));
    }
  }

  lemma OkEnclosed(ok: Part -> bool, tag: string, ps: seq<Part>)
    requires AllOk(ok, Enclosed(tag, ps))
    ensures AllOk(ok, ps)
  {
    assert forall p :: p in ps ==> p in Enclosed(tag, ps);
  }

  lemma EnclosedFits(o: Oracles, ok: Part -> bool, fit: Fit, l: Level, r: Result<Node, string>, ps: seq<Part>)
    requires Follows(o, ok, fit) && 0 < l < QUOTES && fit(r, ps)
    ensures fit(Wrapped(l, r), Enclosed(Delimiter(l), ps))
  {
  }

  function Legibility(o: Oracles, read: Node -> string, drop: set<char>): Part -> bool {
    p => PartLegible(o, read, drop, p)
  }

  function Fitness(drop: set<char>, read: Node -> string): Fit {
    (r, ps) => Fits(drop, read, r, ps)
  }

  lemma FitnessFollows(o: Oracles, read: Node -> string, drop: set<char>)
    ensures Follows(o, Legibility(o, read, drop), Fitness(drop, read))
  {
    var ok, fit := Legibility(o, read, drop), Fitness(drop, read);
    forall line, flags | AllOk(ok, LineParts(line, flags))
      ensures fit(ParseLine(o, line, flags), LineParts(line, flags))
    {
      assert forall p :: p in LineParts(line, flags) ==> ok(p);
      LineFits(o, read, drop, line, flags);
    }
    forall text | ok(Block(text))
      ensures fit(Highlighted(o, text), [Block(text)])
    {
      BlockFits(o, read, drop, text);
    }
    forall l: Level, r, ps | 0 < l < QUOTES && fit(r, ps)
      ensures fit(Wrapped(l, r), Enclosed(Delimiter(l), ps))
    {
      WrapperFits(drop, read, r, l, ps);
    }
    forall l, r, a, b | fit(l, a) && fit(r, b)
      ensures fit(Pair(l, r), a + b)
    {
      PairFits(drop, read, l, r, a, b);
    }
  }

  /** The tree shows the letters of the parts. */
  lemma OnFits(o: Oracles, read: Node -> string, drop: set<char>, on: bool, frag: string, flags: Flags)
    requires Legible(o, read, drop, Parts(on, 0, frag, flags))
    ensures Fits(drop, read, ParseOn(o, on, 0, frag, flags), Parts(on, 0, frag, flags))
  {
    var ps := Parts(on, 0, frag, flags);
    assert forall p :: p in ps ==> Legibility(o, read, drop)(p);
    FitnessFollows(o, read, drop);
    ParseFits(o, Legibility(o, read, drop), Fitness(drop, read), on, 0, frag, flags);
    assert Fitness(drop, read)(ParseOn(o, on, 0, frag, flags), ps);
  }

  // ------------------------------------------------ parts against their body

  /** The number of letters swallowed by empty tag pairs: what follows such a pair
      is dropped wherever the parser meets one. */
  function Lost(drop: set<char>, l: Level, frag: string): nat
    decreases |frag|, 5 - l, 2
  {
    if l == QUOTES then 0
    else match Find(frag, Delimiter(l))
      case None => Lost(drop, l + 1, frag)
      case Some(start) =>
        (if start == 0 then 0 else Lost(drop, l + 1, frag[..start])) + LostAfter(drop, l, frag[start + 2..])
  }

  function LostAfter(drop: set<char>, l: Level, frag: string): nat
    requires l < QUOTES
    decreases |frag| + 1, 5 - l, 0
  {
    match Find(frag, Delimiter(l))
    case Some(end) =>
      if end == 0 then |Letters(drop, frag[2..])|
      else LostInside(drop, l, frag[..end]) + Lost(drop, 0, frag[end + 2..])
    case None => LostInside(drop, l, frag)
  }

  function LostInside(drop: set<char>, l: Level, frag: string): nat
    requires l < QUOTES
    decreases |frag| + 1, 5 - l - 1, 3
  {
    if l == 0 then 0 else Lost(drop, l + 1, frag)
  }

  /** The parts are taken from the text in order, and lack `lost` of its letters. */
  predicate Covers(drop: set<char>, ps: seq<Part>, text: string, lost: nat) {
    && Within(TextOf(ps), text)
    && |Letters(drop, TextOf(ps))| + lost == |Letters(drop, text)|
    && (lost == 0 ==> Letters(drop, TextOf(ps)) == Letters(drop, text))
  }

  lemma PairCovers(drop: set<char>, a: seq<Part>, b: seq<Part>, whole: string, x: string, mark: string, y: string,
                   la: nat, lb: nat)
    requires Covers(drop, a, x, la) && Covers(drop, b, y, lb)
    requires whole == x + mark + y && forall c :: c in mark ==> c in drop
    ensures Covers(drop, a + b, whole, la + lb)
  {
    TextOfConcat(a, b);
    LettersConcat(drop, TextOf(a), TextOf(b));
    LettersAround(drop, whole, x, mark, y);
    WithinConcat(TextOf(a), x, "", mark);
    assert TextOf(a) + "" == TextOf(a);
    WithinConcat(TextOf(a), x + mark, TextOf(b), y);
  }

  lemma TailCovers(drop: set<char>, ps: seq<Part>, whole: string, mark: string, y: string, lost: nat)
    requires Covers(drop, ps, y, lost) && whole == mark + y && forall c :: c in mark ==> c in drop
    ensures Covers(drop, ps, whole, lost)
  {
    LettersConcat(drop, mark, y);
    NoLetters(drop, mark);
    assert "" + Letters(drop, y) == Letters(drop, y);
    WithinConcat("", mark, TextOf(ps), y);
    assert "" + TextOf(ps) == TextOf(ps);
  }

  lemma OneCovers(drop: set<char>, ps: seq<Part>, text: string)
    requires TextOf(ps) == text
    ensures Covers(drop, ps, text, 0)
  {
    WithinSelf(text);
  }

  lemma CutAt(s: string, pat: string, i: nat)
    requires OccursAt(s, pat, i)
    ensures s == s[..i] + pat + s[i + |pat|..]
  {
  }

  lemma {:induction false} LinesCover(drop: set<char>, frag: string, flags: Flags)
    requires MARKUP <= drop
    ensures Covers(drop, Lines(frag, flags), frag, 0)
    decreases |frag|
  {
    match Find(frag, "\n")
    case None =>
      TextOfLine(frag, flags);
      OneCovers(drop, LineParts(frag, flags), frag);
    case Some(pos) =>
      var line, rest, f := frag[..pos], frag[pos + 1..], flags.(atLineStart := true);
      CutAt(frag, "\n", pos);
      TextOfLine(line, flags);
      OneCovers(drop, LineParts(line, flags), line);
      LinesCover(drop, rest, f);
      PairCovers(drop, LineParts(line, flags), Lines(rest, f), frag, line, "\n", rest, 0, 0);
  }

  lemma {:induction false} PartsCover(drop: set<char>, on: bool, l: Level, frag: string, flags: Flags)
    requires MARKUP <= drop
    ensures Covers(drop, Parts(on, l, frag, flags), frag, if on then 0 else Lost(drop, l, frag))
    decreases |frag|, 5 - l, 2
  {
    if l == QUOTES {
      LinesCover(drop, frag, flags);
    } else {
      match Find(frag, Delimiter(l))
      case None => PartsCover(drop, on, l + 1, frag, flags);
      case Some(start) => TagCovers(drop, on, l, frag, flags, start);
    }
  }

  lemma {:induction false} TagCovers(drop: set<char>, on: bool, l: Level, frag: string, flags: Flags, start: nat)
    requires MARKUP <= drop && l < QUOTES && Find(frag, Delimiter(l)) == Some(start)
    ensures Covers(drop, Parts(on, l, frag, flags), frag, if on then 0 else Lost(drop, l, frag))
    decreases |frag|, 5 - l, 1
  {
    var a, d, b := frag[..start], Delimiter(l), frag[start + 2..];
    DelimiterIsMarkup(l);
    CutAt(frag, d, start);
    if start == 0 {
      assert a + d == d;
      AfterCovers(drop, on, l, b, flags.(atLineStart := false));
      TailCovers(drop, PartsAfter(on, l, b, flags.(atLineStart := false)), frag, d, b,
        if on then 0 else LostAfter(drop, l, b));
    } else {
      PrecededCovers(drop, on, l, a, b, frag, flags);
    }
  }

  lemma {:induction false} PrecededCovers(drop: set<char>, on: bool, l: Level, a: string, b: string, whole: string,
                                          flags: Flags)
    requires MARKUP <= drop && l < QUOTES && whole == a + Delimiter(l) + b
    ensures Covers(drop, Parts(on, l + 1, a, flags) + PartsAfter(on, l, b, flags.(atLineStart := false)), whole,
              if on then 0 else Lost(drop, l + 1, a) + LostAfter(drop, l, b))
    decreases |a| + |b| + 2, 5 - l, 0
  {
    var f := flags.(atLineStart := false);
    DelimiterIsMarkup(l);
    PartsCover(drop, on, l + 1, a, flags);
    AfterCovers(drop, on, l, b, f);
    PairCovers(drop, Parts(on, l + 1, a, flags), PartsAfter(on, l, b, f), whole, a, Delimiter(l), b,
      if on then 0 else Lost(drop, l + 1, a), if on then 0 else LostAfter(drop, l, b));
  }

  lemma {:induction false} AfterCovers(drop: set<char>, on: bool, l: Level, frag: string, flags: Flags)
    requires MARKUP <= drop && l < QUOTES
    ensures Covers(drop, PartsAfter(on, l, frag, flags), frag, if on then 0 else LostAfter(drop, l, frag))
    decreases |frag| + 1, 5 - l, 0
  {
    match Find(frag, Delimiter(l))
    case None => InsideCovers(drop, on, l, frag, flags);
    case Some(end) =>
      var a, d, b := frag[..end], Delimiter(l), frag[end + 2..];
      DelimiterIsMarkup(l);
      CutAt(frag, d, end);
      if end > 0 {
        InsideCovers(drop, on, l, a, flags);
        PartsCover(drop, on, 0, b, flags);
        PairCovers(drop, PartsInside(on, l, a, flags), Parts(on, 0, b, flags), frag, a, d, b,
          if on then 0 else LostInside(drop, l, a), if on then 0 else Lost(drop, 0, b));
      } else {
        assert a + d == d;
        if on {
          PartsCover(drop, on, 0, b, flags);
          TailCovers(drop, Parts(on, 0, b, flags), frag, d, b, 0);
        } else {
          TailCovers(drop, [], frag, d, b, |Letters(drop, b)|);
        }
      }
  }

  lemma {:induction false} InsideCovers(drop: set<char>, on: bool, l: Level, frag: string, flags: Flags)
    requires MARKUP <= drop && l < QUOTES
    ensures Covers(drop, PartsInside(on, l, frag, flags), frag, if on then 0 else LostInside(drop, l, frag))
    decreases |frag| + 1, 5 - l - 1, 3
  {
    if l == 0 {
      TextOfOne(Block(frag));
      OneCovers(drop, [Block(frag)], frag);
    } else {
      PartsCover(drop, on, l + 1, frag, flags);
      TextOfEnclosed(Delimiter(l), Parts(on, l + 1, frag, flags));
    }
  }

  // --------------------------------------------------------------- the text law

  /** The parts of a body the parser puts into the tree. */
  function BodyParts(body: string, open: bool): seq<Part> {
    Parts(false, 0, body, Flags(open, false, true))
  }

  /** The text of a body. Every tree shows the letters of its body's parts, to the
      character if `drop` is empty. The parts are taken from the body in order;
      they lack exactly the letters empty tag pairs swallow, and so none if and
      only if no letter follows an empty pair the parser meets. */
  lemma TextIsKept(o: Oracles, read: Node -> string, drop: set<char>, body: string, open: bool)
    requires ParseBody(o, body, open).Ok? && Legible(o, read, drop, BodyParts(body, open))
    ensures var kept := TextOf(BodyParts(body, open));
            var shown := Letters(drop, Show(read, ParseBody(o, body, open).value));
            && Within(kept, body)
            && shown == Letters(drop, kept)
            && (MARKUP <= drop ==>
                  && |shown| + Lost(drop, 0, body) == |Letters(drop, body)|
                  && (shown == Letters(drop, body) <==> Lost(drop, 0, body) == 0))
  {
    PartsCover(MARKUP, false, 0, body, Flags(open, false, true));
    if MARKUP <= drop {
      PartsCover(drop, false, 0, body, Flags(open, false, true));
    }
    BodyFits(o, read, drop, body, open);
  }

  lemma BodyFits(o: Oracles, read: Node -> string, drop: set<char>, body: string, open: bool)
    requires Legible(o, read, drop, BodyParts(body, open))
    ensures Fits(drop, read, ParseBody(o, body, open), BodyParts(body, open))
  {
    var flags := Flags(open, false, true);
    if body == "" {
      PartsCover(MARKUP, false, 0, body, flags);
    } else {
      OnFits(o, read, drop, false, body, flags);
      OffIsParse(o, 0, body, flags);
    }
  }

  /** Going on behind empty pairs keeps every letter of every body. */
  lemma GoingOnKeepsText(o: Oracles, read: Node -> string, drop: set<char>, body: string, flags: Flags)
    requires ParseOn(o, true, 0, body, flags).Ok? && Legible(o, read, drop, Parts(true, 0, body, flags))
    requires MARKUP <= drop
    ensures Letters(drop, Show(read, ParseOn(o, true, 0, body, flags).value)) == Letters(drop, body)
  {
    OnFits(o, read, drop, true, body, flags);
    PartsCover(drop, true, 0, body, flags);
  }

  // --------------------------------------------------------------- open posts

  /** How the nodes of an open post are shown; `plain` reads highlighted code. */
  function ReadOpen(plain: string -> string): Node -> string {
    (n: Node) =>
      match n
      case URL(u) => u
      case PostLink(id, _, _) => ">>" + Print(id)
      case Code(html) => plain(html)
      case _ => ""
  }

  predicate IsLink(o: Oracles, core: string, flags: Flags) {
    core != "" && core[0] == '>' && ParseLink(o, core, flags).Ok? && ParseLink(o, core, flags).value.Some?
  }

  /** The word starts like a link whose number is padded with zeros. */
  predicate PaddedLink(core: string) {
    && |core| >= 2
    && core[..2] == ">>"
    && var i := SkipChar(core, '>', 2);
       i + 1 < |core| && core[i] == '0' && IsDigit(core[i + 1])
  }

  lemma {:induction false} RepeatIs(n: nat, s: string)
    requires |s| == n && forall i :: 0 <= i < n ==> s[i] == '>'
    ensures Repeat('>', n) == s
  {
    if n == 0 {
    } else {
      RepeatIs(n - 1, s[1..]);
      assert s == [s[0]] + s[1..];
    }
  }

  lemma {:induction false} SkippedAre(s: string, c: char, i: nat)
    requires i <= |s|
    ensures forall j :: i <= j < SkipChar(s, c, i) ==> s[j] == c
    decreases |s| - i
  {
    if i < |s| && s[i] == c {
      SkippedAre(s, c, i + 1);
    }
  }

  /** A recognised link: '>' signs, then the digits of its post. */
  lemma LinkForm(o: Oracles, word: string, flags: Flags) returns (thread: nat, page: nat)
    requires ParseLink(o, word, flags).Ok? && ParseLink(o, word, flags).value.Some?
    ensures |word| >= 2 && word[..2] == ">>"
    ensures var i := SkipChar(word, '>', 2);
            && i < |word|
            && AllDigits(word[i..])
            && ParseLink(o, word, flags).value.value == PrependExtra(PostLink(Value(word[i..]), thread, page), i - 2)
            && var loc := o.locate(Value(word[i..]), !flags.open);
               loc == Ok(Exists(thread, page)) || (loc == Ok(NotFetched) && thread == 0 && page == 0)
  {
    var i := SkipChar(word, '>', 2);
    assert word[i..][0] == word[i];
    var loc := o.locate(Value(word[i..]), !flags.open).value;
    thread, page := if loc.Exists? then loc.thread else 0, if loc.Exists? then loc.page else 0;
  }

  lemma LinkText(word: string, i: nat, digits: string)
    requires 2 <= i <= |word| && digits == word[i..] && forall j :: 0 <= j < i ==> word[j] == '>'
    ensures Repeat('>', i - 2) + (">>" + digits) == word
  {
    RepeatIs(i - 2, word[..i - 2]);
    assert word[i - 2..i] == ">>";
    assert word == word[..i - 2] + (word[i - 2..i] + digits);
  }

  lemma ExtraShown(plain: string -> string, n: Node, extra: nat)
    requires n.PostLink?
    ensures Show(ReadOpen(plain), PrependExtra(n, extra)) == Repeat('>', extra) + (">>" + Print(n.id))
  {
    assert "" + (">>" + Print(n.id)) == ">>" + Print(n.id);
  }

  /** A link is shown as it is, but without padding zeros. */
  lemma LinkShown(o: Oracles, plain: string -> string, core: string, flags: Flags) returns (i: nat)
    requires IsLink(o, core, flags)
    ensures 2 <= i < |core| && AllDigits(core[i..]) && forall j :: 0 <= j < i ==> core[j] == '>'
    ensures RenderedCore(o, ReadOpen(plain), core, flags) == Repeat('>', i - 2) + (">>" + Print(Value(core[i..])))
    ensures PaddedLink(core) <==> core[i] == '0' && i + 1 < |core|
  {
    i := SkipChar(core, '>', 2);
    var thread, page := LinkForm(o, core, flags);
    SkippedAre(core, '>', 2);
    assert core[..2][0] == '>' && core[..2][1] == '>';
    ExtraShown(plain, PostLink(Value(core[i..]), thread, page), i - 2);
    LinkRendered(o, plain, core, flags);
    assert i + 1 < |core| ==> core[i..][1] == core[i + 1];
  }

  lemma LinkRendered(o: Oracles, plain: string -> string, core: string, flags: Flags)
    requires IsLink(o, core, flags)
    ensures RenderedCore(o, ReadOpen(plain), core, flags) ==
            Show(ReadOpen(plain), ParseLink(o, core, flags).value.value)
  {
    var n := ParseLink(o, core, flags).value.value;
    assert "" + Show(ReadOpen(plain), n) == Show(ReadOpen(plain), n);
  }

  lemma {:induction false} DigitLetters(drop: set<char>, s: string)
    requires forall c :: c in drop ==> !IsDigit(c)
    requires forall c :: c in s ==> IsDigit(c)
    ensures Letters(drop, s) == s
  {
    if s == "" {
    } else {
      assert s[0] in s && forall c :: c in s[1..] ==> c in s;
      DigitLetters(drop, s[1..]);
      assert s == [s[0]] + s[1..];
    }
  }

  /** '>' signs and digits leave the digits. */
  lemma LinkLetters(drop: set<char>, extra: nat, digits: string)
    requires '>' in drop && (forall c :: c in drop ==> !IsDigit(c)) && AllDigits(digits)
    ensures Letters(drop, Repeat('>', extra) + (">>" + digits)) == digits
  {
    LettersConcat(drop, Repeat('>', extra), ">>" + digits);
    LettersConcat(drop, ">>", digits);
    OnlyMarks(extra);
    NoLetters(drop, Repeat('>', extra));
    NoLetters(drop, ">>");
    DigitLetters(drop, digits);
    assert "" + ("" + digits) == digits;
  }

  lemma {:induction false} OnlyMarks(n: nat)
    ensures forall c :: c in Repeat('>', n) ==> c == '>'
  {
    if n == 0 {
    } else {
      OnlyMarks(n - 1);
    }
  }

  lemma LettersBetween(drop: set<char>, lead: string, a: string, b: string, trail: string)
    ensures Letters(drop, lead + a + trail) == Letters(drop, lead + b + trail) <==> Letters(drop, a) == Letters(drop, b)
  {
    LettersOfThree(drop, lead, a, trail);
    LettersOfThree(drop, lead, b, trail);
    Cancel(Letters(drop, lead), Letters(drop, a), Letters(drop, b), Letters(drop, trail));
  }

  lemma Cancel(x: string, a: string, b: string, y: string)
    ensures x + a + y == x + b + y <==> a == b
  {
    if x + a + y == x + b + y {
      assert |a| == |b|;
      assert (x + a + y)[|x|..|x| + |a|] == a && (x + b + y)[|x|..|x| + |b|] == b;
    }
  }

  /** A word of an open post is shown with its letters unless it is a padded link:
      exactly then if digits count as letters. */
  lemma OpenWordExact(o: Oracles, plain: string -> string, drop: set<char>, w: string, flags: Flags)
    requires flags.open && '>' in drop
    ensures var core := SplitPunctuation(w).1;
            var padded := IsLink(o, core, flags) && PaddedLink(core);
            && (!padded ==> WordLegible(o, ReadOpen(plain), drop, w, flags))
            && ((forall c :: c in drop ==> !IsDigit(c)) ==>
                  (WordLegible(o, ReadOpen(plain), drop, w, flags) <==> !padded))
  {
    var (lead, core, trail) := SplitPunctuation(w);
    LettersBetween(drop, lead, RenderedCore(o, ReadOpen(plain), core, flags), core, trail);
    if IsLink(o, core, flags) {
      LinkExact(o, plain, drop, core, flags);
    } else {
      NoLinkShown(o, plain, drop, core, flags);
    }
  }

  lemma LinkExact(o: Oracles, plain: string -> string, drop: set<char>, core: string, flags: Flags)
    requires '>' in drop && IsLink(o, core, flags)
    ensures var r := RenderedCore(o, ReadOpen(plain), core, flags);
            && (!PaddedLink(core) ==> r == core)
            && ((forall c :: c in drop ==> !IsDigit(c)) && PaddedLink(core) ==> Letters(drop, r) != Letters(drop, core))
  {
    var i := LinkShown(o, plain, core, flags);
    var digits := core[i..];
    LinkText(core, i, digits);
    if !PaddedLink(core) {
      ValuePrint(digits);
    } else if forall c :: c in drop ==> !IsDigit(c) {
      LinkLetters(drop, i - 2, digits);
      LinkLetters(drop, i - 2, Print(Value(digits)));
      PaddingIsLost(digits);
    }
  }

  lemma NoLinkShown(o: Oracles, plain: string -> string, drop: set<char>, core: string, flags: Flags)
    requires flags.open && '>' in drop && !IsLink(o, core, flags)
    ensures Letters(drop, RenderedCore(o, ReadOpen(plain), core, flags)) == Letters(drop, core)
  {
    NoLinkRendered(o, plain, core, flags);
    LettersConcat(drop, ">", core);
    NoLetters(drop, ">");
    assert "" + Letters(drop, core) == Letters(drop, core);
  }

  lemma NoLinkRendered(o: Oracles, plain: string -> string, core: string, flags: Flags)
    requires flags.open && !IsLink(o, core, flags)
    ensures RenderedCore(o, ReadOpen(plain), core, flags) == if IsUrl(o, core, flags) then ">" + core else core
  {
    if core == "" || Match(o, core, flags).Err? || Match(o, core, flags).value.None? {
      UnmatchedIsNoUrl(o, core, flags);
    } else {
      UrlGainsQuote(o, core, flags);
      assert core[0..] == core;
    }
  }

  predicate NoPaddedLinks(o: Oracles, ps: seq<Part>) {
    forall p, w :: p in ps && p.Line? && w in SplitOn(p.text, ' ') ==>
      !(IsLink(o, SplitPunctuation(w).1, p.flags) && PaddedLink(SplitPunctuation(w).1))
  }

  predicate BlocksLegible(o: Oracles, read: Node -> string, drop: set<char>, ps: seq<Part>) {
    forall p :: p in ps && p.Block? ==> BlockLegible(o, read, drop, p.text)
  }

  ghost predicate AllOpen(ps: seq<Part>, open: bool) {
    forall p :: p in ps && p.Line? ==> p.flags.open == open
  }

  lemma OpenConcat(a: seq<Part>, b: seq<Part>, open: bool)
    requires AllOpen(a, open) && AllOpen(b, open)
    ensures AllOpen(a + b, open)
  {
  }

  lemma OpenEnclosed(tag: string, ps: seq<Part>, open: bool)
    requires AllOpen(ps, open)
    ensures AllOpen(Enclosed(tag, ps), open)
  {
  }

  lemma LineOpen(line: string, flags: Flags)
    ensures AllOpen(LineParts(line, flags), flags.open)
  {
    OpenEnclosed(">", [Line(line, LineFlags(line, flags))], flags.open);
  }

  lemma {:induction false} LinesOpen(frag: string, flags: Flags)
    ensures AllOpen(Lines(frag, flags), flags.open)
    decreases |frag|
  {
    match Find(frag, "\n")
    case None => LineOpen(frag, flags);
    case Some(pos) =>
      var f := flags.(atLineStart := true);
      LineOpen(frag[..pos], flags);
      LinesOpen(frag[pos + 1..], f);
      OpenConcat(LineParts(frag[..pos], flags), Lines(frag[pos + 1..], f), flags.open);
  }

  lemma {:induction false} PartsOpen(on: bool, l: Level, frag: string, flags: Flags)
    ensures AllOpen(Parts(on, l, frag, flags), flags.open)
    decreases |frag|, 5 - l, 2
  {
    if l == QUOTES {
      LinesOpen(frag, flags);
    } else {
      match Find(frag, Delimiter(l))
      case None => PartsOpen(on, l + 1, frag, flags);
      case Some(start) =>
        DelimiterIsMarkup(l);
        AfterOpen(on, l, frag[start + 2..], flags.(atLineStart := false));
        if start > 0 {
          PartsOpen(on, l + 1, frag[..start], flags);
        }
    }
  }

  lemma {:induction false} AfterOpen(on: bool, l: Level, frag: string, flags: Flags)
    requires l < QUOTES
    ensures AllOpen(PartsAfter(on, l, frag, flags), flags.open)
    decreases |frag| + 1, 5 - l, 0
  {
    match Find(frag, Delimiter(l))
    case None => InsideOpen(on, l, frag, flags);
    case Some(end) =>
      DelimiterIsMarkup(l);
      PartsOpen(on, 0, frag[end + 2..], flags);
      if end > 0 {
        InsideOpen(on, l, frag[..end], flags);
      }
  }

  lemma {:induction false} InsideOpen(on: bool, l: Level, frag: string, flags: Flags)
    requires l < QUOTES
    ensures AllOpen(PartsInside(on, l, frag, flags), flags.open)
    decreases |frag| + 1, 5 - l - 1, 3
  {
    if l > 0 {
      PartsOpen(on, l + 1, frag, flags);
      OpenEnclosed(Delimiter(l), Parts(on, l + 1, frag, flags), flags.open);
    }
  }

  /** The parts of an open post are legible if its code blocks are and no link is
      padded, and if digits count as letters only then. */
  lemma OpenReadable(o: Oracles, plain: string -> string, drop: set<char>, body: string)
    requires '>' in drop
    ensures var ps := BodyParts(body, true);
            var clear := BlocksLegible(o, ReadOpen(plain), drop, ps) && NoPaddedLinks(o, ps);
            && (clear ==> Legible(o, ReadOpen(plain), drop, ps))
            && ((forall c :: c in drop ==> !IsDigit(c)) ==> (Legible(o, ReadOpen(plain), drop, ps) <==> clear))
  {
    var ps := BodyParts(body, true);
    PartsOpen(false, 0, body, Flags(true, false, true));
    forall p, w | p in ps && p.Line? && w in SplitOn(p.text, ' ')
      ensures var core := SplitPunctuation(w).1;
              var padded := IsLink(o, core, p.flags) && PaddedLink(core);
              && (!padded ==> WordLegible(o, ReadOpen(plain), drop, w, p.flags))
              && ((forall c :: c in drop ==> !IsDigit(c)) ==>
                    (WordLegible(o, ReadOpen(plain), drop, w, p.flags) <==> !padded))
    {
      OpenWordExact(o, plain, drop, w, p.flags);
    }
  }

  /** The text of an open post without padded links, with the characters '>' left
      aside: what is shown of it lacks exactly what empty tag pairs swallow. */
  lemma OpenTextIsKept(o: Oracles, plain: string -> string, drop: set<char>, body: string)
    requires MARKUP + {'>'} <= drop && ParseBody(o, body, true).Ok?
    requires BlocksLegible(o, ReadOpen(plain), drop, BodyParts(body, true)) && NoPaddedLinks(o, BodyParts(body, true))
    ensures var kept := TextOf(BodyParts(body, true));
            var shown := Letters(drop, Show(ReadOpen(plain), ParseBody(o, body, true).value));
            && Within(kept, body)
            && shown == Letters(drop, kept)
            && |shown| + Lost(drop, 0, body) == |Letters(drop, body)|
            && (shown == Letters(drop, body) <==> Lost(drop, 0, body) == 0)
  {
    OpenReadable(o, plain, drop, body);
    TextIsKept(o, ReadOpen(plain), drop, body, true);
  }
}
