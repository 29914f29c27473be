/** Locations the client can navigate to, and their URLs. */
module Locations {
  import opened Wrappers
  import opened Decimal
  import opened Strings

  datatype FeedID = Index | Catalog | Thread(id: nat, page: int)

  datatype Focus = Top | Bottom | Post(id: nat)

  datatype Location = Location(feed: FeedID, focus: Option<Focus>)

  /** IDs fit `u64` and pages fit `i32`. */
  predicate InRange(l: Location) {
    && (l.feed.Thread? ==> l.feed.id <= U64_MAX && -0x8000_0000 <= l.feed.page <= 0x7FFF_FFFF)
    && (l.focus.Some? && l.focus.value.Post? ==> l.focus.value.id <= U64_MAX)
  }

  function FeedPath(f: FeedID): string {
    match f
    case Index => "/"
    case Catalog => "/catalog"
    case Thread(id, page) => "/threads/" + Print(id) + "/" + PrintI32(page)
  }

  function FocusHash(f: Option<Focus>): string {
    match f
    case None => ""
    case Some(Bottom) => "#bottom"
    case Some(Top) => "#top"
    case Some(Post(id)) => "#p-" + Print(id)
  }

  /** The URL of a location. */
  function Path(l: Location): string {
    FeedPath(l.feed) + FocusHash(l.focus)
  }

  /** How a browser splits a URL: the hash is what follows from the first '#'. */
  function BrowserSplit(url: string): (string, string) {
    match IndexOf(url, '#')
    case None => (url, "")
    case Some(i) => (url[..i], url[i..])
  }

  function ParseFeed(pathname: string): FeedID {
    var split := SplitOn(pathname, '/');
    if |split| == 4 && split[1] == "threads" then
      match (ParseUnsigned(split[2], U64_MAX), ParseI32(split[3]))
      case (Some(id), Some(page)) => Thread(id, page)
      case _ => Index
    else if |split| >= 2 && split[1] == "catalog" then Catalog
    else Index
  }

  function ParseFocus(hash: string): Option<Focus> {
    if hash == "#top" then Some(Top)
    else if hash == "#bottom" then Some(Bottom)
    else if |hash| >= 3 && hash[..3] == "#p-" then
      match ParseUnsigned(hash[3..], U64_MAX)
      case Some(id) => Some(Post(id))
      case None => None
    else None
  }

  function FromPath(pathname: string, hash: string): Location {
    Location(ParseFeed(pathname), ParseFocus(hash))
  }

  lemma DigitsAreNot(s: string, c: char)
    requires AllDigits(s) && !IsDigit(c)
    ensures c !in s
  {
  }

  lemma PageIsPlain(page: int)
    ensures '/' !in PrintI32(page) && '#' !in PrintI32(page)
  {
  }

  /** A thread's path splits into its four parts. */
  lemma ThreadPathParts(id: nat, page: int)
    ensures SplitOn(FeedPath(Thread(id, page)), '/') == ["", "threads", Print(id), PrintI32(page)]
  {
    var a, b := Print(id), PrintI32(page);
    DigitsAreNot(a, '/');
    PageIsPlain(page);
    ThreadPathForm(a, b);
    SplitUndoesJoin(["", "threads", a, b], '/');
  }

  lemma ThreadPathForm(a: string, b: string)
    ensures JoinOn(["", "threads", a, b], '/') == "/threads/" + a + "/" + b
  {
    var p2 := ["", "threads"];
    var p3 := ["", "threads", a];
    var p4 := ["", "threads", a, b];
    assert p4[..3] == p3 && p3[..2] == p2 && p2[..1] == [""];
    assert JoinOn(p2, '/') == "" + "/" + "threads" == "/threads";
    assert JoinOn(p3, '/') == "/threads" + "/" + a == "/threads/" + a;
  }

  lemma TwoParts(name: string)
    requires '/' !in name
    ensures SplitOn("/" + name, '/') == ["", name]
  {
  }

  lemma FeedRoundTrip(f: FeedID)
    requires InRange(Location(f, None))
    ensures ParseFeed(FeedPath(f)) == f
  {
    match f
    case Index => TwoParts("");
    case Catalog => TwoParts("catalog");
    case Thread(id, page) =>
      ThreadPathParts(id, page);
      UnsignedRoundTrip(id, U64_MAX);
      I32RoundTrip(page);
  }

  lemma FocusRoundTrip(f: Option<Focus>)
    requires InRange(Location(Index, f))
    ensures ParseFocus(FocusHash(f)) == f
  {
    if f.Some? && f.value.Post? {
      var h := FocusHash(f);
      UnsignedRoundTrip(f.value.id, U64_MAX);
      assert h[..3] == "#p-" && h[3..] == Print(f.value.id);
      assert h[1] == 'p';
    }
  }

  lemma BrowserSplitPath(l: Location)
    ensures BrowserSplit(Path(l)) == (FeedPath(l.feed), FocusHash(l.focus))
  {
    var p, h := FeedPath(l.feed), FocusHash(l.focus);
    assert '#' !in p by {
      if l.feed.Thread? {
        DigitsAreNot(Print(l.feed.id), '#');
        PageIsPlain(l.feed.page);
        assert '#' !in "/threads/" && '#' !in "/";
      }
    }
    if h == "" {
      assert p + h == p;
    } else {
      assert h[0] == '#';
      assert p + h == p + ['#'] + h[1..];
      FirstIndex(p, h[1..], '#');
      assert (p + h)[..|p|] == p && (p + h)[|p|..] == h;
    }
  }

  /** Parsing the URL of a location gives the location back, whatever its thread,
      page and focus. */
  lemma RoundTrip(l: Location)
    requires InRange(l)
    ensures var (pathname, hash) := BrowserSplit(Path(l)); FromPath(pathname, hash) == l
  {
    BrowserSplitPath(l);
    FeedRoundTrip(l.feed);
    FocusRoundTrip(l.focus);
  }
}
