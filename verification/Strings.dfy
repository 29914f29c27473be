/** Searching, splitting and joining strings. */
module Strings {
  import opened Wrappers

  function IndexOf(s: string, c: char): (r: Option<nat>)
    ensures r.Some? ==> r.value < |s| && s[r.value] == c && c !in s[..r.value]
    ensures r.None? ==> c !in s
  {
    if s == "" then None
    else if s[0] == c then Some(0)
    else match IndexOf(s[1..], c)
      case None => None
      case Some(i) =>
        assert s[..i + 1] == [s[0]] + s[1..][..i];
        Some(i + 1)
  }

  /** `str::split`: there is always at least one part. */
  function SplitOn(s: string, c: char): (r: seq<string>)
    ensures r != []
  {
    match IndexOf(s, c)
    case None => [s]
    case Some(i) => [s[..i]] + SplitOn(s[i + 1..], c)
  }

  /** The parts with the separator between them. */
  function JoinOn(words: seq<string>, c: char): string {
    if words == [] then ""
    else if |words| == 1 then words[0]
    else JoinOn(words[..|words| - 1], c) + [c] + words[|words| - 1]
  }

  lemma {:induction false} JoinOnCons(w: string, words: seq<string>, c: char)
    requires words != []
    ensures JoinOn([w] + words, c) == w + [c] + JoinOn(words, c)
    decreases |words|
  {
    var all := [w] + words;
    if |words| == 1 {
      assert all[..1] == [w];
    } else {
      assert all[..|all| - 1] == [w] + words[..|words| - 1];
      JoinOnCons(w, words[..|words| - 1], c);
    }
  }

  /** Splitting loses nothing. */
  lemma {:induction false} JoinUndoesSplit(s: string, c: char)
    ensures JoinOn(SplitOn(s, c), c) == s
    decreases |s|
  {
    match IndexOf(s, c)
    case None =>
    case Some(i) =>
      JoinUndoesSplit(s[i + 1..], c);
      JoinOnCons(s[..i], SplitOn(s[i + 1..], c), c);
      assert s == s[..i] + [c] + s[i + 1..];
  }

  lemma {:induction false} FirstIndex(part: string, rest: string, c: char)
    requires c !in part
    ensures IndexOf(part + [c] + rest, c) == Some(|part|)
  {
    var s := part + [c] + rest;
    if part == "" {
    } else {
      assert part[0] in part && forall x :: x in part[1..] ==> x in part;
      FirstIndex(part[1..], rest, c);
      assert s[0] == part[0] && s[1..] == part[1..] + [c] + rest;
    }
  }

  /** Splitting undoes joining parts that do not hold the separator. */
  lemma SplitFirst(part: string, rest: string, c: char)
    requires c !in part
    ensures SplitOn(part, c) == [part]
    ensures SplitOn(part + [c] + rest, c) == [part] + SplitOn(rest, c)
  {
    FirstIndex(part, rest, c);
    var s := part + [c] + rest;
    assert s[..|part|] == part && s[|part| + 1..] == rest;
  }

  lemma {:induction false} SplitUndoesJoin(parts: seq<string>, c: char)
    requires parts != [] && forall p :: p in parts ==> c !in p
    ensures SplitOn(JoinOn(parts, c), c) == parts
    decreases |parts|
  {
    var first, rest := parts[0], parts[1..];
    assert first in parts && forall p :: p in rest ==> p in parts;
    if rest == [] {
      assert parts == [first];
      SplitFirst(first, "", c);
    } else {
      SplitUndoesJoin(rest, c);
      assert parts == [first] + rest;
      JoinOnCons(first, rest, c);
      SplitFirst(first, JoinOn(rest, c), c);
    }
  }
}
