/**
 Text as both ports of the hash rules see it: ASCII characters, and the few
 library functions that the two languages share.
 */
module Texts {

  type AsciiChar = c: char | c as int < 128 witness 'a'

  type Text = seq<AsciiChar>

  // ---------------------------------------------------------------------
  // Trimming
  // ---------------------------------------------------------------------

  function TrimLeft(s: Text, cut: Text): (r: Text) {
    if s != [] && s[0] in cut then TrimLeft(s[1..], cut) else s
  }

  function TrimRight(s: Text, cut: Text): (r: Text) {
    if s != [] && s[|s| - 1] in cut then TrimRight(s[..|s| - 1], cut) else s
  }

  function Trim(s: Text, cut: Text): (r: Text) {
    TrimRight(TrimLeft(s, cut), cut)
  }

  /** What trimming on the left leaves is the end of the text. */
  lemma {:induction false} TrimLeftIsSuffix(s: Text, cut: Text)
    ensures |TrimLeft(s, cut)| <= |s| && TrimLeft(s, cut) == s[|s| - |TrimLeft(s, cut)|..]
    ensures TrimLeft(s, cut) == [] || TrimLeft(s, cut)[0] !in cut
  {
    if s != [] && s[0] in cut {
      TrimLeftIsSuffix(s[1..], cut);
    }
  }

  lemma {:induction false} TrimRightIsPrefix(s: Text, cut: Text)
    ensures |TrimRight(s, cut)| <= |s| && TrimRight(s, cut) == s[..|TrimRight(s, cut)|]
    ensures TrimRight(s, cut) == [] || TrimRight(s, cut)[|TrimRight(s, cut)| - 1] !in cut
  {
    if s != [] && s[|s| - 1] in cut {
      TrimRightIsPrefix(s[..|s| - 1], cut);
    }
  }

  /** Trimming stops at the middle part. */
  lemma {:induction false} TrimLeftStops(a: Text, m: Text, cut: Text)
    requires m != [] && m[0] !in cut
    ensures TrimLeft(a + m, cut) == TrimLeft(a, cut) + m
  {
    if a == [] {
      assert a + m == m;
    } else if a[0] in cut {
      TrimLeftStops(a[1..], m, cut);
      assert (a + m)[1..] == a[1..] + m;
    } else {
      assert (a + m)[0] == a[0];
    }
  }

  lemma {:induction false} TrimRightStops(m: Text, c: Text, cut: Text)
    requires m != [] && m[|m| - 1] !in cut
    ensures TrimRight(m + c, cut) == m + TrimRight(c, cut)
  {
    if c == [] {
      assert m + c == m;
    } else if c[|c| - 1] in cut {
      TrimRightStops(m, c[..|c| - 1], cut);
      assert (m + c)[..|m + c| - 1] == m + c[..|c| - 1];
    } else {
      assert (m + c)[|m + c| - 1] == c[|c| - 1];
    }
  }

  lemma TrimAround(a: Text, m: Text, c: Text, cut: Text)
    requires m != [] && m[0] !in cut && m[|m| - 1] !in cut
    ensures Trim(a + m + c, cut) == TrimLeft(a, cut) + m + TrimRight(c, cut)
  {
    assert a + m + c == a + (m + c);
    TrimLeftStops(a, m + c, cut);
    var left := TrimLeft(a, cut) + m;
    assert TrimLeft(a, cut) + (m + c) == left + c;
    TrimRightStops(left, c, cut);
  }

  /** A text with no character to trim stays as it is. */
  lemma NothingToTrim(s: Text, cut: Text)
    requires s == [] || (s[0] !in cut && s[|s| - 1] !in cut)
    ensures Trim(s, cut) == s
  {}

  // ---------------------------------------------------------------------
  // Searching
  // ---------------------------------------------------------------------

  /** The first position that holds one of these characters, or -1. */
  function IndexAny(s: Text, chars: Text): (i: int)
    ensures -1 <= i < |s|
  {
    if s == [] then -1
    else if s[0] in chars then 0
    else
      var i := IndexAny(s[1..], chars);
      if i < 0 then -1 else i + 1
  }

  lemma {:induction false} IndexAnyMeans(s: Text, chars: Text)
    ensures var i := IndexAny(s, chars);
            && (i >= 0 ==> s[i] in chars)
            && forall k :: 0 <= k < (if i >= 0 then i else |s|) ==> s[k] !in chars
  {
    if s != [] && s[0] !in chars {
      IndexAnyMeans(s[1..], chars);
      assert forall k :: 1 <= k < |s| ==> s[k] == s[1..][k - 1];
    }
  }

  predicate OccursAt(s: Text, t: Text, i: nat) {
    i + |t| <= |s| && s[i..i + |t|] == t
  }

  /** The first place where t occurs in s, from position i on, or -1. */
  function IndexFrom(s: Text, t: Text, i: nat): (r: int)
    requires i <= |s|
    ensures r == -1 || i <= r <= |s| - |t|
    decreases |s| - i
  {
    if OccursAt(s, t, i) then i
    else if i == |s| then -1
    else IndexFrom(s, t, i + 1)
  }

  lemma {:induction false} IndexFromMeans(s: Text, t: Text, i: nat)
    requires i <= |s|
    ensures var r := IndexFrom(s, t, i);
            && (r >= 0 ==> OccursAt(s, t, r))
            && forall k :: i <= k < (if r >= 0 then r else |s|) ==> !OccursAt(s, t, k)
    decreases |s| - i
  {
    if !OccursAt(s, t, i) && i < |s| {
      IndexFromMeans(s, t, i + 1);
    }
  }

  function Index(s: Text, t: Text): int {
    IndexFrom(s, t, 0)
  }

  predicate HasPrefix(s: Text, t: Text) {
    OccursAt(s, t, 0)
  }

  function LowerChar(c: AsciiChar): AsciiChar {
    if 'A' <= c <= 'Z' then (c as int + 32) as char else c
  }

  function Lower(s: Text): (r: Text)
    ensures |r| == |s| && forall i :: 0 <= i < |s| ==> r[i] == LowerChar(s[i])
  {
    seq(|s|, i requires 0 <= i < |s| => LowerChar(s[i]))
  }

  // ---------------------------------------------------------------------
  // Fields and joins
  // ---------------------------------------------------------------------

  /** The length of the run without separators at the start. */
  function Run(s: Text, seps: Text): (n: nat)
    ensures n <= |s|
    ensures s != [] && s[0] !in seps ==> n > 0
  {
    var i := IndexAny(s, seps);
    if i < 0 then |s| else i
  }

  lemma RunMeans(s: Text, seps: Text)
    ensures Free(s[..Run(s, seps)], seps) && (Run(s, seps) < |s| ==> s[Run(s, seps)] in seps)
  {
    IndexAnyMeans(s, seps);
  }

  /** A run ends where the first separator is. */
  lemma RunIs(s: Text, seps: Text, n: nat)
    requires n <= |s| && (forall k :: 0 <= k < n ==> s[k] !in seps) && (n < |s| ==> s[n] in seps)
    ensures Run(s, seps) == n
  {
    IndexAnyMeans(s, seps);
  }

  /** The non-empty pieces between separators. */
  function Fields(s: Text, seps: Text): seq<Text> {
    if s == [] then []
    else if s[0] in seps then Fields(s[1..], seps)
    else
      var n := Run(s, seps);
      [s[..n]] + Fields(s[n..], seps)
  }

  predicate Free(s: Text, seps: Text) {
    forall k :: 0 <= k < |s| ==> s[k] !in seps
  }

  /** A piece and what follows its separator. */
  lemma FieldsOfPiece(piece: Text, sep: AsciiChar, rest: Text, seps: Text)
    requires Free(piece, seps) && sep in seps
    ensures Fields(piece + [sep] + rest, seps) == (if piece == [] then [] else [piece]) + Fields(rest, seps)
  {
    var s := piece + [sep] + rest;
    assert s[|piece|] == sep;
    assert s[|piece|..][1..] == rest;
    if piece != [] {
      assert s[0] == piece[0];
      assert forall k :: 0 <= k < |piece| ==> s[k] == piece[k];
      RunIs(s, seps, |piece|);
      assert s[..|piece|] == piece;
    } else {
      assert s[1..] == rest;
    }
  }

  lemma FieldsOfLast(piece: Text, seps: Text)
    requires Free(piece, seps)
    ensures Fields(piece, seps) == if piece == [] then [] else [piece]
  {
    if piece != [] {
      RunIs(piece, seps, |piece|);
      assert piece[..|piece|] == piece;
    }
  }

  lemma Regroup(p: Text, x: AsciiChar, rest: Text, sep: AsciiChar, b: Text)
    ensures p + [x] + rest + [sep] + b == p + [x] + (rest + [sep] + b)
  {}

  /** Cutting at a separator cuts the list of fields. */
  lemma {:induction false} FieldsSplit(a: Text, sep: AsciiChar, b: Text, seps: Text)
    requires sep in seps
    ensures Fields(a + [sep] + b, seps) == Fields(a, seps) + Fields(b, seps)
    decreases |a|
  {
    var n := Run(a, seps);
    RunMeans(a, seps);
    if n == |a| {
      assert a[..n] == a;
      FieldsOfPiece(a, sep, b, seps);
      FieldsOfLast(a, seps);
    } else {
      assert a == a[..n] + [a[n]] + a[n + 1..];
      FieldsSplit(a[n + 1..], sep, b, seps);
      FieldsSplitAt(a[..n], a[n], a[n + 1..], a[n + 1..] + [sep] + b, Fields(b, seps), seps);
      Regroup(a[..n], a[n], a[n + 1..], sep, b);
    }
  }

  lemma FieldsSplitAt(p: Text, x: AsciiChar, rest: Text, tail: Text, more: seq<Text>, seps: Text)
    requires Free(p, seps) && x in seps && Fields(tail, seps) == Fields(rest, seps) + more
    ensures Fields(p + [x] + tail, seps) == Fields(p + [x] + rest, seps) + more
  {
    FieldsOfPiece(p, x, rest, seps);
    FieldsOfPiece(p, x, tail, seps);
    Associate(if p == [] then [] else [p], Fields(rest, seps), more);
  }

  lemma Associate(a: seq<Text>, b: seq<Text>, c: seq<Text>)
    ensures a + (b + c) == (a + b) + c
  {}

  function Join(parts: seq<Text>, sep: Text): Text {
    if parts == [] then []
    else if |parts| == 1 then parts[0]
    else parts[0] + sep + Join(parts[1..], sep)
  }

  function AllFields(parts: seq<Text>, seps: Text): seq<Text> {
    if parts == [] then [] else Fields(parts[0], seps) + AllFields(parts[1..], seps)
  }

  /** Joining with a separator and splitting is splitting each part. */
  lemma {:induction false} FieldsOfJoin(parts: seq<Text>, sep: AsciiChar, seps: Text)
    requires sep in seps
    ensures Fields(Join(parts, [sep]), seps) == AllFields(parts, seps)
  {
    if |parts| > 1 {
      FieldsOfJoin(parts[1..], sep, seps);
      FieldsSplit(parts[0], sep, Join(parts[1..], [sep]), seps);
    } else if |parts| == 1 {
      assert AllFields(parts[1..], seps) == [];
    }
  }

  /** Non-empty parts without separators are the fields of their join. */
  lemma {:induction false} FieldsOfParts(parts: seq<Text>, seps: Text)
    requires forall k :: 0 <= k < |parts| ==> parts[k] != [] && Free(parts[k], seps)
    ensures AllFields(parts, seps) == parts
  {
    if parts != [] {
      FieldsOfParts(parts[1..], seps);
      FieldsOfLast(parts[0], seps);
      assert parts == [parts[0]] + parts[1..];
    }
  }

  // ---------------------------------------------------------------------
  // Lists of texts
  // ---------------------------------------------------------------------

  function Map(f: Text -> Text, s: seq<Text>): (r: seq<Text>)
    ensures |r| == |s|
  {
    if s == [] then [] else Map(f, s[..|s| - 1]) + [f(s[|s| - 1])]
  }

  lemma MapGrows(f: Text -> Text, s: seq<Text>, t: Text)
    ensures Map(f, s + [t]) == Map(f, s) + [f(t)]
  {
    assert (s + [t])[..|s|] == s;
  }

  lemma {:induction false} MapAppend(f: Text -> Text, a: seq<Text>, b: seq<Text>)
    ensures Map(f, a + b) == Map(f, a) + Map(f, b)
  {
    if b == [] {
      assert a + b == a;
    } else {
      var front, last := b[..|b| - 1], b[|b| - 1];
      MapAppend(f, a, front);
      assert a + b == (a + front) + [last];
      MapGrows(f, a + front, last);
    }
  }

  lemma {:induction false} MapAt(f: Text -> Text, s: seq<Text>, i: nat)
    requires i < |s|
    ensures Map(f, s)[i] == f(s[i])
  {
    if i < |s| - 1 {
      MapAt(f, s[..|s| - 1], i);
    }
  }

  /** One more text mapped, after some others. */
  lemma MapStep(f: Text -> Text, before: seq<Text>, s: seq<Text>, i: nat)
    requires i < |s|
    ensures before + Map(f, s[..i + 1]) == before + Map(f, s[..i]) + [f(s[i])]
  {
    assert s[..i + 1] == s[..i] + [s[i]];
    MapGrows(f, s[..i], s[i]);
  }
}
