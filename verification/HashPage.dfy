/**
 The same rules in the configuration page, written out with loops over characters,
 and how far the two agree.
 */
module HashPage {
  import opened HashRules
  import opened Texts
  import opened Wrappers

  // ---------------------------------------------------------------------
  // Loops over characters
  // ---------------------------------------------------------------------

  method TrimChars(s: Text, chars: Text) returns (r: Text)
    ensures r == Trim(s, chars)
  {
    var start, end := 0, |s|;
    assert s[start..] == s;
    while start < end && s[start] in chars
      invariant 0 <= start <= end == |s|
      invariant TrimLeft(s, chars) == TrimLeft(s[start..], chars)
    {
      assert s[start..][1..] == s[start + 1..];
      start := start + 1;
    }
    ghost var left := s[start..];
    assert TrimLeft(s, chars) == left && left == s[start..end];
    while end > start && s[end - 1] in chars
      invariant start <= end <= |s|
      invariant TrimRight(left, chars) == TrimRight(s[start..end], chars)
    {
      assert s[start..end][..end - start - 1] == s[start..end - 1];
      end := end - 1;
    }
    r := s[start..end];
  }

  /** The first position of a single character, or -1. */
  function IndexOf(s: Text, c: AsciiChar): (i: int) {
    IndexAny(s, [c])
  }

  lemma IndexAnyIsFirst(s: Text, chars: Text, i: int)
    requires -1 <= i < |s| && (i >= 0 ==> s[i] in chars)
    requires forall k :: 0 <= k < (if i >= 0 then i else |s|) ==> s[k] !in chars
    ensures i == IndexAny(s, chars)
  {
    var j := IndexAny(s, chars);
    IndexAnyMeans(s, chars);
    assert i >= 0 ==> !(0 <= i < (if j >= 0 then j else |s|));
    assert j >= 0 ==> !(0 <= j < (if i >= 0 then i else |s|));
  }

  method FirstIndexOfAny(s: Text, chars: Text) returns (best: int)
    ensures best == IndexAny(s, chars)
  {
    best := -1;
    var i := 0;
    IndexAnyMeans(s, chars[..0]);
    while i < |chars|
      invariant 0 <= i <= |chars|
      invariant best == IndexAny(s, chars[..i])
    {
      var at := IndexOf(s, chars[i]);
      IndexAnyMeans(s, [chars[i]]);
      IndexAnyMeans(s, chars[..i]);
      if at != -1 && (best == -1 || at < best) {
        best := at;
      }
      assert chars[..i + 1] == chars[..i] + [chars[i]];
      IndexAnyIsFirst(s, chars[..i + 1], best);
      i := i + 1;
    }
    assert chars[..i] == chars;
  }

  /** The last steps: the query, the fragment and the slashes go. */
  method CutTail(link: Text) returns (h: Text)
    ensures h == Tail(link)
  {
    var s := link;
    var cut := FirstIndexOfAny(s, ENDS);
    if cut != -1 {
      s := s[..cut];
    }
    h := TrimChars(Trim(s, SPACE), SLASH);
  }

  method NormalizeVKJoinHash(input: Text) returns (h: Text)
    ensures h == Normalize(input)
  {
    var s := TrimChars(Trim(input, SPACE), QUOTES);
    if s == [] {
      return [];
    }
    var lower := Lower(s);
    var idx := Index(lower, MARKER);
    if idx >= 0 {
      s := s[idx + |MARKER|..];
    } else if HasPrefix(lower, HTTP) || HasPrefix(lower, HTTPS) {
      return [];
    }
    h := CutTail(s);
  }

  lemma TakeOne(cur: Text, raw: Text, i: nat)
    requires i < |raw|
    ensures cur + raw[i..] == cur + [raw[i]] + raw[i + 1..]
  {}

  lemma PieceEnds(out: seq<Text>, cur: Text, sep: AsciiChar, rest: Text)
    requires Free(cur, SEPARATORS) && sep in SEPARATORS
    ensures out + Fields(cur + [sep] + rest, SEPARATORS)
         == (if cur == [] then out else out + [cur]) + Fields([] + rest, SEPARATORS)
  {
    FieldsOfPiece(cur, sep, rest, SEPARATORS);
    assert [] + rest == rest;
    Associate(out, if cur == [] then [] else [cur], Fields(rest, SEPARATORS));
  }

  method SplitHashTokens(raw: Text) returns (out: seq<Text>)
    ensures out == Fields(raw, SEPARATORS)
  {
    out := [];
    var cur: Text := [];
    var i := 0;
    assert cur + raw[i..] == raw;
    while i < |raw|
      invariant 0 <= i <= |raw| && Free(cur, SEPARATORS)
      invariant out + Fields(cur + raw[i..], SEPARATORS) == Fields(raw, SEPARATORS)
    {
      var ch := raw[i];
      TakeOne(cur, raw, i);
      if ch in SEPARATORS {
        PieceEnds(out, cur, ch, raw[i + 1..]);
        if cur != [] {
          out := out + [cur];
        }
        cur := [];
      } else {
        cur := cur + [ch];
      }
      i := i + 1;
    }
    assert cur + raw[i..] == cur;
    FieldsOfLast(cur, SEPARATORS);
    if cur != [] {
      out := out + [cur];
    }
  }

  // ---------------------------------------------------------------------
  // The list
  // ---------------------------------------------------------------------

  /** The list without the names that an empty object already answers to. */
  function Visible(hashes: seq<Text>, names: set<Text>): (r: seq<Text>) {
    if hashes == [] then []
    else
      Visible(hashes[..|hashes| - 1], names) +
      if hashes[|hashes| - 1] in names then [] else [hashes[|hashes| - 1]]
  }

  lemma {:induction false} VisibleMembers(hashes: seq<Text>, names: set<Text>, h: Text)
    ensures h in Visible(hashes, names) <==> h in hashes && h !in names
  {
    if hashes != [] {
      var front, last := hashes[..|hashes| - 1], hashes[|hashes| - 1];
      VisibleMembers(front, names, h);
      assert hashes == front + [last];
    }
  }

  lemma {:induction false} VisibleIsAll(hashes: seq<Text>, names: set<Text>)
    ensures |Visible(hashes, names)| <= |hashes|
    ensures Visible(hashes, names) == hashes <==> forall k :: 0 <= k < |hashes| ==> hashes[k] !in names
  {
    if hashes != [] {
      var front, last := hashes[..|hashes| - 1], hashes[|hashes| - 1];
      VisibleIsAll(front, names);
      assert hashes == front + [last];
      if Visible(hashes, names) == hashes {
        assert Visible(hashes, names)[..|front|] == front;
      }
    }
  }

  lemma VisibleGrows(hashes: seq<Text>, names: set<Text>, h: Text)
    ensures Visible(hashes + [h], names) == Visible(hashes, names) + if h in names then [] else [h]
  {
    assert (hashes + [h])[..|hashes|] == hashes;
  }

  lemma AddOne(done: seq<Text>, names: set<Text>, h: Text)
    ensures var out := Visible(Collect(done), names);
            Visible(Collect(done + [h]), names) == if h == [] || h in out || h in names then out else out + [h]
  {
    CollectGrows(done, h);
    VisibleGrows(Collect(done), names, h);
    VisibleMembers(Collect(done), names, h);
  }

  /** Nothing that is entered has the name of an inherited property. */
  ghost predicate NoInheritedNames(entries: seq<Text>, names: set<Text>) {
    forall t :: t in AllFields(entries, SEPARATORS) ==> Normalize(t) == [] || Normalize(t) !in names
  }

  /** The two ports give the same list exactly when no token that is entered stands for such a name. */
  lemma PortsAgree(entries: seq<Text>, names: set<Text>)
    ensures var client := Parsed(Join(entries, [',']));
            Visible(client, names) == client <==> NoInheritedNames(entries, names)
  {
    var tokens := AllFields(entries, SEPARATORS);
    var client := Collect(Normals(tokens));
    FieldsOfJoin(entries, ',', SEPARATORS);
    VisibleIsAll(client, names);
    if NoInheritedNames(entries, names) {
      forall k | 0 <= k < |client| ensures client[k] !in names {
        CollectIsComplete(Normals(tokens), client[k]);
        var t := NormalOf(tokens, client[k]);
      }
    }
    if forall k :: 0 <= k < |client| ==> client[k] !in names {
      forall t | t in tokens ensures Normalize(t) == [] || Normalize(t) !in names {
        NormalIn(tokens, t);
        CollectIsComplete(Normals(tokens), Normalize(t));
      }
    }
  }

  lemma NormalOf(tokens: seq<Text>, h: Text) returns (t: Text)
    requires h in Normals(tokens)
    ensures t in tokens && Normalize(t) == h
  {
    var k :| 0 <= k < |tokens| && Normals(tokens)[k] == h;
    MapAt(Normalize, tokens, k);
    t := tokens[k];
  }

  lemma NormalIn(tokens: seq<Text>, t: Text)
    requires t in tokens
    ensures Normalize(t) in Normals(tokens)
  {
    var k :| 0 <= k < |tokens| && tokens[k] == t;
    MapAt(Normalize, tokens, k);
  }

  /** The inner loop: the tokens of one entry. */
  method AddTokens(tokens: seq<Text>, names: set<Text>, seen: set<Text>, out: seq<Text>, ghost before: seq<Text>)
    returns (seen': set<Text>, out': seq<Text>)
    requires out == Visible(Collect(before), names) && forall h :: h in seen <==> h in out
    ensures out' == Visible(Collect(before + Normals(tokens)), names) && forall h :: h in seen' <==> h in out'
  {
    seen', out' := seen, out;
    var i := 0;
    assert before + [] == before;
    while i < |tokens|
      invariant 0 <= i <= |tokens|
      invariant out' == Visible(Collect(before + Normals(tokens[..i])), names)
      invariant forall h :: h in seen' <==> h in out'
    {
      var h := NormalizeVKJoinHash(tokens[i]);
      MapStep(Normalize, before, tokens, i);
      AddOne(before + Normals(tokens[..i]), names, h);
      if h != [] && !(h in seen' || h in names) {
        seen' := seen' + {h};
        out' := out' + [h];
      }
      i := i + 1;
    }
    assert tokens[..i] == tokens;
  }

  /**
   The page's list is the client's list of the joined entries, less the names that
   every object of the page answers to.
   */
  method ParseHashes(entries: seq<Text>, names: set<Text>) returns (out: seq<Text>)
    ensures out == Visible(Parsed(Join(entries, [','])), names)
    ensures out == Parsed(Join(entries, [','])) <==> NoInheritedNames(entries, names)
  {
    var seen: set<Text> := {};
    out := [];
    var i := 0;
    while i < |entries|
      invariant 0 <= i <= |entries|
      invariant out == Visible(Collect(Normals(AllFields(entries[..i], SEPARATORS))), names)
      invariant forall h :: h in seen <==> h in out
    {
      var tokens := SplitHashTokens(entries[i]);
      ghost var before := AllFields(entries[..i], SEPARATORS);
      AllFieldsGrows(entries[..i], entries[i]);
      assert entries[..i + 1] == entries[..i] + [entries[i]];
      MapAppend(Normalize, before, tokens);
      seen, out := AddTokens(tokens, names, seen, out, Normals(before));
      i := i + 1;
    }
    assert entries[..i] == entries;
    FieldsOfJoin(entries, ',', SEPARATORS);
    PortsAgree(entries, names);
  }

  lemma {:induction false} AllFieldsGrows(entries: seq<Text>, e: Text)
    ensures AllFields(entries + [e], SEPARATORS) == AllFields(entries, SEPARATORS) + Fields(e, SEPARATORS)
  {
    if entries == [] {
      assert AllFields([e][1..], SEPARATORS) == [];
      assert [] + [e] == [e];
    } else {
      AllFieldsGrows(entries[1..], e);
      assert (entries + [e])[1..] == entries[1..] + [e];
    }
  }

  // ---------------------------------------------------------------------
  // Checking one hash
  // ---------------------------------------------------------------------

  const HASH_LEN := 43

  predicate Base64Url(c: AsciiChar) {
    'A' <= c <= 'Z' || 'a' <= c <= 'z' || '0' <= c <= '9' || c == '-' || c == '_'
  }

  predicate ValidHash(h: Text) {
    |h| == HASH_LEN && forall k :: 0 <= k < |h| ==> Base64Url(h[k])
  }

  datatype Problem = NotALink | WrongLength(got: nat) | Unexpected(c: AsciiChar)

  /** What is wrong with a hash: nothing exactly when it is 43 characters of the alphabet, else the first offence. */
  method HashProblem(h: Text) returns (p: Option<Problem>)
    ensures p.None? <==> ValidHash(h)
    ensures h == [] ==> p == Some(NotALink)
    ensures h != [] && |h| != HASH_LEN ==> p == Some(WrongLength(|h|))
    ensures |h| == HASH_LEN && p.Some? ==>
              exists i :: 0 <= i < |h| && p == Some(Unexpected(h[i])) && !Base64Url(h[i])
                          && forall k :: 0 <= k < i ==> Base64Url(h[k])
  {
    if h == [] {
      return Some(NotALink);
    }
    if |h| != HASH_LEN {
      return Some(WrongLength(|h|));
    }
    var i := 0;
    while i < |h|
      invariant 0 <= i <= |h| && forall k :: 0 <= k < i ==> Base64Url(h[k])
    {
      if !Base64Url(h[i]) {
        return Some(Unexpected(h[i]));
      }
      i := i + 1;
    }
    p := None;
  }
}
