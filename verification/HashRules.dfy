/**
 The client's rules for VK call hashes: what a join link reduces to, and how a
 list given on the command line is split, normalised and freed of duplicates.
 */
module HashRules {
  import opened Texts

  const SPACE: Text := ['\t', '\n', '\U{0B}', '\U{0C}', '\r', ' ']
  const QUOTES: Text := ['<', '>', '"', '\'']
  const SEPARATORS: Text := [',', ';', '\n', '\r', '\t', ' ']
  const ENDS: Text := ['?', '#', '/']
  const SLASH: Text := ['/']
  const MARKER: Text := "/call/join/"
  const HTTP: Text := "http://"
  const HTTPS: Text := "https://"

  /** Up to the first query, fragment or slash. */
  function Tail(s: Text): Text {
    var cut := IndexAny(s, ENDS);
    Trim(Trim(if cut >= 0 then s[..cut] else s, SPACE), SLASH)
  }

  /** Once blanks, quotes and brackets around it are gone. */
  function Reduced(s: Text): Text {
    if s == [] then []
    else
      var idx := Index(Lower(s), MARKER);
      if idx >= 0 then Tail(s[idx + |MARKER|..])
      else if HasPrefix(Lower(s), HTTP) || HasPrefix(Lower(s), HTTPS) then []
      else Tail(s)
  }

  function Normalize(input: Text): Text {
    Reduced(Trim(Trim(input, SPACE), QUOTES))
  }

  /** What the tokens stand for, one by one. */
  function Normals(tokens: seq<Text>): seq<Text> {
    Map(Normalize, tokens)
  }

  /** The different non-empty hashes, in order of first appearance. */
  function Collect(hs: seq<Text>): (r: seq<Text>) {
    if hs == [] then []
    else
      var before := Collect(hs[..|hs| - 1]);
      var h := hs[|hs| - 1];
      if h == [] || h in before then before else before + [h]
  }

  ghost predicate NoDuplicates(s: seq<Text>) {
    forall i, j :: 0 <= i < j < |s| ==> s[i] != s[j]
  }

  /** Every non-empty hash is collected, once. */
  lemma {:induction false} CollectIsComplete(hs: seq<Text>, h: Text)
    ensures NoDuplicates(Collect(hs))
    ensures h in Collect(hs) <==> h != [] && h in hs
  {
    if hs != [] {
      var front, last := hs[..|hs| - 1], hs[|hs| - 1];
      CollectIsComplete(front, h);
      assert hs == front + [last];
    }
  }

  /** One more hash. */
  lemma CollectGrows(hs: seq<Text>, h: Text)
    ensures Collect(hs + [h]) == if h == [] || h in Collect(hs) then Collect(hs) else Collect(hs) + [h]
  {
    assert (hs + [h])[..|hs|] == hs;
  }

  lemma CollectStep(f: Text -> Text, tokens: seq<Text>, i: nat)
    requires i < |tokens|
    ensures var before, h := Collect(Map(f, tokens[..i])), f(tokens[i]);
            Collect(Map(f, tokens[..i + 1])) == if h == [] || h in before then before else before + [h]
  {
    assert tokens[..i + 1] == tokens[..i] + [tokens[i]];
    MapGrows(f, tokens[..i], tokens[i]);
    CollectGrows(Map(f, tokens[..i]), f(tokens[i]));
  }

  /** A list of different hashes is collected as it is. */
  lemma {:induction false} NothingToCollect(hs: seq<Text>)
    requires NoDuplicates(hs) && forall k :: 0 <= k < |hs| ==> hs[k] != []
    ensures Collect(hs) == hs
  {
    if hs != [] {
      var front, last := hs[..|hs| - 1], hs[|hs| - 1];
      NothingToCollect(front);
      assert hs == front + [last];
    }
  }

  function Parsed(raw: Text): seq<Text> {
    Collect(Normals(Fields(raw, SEPARATORS)))
  }

  /** The client's loop over the fields. */
  method ParseHashes(raw: Text) returns (result: seq<Text>)
    ensures result == Parsed(raw)
    ensures NoDuplicates(result)
    ensures forall h :: h in result <==> h != [] && h in Normals(Fields(raw, SEPARATORS))
  {
    var fields := Fields(raw, SEPARATORS);
    var seen: set<Text> := {};
    result := [];
    var i := 0;
    while i < |fields|
      invariant 0 <= i <= |fields|
      invariant result == Collect(Normals(fields[..i]))
      invariant forall h :: h in seen <==> h in result
    {
      var h := Normalize(fields[i]);
      CollectStep(Normalize, fields, i);
      if h != [] {
        if h !in seen {
          seen := seen + {h};
          result := result + [h];
        }
      }
      i := i + 1;
    }
    assert fields[..i] == fields;
    CollectIsComplete(Normals(fields), []);
    forall h ensures h in result <==> h != [] && h in Normals(fields) {
      CollectIsComplete(Normals(fields), h);
    }
  }
}
