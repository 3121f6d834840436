/**
 From the page's fields to the stored list, on to the command line, and back to
 the client's list.
 */
module HashTrip {
  import opened HashLinks
  import opened HashPage
  import opened HashRules
  import opened HashStore
  import opened Texts

  // ---------------------------------------------------------------------
  // The command line
  // ---------------------------------------------------------------------

  function CommaForSpace(s: Text): (r: Text)
    ensures |r| == |s| && forall i :: 0 <= i < |s| ==> r[i] == if s[i] == ' ' then ',' else s[i]
  {
    seq(|s|, i requires 0 <= i < |s| => if s[i] == ' ' then ',' else s[i])
  }

  /** Runs of commas become one. */
  function Squeeze(s: Text): Text {
    if s == [] then []
    else if |s| >= 2 && s[0] == ',' && s[1] == ',' then Squeeze(s[1..])
    else [s[0]] + Squeeze(s[1..])
  }

  /** One comma at the start and one at the end are dropped. */
  function Stripped(s: Text): Text {
    var t := if s != [] && s[0] == ',' then s[1..] else s;
    if t != [] && t[|t| - 1] == ',' then t[..|t| - 1] else t
  }

  /** The value that the start-up script makes of the stored list, which it gets with spaces in between. */
  function CommandLine(hashes: seq<Text>): Text {
    Stripped(Squeeze(CommaForSpace(Join(hashes, [' ']))))
  }

  /** Words that need no care on the command line. */
  ghost predicate Words(parts: seq<Text>) {
    forall i :: 0 <= i < |parts| ==> parts[i] != [] && Free(parts[i], [',', ' '])
  }

  lemma {:induction false} CommasForSpaces(parts: seq<Text>)
    requires Words(parts)
    ensures CommaForSpace(Join(parts, [' '])) == Join(parts, [','])
  {
    if |parts| >= 1 {
      assert CommaForSpace(parts[0]) == parts[0] by {
        assert forall k :: 0 <= k < |parts[0]| ==> parts[0][k] !in [',', ' '];
      }
    }
    if |parts| >= 2 {
      CommasForSpaces(parts[1..]);
      assert CommaForSpace(parts[0] + [' '] + Join(parts[1..], [' ']))
          == CommaForSpace(parts[0]) + [','] + CommaForSpace(Join(parts[1..], [' ']));
    }
  }

  ghost predicate NoRuns(s: Text) {
    forall i, j :: 0 <= i < |s| && 0 <= j < |s| && j == i + 1 ==> s[i] != ',' || s[j] != ','
  }

  lemma {:induction false} NothingToSqueeze(s: Text)
    requires NoRuns(s)
    ensures Squeeze(s) == s
  {
    if s != [] {
      assert NoRuns(s[1..]) by {
        assert forall i :: 0 <= i < |s[1..]| ==> s[1..][i] == s[i + 1];
      }
      NothingToSqueeze(s[1..]);
      assert s == [s[0]] + s[1..];
    }
  }

  /** A joined list starts and ends with a word, and never has two commas in a row. */
  lemma {:induction false} JoinedWords(parts: seq<Text>)
    requires Words(parts) && parts != []
    ensures var s := Join(parts, [',']); NoRuns(s) && s != [] && s[0] != ',' && s[|s| - 1] != ','
  {
    var word := parts[0];
    assert forall k :: 0 <= k < |word| ==> word[k] !in [',', ' '];
    assert forall k :: 0 <= k < |word| ==> word[k] != ',';
    if |parts| >= 2 {
      JoinedWords(parts[1..]);
      JoinKeepsNoRuns(word, Join(parts[1..], [',']));
    }
  }

  lemma JoinKeepsNoRuns(word: Text, rest: Text)
    requires word != [] && rest != [] && NoRuns(rest) && rest[0] != ','
             && forall k :: 0 <= k < |word| ==> word[k] != ','
    ensures NoRuns(word + [','] + rest) && (word + [','] + rest)[0] != ','
    ensures (word + [','] + rest)[|word + [','] + rest| - 1] == rest[|rest| - 1]
  {
    var s := word + [','] + rest;
    forall i, j | 0 <= i < |s| && 0 <= j < |s| && j == i + 1 ensures s[i] != ',' || s[j] != ',' {
      if i > |word| {
        assert s[i] == rest[i - |word| - 1] && s[j] == rest[j - |word| - 1];
      }
    }
  }

  /** On the command line, words are separated by single commas. */
  lemma CommandLineIsJoin(parts: seq<Text>)
    requires Words(parts)
    ensures CommandLine(parts) == Join(parts, [','])
  {
    CommasForSpaces(parts);
    if parts == [] {
    } else {
      JoinedWords(parts);
      NothingToSqueeze(Join(parts, [',']));
    }
  }

  // ---------------------------------------------------------------------
  // What is stored needs no care on the command line
  // ---------------------------------------------------------------------

  lemma {:induction false} FieldsAreFree(s: Text, k: nat)
    requires k < |Fields(s, SEPARATORS)|
    ensures Free(Fields(s, SEPARATORS)[k], SEPARATORS) && Fields(s, SEPARATORS)[k] != []
    decreases |s|
  {
    if s[0] in SEPARATORS {
      FieldsAreFree(s[1..], k);
    } else {
      RunMeans(s, SEPARATORS);
      if k > 0 {
        FieldsAreFree(s[Run(s, SEPARATORS)..], k - 1);
      }
    }
  }

  lemma TrimIsSlice(s: Text, cut: Text) returns (i: nat, j: nat)
    ensures i <= j <= |s| && Trim(s, cut) == s[i..j]
  {
    TrimLeftIsSuffix(s, cut);
    var left := TrimLeft(s, cut);
    TrimRightIsPrefix(left, cut);
    i := |s| - |left|;
    j := i + |Trim(s, cut)|;
  }

  lemma TrimKeepsFree(s: Text, cut: Text)
    requires Free(s, SEPARATORS)
    ensures Free(Trim(s, cut), SEPARATORS)
  {
    var i, j := TrimIsSlice(s, cut);
  }

  lemma TailKeepsFree(s: Text)
    requires Free(s, SEPARATORS)
    ensures Free(Tail(s), SEPARATORS)
  {
    var cut := IndexAny(s, ENDS);
    var t := if cut >= 0 then s[..cut] else s;
    TrimKeepsFree(t, SPACE);
    TrimKeepsFree(Trim(t, SPACE), SLASH);
  }

  /** What a text reduces to is the tail of some end of it, once trimmed. */
  lemma NormalizeIsTail(t: Text) returns (k: nat)
    ensures k <= |Trim(Trim(t, SPACE), QUOTES)|
    ensures Normalize(t) == [] || Normalize(t) == Tail(Trim(Trim(t, SPACE), QUOTES)[k..])
  {
    k := ReducedIsTail(Trim(Trim(t, SPACE), QUOTES));
  }

  lemma ReducedIsTail(s: Text) returns (k: nat)
    ensures k <= |s| && (Reduced(s) == [] || Reduced(s) == Tail(s[k..]))
  {
    var idx := Index(Lower(s), MARKER);
    k := if idx >= 0 then idx + |MARKER| else 0;
    assert s[0..] == s;
  }

  /** Reducing a piece brings no separator into it. */
  lemma NormalizeKeepsFree(t: Text)
    requires Free(t, SEPARATORS)
    ensures Free(Normalize(t), SEPARATORS)
  {
    TrimKeepsFree(t, SPACE);
    TrimKeepsFree(Trim(t, SPACE), QUOTES);
    var k := NormalizeIsTail(t);
    TailKeepsFree(Trim(Trim(t, SPACE), QUOTES)[k..]);
  }

  lemma {:induction false} AllFieldsAreFree(entries: seq<Text>, k: nat)
    requires k < |AllFields(entries, SEPARATORS)|
    ensures Free(AllFields(entries, SEPARATORS)[k], SEPARATORS)
  {
    var n := |Fields(entries[0], SEPARATORS)|;
    if k < n {
      FieldsAreFree(entries[0], k);
    } else {
      AllFieldsAreFree(entries[1..], k - n);
    }
  }

  /** Parts that are words and hold no separator either. */
  ghost predicate Clean(parts: seq<Text>) {
    forall i :: 0 <= i < |parts| ==> parts[i] != [] && Free(parts[i], SEPARATORS)
  }

  /** Whatever was entered, the stored list is clean. */
  lemma StoredIsClean(entries: seq<Text>, names: set<Text>)
    ensures Clean(Stored(entries, names))
  {
    var stored := Stored(entries, names);
    forall i | 0 <= i < |stored| ensures stored[i] != [] && Free(stored[i], SEPARATORS) {
      StoredIsKept(entries, names);
      KeptMembers(Pieces(entries), names, stored[i]);
      var t := NormalOf(AllFields(entries, SEPARATORS), stored[i]);
      var k: nat :| k < |AllFields(entries, SEPARATORS)| && AllFields(entries, SEPARATORS)[k] == t;
      AllFieldsAreFree(entries, k);
      NormalizeKeepsFree(t);
    }
  }

  lemma CleanIsWords(parts: seq<Text>)
    requires Clean(parts)
    ensures Words(parts)
  {
    forall i | 0 <= i < |parts| ensures Free(parts[i], [',', ' ']) {
      assert Free(parts[i], SEPARATORS);
    }
  }

  /** The client reduces each member of a clean list once more. */
  lemma ClientReadsTheList(stored: seq<Text>)
    requires Clean(stored)
    ensures Parsed(CommandLine(stored)) == Collect(Normals(stored))
  {
    CleanIsWords(stored);
    CommandLineIsJoin(stored);
    FieldsOfJoin(stored, ',', SEPARATORS);
    FieldsOfParts(stored, SEPARATORS);
  }

  // ---------------------------------------------------------------------
  // The trip
  // ---------------------------------------------------------------------

  lemma NothingIsReduced()
    ensures Normalize([]) == []
  {}

  /** What becomes of a piece: the page drops inherited names, and f is done to the rest. */
  function Hiding(f: Text -> Text, names: set<Text>): Text -> Text {
    h => if h in names then [] else f(h)
  }

  lemma {:induction false} CollectTwice(f: Text -> Text, ns: seq<Text>, names: set<Text>)
    requires f([]) == []
    ensures Collect(Map(f, Kept(ns, names))) == Collect(Map(Hiding(f, names), ns))
  {
    if ns != [] {
      var front, x := ns[..|ns| - 1], ns[|ns| - 1];
      assert ns == front + [x];
      CollectTwice(f, front, names);
      AddOne(front, names, x);
      MapGrows(Hiding(f, names), front, x);
      CollectGrows(Map(Hiding(f, names), front), Hiding(f, names)(x));
      OnceMore(f, Kept(front, names), x);
    }
  }

  /** A member that is there already adds nothing, a new one what f makes of it. */
  lemma OnceMore(f: Text -> Text, kept: seq<Text>, x: Text)
    ensures x in kept ==> f(x) == [] || f(x) in Collect(Map(f, kept))
    ensures Collect(Map(f, kept + [x]))
         == if f(x) == [] || f(x) in Collect(Map(f, kept)) then Collect(Map(f, kept))
            else Collect(Map(f, kept)) + [f(x)]
  {
    MapGrows(f, kept, x);
    CollectGrows(Map(f, kept), f(x));
    CollectIsComplete(Map(f, kept), f(x));
    if x in kept {
      var k: nat :| k < |kept| && kept[k] == x;
      MapAt(f, kept, k);
    }
  }

  /** From the page's fields to the client's list: the pieces, each reduced twice. */
  lemma TripIsTwice(entries: seq<Text>, names: set<Text>)
    ensures Parsed(CommandLine(Stored(entries, names))) == Collect(Map(Hiding(Normalize, names), Pieces(entries)))
  {
    StoredIsClean(entries, names);
    StoredIsKept(entries, names);
    ClientReadsTheList(Stored(entries, names));
    NothingIsReduced();
    CollectTwice(Normalize, Pieces(entries), names);
  }

  /**
   What the client gets from the page's fields is a given list of different hashes
   exactly when the pieces, each reduced twice, spell it.
   */
  lemma HashesSurviveTheTrip(entries: seq<Text>, hashes: seq<Text>, names: set<Text>)
    requires Askable(hashes, {})
    ensures Parsed(CommandLine(Stored(entries, names))) == hashes
       <==> Spells(Map(Hiding(Normalize, names), Pieces(entries)), hashes, {})
  {
    var ns := Map(Hiding(Normalize, names), Pieces(entries));
    TripIsTwice(entries, names);
    VisibleIsAll(Collect(ns), {});
    SpellsExactly(ns, hashes, {});
  }

  /** Different valid hashes are read back from the command line as they are stored. */
  lemma ClientReadsTheHashes(hashes: seq<Text>)
    requires NoDuplicates(hashes) && forall i :: 0 <= i < |hashes| ==> ValidHash(hashes[i])
    ensures Parsed(CommandLine(hashes)) == hashes
  {
    forall i | 0 <= i < |hashes|
      ensures hashes[i] != [] && Free(hashes[i], SEPARATORS) && Normals(hashes)[i] == hashes[i]
    {
      HashHasNoEnds(hashes[i]);
      MapAt(Normalize, hashes, i);
      BareIsItself(hashes[i]);
    }
    ClientReadsTheList(hashes);
    assert Normals(hashes) == hashes;
    NothingToCollect(hashes);
  }

  /** Entries that store different valid hashes, each just its own, arrive as these. */
  lemma OwnHashesArrive(entries: seq<Text>, hashes: seq<Text>, names: set<Text>)
    requires EachItsOwn(entries, hashes, names) && NoDuplicates(hashes)
    requires forall i :: 0 <= i < |hashes| ==> ValidHash(hashes[i])
    ensures Stored(entries, names) == hashes && Parsed(CommandLine(Stored(entries, names))) == hashes
  {
    EntriesAreStored(entries, hashes, names);
    ClientReadsTheHashes(hashes);
  }
}
