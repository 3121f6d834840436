/**
 What the page stores for the entries of its fields. Entries are split before they
 are normalised, so an entry stores the hash that it reduces to only if its other
 pieces reduce to nothing else.
 */
module HashStore {
  import opened HashLinks
  import opened HashPage
  import opened HashRules
  import opened Texts

  /** What the pieces of the entries stand for, one after another. */
  function Pieces(entries: seq<Text>): seq<Text> {
    Normals(AllFields(entries, SEPARATORS))
  }

  /**
   The list that the page stores, on which every object answers to those names. With
   no names it is the client's list.
   */
  function Stored(entries: seq<Text>, names: set<Text>): seq<Text> {
    Visible(Parsed(Join(entries, [','])), names)
  }

  /** The different non-empty hashes without those names, in order of first appearance. */
  function Kept(hs: seq<Text>, names: set<Text>): seq<Text> {
    Visible(Collect(hs), names)
  }

  /** What is stored depends only on the pieces. */
  lemma StoredIsKept(entries: seq<Text>, names: set<Text>)
    ensures Stored(entries, names) == Kept(Pieces(entries), names)
    ensures Stored(entries, {}) == Parsed(Join(entries, [',']))
  {
    FieldsOfJoin(entries, ',', SEPARATORS);
    VisibleIsAll(Collect(Pieces(entries)), {});
  }

  // ---------------------------------------------------------------------
  // Which pieces give which list
  // ---------------------------------------------------------------------

  /** The piece at p is a member of hs, and the members before it have appeared already. */
  ghost predicate InTurn(ns: seq<Text>, p: nat, hs: seq<Text>)
    requires p < |ns|
  {
    exists k :: 0 <= k < |hs| && hs[k] == ns[p] && AllAppeared(ns[..p], hs[..k])
  }

  ghost predicate AllAppeared(ns: seq<Text>, hs: seq<Text>) {
    forall j :: 0 <= j < |hs| ==> hs[j] in ns
  }

  /** All of hs appear, in this order for the first time, and nothing else does that is not ignored. */
  ghost predicate Spells(ns: seq<Text>, hs: seq<Text>, names: set<Text>) {
    && AllAppeared(ns, hs)
    && forall p: nat :: p < |ns| && ns[p] != [] && ns[p] !in names ==> InTurn(ns, p, hs)
  }

  lemma KeptMembers(ns: seq<Text>, names: set<Text>, h: Text)
    ensures h in Kept(ns, names) <==> h in ns && h != [] && h !in names
  {
    CollectIsComplete(ns, h);
    VisibleMembers(Collect(ns), names, h);
  }

  lemma KeptStep(ns: seq<Text>, names: set<Text>, m: nat)
    requires m < |ns|
    ensures var out := Kept(ns[..m], names);
            Kept(ns[..m + 1], names) == if ns[m] == [] || ns[m] in out || ns[m] in names then out else out + [ns[m]]
  {
    assert ns[..m + 1] == ns[..m] + [ns[m]];
    AddOne(ns[..m], names, ns[m]);
  }

  /** Hashes that can be asked for. */
  ghost predicate Askable(hs: seq<Text>, names: set<Text>) {
    NoDuplicates(hs) && forall k :: 0 <= k < |hs| ==> hs[k] != [] && hs[k] !in names
  }

  /** As long as the pieces come in turn, what is kept so far is the front of hs. */
  lemma {:induction false} InTurnKeepsFront(ns: seq<Text>, hs: seq<Text>, names: set<Text>, m: nat) returns (c: nat)
    requires Askable(hs, names) && m <= |ns|
    requires forall p: nat :: p < |ns| && ns[p] != [] && ns[p] !in names ==> InTurn(ns, p, hs)
    ensures c <= |hs| && Kept(ns[..m], names) == hs[..c]
  {
    if m == 0 {
      c := 0;
    } else {
      c := InTurnKeepsFront(ns, hs, names, m - 1);
      KeptStep(ns, names, m - 1);
      var x := ns[m - 1];
      if x != [] && x !in names && x !in hs[..c] {
        NextInTurn(ns, hs, names, m - 1, c);
        c := c + 1;
      }
    }
  }

  lemma AppearedAt(ns: seq<Text>, hs: seq<Text>, k: nat, c: nat)
    requires c < k <= |hs| && AllAppeared(ns, hs[..k])
    ensures hs[c] in ns
  {
    assert hs[..k][c] == hs[c];
  }

  lemma InFront(hs: seq<Text>, k: nat, c: nat)
    requires k < c <= |hs|
    ensures hs[k] in hs[..c]
  {
    assert hs[..c][k] == hs[k];
  }

  lemma NotInFront(hs: seq<Text>, c: nat)
    requires NoDuplicates(hs) && c < |hs|
    ensures hs[c] !in hs[..c]
  {}

  /** A new piece that comes in turn is the next of hs. */
  lemma NextInTurn(ns: seq<Text>, hs: seq<Text>, names: set<Text>, p: nat, c: nat)
    requires Askable(hs, names) && p < |ns| && InTurn(ns, p, hs)
    requires c <= |hs| && Kept(ns[..p], names) == hs[..c] && ns[p] !in hs[..c]
    ensures c < |hs| && ns[p] == hs[c] && hs[..c + 1] == hs[..c] + [ns[p]]
  {
    var k: nat :| k < |hs| && hs[k] == ns[p] && AllAppeared(ns[..p], hs[..k]);
    if k < c {
      InFront(hs, k, c);
    } else if c < k {
      AppearedAt(ns[..p], hs, k, c);
      KeptMembers(ns[..p], names, hs[c]);
      NotInFront(hs, c);
    }
  }

  /** What is kept at first stays at the front. */
  lemma {:induction false} KeptGrows(ns: seq<Text>, names: set<Text>, p: nat, q: nat)
    requires p <= q <= |ns|
    ensures Kept(ns[..p], names) <= Kept(ns[..q], names)
    decreases q
  {
    if p < q {
      KeptGrows(ns, names, p, q - 1);
      KeptStepGrows(ns, names, q - 1);
      PrefixChain(Kept(ns[..p], names), Kept(ns[..q - 1], names), Kept(ns[..q], names));
    }
  }

  lemma KeptStepGrows(ns: seq<Text>, names: set<Text>, m: nat)
    requires m < |ns|
    ensures Kept(ns[..m], names) <= Kept(ns[..m + 1], names)
  {
    KeptStep(ns, names, m);
  }

  lemma PrefixChain(a: seq<Text>, b: seq<Text>, c: seq<Text>)
    requires a <= b && b <= c
    ensures a <= c
  {}

  /** A piece that is kept comes in turn. */
  lemma KeptComesInTurn(ns: seq<Text>, names: set<Text>, p: nat)
    requires p < |ns| && ns[p] != [] && ns[p] !in names
    ensures InTurn(ns, p, Kept(ns, names))
  {
    var hs, now, next := Kept(ns, names), Kept(ns[..p], names), Kept(ns[..p + 1], names);
    assert ns[..|ns|] == ns;
    KeptGrows(ns, names, p, |ns|);
    KeptGrows(ns, names, p + 1, |ns|);
    KeptStep(ns, names, p);
    assert ns[p] in next;
    var k :| 0 <= k < |next| && next[k] == ns[p] && k <= |now|;
    assert hs[k] == ns[p];
    forall j | 0 <= j < k ensures hs[..k][j] in ns[..p] {
      assert now[j] == hs[j];
      KeptMembers(ns[..p], names, now[j]);
    }
    assert AllAppeared(ns[..p], hs[..k]);
  }

  /** The pieces give exactly this list if and only if they spell it. */
  lemma SpellsExactly(ns: seq<Text>, hs: seq<Text>, names: set<Text>)
    requires Askable(hs, names)
    ensures Kept(ns, names) == hs <==> Spells(ns, hs, names)
  {
    if Kept(ns, names) == hs {
      forall j | 0 <= j < |hs| ensures hs[j] in ns {
        KeptMembers(ns, names, hs[j]);
      }
      forall p: nat | p < |ns| && ns[p] != [] && ns[p] !in names ensures InTurn(ns, p, hs) {
        KeptComesInTurn(ns, names, p);
      }
    }
    if Spells(ns, hs, names) {
      var c := InTurnKeepsFront(ns, hs, names, |ns|);
      assert ns[..|ns|] == ns;
      if c < |hs| {
        KeptMembers(ns, names, hs[c]);
        NotInFront(hs, c);
      }
      assert hs[..|hs|] == hs;
    }
  }

  /**
   The page stores a list of different hashes for the entries exactly when the
   pieces of the entries spell it.
   */
  lemma PageStoresTheHashes(entries: seq<Text>, hashes: seq<Text>, names: set<Text>)
    requires Askable(hashes, names)
    ensures Stored(entries, names) == hashes <==> Spells(Pieces(entries), hashes, names)
  {
    StoredIsKept(entries, names);
    SpellsExactly(Pieces(entries), hashes, names);
  }

  // ---------------------------------------------------------------------
  // One entry
  // ---------------------------------------------------------------------

  /** Every piece is h, empty or one of the names. */
  ghost predicate NothingBut(ns: seq<Text>, h: Text, names: set<Text>) {
    forall x :: x in ns ==> x == [] || x == h || x in names
  }

  lemma SpellsOne(ns: seq<Text>, h: Text, names: set<Text>)
    ensures Spells(ns, [h], names) <==> h in ns && NothingBut(ns, h, names)
  {
    if h in ns && NothingBut(ns, h, names) {
      forall p: nat | p < |ns| && ns[p] != [] && ns[p] !in names ensures InTurn(ns, p, [h]) {
        assert ns[p] in ns;
        assert [h][0] == ns[p] && AllAppeared(ns[..p], [h][..0]);
      }
      assert AllAppeared(ns, [h]);
    }
    if Spells(ns, [h], names) {
      assert [h][0] in ns;
      forall x | x in ns ensures x == [] || x == h || x in names {
        var p: nat :| p < |ns| && ns[p] == x;
        assert x != [] && x !in names ==> InTurn(ns, p, [h]);
      }
    }
  }

  /**
   For one field the page stores just h exactly when one of its pieces stands for h
   and the others for nothing else, or for a name that the page drops.
   */
  lemma EntryIsItsHash(entry: Text, h: Text, names: set<Text>)
    requires h != [] && h !in names
    ensures Stored([entry], names) == [h] <==> h in Pieces([entry]) && NothingBut(Pieces([entry]), h, names)
  {
    PageStoresTheHashes([entry], [h], names);
    SpellsOne(Pieces([entry]), h, names);
  }

  /** The client drops no names. */
  lemma ClientReadsOneEntry(entry: Text, h: Text)
    requires h != []
    ensures Parsed(entry) == [h] <==> h in Pieces([entry]) && NothingBut(Pieces([entry]), h, {})
  {
    EntryIsItsHash(entry, h, {});
    StoredIsKept([entry], {});
  }

  /**
   A field that passes the page's check, because as a whole it reduces to a valid
   hash, is stored as that hash under just this condition.
   */
  lemma CheckedFieldIsStored(entry: Text, names: set<Text>)
    requires ValidHash(Normalize(entry)) && Normalize(entry) !in names
    ensures var h := Normalize(entry);
            Stored([entry], names) == [h] <==> h in Pieces([entry]) && NothingBut(Pieces([entry]), h, names)
  {
    EntryIsItsHash(entry, Normalize(entry), names);
  }

  lemma OneEntry(entry: Text)
    ensures Pieces([entry]) == Normals(Fields(entry, SEPARATORS))
  {
    assert AllFields([entry][1..], SEPARATORS) == [];
    assert AllFields([entry], SEPARATORS) == Fields(entry, SEPARATORS);
  }

  /** A field that an entry is the only piece of, with separators around it. */
  lemma {:induction false} FieldsOfPadded(lead: Text, core: Text, trail: Text)
    requires Only(lead, SEPARATORS) && core != [] && Free(core, SEPARATORS) && Only(trail, SEPARATORS)
    ensures Fields(lead + core + trail, SEPARATORS) == [core]
  {
    if lead == [] {
      assert lead + core + trail == core + trail;
      FieldsOfTrailed(core, trail);
    } else {
      assert (lead + core + trail)[1..] == lead[1..] + core + trail;
      FieldsOfPadded(lead[1..], core, trail);
    }
  }

  lemma FieldsOfTrailed(core: Text, trail: Text)
    requires core != [] && Free(core, SEPARATORS) && Only(trail, SEPARATORS)
    ensures Fields(core + trail, SEPARATORS) == [core]
  {
    if trail == [] {
      assert core + trail == core;
      FieldsOfLast(core, SEPARATORS);
    } else {
      assert core + trail == core + [trail[0]] + trail[1..];
      FieldsOfPiece(core, trail[0], trail[1..], SEPARATORS);
      OnlySeparators(trail[1..]);
    }
  }

  lemma {:induction false} OnlySeparators(s: Text)
    requires Only(s, SEPARATORS)
    ensures Fields(s, SEPARATORS) == []
  {
    if s != [] {
      OnlySeparators(s[1..]);
    }
  }

  lemma NormalsOfOne(t: Text)
    ensures Normals([t]) == [Normalize(t)]
  {
    assert [] + [t] == [t];
    MapGrows(Normalize, [], t);
  }

  /** An entry of one piece, with separators around it or not, gives the hash that the piece stands for. */
  lemma PaddedEntryIsItsHash(lead: Text, core: Text, trail: Text, names: set<Text>)
    requires Only(lead, SEPARATORS) && core != [] && Free(core, SEPARATORS) && Only(trail, SEPARATORS)
    requires Normalize(core) != [] && Normalize(core) !in names
    ensures Stored([lead + core + trail], names) == [Normalize(core)]
  {
    var h := Normalize(core);
    FieldsOfPadded(lead, core, trail);
    OneEntry(lead + core + trail);
    NormalsOfOne(core);
    EntryIsItsHash(lead + core + trail, h, names);
  }

  // ---------------------------------------------------------------------
  // A link and what follows it
  // ---------------------------------------------------------------------

  /** What comes after the first separator. */
  function AfterSeparator(s: Text): Text {
    if Run(s, SEPARATORS) < |s| then s[Run(s, SEPARATORS) + 1..] else []
  }

  lemma FieldsAfterSeparator(front: Text, sep: AsciiChar, s: Text)
    requires sep in SEPARATORS
    ensures Fields(front + [sep] + s, SEPARATORS) == Fields(front + [sep], SEPARATORS) + Fields(s, SEPARATORS)
  {
    FieldsSplit(front, sep, s, SEPARATORS);
    FieldsSplit(front, sep, [], SEPARATORS);
    assert front + [sep] + [] == front + [sep];
  }

  /** Fields do not reach across a separator. */
  lemma FieldsAfterLead(lead: Text, s: Text)
    requires lead == [] || lead[|lead| - 1] in SEPARATORS
    ensures Fields(lead + s, SEPARATORS) == Fields(lead, SEPARATORS) + Fields(s, SEPARATORS)
  {
    if lead == [] {
      assert lead + s == s;
    } else {
      FieldsAfterSeparator(lead[..|lead| - 1], lead[|lead| - 1], s);
      assert lead == lead[..|lead| - 1] + [lead[|lead| - 1]];
    }
  }

  /** The first piece of a text, up to its first separator. */
  lemma FieldsOfFirst(piece: Text, rest: Text)
    requires piece != [] && Free(piece, SEPARATORS)
    ensures Fields(piece + rest, SEPARATORS)
         == [piece + rest[..Run(rest, SEPARATORS)]] + Fields(AfterSeparator(rest), SEPARATORS)
  {
    var n := Run(rest, SEPARATORS);
    var first := piece + rest[..n];
    RunMeans(rest, SEPARATORS);
    if n == |rest| {
      assert first == piece + rest;
      FieldsOfLast(first, SEPARATORS);
    } else {
      assert piece + rest == first + [rest[n]] + rest[n + 1..];
      FieldsOfPiece(first, rest[n], rest[n + 1..], SEPARATORS);
    }
  }

  lemma MarkerIsFree(marker: Text)
    requires Lower(marker) == MARKER
    ensures Free(marker, SEPARATORS)
  {
    forall k | 0 <= k < |marker| ensures marker[k] !in SEPARATORS {
      assert Lower(marker)[k] == LowerChar(marker[k]);
      MarkerCharacter(marker[k], k);
    }
  }

  lemma MarkerCharacter(c: AsciiChar, k: nat)
    requires k < |MARKER| && LowerChar(c) == MARKER[k]
    ensures c !in SEPARATORS
  {}

  /** A link up to its hash is one piece, to which the suffix adds nothing that counts. */
  lemma LinkPiece(before: Text, marker: Text, h: Text, rest: Text)
    requires ValidHash(h) && IsLink(before, marker, rest) && Free(before, SEPARATORS)
    ensures Free(before + (marker + h), SEPARATORS)
    ensures Normalize(before + (marker + h) + rest[..Run(rest, SEPARATORS)]) == h
  {
    MarkerIsFree(marker);
    HashHasNoEnds(h);
    var n := Run(rest, SEPARATORS);
    EndsAreNoSeparators(rest);
    LinkIsItsHash(before, marker, h, rest[..n]);
  }

  lemma EndsAreNoSeparators(rest: Text)
    requires rest == [] || rest[0] in ENDS
    ensures var n := Run(rest, SEPARATORS); rest[..n] == [] || rest[..n][0] in ENDS
  {}

  /** The pieces of a link with separators in front of it: what is there, the hash, and what follows the suffix. */
  lemma LinkPieces(lead: Text, before: Text, marker: Text, h: Text, rest: Text)
    requires lead == [] || lead[|lead| - 1] in SEPARATORS
    requires ValidHash(h) && IsLink(before, marker, rest) && Free(before, SEPARATORS)
    ensures Pieces([lead + (before + (marker + h) + rest)])
         == Pieces([lead]) + [h] + Pieces([AfterSeparator(rest)])
  {
    var link, tail := before + (marker + h), AfterSeparator(rest);
    var first := link + rest[..Run(rest, SEPARATORS)];
    OneEntry(lead + (link + rest));
    OneEntry(lead);
    OneEntry(tail);
    LinkPiece(before, marker, h, rest);
    FieldsAfterLead(lead, link + rest);
    FieldsOfFirst(link, rest);
    MapThree(Fields(lead, SEPARATORS), first, Fields(tail, SEPARATORS));
  }

  lemma MapThree(a: seq<Text>, t: Text, b: seq<Text>)
    ensures Normals(a + ([t] + b)) == Normals(a) + [Normalize(t)] + Normals(b)
  {
    MapAppend(Normalize, a, [t] + b);
    MapAppend(Normalize, [t], b);
    NormalsOfOne(t);
    Associate(Normals(a), [Normalize(t)], Normals(b));
  }

  /**
   For a link the page stores just its hash exactly when what stands before it, and
   what follows the first separator in its suffix, stands for nothing else, or for a
   name that the page drops.
   */
  lemma LinkStoresItsHash(lead: Text, before: Text, marker: Text, h: Text, rest: Text, names: set<Text>)
    requires lead == [] || lead[|lead| - 1] in SEPARATORS
    requires ValidHash(h) && IsLink(before, marker, rest) && Free(before, SEPARATORS) && h !in names
    ensures Stored([lead + (before + (marker + h) + rest)], names) == [h]
       <==> NothingBut(Pieces([lead]), h, names) && NothingBut(Pieces([AfterSeparator(rest)]), h, names)
  {
    LinkPieces(lead, before, marker, h, rest);
    EntryIsItsHash(lead + (before + (marker + h) + rest), h, names);
    NothingButParts(Pieces([lead]), h, Pieces([AfterSeparator(rest)]), names);
  }

  lemma NothingButParts(a: seq<Text>, h: Text, b: seq<Text>, names: set<Text>)
    ensures NothingBut(a + [h] + b, h, names) <==> NothingBut(a, h, names) && NothingBut(b, h, names)
    ensures h in a + [h] + b
  {
    var s := a + [h] + b;
    forall x ensures x in s <==> x in a || x == h || x in b {
      assert x in a + [h] <==> x in a || x == h;
    }
  }

  /** A link whose suffix holds no separator, with separators in front of it or not, gives just its hash. */
  lemma PlainLinkStoresItsHash(lead: Text, before: Text, marker: Text, h: Text, rest: Text, names: set<Text>)
    requires Only(lead, SEPARATORS) && ValidHash(h) && IsLink(before, marker, rest) && h !in names
    requires Free(before, SEPARATORS) && Free(rest, SEPARATORS)
    ensures Stored([lead + (before + (marker + h) + rest)], names) == [h]
  {
    RunMeans(rest, SEPARATORS);
    OnlySeparators(lead);
    OneEntry(lead);
    OneEntry([]);
    assert AfterSeparator(rest) == [];
    LinkStoresItsHash(lead, before, marker, h, rest, names);
  }

  /** A hash or link in quotes or brackets, with separators around it, gives just its hash. */
  lemma WrappedEntryIsItsHash(lead: Text, open: Text, x: Text, close: Text, trail: Text, names: set<Text>)
    requires Only(lead, SEPARATORS) && Only(open, QUOTES) && PlainEnds(x) && Free(x, SEPARATORS)
    requires Only(close, QUOTES) && Only(trail, SEPARATORS) && Normalize(x) != [] && Normalize(x) !in names
    ensures Stored([lead + (open + x + close) + trail], names) == [Normalize(x)]
  {
    var core := open + x + close;
    forall k | 0 <= k < |core| ensures core[k] !in SEPARATORS {
      if core[k] in QUOTES {
        QuotesAreNoBlanks(core[k]);
      }
    }
    WrappingIsDropped([], open, x, close, []);
    assert [] + core + [] == core;
    PaddedEntryIsItsHash(lead, core, trail, names);
  }

  // ---------------------------------------------------------------------
  // Where checking and storing part
  // ---------------------------------------------------------------------

  /** The usual link of h, with one more plain word behind a comma in its suffix. */
  function Trailing(h: Text, word: Text): Text {
    "https://vk.com" + ("/call/join/" + h) + Suffix(word)
  }

  function Suffix(word: Text): (s: Text)
    ensures s != [] && s[0] in ENDS
  {
    ['?', ','] + word
  }

  lemma SuffixPieces(word: Text)
    requires Plain(word)
    ensures Pieces([AfterSeparator(Suffix(word))]) == [word]
  {
    RunIs(Suffix(word), SEPARATORS, 1);
    assert Suffix(word)[2..] == word;
    PlainPieces(word);
  }

  lemma PlainPieces(h: Text)
    requires Plain(h)
    ensures Pieces([h]) == [h]
  {
    OneEntry(h);
    HashHasNoEnds(h);
    FieldsOfLast(h, SEPARATORS);
    NormalsOfOne(h);
    BareIsItself(h);
  }

  /** The pieces of a link that nothing stands before. */
  lemma BareLinkPieces(before: Text, marker: Text, h: Text, rest: Text)
    requires ValidHash(h) && IsLink(before, marker, rest) && Free(before, SEPARATORS)
    ensures Pieces([before + (marker + h) + rest]) == [h] + Pieces([AfterSeparator(rest)])
  {
    var link := before + (marker + h) + rest;
    assert [] + link == link;
    NoPieces();
    LinkPieces([], before, marker, h, rest);
    assert [] + [h] == [h];
  }

  lemma NoPieces()
    ensures Pieces([[]]) == []
  {
    OneEntry([]);
  }

  lemma TrailingPieces(h: Text, word: Text)
    requires ValidHash(h) && Plain(word)
    ensures Pieces([Trailing(h, word)]) == [h, word]
  {
    UsualLink(Suffix(word));
    BareLinkPieces("https://vk.com", "/call/join/", h, Suffix(word));
    SuffixPieces(word);
  }

  lemma TrailingPassesCheck(h: Text, word: Text)
    requires ValidHash(h)
    ensures Normalize(Trailing(h, word)) == h
  {
    UsualLink(Suffix(word));
    LinkIsItsHash("https://vk.com", "/call/join/", h, Suffix(word));
  }

  lemma KeptOfTwo(h: Text, word: Text, names: set<Text>)
    requires h != [] && h !in names && word != [] && word != h
    ensures Kept([h, word], names) == if word in names then [h] else [h, word]
  {
    KeptOfOne(h, names);
    KeptGrowsByOne([h], names, word);
    assert [h] + [word] == [h, word];
  }

  /** Such a field stores the word too, unless the page drops it. */
  lemma TrailingIsStored(h: Text, word: Text, names: set<Text>)
    requires ValidHash(h) && h !in names && Plain(word) && word != h
    ensures Stored([Trailing(h, word)], names) == if word in names then [h] else [h, word]
  {
    TrailingPieces(h, word);
    StoredIsKept([Trailing(h, word)], names);
    KeptOfTwo(h, word, names);
  }

  /**
   The page checks a field as a whole but stores its pieces: this field reduces to
   a valid hash, and two hashes are stored for it.
   */
  lemma CheckedFieldStoresTwo(h: Text, names: set<Text>)
    requires ValidHash(h) && h !in names && "b" !in names
    ensures ValidHash(Normalize(Trailing(h, "b"))) && Normalize(Trailing(h, "b")) == h
    ensures Stored([Trailing(h, "b")], names) == [h, "b"]
  {
    assert Plain("b");
    TrailingPassesCheck(h, "b");
    TrailingIsStored(h, "b", names);
  }

  lemma ConstructorIsPlain()
    ensures Plain("constructor") && |"constructor"| == 11
  {}

  /** What the page drops does no harm to it: here the page stores just the hash, and the client would read two. */
  lemma DroppedNameIsHarmless(h: Text, names: set<Text>)
    requires ValidHash(h) && h !in names && "constructor" in names
    ensures ValidHash(Normalize(Trailing(h, "constructor"))) && Normalize(Trailing(h, "constructor")) == h
    ensures Stored([Trailing(h, "constructor")], names) == [h]
    ensures Stored([Trailing(h, "constructor")], {}) == [h, "constructor"]
  {
    ConstructorIsPlain();
    DroppedWordIsHarmless(h, "constructor", names);
  }

  lemma DroppedWordIsHarmless(h: Text, word: Text, names: set<Text>)
    requires ValidHash(h) && h !in names && word in names && Plain(word)
    ensures Normalize(Trailing(h, word)) == h
    ensures Stored([Trailing(h, word)], names) == [h] && Stored([Trailing(h, word)], {}) == [h, word]
  {
    TrailingPassesCheck(h, word);
    TrailingIsStored(h, word, names);
    TrailingIsStored(h, word, {});
  }

  /** A hash that has the name of an inherited property is kept by the client and lost on the page. */
  lemma InheritedNameIsLost(name: Text, names: set<Text>)
    requires Plain(name) && name in names
    ensures Parsed(Join([name], [','])) == [name] && Stored([name], names) == []
  {
    PlainPieces(name);
    StoredIsKept([name], names);
    StoredIsKept([name], {});
    KeptOfOne(name, names);
    KeptOfOne(name, {});
  }

  lemma KeptOfOne(h: Text, names: set<Text>)
    ensures Kept([h], names) == if h == [] || h in names then [] else [h]
  {
    KeptGrowsByOne([], names, h);
    assert [] + [h] == [h];
  }

  /** For instance the name of the property that every JavaScript object inherits from its prototype. */
  lemma ConstructorIsLost(names: set<Text>)
    requires "constructor" in names
    ensures Parsed(Join(["constructor"], [','])) == ["constructor"]
    ensures Stored(["constructor"], names) == []
  {
    ConstructorIsPlain();
    InheritedNameIsLost("constructor", names);
  }

  // ---------------------------------------------------------------------
  // Lists of entries
  // ---------------------------------------------------------------------

  lemma KeptGrowsByOne(hs: seq<Text>, names: set<Text>, h: Text)
    ensures Kept(hs + [h], names)
         == if h == [] || h in Kept(hs, names) || h in names then Kept(hs, names) else Kept(hs, names) + [h]
  {
    AddOne(hs, names, h);
  }

  lemma NothingButFront(front: seq<Text>, last: Text, b: seq<Text>, h: Text, names: set<Text>)
    requires b == front + [last] && NothingBut(b, h, names)
    ensures NothingBut(front, h, names) && (last == [] || last == h || last in names)
    ensures h in b <==> h in front || last == h
  {
    assert last in b && forall x :: x in front ==> x in b;
  }

  lemma KeepLast(a: seq<Text>, front: seq<Text>, last: Text, h: Text, names: set<Text>)
    requires h != [] && h !in names && h !in Kept(a, names) && (last == [] || last == h || last in names)
    requires Kept(a + front, names) == Kept(a, names) + if h in front then [h] else []
    ensures Kept(a + front + [last], names) == Kept(a, names) + if h in front || last == h then [h] else []
  {
    KeptGrowsByOne(a + front, names, last);
  }

  /** More pieces that stand for one new hash add just that. */
  lemma {:induction false} KeepOneMore(a: seq<Text>, b: seq<Text>, h: Text, names: set<Text>)
    requires h != [] && h !in names && h !in Kept(a, names) && NothingBut(b, h, names)
    ensures Kept(a + b, names) == Kept(a, names) + if h in b then [h] else []
  {
    if b == [] {
      assert a + b == a;
    } else {
      var front, last := b[..|b| - 1], b[|b| - 1];
      NothingButFront(front, last, b, h, names);
      KeepOneMore(a, front, h, names);
      KeepLast(a, front, last, h, names);
      assert a + b == a + front + [last];
    }
  }

  lemma PiecesGrow(entries: seq<Text>, e: Text)
    ensures Pieces(entries + [e]) == Pieces(entries) + Pieces([e])
  {
    AllFieldsGrows(entries, e);
    OneEntry(e);
    MapAppend(Normalize, AllFields(entries, SEPARATORS), Fields(e, SEPARATORS));
  }

  /** For each entry alone just its own hash would be stored. */
  ghost predicate EachItsOwn(entries: seq<Text>, hashes: seq<Text>, names: set<Text>) {
    |entries| == |hashes| && forall i :: 0 <= i < |hashes| ==> Stored([entries[i]], names) == [hashes[i]]
  }

  lemma OwnPieces(entry: Text, h: Text, names: set<Text>)
    requires Stored([entry], names) == [h]
    ensures h != [] && h !in names && h in Pieces([entry]) && NothingBut(Pieces([entry]), h, names)
  {
    StoredIsKept([entry], names);
    KeptMembers(Pieces([entry]), names, h);
    EntryIsItsHash(entry, h, names);
  }

  lemma OneEntryMore(front: seq<Text>, e: Text, hs: seq<Text>, h: Text, names: set<Text>)
    requires Stored(front, names) == hs && Stored([e], names) == [h] && h !in hs
    ensures Stored(front + [e], names) == hs + [h]
  {
    OwnPieces(e, h, names);
    PiecesGrow(front, e);
    StoredIsKept(front, names);
    StoredIsKept(front + [e], names);
    KeepOneMore(Pieces(front), Pieces([e]), h, names);
  }

  lemma TakeOneMore(s: seq<Text>, n: nat)
    requires n < |s|
    ensures s[..n + 1] == s[..n] + [s[n]]
  {}

  lemma NothingIsStored(names: set<Text>)
    ensures Stored([], names) == []
  {
    StoredIsKept([], names);
  }

  lemma {:induction false} FrontsAreStored(entries: seq<Text>, hashes: seq<Text>, names: set<Text>, n: nat)
    requires EachItsOwn(entries, hashes, names) && NoDuplicates(hashes) && n <= |entries|
    ensures Stored(entries[..n], names) == hashes[..n]
  {
    if n == 0 {
      NothingIsStored(names);
    } else {
      FrontsAreStored(entries, hashes, names, n - 1);
      NotInFront(hashes, n - 1);
      OneEntryMore(entries[..n - 1], entries[n - 1], hashes[..n - 1], hashes[n - 1], names);
      TakeOneMore(entries, n - 1);
      TakeOneMore(hashes, n - 1);
    }
  }

  /** Entries that store different hashes, each just its own, store their list. */
  lemma EntriesAreStored(entries: seq<Text>, hashes: seq<Text>, names: set<Text>)
    requires EachItsOwn(entries, hashes, names) && NoDuplicates(hashes)
    ensures Stored(entries, names) == hashes
  {
    FrontsAreStored(entries, hashes, names, |entries|);
    assert entries[..|entries|] == entries && hashes[..|hashes|] == hashes;
  }
}
