/**
 What one entry reduces to: a hash given bare, as a join link, or either of them in
 quotes or brackets.
 */
module HashLinks {
  import opened HashPage
  import opened HashRules
  import opened Texts

  /** The characters of a hash are none of those that the rules cut at. */
  lemma HashCharacters(c: AsciiChar)
    requires Base64Url(c)
    ensures c !in SPACE && c !in QUOTES && c !in SEPARATORS && c !in ENDS && c !in SLASH
    ensures c != ',' && c != ' ' && c != ':' && c != '/' && LowerChar(c) != '/' && LowerChar(c) != ':'
  {}

  // ---------------------------------------------------------------------
  // One entry
  // ---------------------------------------------------------------------

  /** Nothing but characters of the alphabet, of any number. */
  predicate Plain(h: Text) {
    h != [] && forall k :: 0 <= k < |h| ==> Base64Url(h[k])
  }

  /** The hash ends where the rest of the link begins. */
  lemma TailOfHash(h: Text, rest: Text)
    requires Plain(h) && (rest == [] || rest[0] in ENDS)
    ensures Tail(h + rest) == h
  {
    var s := h + rest;
    HashHasNoEnds(h);
    IndexAnyIsFirst(s, ENDS, if rest == [] then -1 else |h|);
    assert s[..|h|] == h;
    HashCharacters(h[0]);
    HashCharacters(h[|h| - 1]);
    NothingToTrim(h, SPACE);
    NothingToTrim(h, SLASH);
  }

  lemma HashHasNoEnds(h: Text)
    requires Plain(h)
    ensures Free(h, ENDS) && Free(h, SEPARATORS)
  {
    forall k | 0 <= k < |h| ensures h[k] !in ENDS && h[k] !in SEPARATORS {
      HashCharacters(h[k]);
    }
  }

  lemma IndexIs(s: Text, t: Text, i: nat)
    requires OccursAt(s, t, i) && forall k :: 0 <= k < i ==> !OccursAt(s, t, k)
    ensures t != [] ==> Index(s, t) == i
  {
    IndexFromMeans(s, t, 0);
  }

  lemma NoIndex(s: Text, t: Text)
    requires forall k :: 0 <= k <= |s| ==> !OccursAt(s, t, k)
    ensures Index(s, t) == -1
  {
    IndexFromMeans(s, t, 0);
  }

  lemma OccurrenceHas(s: Text, t: Text, i: nat, k: nat)
    requires OccursAt(s, t, i) && k < |t|
    ensures s[i + k] == t[k]
  {
    assert s[i..i + |t|][k] == s[i + k];
  }

  /** A text without a character of t does not hold t. */
  lemma ForbiddenCharacter(s: Text, t: Text, k: nat)
    requires k < |t| && t[k] !in s
    ensures forall i: nat :: !OccursAt(s, t, i)
  {
    forall i: nat ensures !OccursAt(s, t, i) {
      if OccursAt(s, t, i) {
        OccurrenceHas(s, t, i, k);
      }
    }
  }

  /** A bare hash holds no marker and is no URL. */
  lemma BareHasNoMarker(h: Text)
    requires Plain(h)
    ensures Index(Lower(h), MARKER) == -1 && !HasPrefix(Lower(h), HTTP) && !HasPrefix(Lower(h), HTTPS)
  {
    var lower := Lower(h);
    forall k | 0 <= k < |lower| ensures lower[k] != '/' && lower[k] != ':' {
      HashCharacters(h[k]);
    }
    ForbiddenCharacter(lower, MARKER, 0);
    NoIndex(lower, MARKER);
    ForbiddenCharacter(lower, HTTP, 4);
    ForbiddenCharacter(lower, HTTPS, 5);
  }

  lemma BareIsItself(h: Text)
    requires Plain(h)
    ensures Normalize(h) == h
  {
    HashCharacters(h[0]);
    HashCharacters(h[|h| - 1]);
    NothingToTrim(h, SPACE);
    NothingToTrim(h, QUOTES);
    BareHasNoMarker(h);
    TailOfHash(h, []);
    assert h + [] == h;
  }

  /**
   A join link: the marker, in any case and for the first time, then the hash, then
   nothing or something that begins with a query, a fragment or a slash.
   */
  ghost predicate IsLink(before: Text, marker: Text, rest: Text) {
    && Lower(marker) == MARKER && Index(Lower(before + marker), MARKER) == |before|
    && (rest == [] || rest[0] in ENDS)
  }

  predicate NoSlashC(s: Text, j: nat)
    requires j < |s|
  {
    s[j] == '/' ==> j + 1 < |s| && s[j + 1] != 'c' && s[j + 1] != 'C'
  }

  /** Enough for a link: no slash before the marker is followed by a c. */
  lemma LinkWithoutSlashC(before: Text, marker: Text, rest: Text)
    requires Lower(marker) == MARKER && (rest == [] || rest[0] in ENDS)
    requires forall j :: 0 <= j < |before| ==> NoSlashC(before, j)
    ensures IsLink(before, marker, rest)
  {
    var whole, at := Lower(before + marker), |before|;
    assert whole[at..at + |MARKER|] == Lower(marker);
    forall j | 0 <= j < at ensures !OccursAt(whole, MARKER, j) {
      SlashC(before, marker, j);
    }
    IndexIs(whole, MARKER, at);
  }

  lemma SlashC(before: Text, marker: Text, j: nat)
    requires j < |before| && NoSlashC(before, j)
    ensures !OccursAt(Lower(before + marker), MARKER, j)
  {
    var whole := Lower(before + marker);
    assert whole[j] == LowerChar(before[j]);
    assert j + 1 < |before| ==> whole[j + 1] == LowerChar(before[j + 1]);
    if OccursAt(whole, MARKER, j) {
      OccurrenceHas(whole, MARKER, j, 0);
      OccurrenceHas(whole, MARKER, j, 1);
    }
  }

  /** The links that the service hands out are of this form. */
  lemma UsualLink(rest: Text)
    requires rest == [] || rest[0] in ENDS
    ensures IsLink("https://vk.com", "/call/join/", rest)
  {
    LinkWithoutSlashC("https://vk.com", "/call/join/", rest);
  }

  /** Cutting characters off the front leaves the marker where it was. */
  lemma MarkerStays(before: Text, cut: nat, marker: Text, after: Text)
    requires cut <= |before| && Lower(marker) == MARKER && Index(Lower(before + marker), MARKER) == |before|
    ensures Index(Lower(before[cut..] + marker + after), MARKER) == |before| - cut
  {
    var whole, part := Lower(before + marker), Lower(before[cut..] + marker + after);
    var at := |before| - cut;
    IndexFromMeans(whole, MARKER, 0);
    assert part[at..at + |MARKER|] == Lower(marker);
    forall k | 0 <= k < at ensures !OccursAt(part, MARKER, k) {
      assert part[k..k + |MARKER|] == whole[k + cut..k + cut + |MARKER|];
      assert !OccursAt(whole, MARKER, k + cut);
    }
    IndexIs(part, MARKER, at);
  }

  lemma TrimmedTwice(before: Text, core: Text, rest: Text) returns (cut: nat, kept: nat)
    requires core != [] && core[0] !in SPACE && core[0] !in QUOTES
    requires core[|core| - 1] !in SPACE && core[|core| - 1] !in QUOTES
    ensures cut <= |before| && kept <= |rest|
    ensures Trim(Trim(before + core + rest, SPACE), QUOTES) == before[cut..] + core + rest[..kept]
  {
    TrimAround(before, core, rest, SPACE);
    var b, r := TrimLeft(before, SPACE), TrimRight(rest, SPACE);
    TrimAround(b, core, r, QUOTES);
    TrimLeftIsSuffix(before, SPACE);
    TrimLeftIsSuffix(b, QUOTES);
    TrimRightIsPrefix(rest, SPACE);
    TrimRightIsPrefix(r, QUOTES);
    cut := |before| - |TrimLeft(b, QUOTES)|;
    kept := |TrimRight(r, QUOTES)|;
    assert before[cut..] == TrimLeft(b, QUOTES);
    assert rest[..kept] == TrimRight(r, QUOTES);
  }

  lemma MarkerEnds(marker: Text)
    requires Lower(marker) == MARKER
    ensures |marker| == |MARKER| && marker[0] == '/'
  {
    assert Lower(marker)[0] == LowerChar(marker[0]);
  }

  /** A join link reduces to its hash. */
  lemma LinkIsItsHash(before: Text, marker: Text, h: Text, rest: Text)
    requires ValidHash(h) && IsLink(before, marker, rest)
    ensures Normalize(before + (marker + h) + rest) == h
  {
    MarkerEnds(marker);
    HashCharacters(h[|h| - 1]);
    var cut, kept := TrimmedTwice(before, marker + h, rest);
    var s := before[cut..] + (marker + h) + rest[..kept];
    MarkerStays(before, cut, marker, h + rest[..kept]);
    assert s == before[cut..] + marker + (h + rest[..kept]);
    assert s[|before| - cut + |MARKER|..] == h + rest[..kept];
    TailOfHash(h, rest[..kept]);
  }

  // ---------------------------------------------------------------------
  // Quotes and brackets
  // ---------------------------------------------------------------------

  /** Nothing but these characters. */
  predicate Only(s: Text, chars: Text) {
    forall k :: 0 <= k < |s| ==> s[k] in chars
  }

  lemma {:induction false} OnlyIsTrimmed(s: Text, chars: Text)
    requires Only(s, chars)
    ensures TrimLeft(s, chars) == [] && TrimRight(s, chars) == []
  {
    if s != [] {
      OnlyTrimmedLeft(s, chars);
      OnlyTrimmedRight(s, chars);
    }
  }

  lemma {:induction false} OnlyTrimmedLeft(s: Text, chars: Text)
    requires Only(s, chars)
    ensures TrimLeft(s, chars) == []
  {
    if s != [] {
      OnlyTrimmedLeft(s[1..], chars);
    }
  }

  lemma {:induction false} OnlyTrimmedRight(s: Text, chars: Text)
    requires Only(s, chars)
    ensures TrimRight(s, chars) == []
  {
    if s != [] {
      OnlyTrimmedRight(s[..|s| - 1], chars);
    }
  }

  /** The text neither starts nor ends with a blank or a quote. */
  predicate PlainEnds(s: Text) {
    && s != [] && s[0] !in SPACE && s[0] !in QUOTES
    && s[|s| - 1] !in SPACE && s[|s| - 1] !in QUOTES
  }

  lemma QuotesAreNoBlanks(c: AsciiChar)
    requires c in QUOTES
    ensures c !in SPACE && c !in SEPARATORS
  {}

  lemma TrimOff(lead: Text, core: Text, trail: Text, cut: Text)
    requires Only(lead, cut) && Only(trail, cut)
    requires core != [] && core[0] !in cut && core[|core| - 1] !in cut
    ensures Trim(lead + core + trail, cut) == core
  {
    TrimAround(lead, core, trail, cut);
    OnlyIsTrimmed(lead, cut);
    OnlyIsTrimmed(trail, cut);
  }

  lemma QuotedEnds(open: Text, x: Text, close: Text)
    requires Only(open, QUOTES) && PlainEnds(x) && Only(close, QUOTES)
    ensures var core := open + x + close; core[0] !in SPACE && core[|core| - 1] !in SPACE
  {
    var core := open + x + close;
    assert core[0] == if open == [] then x[0] else open[0];
    assert core[|core| - 1] == if close == [] then x[|x| - 1] else close[|close| - 1];
    if open != [] {
      QuotesAreNoBlanks(open[0]);
    }
    if close != [] {
      QuotesAreNoBlanks(close[|close| - 1]);
    }
  }

  lemma TrimsAway(lead: Text, open: Text, x: Text, close: Text, trail: Text)
    requires Only(lead, SPACE) && Only(open, QUOTES) && PlainEnds(x) && Only(close, QUOTES) && Only(trail, SPACE)
    ensures Trim(Trim(lead + (open + x + close) + trail, SPACE), QUOTES) == x == Trim(Trim(x, SPACE), QUOTES)
  {
    QuotedEnds(open, x, close);
    TrimOff(lead, open + x + close, trail, SPACE);
    TrimOff(open, x, close, QUOTES);
    NothingToTrim(x, SPACE);
    NothingToTrim(x, QUOTES);
  }

  /** Blanks around quotes or brackets around a text make no difference. */
  lemma WrappingIsDropped(lead: Text, open: Text, x: Text, close: Text, trail: Text)
    requires Only(lead, SPACE) && Only(open, QUOTES) && PlainEnds(x) && Only(close, QUOTES) && Only(trail, SPACE)
    ensures Normalize(lead + (open + x + close) + trail) == Normalize(x)
  {
    TrimsAway(lead, open, x, close, trail);
  }

  /** A hash in quotes. */
  lemma QuotedHashIsItself(lead: Text, open: Text, h: Text, close: Text, trail: Text)
    requires Only(lead, SPACE) && Only(open, QUOTES) && Plain(h) && Only(close, QUOTES) && Only(trail, SPACE)
    ensures Normalize(lead + (open + h + close) + trail) == h
  {
    HashCharacters(h[0]);
    HashCharacters(h[|h| - 1]);
    WrappingIsDropped(lead, open, h, close, trail);
    BareIsItself(h);
  }

  /** A link in brackets, also when the closing bracket follows the hash. */
  lemma BracketedLinkIsItsHash(lead: Text, open: Text, before: Text, marker: Text, h: Text, close: Text, trail: Text)
    requires Only(lead, SPACE) && Only(open, QUOTES) && Only(close, QUOTES) && Only(trail, SPACE)
    requires ValidHash(h) && IsLink(before, marker, [])
    requires before != [] ==> before[0] !in SPACE && before[0] !in QUOTES
    ensures Normalize(lead + (open + (before + (marker + h)) + close) + trail) == h
  {
    var x := before + (marker + h);
    MarkerEnds(marker);
    HashCharacters(h[|h| - 1]);
    assert x[0] == if before == [] then marker[0] else before[0];
    assert x[|x| - 1] == h[|h| - 1];
    WrappingIsDropped(lead, open, x, close, trail);
    LinkIsItsHash(before, marker, h, []);
    assert x + [] == x;
  }

  // ---------------------------------------------------------------------
  // Other links
  // ---------------------------------------------------------------------

  /** The text begins with t, whatever the case of its letters. */
  predicate BeginsLike(s: Text, t: Text) {
    |s| >= |t| && forall k :: 0 <= k < |t| ==> LowerChar(s[k]) == t[k]
  }

  lemma BeginsLikeIsPrefix(s: Text, t: Text)
    ensures BeginsLike(s, t) <==> HasPrefix(Lower(s), t)
  {
    if |s| >= |t| {
      assert Lower(s)[0..|t|] == t <==> forall k :: 0 <= k < |t| ==> Lower(s)[0..|t|][k] == t[k];
    }
  }

  /** Nowhere in the text is there a join marker, in whatever case. */
  predicate NoMarker(s: Text) {
    forall i :: 0 <= i < |s| ==> !BeginsLike(s[i..], MARKER)
  }

  lemma NoMarkerNoIndex(s: Text)
    requires NoMarker(s)
    ensures Index(Lower(s), MARKER) == -1
  {
    forall k | 0 <= k <= |Lower(s)| ensures !OccursAt(Lower(s), MARKER, k) {
      if OccursAt(Lower(s), MARKER, k) {
        forall j | 0 <= j < |MARKER| ensures LowerChar(s[k..][j]) == MARKER[j] {
          OccurrenceHas(Lower(s), MARKER, k, j);
        }
        assert BeginsLike(s[k..], MARKER);
      }
    }
    NoIndex(Lower(s), MARKER);
  }

  /** The address of something else than a call stands for no hash. */
  lemma OtherAddressIsNothing(link: Text)
    requires BeginsLike(link, "http://") || BeginsLike(link, "https://")
    requires NoMarker(link) && link[|link| - 1] !in SPACE && link[|link| - 1] !in QUOTES
    ensures Normalize(link) == []
  {
    BeginsLikeIsPrefix(link, HTTP);
    BeginsLikeIsPrefix(link, HTTPS);
    FirstOfAddress(link[0]);
    NothingToTrim(link, SPACE);
    NothingToTrim(link, QUOTES);
    NoMarkerNoIndex(link);
  }

  lemma FirstOfAddress(c: AsciiChar)
    requires LowerChar(c) == 'h'
    ensures c !in SPACE && c !in QUOTES
  {}

  // ---------------------------------------------------------------------
  // What normal forms look like
  // ---------------------------------------------------------------------

  /** Trimming leaves a part of the text that neither begins nor ends with such a character. */
  lemma TrimIsClean(s: Text, cut: Text, ends: Text)
    ensures var r := Trim(s, cut);
            && (r == [] || (r[0] !in cut && r[|r| - 1] !in cut))
            && (Free(s, ends) ==> Free(r, ends))
  {
    TrimLeftIsSuffix(s, cut);
    TrimRightIsPrefix(TrimLeft(s, cut), cut);
  }

  lemma TailIsClean(s: Text)
    ensures Clean(Tail(s))
  {
    var cut := IndexAny(s, ENDS);
    var t := if cut >= 0 then s[..cut] else s;
    IndexAnyMeans(s, ENDS);
    TrimIsClean(t, SPACE, ENDS);
    var u := Trim(t, SPACE);
    if u != [] {
      assert u[0] !in ENDS && u[|u| - 1] !in ENDS;
    }
    NothingToTrim(u, SLASH);
  }

  /** No query, fragment or slash, and no blanks at the ends. */
  predicate Clean(r: Text) {
    Free(r, ENDS) && (r == [] || (r[0] !in SPACE && r[|r| - 1] !in SPACE))
  }

  lemma ReducedIsClean(s: Text)
    ensures Clean(Reduced(s))
  {
    var idx := Index(Lower(s), MARKER);
    if idx >= 0 {
      TailIsClean(s[idx + |MARKER|..]);
    } else {
      TailIsClean(s);
    }
  }

  /** Whatever is entered, its normal form is clean. */
  lemma NormalIsClean(input: Text)
    ensures Clean(Normalize(input))
  {
    ReducedIsClean(Trim(Trim(input, SPACE), QUOTES));
  }

  /** The characters of a valid hash are ASCII letters and digits, the hyphen and the underscore. */
  lemma AlphabetIs(c: AsciiChar)
    ensures var code := c as int;
            Base64Url(c) <==> 48 <= code <= 57 || 65 <= code <= 90 || 97 <= code <= 122 || code == 45 || code == 95
  {}
}
