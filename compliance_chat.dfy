/** The citation extractor of the chat hook
    (`src/hooks/use-compliance-chat.ts`), which mines an assistant reply for
    FDA, ISO and EU MDR references. The hook's session state is in `ChatHook`.

    Each of the three regular expressions is a deterministic scanner over
    the text: none of them ever needs to backtrack, so trying the pattern
    at one position either yields the one match JavaScript would find there
    or nothing. `Scan` then repeats it the way `String.prototype.match` with
    the `g` flag does: leftmost first, resuming after each match. */
module ComplianceChat {
  import opened Seqs
  import opened Text
  import opened Types
  import opened Scanning
  import Standards

  /** The three citation patterns, in the order their results are emitted. */
  datatype Pattern = FdaRef | IsoRef | MdrRef

  /** One text character equals one pattern character under the `i` flag. */
  predicate SameIgnoringCase(c: char, p: char)
  {
    UpperChar(c) == UpperChar(p)
  }

  /** The literal words of the three citation patterns. */
  const TitleWord := "21"
  const CfrWord := "CFR"
  const PartWord := "820."
  const IsoWord := "ISO"
  const StandardWord := "13485"
  const EditionWord := "2016"
  const SectionWord := "Section"
  const EuWord := "EU"
  const MdrWord := "MDR"
  const ArticleWord := "Article"

  /** The pattern literal `lit` occurs at `j`, ignoring case. */
  predicate LiteralAt(text: string, j: nat, lit: string)
  {
    j + |lit| <= |text| && forall k :: 0 <= k < |lit| ==> SameIgnoringCase(text[j + k], lit[k])
  }

  /** The end of the longest run of characters satisfying `p` from `j`:
      a greedy `[...]*` that never needs to give characters back. */
  function SkipWhile(text: string, j: nat, p: char -> bool): (k: nat)
    requires j <= |text|
    ensures j <= k <= |text|
    ensures Run(text, j, k, p)
    ensures k == |text| || !p(text[k])
    decreases |text| - j
  {
    if j < |text| && p(text[j]) then SkipWhile(text, j + 1, p) else j
  }

  predicate IsColonOrSpace(c: char) { c == ':' || IsSpace(c) }

  predicate IsCommaOrSpace(c: char) { c == ',' || IsSpace(c) }

  /** `/21\s*CFR\s*820\.(\d+)/i` tried at `i`; the section key is the `820.<digits>` part. */
  function FdaAt(text: string, i: nat): (r: Option<Hit>)
    ensures Proper(FdaRef, text, i, r)
  {
    if !LiteralAt(text, i, TitleWord) then None
    else
      var j := SkipWhile(text, i + 2, IsSpace);
      if !LiteralAt(text, j, CfrWord) then None
      else
        var k := SkipWhile(text, j + 3, IsSpace);
        if !LiteralAt(text, k, PartWord) then None
        else
          var e := SkipWhile(text, k + 4, IsDigit);
          RunEach(text, k + 4, e, IsDigit);
          if e == k + 4 then None else Some(Hit(i, e, text[k..e]))
  }

  /** `/ISO\s*13485[:\s]*(?:2016)?[,\s]*Section\s*(\d+\.?\d*)/i` tried at `i`. */
  function IsoAt(text: string, i: nat): (r: Option<Hit>)
    ensures Proper(IsoRef, text, i, r)
  {
    if !LiteralAt(text, i, IsoWord) then None
    else
      var j := SkipWhile(text, i + 3, IsSpace);
      if !LiteralAt(text, j, StandardWord) then None
      else SectionAt(text, i, EditionEnd(text, j + 5))
  }

  /** The `Section\s*(\d+\.?\d*)` tail of the ISO pattern tried at `m`, for
      a match that started at `i`. */
  function SectionAt(text: string, i: nat, m: nat): (r: Option<Hit>)
    requires i < m <= |text|
    ensures Proper(IsoRef, text, i, r)
  {
    if !LiteralAt(text, m, SectionWord) then None
    else
      var n := SkipWhile(text, m + 7, IsSpace);
      var e := DottedNumberEnd(text, n);
      if e == n then None else Some(Hit(i, e, text[n..e]))
  }

  /** `[:\s]*(?:2016)?[,\s]*` from `k`: where the word "Section" has to start. */
  function EditionEnd(text: string, k: nat): (m: nat)
    requires k <= |text|
    ensures k <= m <= |text|
    ensures exists c, y :: EditionSpan(text, k, c, y, m)
    ensures m == |text| || !IsCommaOrSpace(text[m])
  {
    var c := SkipWhile(text, k, IsColonOrSpace);
    var y := if LiteralAt(text, c, EditionWord) then c + 4 else c;
    var m := SkipWhile(text, y, IsCommaOrSpace);
    assert EditionSpan(text, k, c, y, m);
    m
  }

  /** `text[a..b]` is a run of characters of the class `p`. */
  predicate Run(text: string, a: nat, b: nat, p: char -> bool)
    decreases b - a
  {
    a <= b <= |text| && (a == b || (p(text[a]) && Run(text, a + 1, b, p)))
  }

  /** Every character of a run is in its class. */
  lemma {:induction false} RunEach(text: string, a: nat, b: nat, p: char -> bool)
    requires Run(text, a, b, p)
    ensures forall q :: a <= q < b ==> p(text[q])
    decreases b - a
  {
    if a < b {
      RunEach(text, a + 1, b, p);
    }
  }

  /** A stretch whose every character is in the class is a run. */
  lemma {:induction false} EachRun(text: string, a: nat, b: nat, p: char -> bool)
    requires a <= b <= |text| && forall q :: a <= q < b ==> p(text[q])
    ensures Run(text, a, b, p)
    decreases b - a
  {
    if a < b {
      EachRun(text, a + 1, b, p);
    }
  }

  /** `text[k..m]` reads `[:\s]*(?:2016)?[,\s]*`, the parts ending at `c` and `y`. */
  predicate EditionSpan(text: string, k: nat, c: nat, y: nat, m: nat)
  {
    && Run(text, k, c, IsColonOrSpace)
    && (y == c || (y == c + 4 && LiteralAt(text, c, EditionWord)))
    && Run(text, y, m, IsCommaOrSpace)
  }

  /** `\d+\.?\d*` from `n`: the end of the longest such run, or `n` when no digit is there. */
  function DottedNumberEnd(text: string, n: nat): (e: nat)
    requires n <= |text|
    ensures n <= e <= |text|
    ensures e == n <==> n == |text| || !IsDigit(text[n])
    ensures e > n ==> IsDottedNumber(text[n..e]) && DottedStop(text, n, e)
  {
    var d := SkipWhile(text, n, IsDigit);
    if d == n then n
    else
      var p := if d < |text| && text[d] == '.' then d + 1 else d;
      var e := SkipWhile(text, p, IsDigit);
      RunEach(text, n, d, IsDigit);
      RunEach(text, p, e, IsDigit);
      assert forall k :: n <= k < e ==> IsDigit(text[k]) || text[k] == '.';
      assert p == d + 1 ==> text[n..e][d - n] == '.';
      e
  }

  /** Nothing extends `text[n..e]` as `\d+\.?\d*`: no digit follows, and a
      dot follows only when the number already has its one dot. */
  predicate DottedStop(text: string, n: nat, e: nat)
    requires n <= e <= |text|
  {
    e == |text| || (!IsDigit(text[e]) && (text[e] == '.' ==> '.' in text[n..e]))
  }

  /** A proper prefix of a dotted number can always be extended: the next
      character is a digit, or the number's only dot. */
  lemma DottedPrefixExtends(text: string, n: nat, f: nat, e: nat)
    requires n < f < e <= |text| && IsDottedNumber(text[n..e])
    ensures !DottedStop(text, n, f)
  {
    assert text[f] == text[n..e][f - n];
    if text[f] == '.' {
      forall q | 0 <= q < f - n ensures text[n..f][q] != '.' {
        assert text[n..f][q] == text[n..e][q];
      }
    }
  }

  /** `DottedNumberEnd` is greedy: a dotted number from `n` that nothing
      extends ends exactly where `DottedNumberEnd` stops, so "4.5" is taken
      whole and "8.2.1" yields "8.2". */
  lemma DottedNumberGreedy(text: string, n: nat, e: nat)
    requires n < e <= |text| && IsDottedNumber(text[n..e]) && DottedStop(text, n, e)
    ensures DottedNumberEnd(text, n) == e
  {
    var f := DottedNumberEnd(text, n);
    assert text[n..e][0] == text[n];
    if f < e {
      DottedPrefixExtends(text, n, f, e);
      assert false;
    } else if e < f {
      DottedPrefixExtends(text, n, e, f);
      assert false;
    }
  }

  /** `/(?:EU\s*MDR|MDR)\s*Article\s*(\d+)/i` tried at `i`; the key is the article number. */
  function MdrAt(text: string, i: nat): (r: Option<Hit>)
    ensures Proper(MdrRef, text, i, r)
  {
    var after :=
      if LiteralAt(text, i, EuWord) then
        var j := SkipWhile(text, i + 2, IsSpace);
        if LiteralAt(text, j, MdrWord) then Some(j + 3) else None
      else if LiteralAt(text, i, MdrWord) then Some(i + 3)
      else None;
    match after
    case None => None
    case Some(k) =>
      var a := SkipWhile(text, k, IsSpace);
      if !LiteralAt(text, a, ArticleWord) then None
      else
        var n := SkipWhile(text, a + 7, IsSpace);
        var e := SkipWhile(text, n, IsDigit);
        RunEach(text, n, e, IsDigit);
        if e == n then None else Some(Hit(i, e, text[n..e]))
  }

  /** All characters of `s` are digits, and there is at least one. */
  predicate IsDigits(s: string)
  {
    |s| > 0 && forall k :: 0 <= k < |s| ==> IsDigit(s[k])
  }

  /** The shape of `\d+\.?\d*`: digits, then at most one dot, then digits. */
  predicate IsDottedNumber(s: string)
  {
    && |s| > 0 && IsDigit(s[0])
    && (forall k :: 0 <= k < |s| ==> IsDigit(s[k]) || s[k] == '.')
    && (forall k, l :: 0 <= k < l < |s| && s[k] == '.' ==> s[l] != '.')
  }

  /** The section key each pattern captures. */
  predicate KeyShape(p: Pattern, id: string)
  {
    match p
    case FdaRef => |id| > 4 && id[..4] == "820." && IsDigits(id[4..])
    case IsoRef => IsDottedNumber(id)
    case MdrRef => IsDigits(id)
  }

  /** What any attempt of pattern `p` at `i` yields when it succeeds: a match
      starting at `i`, not empty, ending inside the text with the captured key,
      the key of the pattern's shape, and greedy (no digit could extend it). */
  predicate Proper(p: Pattern, text: string, i: nat, r: Option<Hit>)
  {
    r.Some? ==>
      && r.value.start == i && i < r.value.end <= |text|
      && |r.value.id| <= r.value.end - i && text[r.value.end - |r.value.id|..r.value.end] == r.value.id
      && KeyShape(p, r.value.id)
      && (r.value.end == |text| || !IsDigit(text[r.value.end]))
  }

  /** The pattern `p` tried at `i`. */
  function MatchAt(p: Pattern, text: string, i: nat): (r: Option<Hit>)
    ensures Proper(p, text, i, r)
  {
    match p
    case FdaRef => FdaAt(text, i)
    case IsoRef => IsoAt(text, i)
    case MdrRef => MdrAt(text, i)
  }

  /** The first character of a literal that starts with a capital or a digit
      is that character in either case, so no separator class contains it. */
  lemma LiteralHead(text: string, j: nat, lit: string)
    requires LiteralAt(text, j, lit) && |lit| > 0 && ('A' <= lit[0] <= 'Z' || IsDigit(lit[0]))
    ensures text[j] == lit[0] || text[j] as int == lit[0] as int + 32
    ensures !IsSpace(text[j]) && text[j] != ':' && text[j] != ','
  {
    assert SameIgnoringCase(text[j + 0], lit[0]);
  }

  /** A run of class `p` that cannot go on ends where `SkipWhile` stops. */
  lemma {:induction false} SkipWhileStops(text: string, j: nat, k: nat, p: char -> bool)
    requires Run(text, j, k, p) && (k == |text| || !p(text[k]))
    ensures SkipWhile(text, j, p) == k
    decreases k - j
  {
    if j < k {
      SkipWhileStops(text, j + 1, k, p);
    }
  }

  /** Wherever the edition part can end with "Section" following, `EditionEnd`
      ends there: the greedy reading never misses the word. */
  lemma EditionEndReaches(text: string, k: nat, c: nat, y: nat, m: nat)
    requires EditionSpan(text, k, c, y, m) && LiteralAt(text, m, SectionWord)
    ensures EditionEnd(text, k) == m
  {
    LiteralHead(text, m, SectionWord);
    var c' := SkipWhile(text, k, IsColonOrSpace);
    if y == c + 4 {
      LiteralHead(text, c, EditionWord);
      SkipWhileStops(text, k, c, IsColonOrSpace);
      SkipWhileStops(text, y, m, IsCommaOrSpace);
    } else {
      RunEach(text, k, c, IsColonOrSpace);
      RunEach(text, k, c', IsColonOrSpace);
      RunEach(text, y, m, IsCommaOrSpace);
      assert c <= c' <= m;
      assert c' < m ==> text[c'] == ',';
      if LiteralAt(text, c', EditionWord) {
        LiteralHead(text, c', EditionWord);
        assert false;
      }
      EachRun(text, c', m, IsCommaOrSpace);
      SkipWhileStops(text, c', m, IsCommaOrSpace);
    }
  }

  /** Completeness of the FDA pass: "21", spaces, "CFR", spaces, "820." and
      digits that no digit follows are matched at `i`, keyed `820.<digits>`. */
  lemma FdaComplete(text: string, i: nat, j: nat, k: nat, e: nat)
    requires LiteralAt(text, i, TitleWord) && Run(text, i + 2, j, IsSpace) && LiteralAt(text, j, CfrWord)
    requires Run(text, j + 3, k, IsSpace) && LiteralAt(text, k, PartWord)
    requires k + 4 < e && Run(text, k + 4, e, IsDigit) && (e == |text| || !IsDigit(text[e]))
    ensures MatchAt(FdaRef, text, i) == Some(Hit(i, e, text[k..e]))
  {
    LiteralHead(text, j, CfrWord);
    LiteralHead(text, k, PartWord);
    SkipWhileStops(text, i + 2, j, IsSpace);
    SkipWhileStops(text, j + 3, k, IsSpace);
    SkipWhileStops(text, k + 4, e, IsDigit);
    FdaAtSteps(text, i, j, k, e);
  }

  /** `FdaAt` read off from where each of its greedy runs stops. */
  lemma FdaAtSteps(text: string, i: nat, j: nat, k: nat, e: nat)
    requires LiteralAt(text, i, TitleWord) && i + 2 <= |text| && SkipWhile(text, i + 2, IsSpace) == j
    requires LiteralAt(text, j, CfrWord) && SkipWhile(text, j + 3, IsSpace) == k
    requires LiteralAt(text, k, PartWord) && SkipWhile(text, k + 4, IsDigit) == e && e != k + 4
    ensures FdaAt(text, i) == Some(Hit(i, e, text[k..e]))
  {
  }

  /** Completeness of the ISO pass: "ISO", spaces, "13485", an edition part,
      "Section", spaces and a dotted number that nothing extends are matched
      at `i`, keyed by that number. */
  lemma IsoComplete(text: string, i: nat, j: nat, c: nat, y: nat, m: nat, n: nat, e: nat)
    requires LiteralAt(text, i, IsoWord) && Run(text, i + 3, j, IsSpace) && LiteralAt(text, j, StandardWord)
    requires EditionSpan(text, j + 5, c, y, m) && LiteralAt(text, m, SectionWord) && Run(text, m + 7, n, IsSpace)
    requires n < e <= |text| && IsDottedNumber(text[n..e]) && DottedStop(text, n, e)
    ensures MatchAt(IsoRef, text, i) == Some(Hit(i, e, text[n..e]))
  {
    LiteralHead(text, j, StandardWord);
    SkipWhileStops(text, i + 3, j, IsSpace);
    EditionEndReaches(text, j + 5, c, y, m);
    assert text[n..e][0] == text[n];
    SkipWhileStops(text, m + 7, n, IsSpace);
    DottedNumberGreedy(text, n, e);
    IsoAtReads(text, i, j, m, n, e);
  }

  /** `IsoAt` read off from where each of its greedy parts stops. */
  lemma IsoAtReads(text: string, i: nat, j: nat, m: nat, n: nat, e: nat)
    requires LiteralAt(text, i, IsoWord) && i + 3 <= |text| && SkipWhile(text, i + 3, IsSpace) == j
    requires LiteralAt(text, j, StandardWord) && EditionEnd(text, j + 5) == m && i < m
    requires LiteralAt(text, m, SectionWord) && SkipWhile(text, m + 7, IsSpace) == n
    requires DottedNumberEnd(text, n) == e && e != n
    ensures IsoAt(text, i) == Some(Hit(i, e, text[n..e]))
  {
    assert EditionEnd(text, SkipWhile(text, i + 3, IsSpace) + 5) == m;
    IsoAtSteps(text, i);
    SectionAtSteps(text, i, m, n, e);
  }

  /** `IsoAt` read off from where its head and edition part stop. */
  lemma IsoAtSteps(text: string, i: nat)
    requires LiteralAt(text, i, IsoWord) && LiteralAt(text, SkipWhile(text, i + 3, IsSpace), StandardWord)
    ensures IsoAt(text, i) == SectionAt(text, i, EditionEnd(text, SkipWhile(text, i + 3, IsSpace) + 5))
  {
  }

  /** `SectionAt` read off from where its greedy runs stop. */
  lemma SectionAtSteps(text: string, i: nat, m: nat, n: nat, e: nat)
    requires i < m <= |text| && LiteralAt(text, m, SectionWord) && SkipWhile(text, m + 7, IsSpace) == n
    requires DottedNumberEnd(text, n) == e && e != n
    ensures SectionAt(text, i, m) == Some(Hit(i, e, text[n..e]))
  {
  }

  /** Completeness of the EU MDR pass, "MDR" form: "MDR", spaces, "Article",
      spaces and digits that no digit follows are matched at `i`, keyed by the digits. */
  lemma MdrComplete(text: string, i: nat, a: nat, n: nat, e: nat)
    requires LiteralAt(text, i, MdrWord) && Run(text, i + 3, a, IsSpace) && LiteralAt(text, a, ArticleWord)
    requires Run(text, a + 7, n, IsSpace) && n < e && Run(text, n, e, IsDigit) && (e == |text| || !IsDigit(text[e]))
    ensures MatchAt(MdrRef, text, i) == Some(Hit(i, e, text[n..e]))
  {
    LiteralHead(text, i, MdrWord);
    assert !SameIgnoringCase(text[i + 0], EuWord[0]);
    LiteralHead(text, a, ArticleWord);
    SkipWhileStops(text, i + 3, a, IsSpace);
    SkipWhileStops(text, a + 7, n, IsSpace);
    SkipWhileStops(text, n, e, IsDigit);
    MdrAtSteps(text, i, i + 3, a, n, e);
  }

  /** `MdrAt` read off from where the "Article" part and its greedy runs
      stop, once the "MDR" or "EU MDR" head has ended at `k`. */
  lemma MdrAtSteps(text: string, i: nat, k: nat, a: nat, n: nat, e: nat)
    requires k <= |text|
    requires if LiteralAt(text, i, EuWord)
      then LiteralAt(text, SkipWhile(text, i + 2, IsSpace), MdrWord) && k == SkipWhile(text, i + 2, IsSpace) + 3
      else LiteralAt(text, i, MdrWord) && k == i + 3
    requires SkipWhile(text, k, IsSpace) == a && LiteralAt(text, a, ArticleWord)
    requires SkipWhile(text, a + 7, IsSpace) == n && SkipWhile(text, n, IsDigit) == e && e != n
    ensures MdrAt(text, i) == Some(Hit(i, e, text[n..e]))
  {
  }

  /** Completeness of the EU MDR pass, "EU MDR" form: "EU", spaces, "MDR",
      spaces, "Article", spaces and digits that no digit follows are matched
      at `i`, keyed by the digits. */
  lemma EuMdrComplete(text: string, i: nat, j: nat, a: nat, n: nat, e: nat)
    requires LiteralAt(text, i, EuWord) && Run(text, i + 2, j, IsSpace) && LiteralAt(text, j, MdrWord)
    requires Run(text, j + 3, a, IsSpace) && LiteralAt(text, a, ArticleWord)
    requires Run(text, a + 7, n, IsSpace) && n < e && Run(text, n, e, IsDigit) && (e == |text| || !IsDigit(text[e]))
    ensures MatchAt(MdrRef, text, i) == Some(Hit(i, e, text[n..e]))
  {
    LiteralHead(text, j, MdrWord);
    LiteralHead(text, a, ArticleWord);
    SkipWhileStops(text, i + 2, j, IsSpace);
    SkipWhileStops(text, j + 3, a, IsSpace);
    SkipWhileStops(text, a + 7, n, IsSpace);
    SkipWhileStops(text, n, e, IsDigit);
    MdrAtSteps(text, i, j + 3, a, n, e);
  }

  /** Pattern `p` as a matcher over `text`. */
  function Matcher(p: Pattern, text: string): nat -> Option<Hit>
  {
    (i: nat) => MatchAt(p, text, i)
  }

  /** Each pattern, tried anywhere, fails or matches a non-empty stretch of the text. */
  lemma MatcherAdvances(p: Pattern, text: string)
    ensures Advances(Matcher(p, text), |text|)
  {
    forall i: nat | i < |text| && Matcher(p, text)(i).Some?
      ensures Matcher(p, text)(i).value.start == i < Matcher(p, text)(i).value.end <= |text|
    {
      assert Matcher(p, text)(i) == MatchAt(p, text, i);
    }
  }

  /** `text.match(pattern)` with the `g` flag, from `pos` on: the matches,
      leftmost first, each starting where the previous one ended or later. */
  function Scan(p: Pattern, text: string, pos: nat): (hits: seq<Hit>)
    requires pos <= |text|
    ensures forall k :: 0 <= k < |hits| ==> pos <= hits[k].start < hits[k].end <= |text|
    ensures forall k, l :: 0 <= k < l < |hits| ==> hits[k].end <= hits[l].start
  {
    MatcherAdvances(p, text);
    ScanFrom(Matcher(p, text), |text|, pos)
  }

  /** Every hit of a scan is what the pattern yields at the hit's start. */
  lemma ScanHitsAreMatches(p: Pattern, text: string, pos: nat)
    requires pos <= |text|
    ensures forall k :: 0 <= k < |Scan(p, text, pos)| ==> MatchAt(p, text, Scan(p, text, pos)[k].start) == Some(Scan(p, text, pos)[k])
  {
    MatcherAdvances(p, text);
    HitsAreMatches(Matcher(p, text), |text|, pos);
  }

  /** A scan from a position where the pattern matches starts with that match. */
  lemma ScanTake(p: Pattern, text: string, pos: nat, h: Hit)
    requires pos < |text| && MatchAt(p, text, pos) == Some(h)
    ensures Scan(p, text, pos) == [h] + Scan(p, text, h.end)
  {
    MatcherAdvances(p, text);
    assert Matcher(p, text)(pos) == Some(h);
  }

  /** A scan from a position where the pattern does not match goes on from the next one. */
  lemma ScanSkip(p: Pattern, text: string, pos: nat)
    requires pos < |text| && MatchAt(p, text, pos).None?
    ensures Scan(p, text, pos) == Scan(p, text, pos + 1)
  {
    MatcherAdvances(p, text);
    assert Matcher(p, text)(pos).None?;
  }

  /** A scan from the end of the text finds nothing. */
  lemma ScanEnd(p: Pattern, text: string)
    ensures Scan(p, text, |text|) == []
  {
  }

  /** The catalog id of the standard a pattern refers to. */
  function StandardIdOf(p: Pattern): string
  {
    match p
    case FdaRef => "fda-qsr"
    case IsoRef => "iso-13485"
    case MdrRef => "eu-mdr"
  }

  /** The display name a citation of that pattern carries. */
  function LabelOf(p: Pattern): string
  {
    match p
    case FdaRef => "FDA QSR"
    case IsoRef => "ISO 13485:2016"
    case MdrRef => "EU MDR"
  }

  /** The section id looked up for a captured key. */
  function SectionKey(p: Pattern, id: string): string
  {
    match p
    case MdrRef => "article-" + id
    case _ => id
  }

  /** The section label the citation shows for a captured key. */
  function SectionLabel(p: Pattern, id: string): string
  {
    match p
    case MdrRef => "Article " + id
    case _ => id
  }

  /** The label a citation shows names the catalog section `sectionId`:
      the same string, or `Article N` for the section `article-N`. */
  predicate LabelNames(p: Pattern, shown: string, sectionId: string)
  {
    match p
    case MdrRef => |shown| >= 8 && shown[..8] == "Article " && sectionId == "article-" + shown[8..]
    case _ => shown == sectionId
  }

  /** `c` is a citation of pattern `p` that names a section of the catalog
      and carries that section's title. */
  ghost predicate CitesCatalog(p: Pattern, c: Citation)
  {
    && c.standard == LabelOf(p)
    && c.url.None?
    && exists sectionId :: LabelNames(p, c.section, sectionId) && Standards.Listed(StandardIdOf(p), sectionId, c.text)
  }

  /** One match resolved against the catalog, or nothing when the section does not exist. */
  function Cite(p: Pattern, h: Hit): (r: Option<Citation>)
    ensures r.Some? <==> exists title :: Standards.Listed(StandardIdOf(p), SectionKey(p, h.id), title)
    ensures r.Some? ==> CitesCatalog(p, r.value)
    ensures r.Some? ==> r.value == Citation(LabelOf(p), SectionLabel(p, h.id), r.value.text, None)
                        && Standards.Listed(StandardIdOf(p), SectionKey(p, h.id), r.value.text)
  {
    match Standards.SectionTitle(StandardIdOf(p), SectionKey(p, h.id))
    case None => None
    case Some(title) =>
      var c := Citation(LabelOf(p), SectionLabel(p, h.id), title, None);
      assert LabelNames(p, c.section, SectionKey(p, h.id)) by {
        if p == MdrRef {
          assert c.section[..8] == "Article " && c.section[8..] == h.id;
        }
      }
      Some(c)
  }

  /** `Cite` is the source's lookup: `findSection` on the pattern's standard
      and the captured key, and a citation carrying the found section's title. */
  lemma CiteFollowsFindSection(p: Pattern, h: Hit)
    ensures Cite(p, h) ==
      match Standards.FindSection(StandardIdOf(p), SectionKey(p, h.id))
      case Some(section) => Some(Citation(LabelOf(p), SectionLabel(p, h.id), section.title, None))
      case None => None
  {
    Standards.SectionTitleAgrees(StandardIdOf(p), SectionKey(p, h.id));
  }

  /** `Cite` for pattern `p`, as a function value. */
  function Citer(p: Pattern): Hit -> Option<Citation>
  {
    (h: Hit) => Cite(p, h)
  }

  /** The matches of one pattern, each resolved, unresolved ones dropped, in order. */
  function Resolve(p: Pattern, hits: seq<Hit>): (r: seq<Citation>)
    ensures |r| <= |hits|
  {
    FilterMap(hits, Citer(p))
  }

  /** Every resolved citation names a section of the catalog with its title. */
  lemma ResolveCites(p: Pattern, hits: seq<Hit>)
    ensures forall k :: 0 <= k < |Resolve(p, hits)| ==> CitesCatalog(p, Resolve(p, hits)[k])
  {
    var r := Resolve(p, hits);
    FilterMapSources(hits, Citer(p));
    forall k | 0 <= k < |r| ensures CitesCatalog(p, r[k]) {
      var i :| 0 <= i < |hits| && Citer(p)(hits[i]) == Some(r[k]);
      assert Cite(p, hits[i]) == Some(r[k]);
    }
  }

  /** Every resolved citation carries the pattern's standard label. */
  lemma ResolveLabels(p: Pattern, hits: seq<Hit>)
    ensures forall k :: 0 <= k < |Resolve(p, hits)| ==> Resolve(p, hits)[k].standard == LabelOf(p)
  {
    var r := Resolve(p, hits);
    FilterMapSources(hits, Citer(p));
    forall k | 0 <= k < |r| ensures r[k].standard == LabelOf(p) {
      var i :| 0 <= i < |hits| && Citer(p)(hits[i]) == Some(r[k]);
      assert Cite(p, hits[i]) == Some(r[k]);
    }
  }

  /** The order in which the three groups appear in the output. */
  function Rank(standard: string): nat
  {
    if standard == LabelOf(FdaRef) then 0
    else if standard == LabelOf(IsoRef) then 1
    else 2
  }

  /** `extractCitations`: the FDA citations, then the ISO ones, then the EU MDR ones. */
  function ExtractCitations(text: string): (r: seq<Citation>)
    ensures |r| <= |Scan(FdaRef, text, 0)| + |Scan(IsoRef, text, 0)| + |Scan(MdrRef, text, 0)|
    ensures forall k :: 0 <= k < |r| ==> CitesCatalog(FdaRef, r[k]) || CitesCatalog(IsoRef, r[k]) || CitesCatalog(MdrRef, r[k])
    ensures forall i, j :: 0 <= i < j < |r| ==> Rank(r[i].standard) <= Rank(r[j].standard)
  {
    var fda := Resolve(FdaRef, Scan(FdaRef, text, 0));
    var iso := Resolve(IsoRef, Scan(IsoRef, text, 0));
    var mdr := Resolve(MdrRef, Scan(MdrRef, text, 0));
    ResolveCites(FdaRef, Scan(FdaRef, text, 0));
    ResolveCites(IsoRef, Scan(IsoRef, text, 0));
    ResolveCites(MdrRef, Scan(MdrRef, text, 0));
    GroupsInOrder(fda, iso, mdr);
    fda + iso + mdr
  }

  /** Three groups of citations, one per pattern, concatenated in pattern order. */
  lemma GroupsInOrder(fda: seq<Citation>, iso: seq<Citation>, mdr: seq<Citation>)
    requires forall k :: 0 <= k < |fda| ==> CitesCatalog(FdaRef, fda[k])
    requires forall k :: 0 <= k < |iso| ==> CitesCatalog(IsoRef, iso[k])
    requires forall k :: 0 <= k < |mdr| ==> CitesCatalog(MdrRef, mdr[k])
    ensures var r := fda + iso + mdr;
      && (forall k :: 0 <= k < |r| ==> CitesCatalog(FdaRef, r[k]) || CitesCatalog(IsoRef, r[k]) || CitesCatalog(MdrRef, r[k]))
      && (forall i, j :: 0 <= i < j < |r| ==> Rank(r[i].standard) <= Rank(r[j].standard))
  {
    var r := fda + iso + mdr;
    forall k | 0 <= k < |r|
      ensures CitesCatalog(FdaRef, r[k]) || CitesCatalog(IsoRef, r[k]) || CitesCatalog(MdrRef, r[k])
      ensures Rank(r[k].standard) == if k < |fda| then 0 else if k < |fda| + |iso| then 1 else 2
    {
      if k < |fda| {
        assert r[k] == fda[k];
      } else if k < |fda| + |iso| {
        assert r[k] == iso[k - |fda|];
      } else {
        assert r[k] == mdr[k - |fda| - |iso|];
      }
    }
  }

  /** Every match of `p` at or after `pos` lies inside one of the hits: the scan
      skips no match, so together with the ensures of `Scan` the hits are
      exactly the leftmost, non-overlapping matches. */
  lemma ScanCovers(p: Pattern, text: string, pos: nat, i: nat)
    requires pos <= i < |text| && MatchAt(p, text, i).Some?
    ensures exists k :: 0 <= k < |Scan(p, text, pos)| && Scan(p, text, pos)[k].start <= i < Scan(p, text, pos)[k].end
  {
    var m := Matcher(p, text);
    MatcherAdvances(p, text);
    assert m(i).Some?;
    Covers(m, |text|, pos, i);
    var hits := ScanFrom(m, |text|, pos);
    var k :| 0 <= k < |hits| && hits[k].start <= i < hits[k].end;
    assert Scan(p, text, pos)[k] == hits[k];
  }

  /** The literal every match of a pattern contains. */
  function Lead(p: Pattern): string
  {
    match p
    case FdaRef => "21"
    case IsoRef => "ISO"
    case MdrRef => "MDR"
  }

  /** A match of `p` at `i` contains the pattern's lead literal. */
  lemma MatchHasLead(p: Pattern, text: string, i: nat)
    requires MatchAt(p, text, i).Some?
    ensures exists j :: i <= j < |text| && LiteralAt(text, j, Lead(p))
  {
    match p
    case FdaRef =>
      assert LiteralAt(text, i, Lead(p));
    case IsoRef =>
      assert LiteralAt(text, i, Lead(p));
    case MdrRef =>
      if LiteralAt(text, i, EuWord) {
        var j := SkipWhile(text, i + 2, IsSpace);
        assert LiteralAt(text, j, Lead(p));
      } else {
        assert LiteralAt(text, i, Lead(p));
      }
  }

  /** The first two characters of the lead literal, adjacent, up to case. */
  ghost predicate LeadPairAt(p: Pattern, text: string, j: int)
  {
    0 <= j < |text| - 1 && UpperChar(text[j]) == Lead(p)[0] && UpperChar(text[j + 1]) == Lead(p)[1]
  }

  /** A non-empty scan of `p` shows the start of the lead literal somewhere in the text. */
  lemma ScanHasLead(p: Pattern, text: string, pos: nat)
    requires pos <= |text|
    ensures |Scan(p, text, pos)| > 0 ==> exists j :: LeadPairAt(p, text, j)
  {
    var hits := Scan(p, text, pos);
    if |hits| > 0 {
      ScanHitsAreMatches(p, text, pos);
      MatchHasLead(p, text, hits[0].start);
      var j :| hits[0].start <= j < |text| && LiteralAt(text, j, Lead(p));
      assert SameIgnoringCase(text[j], Lead(p)[0]) && SameIgnoringCase(text[j + 1], Lead(p)[1]);
      assert LeadPairAt(p, text, j);
    }
  }

  /** A text in which the first two characters of the lead literal of `p`
      never follow each other has no match of `p`. */
  lemma ScanWithoutLead(p: Pattern, text: string, pos: nat)
    requires pos <= |text|
    requires forall j :: 0 <= j < |text| - 1 ==>
      UpperChar(text[j]) != Lead(p)[0] || UpperChar(text[j + 1]) != Lead(p)[1]
    ensures Scan(p, text, pos) == []
  {
    ScanHasLead(p, text, pos);
  }

  /** Text in which no pattern matches yields no citations. */
  lemma NoMatchNoCitations(text: string)
    requires forall i :: 0 <= i < |text| ==>
      MatchAt(FdaRef, text, i).None? && MatchAt(IsoRef, text, i).None? && MatchAt(MdrRef, text, i).None?
    ensures ExtractCitations(text) == []
  {
    NoMatchEmptyScan(FdaRef, text);
    NoMatchEmptyScan(IsoRef, text);
    NoMatchEmptyScan(MdrRef, text);
  }

  /** When only pattern `p` matches, the output is that pattern's resolved matches. */
  lemma SingleGroup(p: Pattern, text: string)
    requires forall q :: q != p ==> Scan(q, text, 0) == []
    ensures ExtractCitations(text) == Resolve(p, Scan(p, text, 0))
  {
    ExtractCitationsGroups(text);
    var fda, iso, mdr := Scan(FdaRef, text, 0), Scan(IsoRef, text, 0), Scan(MdrRef, text, 0);
    ConcatGroups(p, Resolve(FdaRef, fda), Resolve(IsoRef, iso), Resolve(MdrRef, mdr), fda, iso, mdr);
  }

  /** Two of three groups empty: the concatenation is the third. */
  lemma ConcatGroups(p: Pattern, a: seq<Citation>, b: seq<Citation>, c: seq<Citation>, fda: seq<Hit>, iso: seq<Hit>, mdr: seq<Hit>)
    requires a == Resolve(FdaRef, fda) && b == Resolve(IsoRef, iso) && c == Resolve(MdrRef, mdr)
    requires (p == FdaRef || fda == []) && (p == IsoRef || iso == []) && (p == MdrRef || mdr == [])
    ensures a + b + c == match p case FdaRef => a case IsoRef => b case MdrRef => c
  {
  }

  /** The output is the three groups concatenated. */
  lemma ExtractCitationsGroups(text: string)
    ensures ExtractCitations(text) ==
      Resolve(FdaRef, Scan(FdaRef, text, 0)) + Resolve(IsoRef, Scan(IsoRef, text, 0)) + Resolve(MdrRef, Scan(MdrRef, text, 0))
  {
  }

  /** A text in which `p` matches nowhere has an empty scan. */
  lemma NoMatchEmptyScan(p: Pattern, text: string)
    requires forall i :: 0 <= i < |text| ==> MatchAt(p, text, i).None?
    ensures Scan(p, text, 0) == []
  {
    MatcherAdvances(p, text);
    forall i | 0 <= i < |text| ensures Matcher(p, text)(i).None? {
      assert Matcher(p, text)(i) == MatchAt(p, text, i);
    }
    NoMatchFromHere(Matcher(p, text), |text|, 0);
  }

  /** Resolving consecutive runs of hits resolves each run, in order. */
  lemma ResolveConcat(p: Pattern, a: seq<Hit>, b: seq<Hit>)
    ensures Resolve(p, a + b) == Resolve(p, a) + Resolve(p, b)
  {
    FilterMapConcat(a, b, Citer(p));
  }

  /** One hit resolves to its citation, or to nothing when its section is missing;
      a hit repeated in the text is cited once per occurrence. */
  lemma ResolveOne(p: Pattern, h: Hit)
    ensures Resolve(p, [h]) == match Cite(p, h) case Some(c) => [c] case None => []
  {
    assert [h][1..] == [];
  }

  /** Whether a citation is one of pattern `p`'s standard. */
  function OfStandard(p: Pattern): Citation -> bool
  {
    (c: Citation) => c.standard == LabelOf(p)
  }

  /** Keeping the citations of one standard from the output gives exactly that
      pattern's resolved matches, in text order. */
  lemma ExtractGroup(p: Pattern, text: string)
    ensures Filter(ExtractCitations(text), OfStandard(p)) == Resolve(p, Scan(p, text, 0))
  {
    ExtractCitationsGroups(text);
    ResolveLabels(FdaRef, Scan(FdaRef, text, 0));
    ResolveLabels(IsoRef, Scan(IsoRef, text, 0));
    ResolveLabels(MdrRef, Scan(MdrRef, text, 0));
    PickGroup(p, Resolve(FdaRef, Scan(FdaRef, text, 0)), Resolve(IsoRef, Scan(IsoRef, text, 0)), Resolve(MdrRef, Scan(MdrRef, text, 0)));
  }

  /** Filtering the three labelled groups by one standard yields that standard's group. */
  lemma PickGroup(p: Pattern, fda: seq<Citation>, iso: seq<Citation>, mdr: seq<Citation>)
    requires forall k :: 0 <= k < |fda| ==> fda[k].standard == LabelOf(FdaRef)
    requires forall k :: 0 <= k < |iso| ==> iso[k].standard == LabelOf(IsoRef)
    requires forall k :: 0 <= k < |mdr| ==> mdr[k].standard == LabelOf(MdrRef)
    ensures Filter(fda + iso + mdr, OfStandard(p)) == match p case FdaRef => fda case IsoRef => iso case MdrRef => mdr
  {
    var keep := OfStandard(p);
    FilterConcat(fda + iso, mdr, keep);
    FilterConcat(fda, iso, keep);
    GroupFilter(p, FdaRef, fda, keep);
    GroupFilter(p, IsoRef, iso, keep);
    GroupFilter(p, MdrRef, mdr, keep);
  }

  /** Filtering one group by a label keeps all of it or none of it. */
  lemma GroupFilter(p: Pattern, q: Pattern, group: seq<Citation>, keep: Citation -> bool)
    requires forall k :: 0 <= k < |group| ==> group[k].standard == LabelOf(q)
    requires forall c :: keep(c) == (c.standard == LabelOf(p))
    ensures Filter(group, keep) == if p == q then group else []
  {
    if p == q {
      FilterKeepsAll(group, keep);
    } else {
      FilterKeepsNone(group, keep);
    }
  }

  /** A hit whose key the outline lists is cited with the listed title. */
  lemma CiteListed(p: Pattern, h: Hit, title: string)
    requires Standards.Listed(StandardIdOf(p), SectionKey(p, h.id), title)
    ensures Cite(p, h) == Some(Citation(LabelOf(p), SectionLabel(p, h.id), title, None))
  {
    Standards.ListedUnique(StandardIdOf(p), SectionKey(p, h.id), title, Cite(p, h).value.text);
  }

  /** A text made of one FDA reference, "21 CFR 820." and digits, yields the
      citation of that one match if the catalog lists the section, and nothing
      otherwise. */
  lemma FdaReferenceAlone(text: string)
    requires |text| > 11 && text[..11] == "21 CFR 820." && IsDigits(text[11..])
    ensures ExtractCitations(text) == Resolve(FdaRef, [Hit(0, |text|, text[7..])])
  {
    FdaReferenceScans(text);
    SingleGroup(FdaRef, text);
  }

  lemma FdaReferenceScans(text: string)
    requires |text| > 11 && text[..11] == "21 CFR 820." && IsDigits(text[11..])
    ensures Scan(FdaRef, text, 0) == [Hit(0, |text|, text[7..])]
    ensures Scan(IsoRef, text, 0) == [] && Scan(MdrRef, text, 0) == []
  {
    assert text == "21 CFR 820." + text[11..];
    assert text[7..] == "820." + text[11..];
    FdaRecognized(text[11..]);
    FdaTextHasNoOtherLead(text);
    ScanWithoutLead(IsoRef, text, 0);
    ScanWithoutLead(MdrRef, text, 0);
  }

  lemma FdaTextHasNoOtherLead(text: string)
    requires |text| > 11 && text[..11] == "21 CFR 820." && IsDigits(text[11..])
    ensures forall j :: 0 <= j < |text| ==> UpperChar(text[j]) != 'I' && UpperChar(text[j]) != 'M'
  {
    assert forall j :: 0 <= j < 11 ==> text[j] == "21 CFR 820."[j];
    assert forall j :: 11 <= j < |text| ==> text[j] == text[11..][j - 11];
  }

  /** "21 CFR 820." followed by digits is one FDA match covering the whole text. */
  lemma FdaRecognized(digits: string)
    requires IsDigits(digits)
    ensures var text := "21 CFR 820." + digits;
      Scan(FdaRef, text, 0) == [Hit(0, |text|, "820." + digits)]
  {
    var text := "21 CFR 820." + digits;
    assert text[..11] == "21 CFR 820.";
    assert LiteralAt(text, 0, TitleWord) && LiteralAt(text, 3, CfrWord) && LiteralAt(text, 7, PartWord);
    assert SkipWhile(text, 3, IsSpace) == 3;
    assert SkipWhile(text, 2, IsSpace) == 3;
    assert SkipWhile(text, 7, IsSpace) == 7;
    assert SkipWhile(text, 6, IsSpace) == 7;
    assert SkipWhile(text, 11, IsDigit) == |text|;
    assert text[7..] == "820." + digits;
    var e := SkipWhile(text, 11, IsDigit);
    assert e != 11;
    assert text[7..e] == "820." + digits;
    assert FdaAt(text, 0) == Some(Hit(0, |text|, "820." + digits));
    ScanTake(FdaRef, text, 0, Hit(0, |text|, "820." + digits));
    ScanEnd(FdaRef, text);
  }

  /** "21 CFR 820.30" cites the design controls section of the QSR. */
  lemma FdaExample(text: string)
    requires text == "21 CFR 820.30"
    ensures ExtractCitations(text) == [Citation("FDA QSR", "820.30", "Design Controls", None)]
  {
    assert text[..11] == "21 CFR 820." && text[11..] == "30" && text[7..] == "820.30";
    FdaReferenceAlone(text);
    var h := Hit(0, |text|, text[7..]);
    DesignControlsListed();
    CiteListed(FdaRef, h, "Design Controls");
    ResolveOne(FdaRef, h);
  }

  /** "21 CFR 820.999" is a well-formed FDA reference to a section the
      catalog does not hold, so it is dropped. */
  lemma FdaUnknownExample(text: string)
    requires text == "21 CFR 820.999"
    ensures ExtractCitations(text) == []
  {
    assert text[..11] == "21 CFR 820." && text[11..] == "999" && text[7..] == "820.999";
    FdaReferenceAlone(text);
    var h := Hit(0, |text|, text[7..]);
    FdaUnknownNotListed();
    ResolveOne(FdaRef, h);
  }

  lemma DesignControlsListed()
    ensures Standards.Listed("fda-qsr", "820.30", "Design Controls")
  {
    assert Standards.Outline[0].1[4] == ("820.30", "Design Controls");
  }

  lemma FdaUnknownNotListed()
    ensures forall title :: !Standards.Listed("fda-qsr", "820.999", title)
  {
    assert forall k :: 0 <= k < |Standards.FdaQsrHeadings| ==> Standards.FdaQsrHeadings[k].0 != "820.999" by {
      assert "820.100"[4] != "820.999"[4];
    }
  }

  /** "ISO 13485:2016 Section 7.3" cites design and development in ISO 13485. */
  lemma IsoExample(text: string)
    requires text == "ISO 13485:2016 Section 7.3"
    ensures ExtractCitations(text) == [Citation("ISO 13485:2016", "7.3", "Design and Development", None)]
  {
    IsoExampleScans(text);
    SingleGroup(IsoRef, text);
    var h := Hit(0, 26, "7.3");
    DesignAndDevelopmentListed();
    CiteListed(IsoRef, h, "Design and Development");
    ResolveOne(IsoRef, h);
  }

  lemma IsoExampleScans(text: string)
    requires text == "ISO 13485:2016 Section 7.3"
    ensures Scan(IsoRef, text, 0) == [Hit(0, 26, "7.3")]
    ensures Scan(FdaRef, text, 0) == [] && Scan(MdrRef, text, 0) == []
  {
    IsoExampleScan(text);
    IsoExampleHasNoOtherLead(text);
    ScanWithoutLead(FdaRef, text, 0);
    ScanWithoutLead(MdrRef, text, 0);
  }

  lemma IsoExampleScan(text: string)
    requires text == "ISO 13485:2016 Section 7.3"
    ensures Scan(IsoRef, text, 0) == [Hit(0, 26, text[23..])]
    ensures text[23..] == "7.3"
  {
    IsoExampleAt(text);
    ScanTake(IsoRef, text, 0, Hit(0, 26, text[23..]));
    ScanEnd(IsoRef, text);
  }

  lemma IsoExampleAt(text: string)
    requires text == "ISO 13485:2016 Section 7.3"
    ensures IsoAt(text, 0) == Some(Hit(0, 26, text[23..]))
  {
    IsoExampleWords(text);
    IsoExampleEdition(text);
    IsoExampleNumber(text);
    assert text[23..26] == text[23..];
  }

  lemma IsoExampleWords(text: string)
    requires text == "ISO 13485:2016 Section 7.3"
    ensures LiteralAt(text, 0, IsoWord) && LiteralAt(text, 4, StandardWord) && LiteralAt(text, 15, SectionWord)
    ensures SkipWhile(text, 3, IsSpace) == 4 && SkipWhile(text, 22, IsSpace) == 23
  {
    IsoExampleSpaces(text);
  }

  lemma IsoExampleSpaces(text: string)
    requires text == "ISO 13485:2016 Section 7.3"
    ensures SkipWhile(text, 3, IsSpace) == 4 && SkipWhile(text, 22, IsSpace) == 23
  {
    assert SkipWhile(text, 4, IsSpace) == 4;
    assert SkipWhile(text, 23, IsSpace) == 23;
  }

  lemma IsoExampleEdition(text: string)
    requires text == "ISO 13485:2016 Section 7.3"
    ensures EditionEnd(text, 9) == 15
  {
    assert LiteralAt(text, 10, EditionWord);
    assert SkipWhile(text, 10, IsColonOrSpace) == 10;
    assert SkipWhile(text, 9, IsColonOrSpace) == 10;
    assert SkipWhile(text, 15, IsCommaOrSpace) == 15;
    assert SkipWhile(text, 14, IsCommaOrSpace) == 15;
  }

  lemma IsoExampleNumber(text: string)
    requires text == "ISO 13485:2016 Section 7.3"
    ensures DottedNumberEnd(text, 23) == 26
  {
    assert SkipWhile(text, 24, IsDigit) == 24;
    assert SkipWhile(text, 23, IsDigit) == 24;
    assert SkipWhile(text, 26, IsDigit) == 26;
    assert SkipWhile(text, 25, IsDigit) == 26;
  }

  lemma IsoExampleHasNoOtherLead(text: string)
    requires text == "ISO 13485:2016 Section 7.3"
    ensures forall j :: 0 <= j < |text| - 1 ==> UpperChar(text[j]) != '2' || UpperChar(text[j + 1]) != '1'
    ensures forall j :: 0 <= j < |text| ==> UpperChar(text[j]) != 'M'
  {
  }

  lemma DesignAndDevelopmentListed()
    ensures Standards.Listed("iso-13485", "7.3", "Design and Development")
  {
    assert Standards.Outline[1].1[3] == ("7.3", "Design and Development");
  }

  /** In "ISO 13485 Section 8.2.1" the key `\d+\.?\d*` stops at the second
      dot: the captured "8.2" is not a section of the catalog, so nothing is
      cited. */
  lemma IsoNestedExample(text: string)
    requires text == "ISO 13485 Section 8.2.1"
    ensures ExtractCitations(text) == []
  {
    IsoNestedScans(text);
    SingleGroup(IsoRef, text);
    IsoNestedNotListed();
    ResolveOne(IsoRef, Hit(0, 21, "8.2"));
  }

  lemma IsoNestedScans(text: string)
    requires text == "ISO 13485 Section 8.2.1"
    ensures Scan(IsoRef, text, 0) == [Hit(0, 21, "8.2")]
    ensures Scan(FdaRef, text, 0) == [] && Scan(MdrRef, text, 0) == []
  {
    IsoNestedScan(text);
    IsoNestedHasNoOtherLead(text);
    ScanWithoutLead(FdaRef, text, 0);
    ScanWithoutLead(MdrRef, text, 0);
  }

  lemma IsoNestedScan(text: string)
    requires text == "ISO 13485 Section 8.2.1"
    ensures Scan(IsoRef, text, 0) == [Hit(0, 21, text[18..21])]
    ensures text[18..21] == "8.2"
  {
    IsoNestedAt(text);
    ScanTake(IsoRef, text, 0, Hit(0, 21, text[18..21]));
    IsoNestedTail(text);
  }

  lemma IsoNestedTail(text: string)
    requires text == "ISO 13485 Section 8.2.1"
    ensures Scan(IsoRef, text, 21) == []
  {
    assert !SameIgnoringCase(text[21], IsoWord[0]) && !SameIgnoringCase(text[22], IsoWord[0]);
    assert MatchAt(IsoRef, text, 22) == None;
    ScanSkip(IsoRef, text, 22);
    ScanEnd(IsoRef, text);
    assert MatchAt(IsoRef, text, 21) == None;
    ScanSkip(IsoRef, text, 21);
  }

  lemma IsoNestedAt(text: string)
    requires text == "ISO 13485 Section 8.2.1"
    ensures IsoAt(text, 0) == Some(Hit(0, 21, text[18..21]))
  {
    IsoNestedWords(text);
    IsoNestedEdition(text);
    IsoNestedNumber(text);
  }

  lemma IsoNestedWords(text: string)
    requires text == "ISO 13485 Section 8.2.1"
    ensures LiteralAt(text, 0, IsoWord) && LiteralAt(text, 4, StandardWord) && LiteralAt(text, 10, SectionWord)
    ensures SkipWhile(text, 3, IsSpace) == 4 && SkipWhile(text, 17, IsSpace) == 18
  {
    IsoNestedSpaces(text);
  }

  lemma IsoNestedSpaces(text: string)
    requires text == "ISO 13485 Section 8.2.1"
    ensures SkipWhile(text, 3, IsSpace) == 4 && SkipWhile(text, 17, IsSpace) == 18
  {
    assert SkipWhile(text, 4, IsSpace) == 4;
    assert SkipWhile(text, 18, IsSpace) == 18;
  }

  lemma IsoNestedEdition(text: string)
    requires text == "ISO 13485 Section 8.2.1"
    ensures EditionEnd(text, 9) == 10
  {
    assert !SameIgnoringCase(text[10], EditionWord[0]);
    assert SkipWhile(text, 10, IsColonOrSpace) == 10;
    assert SkipWhile(text, 9, IsColonOrSpace) == 10;
    assert SkipWhile(text, 10, IsCommaOrSpace) == 10;
  }

  lemma IsoNestedNumber(text: string)
    requires text == "ISO 13485 Section 8.2.1"
    ensures DottedNumberEnd(text, 18) == 21
  {
    assert SkipWhile(text, 19, IsDigit) == 19;
    assert SkipWhile(text, 18, IsDigit) == 19;
    assert SkipWhile(text, 21, IsDigit) == 21;
    assert SkipWhile(text, 20, IsDigit) == 21;
  }

  lemma IsoNestedHasNoOtherLead(text: string)
    requires text == "ISO 13485 Section 8.2.1"
    ensures forall j :: 0 <= j < |text| ==> UpperChar(text[j]) != '2' || j == 20
    ensures forall j :: 0 <= j < |text| ==> UpperChar(text[j]) != 'M'
  {
  }

  lemma IsoNestedNotListed()
    ensures forall title :: !Standards.Listed("iso-13485", "8.2", title)
  {
    assert forall k :: 0 <= k < |Standards.Iso13485Headings| ==> Standards.Iso13485Headings[k].0 != "8.2" by {
      assert "8.2"[0] != "4.1"[0] && "8.2"[0] != "5.1"[0] && "8.2"[0] != "7.3"[0] && "8.2"[2] != "8.5"[2];
    }
  }

  /** "MDR Article 61" looks up `article-61` and cites it as "Article 61" of the EU MDR. */
  lemma MdrExample(text: string)
    requires text == "MDR Article 61"
    ensures ExtractCitations(text) == [Citation("EU MDR", "Article 61", "Clinical Evaluation", None)]
  {
    var h := Hit(0, 14, "61");
    MdrExampleScans(text);
    SingleGroup(MdrRef, text);
    MdrExampleCite(h);
    ResolveOne(MdrRef, h);
  }

  lemma MdrExampleCite(h: Hit)
    requires h.id == "61"
    ensures Cite(MdrRef, h) == Some(Citation("EU MDR", "Article 61", "Clinical Evaluation", None))
  {
    ClinicalEvaluationListed();
    assert SectionKey(MdrRef, "61") == "article-61" && SectionLabel(MdrRef, "61") == "Article 61";
    CiteListed(MdrRef, h, "Clinical Evaluation");
  }

  lemma MdrExampleScans(text: string)
    requires text == "MDR Article 61"
    ensures Scan(MdrRef, text, 0) == [Hit(0, 14, "61")]
    ensures Scan(FdaRef, text, 0) == [] && Scan(IsoRef, text, 0) == []
  {
    MdrExampleScan(text);
    MdrExampleHasNoOtherLead(text);
    ScanWithoutLead(FdaRef, text, 0);
    ScanWithoutLead(IsoRef, text, 0);
  }

  lemma MdrExampleScan(text: string)
    requires text == "MDR Article 61"
    ensures Scan(MdrRef, text, 0) == [Hit(0, 14, text[12..])]
    ensures text[12..] == "61"
  {
    MdrExampleAt(text);
    ScanTake(MdrRef, text, 0, Hit(0, 14, text[12..]));
    ScanEnd(MdrRef, text);
  }

  lemma MdrExampleAt(text: string)
    requires text == "MDR Article 61"
    ensures MdrAt(text, 0) == Some(Hit(0, 14, text[12..]))
  {
    MdrExampleWords(text);
    MdrExampleNumber(text);
    assert text[12..14] == text[12..];
  }

  lemma MdrExampleWords(text: string)
    requires text == "MDR Article 61"
    ensures !LiteralAt(text, 0, EuWord) && LiteralAt(text, 0, MdrWord) && LiteralAt(text, 4, ArticleWord)
    ensures SkipWhile(text, 3, IsSpace) == 4
  {
    assert !SameIgnoringCase(text[0], EuWord[0]);
    assert SkipWhile(text, 4, IsSpace) == 4;
  }

  lemma MdrExampleNumber(text: string)
    requires text == "MDR Article 61"
    ensures SkipWhile(text, 11, IsSpace) == 12 && SkipWhile(text, 12, IsDigit) == 14
  {
    assert SkipWhile(text, 12, IsSpace) == 12;
    assert SkipWhile(text, 14, IsDigit) == 14;
    assert SkipWhile(text, 13, IsDigit) == 14;
  }

  lemma MdrExampleHasNoOtherLead(text: string)
    requires text == "MDR Article 61"
    ensures forall j :: 0 <= j < |text| ==> UpperChar(text[j]) != '2'
    ensures forall j :: 0 <= j < |text| - 1 ==> UpperChar(text[j]) != 'I' || UpperChar(text[j + 1]) != 'S'
  {
  }

  lemma ClinicalEvaluationListed()
    ensures Standards.Listed("eu-mdr", "article-61", "Clinical Evaluation")
  {
    assert Standards.Outline[2].1[2] == ("article-61", "Clinical Evaluation");
  }
}
