/**
 * `extractAmount`: reads a sum of money out of a chat message. Four regular
 * expressions are tried in a fixed order (millions, thousands, đồng, a bare
 * number); the first one that matches anywhere in the text decides the
 * amount. Each pattern is modelled here by a hand-written scanner that finds
 * the same leftmost match as the JavaScript engine.
 */
module AmountExtraction {
  import opened Wrappers
  import opened Text

  /** The four pattern families, one per regular expression. */
  datatype Family = Million | Thousand | Dong | Bare

  /** The order in which the extractor tries the patterns. */
  const Families: seq<Family> := [Million, Thousand, Dong, Bare]

  /** The unit alternatives of a family's pattern, lower-case, in the order the alternation tries them. */
  function UnitWords(f: Family): seq<string> {
    match f
    case Million => ["triệu", "tr", "million"]
    case Thousand => ["nghìn", "k", "thousand"]
    case Dong => ["đ", "dong", "vnd", "vnđ"]
    case Bare => []
  }

  /** The factor a family's unit stands for. */
  function FamilyScale(f: Family): real {
    match f
    case Million => 1000000.0
    case Thousand => 1000.0
    case Dong => 1.0
    case Bare => 1.0
  }

  /** `[.,]` */
  predicate IsSeparator(c: char) {
    c == '.' || c == ','
  }

  /** A separator followed by a digit starts at `q`: the group `(?:[.,]\d+)` can be entered. */
  predicate FractionStarts(s: string, q: nat) {
    q + 1 < |s| && IsSeparator(s[q]) && IsDigit(s[q + 1])
  }

  /** End of `\d+(?:[.,]\d+)?` matched greedily from the digit at `p`. */
  function NumberEnd(s: string, p: nat): (e: nat)
    requires p < |s| && IsDigit(s[p])
    ensures p < e <= |s|
    ensures forall k :: p <= k < e ==> IsDigit(s[k]) || IsSeparator(s[k])
  {
    var q := DigitsEnd(s, p);
    if FractionStarts(s, q) then DigitsEnd(s, q + 1) else q
  }

  /** End of `(?:[.,]\d+)*` matched greedily from `q`. */
  function GroupsEnd(s: string, q: nat): (e: nat)
    requires q <= |s|
    ensures q <= e <= |s|
    ensures forall k :: q <= k < e ==> IsDigit(s[k]) || IsSeparator(s[k])
    decreases |s| - q
  {
    if FractionStarts(s, q) then GroupsEnd(s, DigitsEnd(s, q + 1)) else q
  }

  /** The first alternative of `words` that occurs at `i`, compared case-insensitively (the `i` flag). */
  function UnitAt(s: string, i: nat, words: seq<string>): (r: Option<string>)
    requires i <= |s|
    ensures r.Some? ==> r.value in words && i + |r.value| <= |s| && LowerStr(s[i..i + |r.value|]) == r.value
  {
    if words == [] then None
    else if i + |words[0]| <= |s| && LowerStr(s[i..i + |words[0]|]) == words[0] then Some(words[0])
    else UnitAt(s, i, words[1..])
  }

  /** A match of one pattern: `match[1]` is `s[start..numEnd]` and `match[0]` is `s[start..end]`. */
  datatype Match = Match(start: nat, numEnd: nat, end: nat)

  /**
   * The match of family `f`'s pattern that starts at `p`, if any.
   * Greedy matching is exact here: giving back a digit leaves a digit where
   * the separator, the spaces or the unit must start, giving back the
   * fraction leaves a separator there, and giving back a space leaves a space
   * where the unit must start, so no backtracking can succeed where the
   * greedy attempt failed.
   */
  function MatchAt(f: Family, s: string, p: nat): (r: Option<Match>)
    requires p <= |s|
    ensures r.Some? ==> r.value.start == p < r.value.numEnd <= r.value.end <= |s|
    ensures r.Some? ==> IsDigit(s[p])
  {
    if p == |s| || !IsDigit(s[p]) then None
    else if f == Bare then
      var e := GroupsEnd(s, DigitsEnd(s, p));
      Some(Match(p, e, e))
    else
      var n := NumberEnd(s, p);
      var w := SpacesEnd(s, n);
      match UnitAt(s, w, UnitWords(f))
      case None => None
      case Some(u) => Some(Match(p, n, w + |u|))
  }

  /** `text.match(pattern)`: the leftmost match at index `p` or later. */
  function Search(f: Family, s: string, p: nat): (r: Option<Match>)
    requires p <= |s|
    ensures r.Some? ==> p <= r.value.start < r.value.numEnd <= r.value.end <= |s|
    ensures r.Some? ==> IsDigit(s[r.value.start])
    ensures r.Some? ==> MatchAt(f, s, r.value.start) == r
    ensures r.Some? ==> forall q :: p <= q < r.value.start ==> MatchAt(f, s, q).None?
    ensures r.None? ==> forall q :: p <= q <= |s| ==> MatchAt(f, s, q).None?
    decreases |s| - p
  {
    if p == |s| then None
    else if MatchAt(f, s, p).Some? then MatchAt(f, s, p)
    else Search(f, s, p + 1)
  }

  /** `replace(/,/g, ".")` */
  function CommasToDots(s: string): (r: string)
    ensures |r| == |s|
    ensures forall k :: 0 <= k < |s| ==> r[k] == if s[k] == ',' then '.' else s[k]
  {
    seq(|s|, k requires 0 <= k < |s| => if s[k] == ',' then '.' else s[k])
  }

  /**
   * `parseFloat` on a string that starts with a digit and holds only digits
   * and dots: the leading digits, plus the digits after the first dot as a
   * fraction; reading stops at the second dot. Exact arithmetic.
   */
  function ParseFloat(t: string): (x: real)
    requires |t| > 0 && IsDigit(t[0])
    ensures x >= 0.0
  {
    var q := DigitsEnd(t, 0);
    if q < |t| && t[q] == '.' then
      var e := DigitsEnd(t, q + 1);
      (DigitsValue(t[..q] + t[q + 1..e]) as real) / (Pow10(e - q - 1) as real)
    else
      DigitsValue(t[..q]) as real
  }

  /** The unit scaling applied to the lower-cased `match[0]`, by substring tests. */
  function ScaleOf(fullMatch: string): real {
    if Contains(fullMatch, "triệu") || Contains(fullMatch, "tr") || Contains(fullMatch, "million") then 1000000.0
    else if Contains(fullMatch, "nghìn") || Contains(fullMatch, "k") || Contains(fullMatch, "thousand") then 1000.0
    else 1.0
  }

  /** `Math.round`: the integer nearest to `x`, halves going up. */
  function RoundHalfUp(x: real): (r: int)
    ensures x - 0.5 < r as real <= x + 0.5
  {
    (x + 0.5).Floor
  }

  /** The number captured by a match, before scaling. */
  function MatchValue(s: string, m: Match): real
    requires m.start < m.numEnd <= |s| && IsDigit(s[m.start])
  {
    ParseFloat(CommasToDots(s[m.start..m.numEnd]))
  }

  /** The amount a match stands for. */
  function MatchAmount(s: string, m: Match): int
    requires m.start < m.numEnd <= m.end <= |s| && IsDigit(s[m.start])
  {
    RoundHalfUp(MatchValue(s, m) * ScaleOf(LowerStr(s[m.start..m.end])))
  }

  /** The first of the families `Families[i..]` whose pattern matches, with its leftmost match. */
  function FirstMatch(s: string, i: nat): (r: Option<(Family, Match)>)
    requires i <= |Families|
    ensures r.Some? ==> Search(r.value.0, s, 0) == Some(r.value.1)
    decreases |Families| - i
  {
    if i == |Families| then None
    else
      match Search(Families[i], s, 0)
      case Some(m) => Some((Families[i], m))
      case None => FirstMatch(s, i + 1)
  }

  /** What `extractAmount` returns; `None` stands for `null`, and for absent text. */
  function AmountOf(text: Option<string>): Option<int> {
    if text.None? || text.value == [] then None
    else
      match FirstMatch(text.value, 0)
      case None => None
      case Some((_, m)) => Some(MatchAmount(text.value, m))
  }

  /** `extractAmount`: tries the patterns in order and returns on the first match. */
  method ExtractAmount(text: Option<string>) returns (amount: Option<int>)
    ensures amount == AmountOf(text)
  {
    if text.None? || text.value == [] {
      return None;
    }
    var s := text.value;
    for i := 0 to |Families|
      invariant FirstMatch(s, i) == FirstMatch(s, 0)
    {
      var m := Search(Families[i], s, 0);
      if m.Some? {
        assert FirstMatch(s, 0) == Some((Families[i], m.value));
        amount := Some(MatchAmount(s, m.value));
        return;
      }
    }
    amount := None;
  }

  // ---------------------------------------------------------------------
  // Properties

  /** Some pattern matches exactly when the text holds a digit: the bare-number pattern needs only one. */
  lemma {:induction false} FirstMatchSomeIffDigit(s: string, i: nat)
    requires i < |Families|
    ensures FirstMatch(s, i).Some? <==> exists k :: 0 <= k < |s| && IsDigit(s[k])
    decreases |Families| - i
  {
    var r := Search(Families[i], s, 0);
    if r.Some? {
      assert IsDigit(s[r.value.start]);
    } else if i + 1 < |Families| {
      FirstMatchSomeIffDigit(s, i + 1);
    } else {
      assert Families[i] == Bare;
      forall k | 0 <= k < |s| ensures !IsDigit(s[k]) {
        assert MatchAt(Bare, s, k).None?;
      }
    }
  }

  /** `extractAmount` returns null exactly for absent or empty text and for text without a digit. */
  lemma AmountAbsentIffNoDigit(text: Option<string>)
    ensures AmountOf(text).None? <==>
      text.None? || forall k :: 0 <= k < |text.value| ==> !IsDigit(text.value[k])
  {
    if text.Some? && text.value != [] {
      FirstMatchSomeIffDigit(text.value, 0);
    }
  }

  /** A word that does not occur in `s`: it is longer, or its first character or its first pair never occurs. */
  lemma NotContainsWord(s: string, w: string)
    requires |w| >= 1
    requires || |w| > |s|
             || (forall k :: 0 <= k < |s| ==> s[k] != w[0])
             || (|w| >= 2 && forall k :: 0 <= k < |s| - 1 ==> !(s[k] == w[0] && s[k + 1] == w[1]))
    ensures !Contains(s, w)
  {
    if |w| > |s| {
    } else if forall k :: 0 <= k < |s| ==> s[k] != w[0] {
      NotContainsByChar(s, w, 0);
    } else {
      NotContainsByPair(s, w);
    }
  }

  /** Each unit word, on its own, passes exactly the substring test of its own family. */
  lemma UnitWordScale(f: Family, u: string)
    requires u in UnitWords(f)
    ensures ScaleOf(u) == FamilyScale(f)
  {
    assert HasAt(u, 0, u);
    if f == Thousand {
      NotContainsWord(u, "triệu");
      NotContainsWord(u, "tr");
      NotContainsWord(u, "million");
    } else if f == Dong {
      NotContainsWord(u, "triệu");
      NotContainsWord(u, "tr");
      NotContainsWord(u, "million");
      NotContainsWord(u, "nghìn");
      NotContainsWord(u, "k");
      NotContainsWord(u, "thousand");
    }
  }

  /** Digits, separators and spaces in front of the unit never change the substring tests. */
  lemma ScaleIgnoresNumber(pre: string, u: string)
    requires forall k :: 0 <= k < |pre| ==> IsDigit(pre[k]) || IsSeparator(pre[k]) || IsSpace(pre[k])
    ensures ScaleOf(pre + u) == ScaleOf(u)
  {
    ContainsAfterPrefix(pre, u, "triệu");
    ContainsAfterPrefix(pre, u, "tr");
    ContainsAfterPrefix(pre, u, "million");
    ContainsAfterPrefix(pre, u, "nghìn");
    ContainsAfterPrefix(pre, u, "k");
    ContainsAfterPrefix(pre, u, "thousand");
  }

  /**
   * The substring tests on the lower-cased `match[0]` give exactly the scale
   * of the family whose pattern matched: ×1,000,000 for millions, ×1,000 for
   * thousands and ×1 for đồng and bare numbers.
   */
  lemma MatchScale(f: Family, s: string, m: Match)
    requires m.start <= |s| && MatchAt(f, s, m.start) == Some(m)
    ensures ScaleOf(LowerStr(s[m.start..m.end])) == FamilyScale(f)
  {
    if f == Bare {
      BareMatchScale(s, m);
    } else {
      UnitMatchScale(f, s, m);
    }
  }

  lemma BareMatchScale(s: string, m: Match)
    requires m.start <= |s| && MatchAt(Bare, s, m.start) == Some(m)
    ensures ScaleOf(LowerStr(s[m.start..m.end])) == 1.0
  {
    var pre := s[m.start..m.end];
    assert LowerStr(pre) == pre;
    assert pre == pre + [];
    ScaleIgnoresNumber(pre, []);
    assert ScaleOf([]) == 1.0;
  }

  lemma UnitMatchScale(f: Family, s: string, m: Match)
    requires f != Bare && m.start <= |s| && MatchAt(f, s, m.start) == Some(m)
    ensures ScaleOf(LowerStr(s[m.start..m.end])) == FamilyScale(f)
  {
    var w := UnitMatchShape(f, s, m);
    UnitSpanScale(f, s, m.start, w, m.end);
  }

  /** A span of digits, separators and spaces followed by a unit word has that unit's scale. */
  lemma UnitSpanScale(f: Family, s: string, a: nat, w: nat, e: nat)
    requires a <= w <= e <= |s|
    requires forall k :: a <= k < w ==> IsDigit(s[k]) || IsSeparator(s[k]) || IsSpace(s[k])
    requires LowerStr(s[w..e]) in UnitWords(f)
    ensures ScaleOf(LowerStr(s[a..e])) == FamilyScale(f)
  {
    var pre := s[a..w];
    var u := LowerStr(s[w..e]);
    assert LowerStr(s[a..e]) == pre + u by {
      assert s[a..e] == pre + s[w..e];
      LowerStrAppend(pre, s[w..e]);
      assert LowerStr(pre) == pre;
    }
    ScaleIgnoresNumber(pre, u);
    UnitWordScale(f, u);
  }

  /** A match with a unit: digits, separators and spaces up to `w`, then one of the family's unit words. */
  lemma UnitMatchShape(f: Family, s: string, m: Match) returns (w: nat)
    requires f != Bare && m.start <= |s| && MatchAt(f, s, m.start) == Some(m)
    ensures m.start <= w <= m.end <= |s|
    ensures forall k :: m.start <= k < w ==> IsDigit(s[k]) || IsSeparator(s[k]) || IsSpace(s[k])
    ensures LowerStr(s[w..m.end]) in UnitWords(f)
  {
    w := SpacesEnd(s, NumberEnd(s, m.start));
  }

  /** At a digit or a separator no unit word starts: each begins with a letter. */
  lemma {:induction false} NoUnitAtNumberChar(s: string, i: nat, words: seq<string>)
    requires i < |s| && (IsDigit(s[i]) || IsSeparator(s[i]))
    requires forall j :: 0 <= j < |words| ==> |words[j]| > 0 && !IsDigit(words[j][0]) && !IsSeparator(words[j][0])
    ensures UnitAt(s, i, words).None?
    decreases |words|
  {
    if words != [] {
      if i + |words[0]| <= |s| {
        assert LowerStr(s[i..i + |words[0]|])[0] == s[i];
      }
      NoUnitAtNumberChar(s, i, words[1..]);
    }
  }

  /** In a text of digits and separators only, no pattern with a unit matches at any position. */
  lemma NoUnitInNumber(f: Family, s: string, q: nat)
    requires f != Bare && q <= |s|
    requires forall k :: 0 <= k < |s| ==> IsDigit(s[k]) || IsSeparator(s[k])
    ensures MatchAt(f, s, q).None?
  {
    if q < |s| && IsDigit(s[q]) {
      var n := NumberEnd(s, q);
      if n < |s| {
        assert SpacesEnd(s, n) == n;
        NoUnitAtNumberChar(s, n, UnitWords(f));
      }
    }
  }

  /** A text of digits and separators that starts with a digit is read by the bare-number pattern. */
  lemma DigitsOnlyIsBare(s: string)
    requires |s| > 0 && IsDigit(s[0])
    requires forall k :: 0 <= k < |s| ==> IsDigit(s[k]) || IsSeparator(s[k])
    ensures FirstMatch(s, 0) == Some((Bare, Search(Bare, s, 0).value))
  {
    assert Search(Bare, s, 0).Some? by {
      assert MatchAt(Bare, s, 0).Some?;
    }
    assert Families[0] == Million && Families[1] == Thousand && Families[2] == Dong && Families[3] == Bare;
    assert FirstMatch(s, 2) == FirstMatch(s, 3) by {
      NoUnitSearch(Dong, s);
    }
    assert FirstMatch(s, 1) == FirstMatch(s, 2) by {
      NoUnitSearch(Thousand, s);
    }
    assert FirstMatch(s, 0) == FirstMatch(s, 1) by {
      NoUnitSearch(Million, s);
    }
  }

  lemma NoUnitSearch(f: Family, s: string)
    requires f != Bare
    requires forall k :: 0 <= k < |s| ==> IsDigit(s[k]) || IsSeparator(s[k])
    ensures Search(f, s, 0).None?
  {
    forall q | 0 <= q <= |s| ensures MatchAt(f, s, q).None? {
      NoUnitInNumber(f, s, q);
    }
  }

  /**
   * The first family (in the order millions, thousands, đồng, bare) whose
   * pattern matches anywhere decides the amount: the number of its leftmost
   * match, scaled by its unit, rounded half up.
   */
  lemma FirstMatchingFamilyDecides(s: string, f: Family, m: Match)
    requires s != [] && FirstMatch(s, 0) == Some((f, m))
    ensures AmountOf(Some(s)) == Some(RoundHalfUp(MatchValue(s, m) * FamilyScale(f)))
  {
    MatchAmountScaled(f, s, m);
  }

  /** A match's amount is its number scaled by its family's unit. */
  lemma MatchAmountScaled(f: Family, s: string, m: Match)
    requires Search(f, s, 0) == Some(m)
    ensures MatchAmount(s, m) == RoundHalfUp(MatchValue(s, m) * FamilyScale(f))
  {
    MatchScale(f, s, m);
    ScaledAmount(s, f, m);
  }

  lemma ScaledAmount(s: string, f: Family, m: Match)
    requires m.start < m.numEnd <= m.end <= |s| && IsDigit(s[m.start])
    requires ScaleOf(LowerStr(s[m.start..m.end])) == FamilyScale(f)
    ensures MatchAmount(s, m) == RoundHalfUp(MatchValue(s, m) * FamilyScale(f))
  {
  }

  /** The first match skips exactly the families whose pattern does not match. */
  lemma {:induction false} FirstMatchSkips(s: string, j: nat, i: nat)
    requires j <= i < |Families|
    requires forall k :: j <= k < i ==> Search(Families[k], s, 0).None?
    ensures FirstMatch(s, j) == FirstMatch(s, i)
    decreases i - j
  {
    if j < i {
      assert FirstMatch(s, j) == FirstMatch(s, j + 1) by {
        assert Search(Families[j], s, 0).None?;
      }
      FirstMatchSkips(s, j + 1, i);
    }
  }

  /** The amount is never negative: numbers are read without a sign. */
  lemma AmountNonNegative(text: Option<string>)
    ensures AmountOf(text).Some? ==> AmountOf(text).value >= 0
  {
    if text.Some? && text.value != [] {
      var s := text.value;
      match FirstMatch(s, 0)
      case None =>
      case Some((f, m)) =>
        FirstMatchingFamilyDecides(s, f, m);
    }
  }

  // ---------------------------------------------------------------------
  // Examples

  /** "2 triệu" is two million. */
  lemma TwoMillionExample(s: string)
    requires s == "2 triệu"
    ensures AmountOf(Some(s)) == Some(2000000)
  {
    var m := Match(0, 1, 7);
    assert FirstMatch(s, 0) == Some((Million, m)) by {
      TwoMillionMatch();
    }
    assert MatchValue(s, m) * FamilyScale(Million) == 2000000.0 by {
      TwoMillionMatch();
    }
    assert RoundHalfUp(2000000.0) == 2000000;
    FirstMatchingFamilyDecides(s, Million, m);
  }

  lemma TwoMillionMatch()
    ensures Search(Million, "2 triệu", 0) == Some(Match(0, 1, 7))
    ensures MatchValue("2 triệu", Match(0, 1, 7)) == 2.0
  {
    var s := "2 triệu";
    assert DigitsEnd(s, 0) == 1;
    assert SpacesEnd(s, 1) == 2;
    assert UnitAt(s, 2, UnitWords(Million)) == Some("triệu") by {
      assert LowerStr(s[2..7]) == "triệu";
    }
    assert CommasToDots(s[0..1]) == "2";
    assert DigitsValue("2") == 2;
  }

  /** "12 triệu" contains "2 triệu" but is twelve million: the leftmost match starts at the "1". */
  lemma TwelveMillionExample(s: string)
    requires s == "12 triệu"
    ensures AmountOf(Some(s)) == Some(12000000)
  {
    var m := Match(0, 2, 8);
    assert FirstMatch(s, 0) == Some((Million, m)) by {
      TwelveMillionMatch();
    }
    assert MatchValue(s, m) * FamilyScale(Million) == 12000000.0 by {
      TwelveMillionMatch();
    }
    assert RoundHalfUp(12000000.0) == 12000000;
    FirstMatchingFamilyDecides(s, Million, m);
  }

  lemma TwelveMillionMatch()
    ensures Search(Million, "12 triệu", 0) == Some(Match(0, 2, 8))
    ensures MatchValue("12 triệu", Match(0, 2, 8)) == 12.0
  {
    var s := "12 triệu";
    TwelveMillionAt();
    assert CommasToDots(s[0..2]) == "12";
    assert DigitsValue("12") == 12;
  }

  lemma TwelveMillionAt()
    ensures MatchAt(Million, "12 triệu", 0) == Some(Match(0, 2, 8))
  {
    var s := "12 triệu";
    assert DigitsEnd(s, 0) == 2 by {
      assert DigitsEnd(s, 2) == 2;
    }
    assert NumberEnd(s, 0) == 2;
    assert SpacesEnd(s, 2) == 3;
    assert UnitAt(s, 3, UnitWords(Million)) == Some("triệu") by {
      assert LowerStr(s[3..8]) == "triệu";
    }
  }

  /** "50k" is fifty thousand: the millions pattern finds no unit after the number. */
  lemma FiftyThousandExample(s: string)
    requires s == "50k"
    ensures AmountOf(Some(s)) == Some(50000)
  {
    var m := Match(0, 2, 3);
    assert FirstMatch(s, 0) == Some((Thousand, m)) by {
      FiftyThousandMatch();
    }
    assert MatchValue(s, m) * FamilyScale(Thousand) == 50000.0 by {
      FiftyThousandMatch();
    }
    assert RoundHalfUp(50000.0) == 50000;
    FirstMatchingFamilyDecides(s, Thousand, m);
  }

  lemma FiftyThousandMatch()
    ensures Search(Million, "50k", 0).None?
    ensures Search(Thousand, "50k", 0) == Some(Match(0, 2, 3))
    ensures MatchValue("50k", Match(0, 2, 3)) == 50.0
  {
    FiftyKMillionSearch();
    FiftyKThousandSearch();
    var s := "50k";
    assert CommasToDots(s[0..2]) == "50";
    assert DigitsValue("50") == 50;
  }

  lemma FiftyKMillionSearch()
    ensures Search(Million, "50k", 0).None?
  {
    var s := "50k";
    FiftyKHasNoMillion();
    assert Search(Million, s, 3).None?;
    assert Search(Million, s, 2).None?;
    assert Search(Million, s, 1).None?;
  }

  lemma FiftyKThousandSearch()
    ensures Search(Thousand, "50k", 0) == Some(Match(0, 2, 3))
  {
    var s := "50k";
    assert DigitsEnd(s, 0) == 2;
    assert SpacesEnd(s, 2) == 2;
    assert LowerStr(s[2..3]) == "k";
    assert UnitAt(s, 2, UnitWords(Thousand)) == Some("k");
  }

  /** No position of "50k" starts a match of the millions pattern. */
  lemma FiftyKHasNoMillion()
    ensures MatchAt(Million, "50k", 0).None?
    ensures MatchAt(Million, "50k", 1).None?
    ensures MatchAt(Million, "50k", 2).None?
  {
    var s := "50k";
    assert DigitsEnd(s, 1) == 2;
    assert DigitsEnd(s, 0) == 2;
    assert SpacesEnd(s, 2) == 2;
    assert UnitAt(s, 2, UnitWords(Million)).None? by {
      assert LowerStr(s[2..3]) == "k";
    }
  }

  /** "15000đ" is fifteen thousand đồng: neither the millions nor the thousands pattern finds its unit. */
  lemma FifteenThousandDongExample(s: string)
    requires s == "15000đ"
    ensures AmountOf(Some(s)) == Some(15000)
  {
    DongFirstMatch();
    DongValue();
    assert FamilyScale(Dong) == 1.0 && RoundHalfUp(15000.0) == 15000;
    FirstMatchingFamilyDecides(s, Dong, Match(0, 5, 6));
  }

  lemma DongFirstMatch()
    ensures FirstMatch("15000đ", 0) == Some((Dong, Match(0, 5, 6)))
  {
    var s := "15000đ";
    DongTextSearches();
    assert FirstMatch(s, 2) == Some((Dong, Match(0, 5, 6))) by {
      assert Families[2] == Dong;
    }
    assert FirstMatch(s, 1) == FirstMatch(s, 2) by {
      assert Families[1] == Thousand;
    }
    assert FirstMatch(s, 0) == FirstMatch(s, 1) by {
      assert Families[0] == Million;
    }
  }

  lemma DongValue()
    ensures MatchValue("15000đ", Match(0, 5, 6)) == 15000.0
  {
    var s := "15000đ";
    assert CommasToDots(s[0..5]) == "15000";
    assert DigitsEnd("15000", 0) == 5;
    assert "15000"[..5] == "15000";
    DigitsValue15000();
  }

  lemma DigitsValue15000()
    ensures DigitsValue("15000") == 15000
  {
    assert "15000"[..4] == "1500";
    assert "1500"[..3] == "150";
    assert "150"[..2] == "15";
    assert "15"[..1] == "1";
  }

  lemma DongTextSearches()
    ensures Search(Million, "15000đ", 0).None?
    ensures Search(Thousand, "15000đ", 0).None?
    ensures Search(Dong, "15000đ", 0) == Some(Match(0, 5, 6))
  {
    DongTextHasNoUnit(Million);
    DongTextHasNoUnit(Thousand);
    var s := "15000đ";
    assert Search(Million, s, 6).None?;
    assert Search(Million, s, 5).None?;
    assert Search(Million, s, 4).None?;
    assert Search(Million, s, 3).None?;
    assert Search(Million, s, 2).None?;
    assert Search(Million, s, 1).None?;
    assert Search(Thousand, s, 6).None?;
    assert Search(Thousand, s, 5).None?;
    assert Search(Thousand, s, 4).None?;
    assert Search(Thousand, s, 3).None?;
    assert Search(Thousand, s, 2).None?;
    assert Search(Thousand, s, 1).None?;
    DongTextMatch();
  }

  /** Every number of "15000đ" ends at the `đ`, which is no millions or thousands unit. */
  lemma DongTextHasNoUnit(f: Family)
    requires f == Million || f == Thousand
    ensures MatchAt(f, "15000đ", 0).None? && MatchAt(f, "15000đ", 1).None? && MatchAt(f, "15000đ", 2).None?
    ensures MatchAt(f, "15000đ", 3).None? && MatchAt(f, "15000đ", 4).None? && MatchAt(f, "15000đ", 5).None?
  {
    var s := "15000đ";
    assert DigitsEnd(s, 5) == 5;
    assert DigitsEnd(s, 4) == 5;
    assert DigitsEnd(s, 3) == 5;
    assert DigitsEnd(s, 2) == 5;
    assert DigitsEnd(s, 1) == 5;
    assert DigitsEnd(s, 0) == 5;
    assert SpacesEnd(s, 5) == 5;
    assert UnitAt(s, 5, UnitWords(f)).None? by {
      assert LowerStr(s[5..6]) == "đ";
    }
  }

  lemma DongTextMatch()
    ensures MatchAt(Dong, "15000đ", 0) == Some(Match(0, 5, 6))
  {
    var s := "15000đ";
    assert DigitsEnd(s, 0) == 5;
    assert SpacesEnd(s, 5) == 5;
    assert UnitAt(s, 5, UnitWords(Dong)) == Some("đ") by {
      assert LowerStr(s[5..6]) == "đ";
    }
  }

  /**
   * "1,000,000" takes the bare-number pattern, becomes "1.000.000", and
   * `parseFloat` stops at the second dot: the amount is 1.
   */
  lemma SeparatedMillionExample(s: string)
    requires s == "1,000,000"
    ensures AmountOf(Some(s)) == Some(1)
  {
    var m := Match(0, 9, 9);
    assert FirstMatch(s, 0) == Some((Bare, m)) by {
      DigitsOnlyIsBare(s);
      SeparatedMillionSpan();
    }
    assert MatchValue(s, m) == 1.0 by {
      SeparatedMillionValue();
    }
    assert FamilyScale(Bare) == 1.0 && RoundHalfUp(1.0) == 1;
    FirstMatchingFamilyDecides(s, Bare, m);
  }

  lemma SeparatedMillionSpan()
    ensures Search(Bare, "1,000,000", 0) == Some(Match(0, 9, 9))
  {
    var s := "1,000,000";
    assert DigitsEnd(s, 6) == 9;
    assert DigitsEnd(s, 2) == 5;
    assert DigitsEnd(s, 0) == 1;
    assert GroupsEnd(s, 9) == 9;
    assert GroupsEnd(s, 5) == 9;
    assert GroupsEnd(s, 1) == 9;
  }

  lemma SeparatedMillionValue()
    ensures MatchValue("1,000,000", Match(0, 9, 9)) == 1.0
  {
    var t := CommasToDots("1,000,000"[0..9]);
    assert t == "1.000.000";
    assert DigitsEnd(t, 0) == 1;
    assert DigitsEnd(t, 2) == 5;
    assert t[..1] + t[2..5] == "1000";
    assert DigitsValue("1000") == 1000 by {
      assert "1000"[..3] == "100";
      assert "100"[..2] == "10";
      assert "10"[..1] == "1";
    }
    assert Pow10(3) == 1000;
  }
}
