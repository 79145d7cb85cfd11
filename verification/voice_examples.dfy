/**
 * Typical transcripts and what the parser makes of them, stated for whole
 * families of phrases (any numeral, any continuation), including the ones
 * where the unit conversion does not do what its comments suggest.
 */
module VoiceExamples {
  import opened Wrappers
  import opened JsText
  import opened Regex
  import opened VoiceLexicon
  import opened VoiceRules

  /** A canonical decimal numeral: digits only, no leading zero. */
  predicate Numeral(d: string) {
    |d| > 0 && AllDigits(d) && d[0] != '0'
  }

  /** A continuation that does not extend the numeral before it. */
  predicate StopsNumeral(rest: string) {
    rest == [] || !IsDigit(rest[0])
  }

  /** An expression that needs a character the text lacks gives the budget cascade nothing. */
  lemma BudgetMissWithout(s: string, p: Pattern, c: char)
    requires Lit(c) in p && c !in s
    ensures BudgetMiss(s, p)
  {
    MissingLiteralNoMatchFrom(s, 0, p, c);
  }

  /** The same for the head-count cascade. */
  lemma TravelerMissWithout(s: string, p: Pattern, c: char)
    requires Lit(c) in p && c !in s
    ensures TravelerMiss(s, p)
  {
    MissingLiteralNoMatchFrom(s, 0, p, c);
  }

  /** A single captured numeral reads as its value, and that value prints back as the numeral. */
  lemma NumeralRead(d: string)
    requires Numeral(d)
    ensures GroupValue([d], 1) == Num(DecimalValue(d))
    ensures DecimalValue(d) >= 1 && Decimal(DecimalValue(d)) == d
  {
    ParseIntOfDigits(d);
    LeadingDigitPositive(d);
    DecimalCanonical(d);
  }

  // ------------------------------------------------------------------ budget

  /** None of the first `k` expressions of `ps` gives a budget. */
  predicate BudgetMissesBefore(s: string, ps: seq<Pattern>, k: nat)
    requires k <= |ps|
  {
    k == 0 || (BudgetMissesBefore(s, ps, k - 1) && BudgetMiss(s, ps[k - 1]))
  }

  lemma {:induction false} BudgetMissesAll(s: string, ps: seq<Pattern>, k: nat)
    requires k <= |ps| && BudgetMissesBefore(s, ps, k)
    ensures forall j :: 0 <= j < k ==> BudgetMiss(s, ps[j])
  {
    if k > 0 {
      BudgetMissesAll(s, ps, k - 1);
    }
  }

  /** The first expression whose amount is in range gives the budget. */
  lemma BudgetDecidedBy(s: string, k: nat, g: seq<string>)
    requires k < |BudgetPatterns| && BudgetMissesBefore(s, BudgetPatterns, k)
    requires FirstMatch(s, BudgetPatterns[k]) == Some(g) && BudgetInRange(Scaled(GroupValue(g, 1), s))
    ensures BudgetOf(s) == Some(Decimal(Scaled(GroupValue(g, 1), s).value))
  {
    BudgetMissesAll(s, BudgetPatterns, k);
    BudgetSkips(s, BudgetPatterns, k);
    assert BudgetPatterns[k..][0] == BudgetPatterns[k];
  }

  /** The text `预算` + d + rest: neither unit character occurs unless `rest` has it. */
  lemma KeywordTextChars(d: string, rest: string, c: char)
    requires Numeral(d) && !IsDigit(c) && c != '预' && c != '算' && c !in rest
    ensures c !in "预算" + d + rest
  {
    var s := "预算" + d + rest;
    forall i | 0 <= i < |s| ensures s[i] != c {
      if 2 <= i < 2 + |d| {
        assert s[i] == d[i - 2];
      } else if i >= 2 + |d| {
        assert s[i] == rest[i - 2 - |d|];
      }
    }
  }

  /** Without 万 and 千 after the keyword, the four unit expressions give nothing. */
  lemma KeywordMisses(d: string, rest: string)
    requires Numeral(d) && '万' !in rest && '千' !in rest
    ensures BudgetMissesBefore("预算" + d + rest, BudgetPatterns, 4)
    ensures !Contains("预算" + d + rest, "千")
  {
    var s := "预算" + d + rest;
    KeywordTextChars(d, rest, '万');
    KeywordTextChars(d, rest, '千');
    UnitsMissing(s);
    AbsentCharRulesOut(s, "千", 0);
  }

  /** `预算\s*(\d+)` reads the numeral right after the keyword. */
  lemma KeywordMatch(d: string, rest: string)
    requires Numeral(d) && StopsNumeral(rest)
    ensures FirstMatch("预算" + d + rest, BudgetPatterns[4]) == Some([d])
  {
    var s := "预算" + d + rest;
    var p: Pattern := [Lit('预'), Lit('算'), Spaces, Digits(1, None)];
    assert BudgetPatterns[4] == p;
    forall j | 2 <= j < 2 + |d| ensures IsDigit(s[j]) {
      assert s[j] == d[j - 2];
    }
    assert 2 + |d| == |s| || !IsDigit(s[2 + |d|]) by {
      if 2 + |d| < |s| { assert s[2 + |d|] == rest[0]; }
    }
    assert !IsSpace(s[2]) by { assert s[2] == d[0]; }
    MatchDigitsAt(s, 2, 2 + |d|, p[3..]);
    assert s[2..2 + |d|] == d;
    assert p[3..][1..] == [];
    assert MatchAt(s, 2 + |d|, p[3..][1..]) == Some(Match(2 + |d|, []));
    assert [s[2..2 + |d|]] + [] == [d];
    assert MatchAt(s, 2, p[3..]) == Some(Match(2 + |d|, [d]));
    assert p[2..][1..] == p[3..];
    assert MatchAt(s, 2, p[2..]) == MatchAt(s, 2, p[3..]);
    assert p[1..][1..] == p[2..];
    assert s[1] == '算';
    assert MatchAt(s, 1, p[1..]) == MatchAt(s, 2, p[2..]);
    assert s[0] == '预';
    assert MatchAt(s, 0, p) == MatchAt(s, 1, p[1..]);
    MatchAtStart(s, p);
  }

  /**
   * A budget stated after the keyword `预算`, with no 万 or 千 anywhere, is
   * taken as stated whenever it lies between 100 and 1,000,000.
   */
  lemma BudgetAfterKeyword(d: string, rest: string)
    requires Numeral(d) && StopsNumeral(rest) && '万' !in rest && '千' !in rest
    requires 100 <= DecimalValue(d) <= 1000000
    ensures BudgetOf("预算" + d + rest) == Some(d)
  {
    var s := "预算" + d + rest;
    KeywordMisses(d, rest);
    KeywordMatch(d, rest);
    NumeralRead(d);
    ScaleFactor(DecimalValue(d), s);
    BudgetDecidedBy(s, 4, [d]);
  }

  /** "预算5000元" gives the budget "5000". */
  lemma BudgetStated()
    ensures BudgetOf("预算5000元") == Some("5000")
  {
    DecimalFacts();
    assert "预算5000元" == "预算" + "5000" + "元";
    BudgetAfterKeyword("5000", "元");
  }

  /** A numeral at the start of the text, followed by a tail the rest of the expression accepts, is the match. */
  lemma LeadingNumeralMatch(d: string, rest: string, p: Pattern)
    requires Numeral(d) && StopsNumeral(rest)
    requires p != [] && p[0] == Digits(1, None)
    requires MatchAt(d + rest, |d|, p[1..]).Some? && MatchAt(d + rest, |d|, p[1..]).value.groups == []
    ensures FirstMatch(d + rest, p) == Some([d])
  {
    var s := d + rest;
    forall j | 0 <= j < |d| ensures IsDigit(s[j]) {
      assert s[j] == d[j];
    }
    assert |d| == |s| || !IsDigit(s[|d|]) by {
      if |d| < |s| { assert s[|d|] == rest[0]; }
    }
    MatchDigitsAt(s, 0, |d|, p);
    assert s[0..|d|] == d;
    assert [d] + [] == [d];
    MatchAtStart(s, p);
  }

  /** `\s*c` followed by optional parts matches at a `c`. */
  lemma UnitTail(s: string, i: nat, c: char, p: Pattern)
    requires i < |s| && s[i] == c && !IsSpace(c)
    requires |p| >= 2 && p[0] == Spaces && p[1] == Lit(c)
    requires forall k :: 2 <= k < |p| ==> p[k] == Spaces || p[k].Opt?
    ensures MatchAt(s, i, p).Some? && MatchAt(s, i, p).value.groups == []
  {
    assert p[1..][1..] == p[2..];
    assert forall k :: 0 <= k < |p[2..]| ==> p[2..][k] == p[k + 2];
    OptionalTailMatches(s, i + 1, p[2..]);
  }

  /** The text d + u + rest, for a unit character u: the unit follows the numeral. */
  lemma UnitFollows(d: string, u: char, rest: string)
    requires Numeral(d)
    ensures (d + [u] + rest)[|d|] == u && (d + [u] + rest) == d + ([u] + rest)
    ensures Contains(d + [u] + rest, [u])
  {
    var s := d + [u] + rest;
    assert s[|d|..|d| + 1] == [u];
    assert OccursAt(s, [u], |d|);
  }

  /** A character outside the numeral and the unit occurs in d + u + rest only where `rest` has it. */
  lemma UnitTextChars(d: string, u: char, rest: string, c: char)
    requires Numeral(d) && !IsDigit(c) && c != u && c !in rest
    ensures c !in d + [u] + rest
  {
    var s := d + [u] + rest;
    forall i | 0 <= i < |s| ensures s[i] != c {
      if i < |d| {
        assert s[i] == d[i];
      } else if i > |d| {
        assert s[i] == rest[i - |d| - 1];
      }
    }
  }

  /** Without 万 the first two expressions give nothing. */
  lemma TenThousandsAbsent(d: string, u: char, rest: string)
    requires Numeral(d) && u != '万' && '万' !in rest
    ensures BudgetMissesBefore(d + [u] + rest, BudgetPatterns, 2)
  {
    var s := d + [u] + rest;
    UnitTextChars(d, u, rest, '万');
    BudgetMissWithout(s, BudgetPatterns[0], '万');
    BudgetMissWithout(s, BudgetPatterns[1], '万');
  }

  /** `(\d+)\s*千\s*元?` reads the numeral before 千. */
  lemma ThousandsMatch(d: string, rest: string)
    requires Numeral(d)
    ensures FirstMatch(d + "千" + rest, BudgetPatterns[2]) == Some([d])
    ensures Contains(d + "千" + rest, "千")
  {
    var s := d + "千" + rest;
    UnitFollows(d, '千', rest);
    var p: Pattern := [Digits(1, None), Spaces, Lit('千'), Spaces, Opt('元')];
    assert BudgetPatterns[2] == p;
    UnitTail(s, |d|, '千', p[1..]);
    LeadingNumeralMatch(d, "千" + rest, p);
  }

  /**
   * An amount in thousands (`5千`), with no 万 in the text, is converted
   * with the factor 1000 whenever the result is at most 1,000,000: the
   * budget is the numeral `b` of the converted amount.
   */
  lemma BudgetInThousands(d: string, rest: string, b: string)
    requires Numeral(d) && '万' !in rest
    requires Numeral(b) && DecimalValue(b) == DecimalValue(d) * 1000 <= 1000000
    ensures BudgetOf(d + "千" + rest) == Some(b)
  {
    var s := d + "千" + rest;
    TenThousandsAbsent(d, '千', rest);
    ThousandsMatch(d, rest);
    NumeralRead(d);
    NumeralRead(b);
    ScaleFactor(DecimalValue(d), s);
    BudgetDecidedBy(s, 2, [d]);
  }

  /** "5千元" gives the budget "5000". */
  lemma BudgetInThousandsExample()
    ensures BudgetOf("5千元") == Some("5000")
  {
    DecimalFacts();
    assert DecimalValue("5") == 5 by { assert "5"[..0] == ""; }
    assert "5千元" == "5" + "千" + "元";
    BudgetInThousands("5", "元", "5000");
  }

  /** A cascade in which every expression misses gives nothing. */
  lemma BudgetNoneWhenAllMiss(s: string, ps: seq<Pattern>)
    requires BudgetMissesBefore(s, ps, |ps|)
    ensures BudgetFrom(s, ps).None?
  {
    BudgetMissesAll(s, ps, |ps|);
    BudgetFromNone(s, ps);
  }

  /** None of the fixed phrases occurs when their first characters are all absent. */
  lemma FallbackNone(s: string)
    requires '一' !in s && '1' !in s && '五' !in s && '5' !in s && '两' !in s && '2' !in s
    ensures BudgetFallback(s).None?
  {
    AbsentCharRulesOut(s, "一万", 0);
    AbsentCharRulesOut(s, "1万", 0);
    AbsentCharRulesOut(s, "五千", 0);
    AbsentCharRulesOut(s, "5千", 0);
    AbsentCharRulesOut(s, "两千", 0);
    AbsentCharRulesOut(s, "2千", 0);
  }

  /** Neither "3万元" nor "99元" holds a fixed phrase. */
  lemma NoFixedPhraseInExamples()
    ensures BudgetFallback("3万元").None?
    ensures BudgetFallback("99元").None?
  {
    var thirty := "3万元";
    assert thirty == ['3', '万', '元'];
    FallbackNone(thirty);
    var ninetyNine := "99元";
    assert ninetyNine == ['9', '9', '元'];
    FallbackNone(ninetyNine);
  }


  /** `(\d+)\s*万\s*元?` and `(\d+)\s*万` read the numeral before 万. */
  lemma TenThousandsMatch(d: string, rest: string)
    requires Numeral(d)
    ensures FirstMatch(d + "万" + rest, BudgetPatterns[0]) == Some([d])
    ensures FirstMatch(d + "万" + rest, BudgetPatterns[1]) == Some([d])
  {
    var s := d + "万" + rest;
    UnitFollows(d, '万', rest);
    var p0: Pattern := [Digits(1, None), Spaces, Lit('万'), Spaces, Opt('元')];
    var p1: Pattern := [Digits(1, None), Spaces, Lit('万')];
    assert BudgetPatterns[0] == p0 && BudgetPatterns[1] == p1;
    UnitTail(s, |d|, '万', p0[1..]);
    LeadingNumeralMatch(d, "万" + rest, p0);
    UnitTail(s, |d|, '万', p1[1..]);
    LeadingNumeralMatch(d, "万" + rest, p1);
  }

  /** `(\d+)\s*元?` reads any numeral at the start of the text. */
  lemma BareNumeralMatch(d: string, rest: string)
    requires Numeral(d) && StopsNumeral(rest)
    ensures FirstMatch(d + rest, BudgetPatterns[6]) == Some([d])
  {
    var p6: Pattern := [Digits(1, None), Spaces, Opt('元')];
    assert BudgetPatterns[6] == p6;
    OptionalTailMatches(d + rest, |d|, p6[1..]);
    LeadingNumeralMatch(d, rest, p6);
  }

  /** Without 千 the amount read before 万 is taken as it is. */
  lemma TenThousandsScale(d: string, rest: string)
    requires Numeral(d) && '千' !in rest
    ensures Scaled(GroupValue([d], 1), d + "万" + rest) == Num(DecimalValue(d))
  {
    var s := d + "万" + rest;
    UnitTextChars(d, '万', rest, '千');
    AbsentCharRulesOut(s, "千", 0);
    NumeralRead(d);
    ScaleFactor(DecimalValue(d), s);
  }

  /** In d + 万 + rest, with none of 千, 预 and 块 after the unit, the five other expressions give nothing. */
  lemma TenThousandsOthersMiss(d: string, rest: string)
    requires Numeral(d) && '千' !in rest && '预' !in rest && '块' !in rest
    ensures BudgetMiss(d + "万" + rest, BudgetPatterns[2]) && BudgetMiss(d + "万" + rest, BudgetPatterns[3])
    ensures BudgetMiss(d + "万" + rest, BudgetPatterns[4]) && BudgetMiss(d + "万" + rest, BudgetPatterns[5])
    ensures BudgetMiss(d + "万" + rest, BudgetPatterns[7])
  {
    var s := d + "万" + rest;
    UnitTextChars(d, '万', rest, '千');
    UnitTextChars(d, '万', rest, '预');
    UnitTextChars(d, '万', rest, '块');
    BudgetMissWithout(s, BudgetPatterns[2], '千');
    BudgetMissWithout(s, BudgetPatterns[3], '千');
    BudgetMissWithout(s, BudgetPatterns[4], '预');
    BudgetMissWithout(s, BudgetPatterns[5], '块');
    BudgetMissWithout(s, BudgetPatterns[7], '块');
  }

  /** An expression that reads an amount out of range gives nothing. */
  lemma OutOfRangeMisses(s: string, p: Pattern, d: string)
    requires FirstMatch(s, p) == Some([d])
    requires Scaled(GroupValue([d], 1), s) == Num(DecimalValue(d)) && !(100 <= DecimalValue(d) <= 1000000)
    ensures BudgetMiss(s, p)
  {
  }

  lemma TenThousandsUnitMiss(d: string, rest: string)
    requires Numeral(d) && '千' !in rest
    requires !(100 <= DecimalValue(d) <= 1000000)
    ensures BudgetMiss(d + "万" + rest, BudgetPatterns[0]) && BudgetMiss(d + "万" + rest, BudgetPatterns[1])
  {
    var s := d + "万" + rest;
    TenThousandsMatch(d, rest);
    TenThousandsScale(d, rest);
    OutOfRangeMisses(s, BudgetPatterns[0], d);
    OutOfRangeMisses(s, BudgetPatterns[1], d);
  }

  lemma TenThousandsBareMiss(d: string, rest: string)
    requires Numeral(d) && '千' !in rest
    requires !(100 <= DecimalValue(d) <= 1000000)
    ensures BudgetMiss(d + "万" + rest, BudgetPatterns[6])
  {
    var s := d + "万" + rest;
    BareNumeralMatch(d, "万" + rest);
    assert s == d + ("万" + rest);
    TenThousandsScale(d, rest);
    OutOfRangeMisses(s, BudgetPatterns[6], d);
  }

  /** When the numeral before 万 is out of range, every expression misses. */
  lemma TenThousandsAllMiss(d: string, rest: string)
    requires Numeral(d) && '千' !in rest && '预' !in rest && '块' !in rest
    requires !(100 <= DecimalValue(d) <= 1000000)
    ensures BudgetMissesBefore(d + "万" + rest, BudgetPatterns, 8)
  {
    var s := d + "万" + rest;
    TenThousandsUnitMiss(d, rest);
    TenThousandsBareMiss(d, rest);
    TenThousandsOthersMiss(d, rest);
    assert BudgetMissesBefore(s, BudgetPatterns, 2);
    assert BudgetMissesBefore(s, BudgetPatterns, 4);
    assert BudgetMissesBefore(s, BudgetPatterns, 6);
  }

  /**
   * An amount in units of ten thousand (`5万`) is never multiplied: the
   * numeral before 万 is the budget when it lies between 100 and 1,000,000
   * by itself, and otherwise only the fixed phrases are consulted.
   */
  lemma TenThousandsNotConverted(d: string, rest: string)
    requires Numeral(d) && '千' !in rest && '预' !in rest && '块' !in rest
    ensures BudgetOf(d + "万" + rest) ==
      if 100 <= DecimalValue(d) <= 1000000 then Some(d) else BudgetFallback(d + "万" + rest)
  {
    var s := d + "万" + rest;
    if 100 <= DecimalValue(d) <= 1000000 {
      TenThousandsMatch(d, rest);
      TenThousandsScale(d, rest);
      NumeralRead(d);
      BudgetDecidedBy(s, 0, [d]);
    } else {
      TenThousandsAllMiss(d, rest);
      BudgetNoneWhenAllMiss(s, BudgetPatterns);
    }
  }

  /** "500万": a budget of five million yuan is read as 500. */
  lemma FiveMillionReadAsFiveHundred()
    ensures BudgetOf("500万") == Some("500")
  {
    assert DecimalValue("500") == 500 by { assert "500"[..2] == "50" && "50"[..1] == "5" && "5"[..0] == ""; }
    assert "500万" == "500" + "万" + "";
    TenThousandsNotConverted("500", "");
  }

  /** "3万元": thirty thousand yuan gives no budget at all. */
  lemma ThirtyThousandGivesNothing()
    ensures BudgetOf("3万元").None?
  {
    assert DecimalValue("3") == 3 by { assert "3"[..0] == ""; }
    assert "3万元" == "3" + "万" + "元";
    TenThousandsNotConverted("3", "元");
    NoFixedPhraseInExamples();
  }


  /** "1万元": ten thousand yuan is found only by the fixed phrase "1万". */
  lemma TenThousandByPhrase()
    ensures BudgetOf("1万元") == Some("10000")
  {
    var s := "1万元";
    assert DecimalValue("1") == 1 by { assert "1"[..0] == ""; }
    assert s == "1" + "万" + "元";
    TenThousandsNotConverted("1", "元");
    assert OccursAt(s, "1万", 0);
  }

  /** A character that is not a digit occurs in d + rest only where `rest` has it. */
  lemma NumeralTextChars(d: string, rest: string, c: char)
    requires Numeral(d) && !IsDigit(c) && c !in rest
    ensures c !in d + rest
  {
    var s := d + rest;
    forall i | 0 <= i < |s| ensures s[i] != c {
      if i < |d| {
        assert s[i] == d[i];
      } else {
        assert s[i] == rest[i - |d|];
      }
    }
  }

  /** Without 万, 千, 预 and 块, the first six expressions give nothing. */
  lemma BareAmountMisses(d: string, rest: string)
    requires Numeral(d) && '万' !in rest && '千' !in rest && '预' !in rest && '块' !in rest
    ensures BudgetMissesBefore(d + rest, BudgetPatterns, 6)
    ensures !Contains(d + rest, "千")
  {
    var s := d + rest;
    NumeralTextChars(d, rest, '万');
    NumeralTextChars(d, rest, '千');
    UnitsMissing(s);
    NumeralTextChars(d, rest, '预');
    NumeralTextChars(d, rest, '块');
    BudgetMissWithout(s, BudgetPatterns[4], '预');
    BudgetMissWithout(s, BudgetPatterns[5], '块');
    AbsentCharRulesOut(s, "千", 0);
  }

  /** Without 万 and 千 the four unit expressions give nothing. */
  lemma UnitsMissing(s: string)
    requires '万' !in s && '千' !in s
    ensures BudgetMissesBefore(s, BudgetPatterns, 4)
  {
    BudgetMissWithout(s, BudgetPatterns[0], '万');
    BudgetMissWithout(s, BudgetPatterns[1], '万');
    BudgetMissWithout(s, BudgetPatterns[2], '千');
    BudgetMissWithout(s, BudgetPatterns[3], '千');
    assert BudgetMissesBefore(s, BudgetPatterns, 2);
  }

  /**
   * A bare amount (`100元`, `99`), with no unit, keyword or 块 anywhere,
   * is the budget when it lies between 100 and 1,000,000; otherwise only the
   * fixed phrases are consulted.
   */
  lemma BareAmount(d: string, rest: string)
    requires Numeral(d) && StopsNumeral(rest)
    requires '万' !in rest && '千' !in rest && '预' !in rest && '块' !in rest
    ensures BudgetOf(d + rest) ==
      if 100 <= DecimalValue(d) <= 1000000 then Some(d) else BudgetFallback(d + rest)
  {
    var s := d + rest;
    BareAmountMisses(d, rest);
    BareNumeralMatch(d, rest);
    NumeralRead(d);
    ScaleFactor(DecimalValue(d), s);
    if 100 <= DecimalValue(d) <= 1000000 {
      BudgetDecidedBy(s, 6, [d]);
    } else {
      OutOfRangeMisses(s, BudgetPatterns[6], d);
      assert BudgetMissesBefore(s, BudgetPatterns, 7);
      NumeralTextChars(d, rest, '块');
      BudgetMissWithout(s, BudgetPatterns[7], '块');
      BudgetNoneWhenAllMiss(s, BudgetPatterns);
    }
  }

  /** "100元" gives the budget "100", the least accepted. */
  lemma HundredYuan()
    ensures BudgetOf("100元") == Some("100")
  {
    assert DecimalValue("100") == 100 by { assert "100"[..2] == "10" && "10"[..1] == "1" && "1"[..0] == ""; }
    assert "100元" == "100" + "元";
    BareAmount("100", "元");
  }


  /** "99元" gives no budget: the amount is below 100. */
  lemma NinetyNineYuan()
    ensures BudgetOf("99元").None?
  {
    assert DecimalValue("99") == 99 by { assert "99"[..1] == "9" && "9"[..0] == ""; }
    assert "99元" == "99" + "元";
    BareAmount("99", "元");
    NoFixedPhraseInExamples();
  }

  /** Every budget expression captures a digit group of at least one digit. */
  lemma BudgetPatternsCaptureA()
    ensures WellFormed(BudgetPatterns[0]) && GroupCount(BudgetPatterns[0]) > 0
    ensures WellFormed(BudgetPatterns[1]) && GroupCount(BudgetPatterns[1]) > 0
    ensures WellFormed(BudgetPatterns[2]) && GroupCount(BudgetPatterns[2]) > 0
    ensures WellFormed(BudgetPatterns[3]) && GroupCount(BudgetPatterns[3]) > 0
  {
  }

  lemma BudgetPatternsCaptureB()
    ensures WellFormed(BudgetPatterns[4]) && GroupCount(BudgetPatterns[4]) > 0
    ensures WellFormed(BudgetPatterns[5]) && GroupCount(BudgetPatterns[5]) > 0
    ensures WellFormed(BudgetPatterns[6]) && GroupCount(BudgetPatterns[6]) > 0
    ensures WellFormed(BudgetPatterns[7]) && GroupCount(BudgetPatterns[7]) > 0
  {
  }

  /** An expression with a digit group never matches a text without digits. */
  lemma NoDigitBudgetMiss(s: string, p: Pattern)
    requires WellFormed(p) && GroupCount(p) > 0
    requires forall k :: 0 <= k < |s| ==> !IsDigit(s[k])
    ensures BudgetMiss(s, p)
  {
    NoDigitNoMatchFrom(s, 0, p);
  }

  lemma NoDigitFirstFour(s: string)
    requires forall k :: 0 <= k < |s| ==> !IsDigit(s[k])
    ensures BudgetMissesBefore(s, BudgetPatterns, 4)
  {
    BudgetPatternsCaptureA();
    NoDigitBudgetMiss(s, BudgetPatterns[0]);
    NoDigitBudgetMiss(s, BudgetPatterns[1]);
    NoDigitBudgetMiss(s, BudgetPatterns[2]);
    NoDigitBudgetMiss(s, BudgetPatterns[3]);
    assert BudgetMissesBefore(s, BudgetPatterns, 2);
  }

  lemma NoDigitAllMiss(s: string)
    requires forall k :: 0 <= k < |s| ==> !IsDigit(s[k])
    ensures BudgetMissesBefore(s, BudgetPatterns, 8)
  {
    NoDigitFirstFour(s);
    BudgetPatternsCaptureB();
    NoDigitBudgetMiss(s, BudgetPatterns[4]);
    NoDigitBudgetMiss(s, BudgetPatterns[5]);
    NoDigitBudgetMiss(s, BudgetPatterns[6]);
    NoDigitBudgetMiss(s, BudgetPatterns[7]);
    assert BudgetMissesBefore(s, BudgetPatterns, 6);
  }

  /** Without a digit in the text only the fixed phrases can give a budget. */
  lemma NoDigitsOnlyPhrases(s: string)
    requires forall k :: 0 <= k < |s| ==> !IsDigit(s[k])
    ensures BudgetOf(s) == BudgetFallback(s)
  {
    NoDigitAllMiss(s);
    BudgetNoneWhenAllMiss(s, BudgetPatterns);
  }

  lemma TwoThousandPhrase()
    ensures (forall k :: 0 <= k < |"两千"| ==> !IsDigit("两千"[k])) && BudgetFallback("两千") == Some("2000")
  {
    var s := "两千";
    assert s == ['两', '千'];
    AbsentCharRulesOut(s, "一万", 0);
    AbsentCharRulesOut(s, "1万", 0);
    AbsentCharRulesOut(s, "五千", 0);
    AbsentCharRulesOut(s, "5千", 0);
    assert OccursAt(s, "两千", 0);
  }

  /** "两千" gives the budget "2000" through the fixed phrases. */
  lemma TwoThousandInWords()
    ensures BudgetOf("两千") == Some("2000")
  {
    TwoThousandPhrase();
    NoDigitsOnlyPhrases("两千");
  }

  // --------------------------------------------------------------- travelers

  /** None of the first `k` expressions of `ps` gives a head count. */
  predicate TravelerMissesBefore(s: string, ps: seq<Pattern>, k: nat)
    requires k <= |ps|
  {
    k == 0 || (TravelerMissesBefore(s, ps, k - 1) && TravelerMiss(s, ps[k - 1]))
  }

  lemma {:induction false} TravelerMissesAll(s: string, ps: seq<Pattern>, k: nat)
    requires k <= |ps| && TravelerMissesBefore(s, ps, k)
    ensures forall j :: 0 <= j < k ==> TravelerMiss(s, ps[j])
  {
    if k > 0 {
      TravelerMissesAll(s, ps, k - 1);
    }
  }

  /** The first expression whose count is between 1 and 20 gives the head count. */
  lemma TravelersDecidedBy(s: string, k: nat, d: string)
    requires k < |TravelerPatterns| && TravelerMissesBefore(s, TravelerPatterns, k)
    requires FirstMatch(s, TravelerPatterns[k]) == Some([d])
    requires Numeral(d) && DecimalValue(d) <= 20
    ensures TravelersOf(s) == Some(d)
  {
    TravelerMissesAll(s, TravelerPatterns, k);
    TravelersSkips(s, TravelerPatterns, k);
    assert TravelerPatterns[k..][0] == TravelerPatterns[k];
    NumeralRead(d);
  }

  /** A cascade in which every expression misses gives nothing. */
  lemma TravelersNoneWhenAllMiss(s: string, ps: seq<Pattern>)
    requires TravelerMissesBefore(s, ps, |ps|)
    ensures TravelersFrom(s, ps).None?
  {
    TravelerMissesAll(s, ps, |ps|);
    TravelersFromNone(s, ps);
  }

  /** An expression that reads a count above 20 gives nothing. */
  lemma TooManyMisses(s: string, p: Pattern, d: string)
    requires FirstMatch(s, p) == Some([d]) && Numeral(d) && DecimalValue(d) > 20
    ensures TravelerMiss(s, p)
  {
    NumeralRead(d);
  }

  /** In d + 人 the head count is read by `(\d+)\s*人`. */
  lemma PersonsMatch(d: string)
    requires Numeral(d)
    ensures FirstMatch(d + "人", TravelerPatterns[0]) == Some([d])
  {
    var s := d + "人";
    assert s == d + ['人'] + "";
    UnitFollows(d, '人', "");
    var p: Pattern := [Digits(1, None), Spaces, Lit('人')];
    assert TravelerPatterns[0] == p;
    UnitTail(s, |d|, '人', p[1..]);
    LeadingNumeralMatch(d, "人", p);
  }

  /** In d + 人 none of the other five expressions matches. */
  lemma PersonsOthersMiss(d: string)
    requires Numeral(d)
    ensures TravelerMissesBefore(d + "人", TravelerPatterns, 6) <== TravelerMiss(d + "人", TravelerPatterns[0])
  {
    var s := d + "人";
    assert s == d + ['人'] + "";
    UnitTextChars(d, '人', "", '个');
    UnitTextChars(d, '人', "", '位');
    UnitTextChars(d, '人', "", '带');
    UnitTextChars(d, '人', "", '大');
    UnitTextChars(d, '人', "", '口');
    TravelerMissWithout(s, TravelerPatterns[1], '个');
    TravelerMissWithout(s, TravelerPatterns[2], '位');
    TravelerMissWithout(s, TravelerPatterns[3], '带');
    TravelerMissWithout(s, TravelerPatterns[4], '大');
    TravelerMissWithout(s, TravelerPatterns[5], '口');
    if TravelerMiss(s, TravelerPatterns[0]) {
      assert TravelerMissesBefore(s, TravelerPatterns, 2);
      assert TravelerMissesBefore(s, TravelerPatterns, 4);
    }
  }

  /** "N人" gives N travelers when N is at most 20, and no head count otherwise. */
  lemma PersonsStated(d: string)
    requires Numeral(d)
    ensures TravelersOf(d + "人") == if DecimalValue(d) <= 20 then Some(d) else None
  {
    var s := d + "人";
    PersonsMatch(d);
    if DecimalValue(d) <= 20 {
      TravelersDecidedBy(s, 0, d);
    } else {
      TooManyMisses(s, TravelerPatterns[0], d);
      PersonsOthersMiss(d);
      TravelersNoneWhenAllMiss(s, TravelerPatterns);
    }
  }

  /** "3人" gives 3 travelers. */
  lemma ThreePersons()
    ensures TravelersOf("3人") == Some("3")
  {
    assert DecimalValue("3") == 3 by { assert "3"[..0] == ""; }
    assert "3人" == "3" + "人";
    PersonsStated("3");
  }

  /** "50人" gives no head count: more than 20 travelers are not accepted. */
  lemma FiftyPersons()
    ensures TravelersOf("50人").None?
  {
    assert DecimalValue("50") == 50 by { assert "50"[..1] == "5" && "5"[..0] == ""; }
    assert "50人" == "50" + "人";
    PersonsStated("50");
  }

  /** In d + 个人, `(\d+)\s*人` matches nowhere: the only 人 follows 个, not a digit. */
  lemma MeasureWordBlocksPersons(d: string)
    requires Numeral(d)
    ensures TravelerMiss(d + "个人", TravelerPatterns[0])
  {
    var s := d + "个人";
    var n := |d|;
    var p: Pattern := [Digits(1, None), Spaces, Lit('人')];
    assert TravelerPatterns[0] == p;
    assert |s| == n + 2 && s[n] == '个' && s[n + 1] == '人';
    forall i | 0 <= i <= |s| ensures MatchAt(s, i, p).None? {
      if i < n {
        forall j | i <= j < n ensures IsDigit(s[j]) {
          assert s[j] == d[j];
        }
        MatchDigitsAt(s, i, n, p);
        assert p[1..][1..] == [Lit('人')];
        assert MatchAt(s, n, p[1..]) == MatchAt(s, n, [Lit('人')]);
      } else {
        assert RunEnd(s, i, i, None) == i;
      }
    }
    NoMatchAnywhere(s, p, 0);
  }

  /** `\s*个\s*人` matches `个人` and captures nothing. */
  lemma MeasureTail(s: string, i: nat, q: Pattern)
    requires i + 2 <= |s| && s[i] == '个' && s[i + 1] == '人'
    requires q == [Spaces, Lit('个'), Spaces, Lit('人')]
    ensures MatchAt(s, i, q).Some? && MatchAt(s, i, q).value.groups == []
  {
    assert q[1..] == [Lit('个'), Spaces, Lit('人')] && q[1..][1..] == [Spaces, Lit('人')];
    assert MatchAt(s, i + 1, [Lit('人')]) == Some(Match(i + 2, []));
    assert MatchAt(s, i + 1, q[1..][1..]) == MatchAt(s, i + 1, [Lit('人')]);
    assert MatchAt(s, i, q[1..]) == MatchAt(s, i + 1, q[1..][1..]);
  }

  /** In d + 个人, `(\d+)\s*个\s*人` reads the numeral. */
  lemma MeasureWordMatch(d: string)
    requires Numeral(d)
    ensures FirstMatch(d + "个人", TravelerPatterns[1]) == Some([d])
  {
    var s := d + "个人";
    var n := |d|;
    var p: Pattern := [Digits(1, None), Spaces, Lit('个'), Spaces, Lit('人')];
    assert TravelerPatterns[1] == p;
    assert |s| == n + 2 && s[n] == '个' && s[n + 1] == '人';
    MeasureTail(s, n, p[1..]);
    LeadingNumeralMatch(d, "个人", p);
  }

  /** "N个人" gives N travelers, read by the second expression. */
  lemma MeasureWordPersons(d: string)
    requires Numeral(d) && DecimalValue(d) <= 20
    ensures TravelersOf(d + "个人") == Some(d)
  {
    MeasureWordBlocksPersons(d);
    MeasureWordMatch(d);
    TravelersDecidedBy(d + "个人", 1, d);
  }

  /** "3个人" gives 3 travelers. */
  lemma ThreePeople()
    ensures TravelersOf("3个人") == Some("3")
  {
    assert DecimalValue("3") == 3 by { assert "3"[..0] == ""; }
    assert "3个人" == "3" + "个人";
    MeasureWordPersons("3");
  }

  /** `\s*个?\s*孩子?` matches `个孩子` and captures nothing. */
  lemma ChildrenTail(s: string, i: nat, p: Pattern)
    requires i + 3 <= |s| && s[i] == '个' && s[i + 1] == '孩' && s[i + 2] == '子'
    requires p == [Spaces, Opt('个'), Spaces, Lit('孩'), Opt('子')]
    ensures MatchAt(s, i, p).Some? && MatchAt(s, i, p).value.groups == []
  {
    assert p[3..][1..] == [Opt('子')];
    OptionalTailMatches(s, i + 2, [Opt('子')]);
    assert MatchAt(s, i + 1, p[2..]) == MatchAt(s, i + 1, p[3..]);
    assert MatchAt(s, i, p[1..]) == MatchAt(s, i + 1, p[2..]);
    assert MatchAt(s, i, p) == MatchAt(s, i, p[1..]);
  }

  /** A character, `\s*`, then a numeral: the numeral is captured when the rest of the expression accepts what follows it. */
  lemma PrefixedNumeralMatch(c: char, d: string, rest: string, p: Pattern)
    requires Numeral(d) && StopsNumeral(rest)
    requires |p| >= 3 && p[0] == Lit(c) && p[1] == Spaces && p[2] == Digits(1, None)
    requires MatchAt([c] + d + rest, 1 + |d|, p[3..]).Some?
    requires MatchAt([c] + d + rest, 1 + |d|, p[3..]).value.groups == []
    ensures FirstMatch([c] + d + rest, p) == Some([d])
  {
    var s := [c] + d + rest;
    var n := |d|;
    forall j | 1 <= j < 1 + n ensures IsDigit(s[j]) {
      assert s[j] == d[j - 1];
    }
    assert 1 + n == |s| || !IsDigit(s[1 + n]) by {
      if 1 + n < |s| { assert s[1 + n] == rest[0]; }
    }
    MatchDigitsAt(s, 1, 1 + n, p[2..]);
    assert p[2..][1..] == p[3..];
    assert s[1..1 + n] == d;
    assert [d] + [] == [d];
    assert !IsSpace(s[1]) by { assert s[1] == d[0]; }
    assert p[1..][1..] == p[2..];
    assert MatchAt(s, 1, p[1..]) == MatchAt(s, 1, p[2..]);
    assert MatchAt(s, 0, p) == MatchAt(s, 1, p[1..]);
    MatchAtStart(s, p);
  }

  /** `带\s*(\d+)\s*个?\s*孩子?` reads the number of children. */
  lemma ChildrenMatch(d: string)
    requires Numeral(d)
    ensures FirstMatch("带" + d + "个孩子", TravelerPatterns[3]) == Some([d])
  {
    var s := "带" + d + "个孩子";
    var n := |d|;
    var p: Pattern := [Lit('带'), Spaces, Digits(1, None), Spaces, Opt('个'), Spaces, Lit('孩'), Opt('子')];
    assert TravelerPatterns[3] == p;
    assert s[n + 1] == '个' && s[n + 2] == '孩' && s[n + 3] == '子' && |s| == n + 4;
    ChildrenTail(s, n + 1, p[3..]);
    PrefixedNumeralMatch('带', d, "个孩子", p);
  }

  /** A phrase `带N个孩子` gives N travelers: the children are counted, not the party. */
  lemma ChildrenCounted(d: string)
    requires Numeral(d) && DecimalValue(d) <= 20
    ensures TravelersOf("带" + d + "个孩子") == Some(d)
  {
    var s := "带" + d + "个孩子";
    assert '人' !in s && '位' !in s by {
      forall i | 0 <= i < |s| ensures s[i] != '人' && s[i] != '位' {
        if 1 <= i < 1 + |d| { assert s[i] == d[i - 1]; }
      }
    }
    TravelerMissWithout(s, TravelerPatterns[0], '人');
    TravelerMissWithout(s, TravelerPatterns[1], '人');
    TravelerMissWithout(s, TravelerPatterns[2], '位');
    assert TravelerMissesBefore(s, TravelerPatterns, 2);
    ChildrenMatch(d);
    TravelersDecidedBy(s, 3, d);
  }

  /** "带2个孩子" gives 2 travelers. */
  lemma TwoChildren()
    ensures TravelersOf("带2个孩子") == Some("2")
  {
    assert DecimalValue("2") == 2 by { assert "2"[..0] == ""; }
    assert "带2个孩子" == "带" + "2" + "个孩子";
    ChildrenCounted("2");
  }

  // ------------------------------------------------------------- destination

  /** The scan order puts 上海 second, right after 北京. */
  lemma ScanOrderStart()
    ensures |CityFirst(Lexicon)| > 1 && CityFirst(Lexicon)[0] == "北京" && CityFirst(Lexicon)[1] == "上海"
  {
    LexiconCityFirst();
  }

  lemma ShanghaiTextFacts()
    ensures !Mentions("从上海去日本", "北京") && Mentions("从上海去日本", "上海")
  {
    var s := "从上海去日本";
    assert s == ['从', '上', '海', '去', '日', '本'];
    AbsentCharNotMentioned(s, "北京", 0);
    assert OccursAt(s, "上海", 1);
  }

  /**
   * "从上海去日本": the city is reported although the country comes first in
   * the lexicon, because the cities are moved to the front of the scan.
   */
  lemma CityBeforeCountry()
    ensures DestinationOf("从上海去日本", CityFirst(Lexicon)) == Some("上海")
  {
    ScanOrderStart();
    ShanghaiTextFacts();
    ScanFindsFirst("从上海去日本", CityFirst(Lexicon), 1);
  }

  /** Entries whose first character is missing from the text are not mentioned. */
  predicate FirstCharsAbsent(text: string, run: seq<string>) {
    forall i :: 0 <= i < |run| ==> |run[i]| > 0 && run[i][0] !in text && !('A' <= run[i][0] <= 'Z')
  }

  lemma FirstCharsNotMentioned(text: string, run: seq<string>)
    requires FirstCharsAbsent(text, run)
    ensures forall i :: 0 <= i < |run| ==> !Mentions(text, run[i])
  {
    forall i | 0 <= i < |run| ensures !Mentions(text, run[i]) {
      AbsentCharNotMentioned(text, run[i], 0);
    }
  }

  /** The scan over the three runs of the lexicon finds nothing when no run is mentioned. */
  lemma ScanMissesRuns(text: string)
    requires forall i :: 0 <= i < |LexiconCities| ==> !Mentions(text, LexiconCities[i])
    requires forall i :: 0 <= i < |LexiconHead| ==> !Mentions(text, LexiconHead[i])
    requires forall i :: 0 <= i < |LexiconTail| ==> !Mentions(text, LexiconTail[i])
    ensures Scan(text, CityFirst(Lexicon)).None?
  {
    LexiconCityFirst();
    var ds := LexiconCities + LexiconHead + LexiconTail;
    forall i | 0 <= i < |ds| ensures !Mentions(text, ds[i]) {
      if i < |LexiconCities| {
        assert ds[i] == LexiconCities[i];
      } else if i < |LexiconCities| + |LexiconHead| {
        assert ds[i] == LexiconHead[i - |LexiconCities|];
      } else {
        assert ds[i] == LexiconTail[i - |LexiconCities| - |LexiconHead|];
      }
    }
  }

  lemma TokyoTextCities()
    ensures FirstCharsAbsent("我想去东京旅游", LexiconCities)
  {
    assert "我想去东京旅游" == ['我', '想', '去', '东', '京', '旅', '游'];
  }

  lemma TokyoTextHead()
    ensures FirstCharsAbsent("我想去东京旅游", LexiconHead)
  {
    assert "我想去东京旅游" == ['我', '想', '去', '东', '京', '旅', '游'];
  }

  lemma TokyoTextTail()
    ensures FirstCharsAbsent("我想去东京旅游", LexiconTail)
  {
    TokyoTextTailFront();
    TokyoTextTailBack();
    FirstCharsAbsentJoin("我想去东京旅游", LexiconTail[..11], LexiconTail[11..]);
    assert LexiconTail[..11] + LexiconTail[11..] == LexiconTail;
  }

  lemma TokyoTextTailFront()
    ensures FirstCharsAbsent("我想去东京旅游", LexiconTail[..11])
  {
    assert "我想去东京旅游" == ['我', '想', '去', '东', '京', '旅', '游'];
  }

  lemma TokyoTextTailBack()
    ensures FirstCharsAbsent("我想去东京旅游", LexiconTail[11..])
  {
    assert "我想去东京旅游" == ['我', '想', '去', '东', '京', '旅', '游'];
  }

  lemma FirstCharsAbsentJoin(text: string, a: seq<string>, b: seq<string>)
    requires FirstCharsAbsent(text, a) && FirstCharsAbsent(text, b)
    ensures FirstCharsAbsent(text, a + b)
  {
    forall i | 0 <= i < |a + b|
      ensures |(a + b)[i]| > 0 && (a + b)[i][0] !in text && !('A' <= (a + b)[i][0] <= 'Z')
    {
      if i >= |a| { assert (a + b)[i] == b[i - |a|]; }
    }
  }

  lemma TokyoMentioned()
    ensures Contains("我想去东京旅游", "东京")
  {
    assert OccursAt("我想去东京旅游", "东京", 3);
  }

  /** "我想去东京旅游": no lexicon entry is mentioned, and 东京 points to Japan. */
  lemma TokyoMeansJapan()
    ensures DestinationOf("我想去东京旅游", CityFirst(Lexicon)) == Some("日本")
  {
    var s := "我想去东京旅游";
    TokyoTextCities();
    FirstCharsNotMentioned(s, LexiconCities);
    TokyoTextHead();
    FirstCharsNotMentioned(s, LexiconHead);
    TokyoTextTail();
    FirstCharsNotMentioned(s, LexiconTail);
    ScanMissesRuns(s);
    TokyoMentioned();
  }

  lemma IndonesiaTextCities()
    ensures forall i :: 0 <= i < |LexiconCities| ==> !Mentions("去印度尼西亚", LexiconCities[i])
  {
    var s := "去印度尼西亚";
    assert s == ['去', '印', '度', '尼', '西', '亚'];
    var cs := LexiconCities;
    assert FirstCharsAbsent(s, cs[..5]) && FirstCharsAbsent(s, cs[6..]);
    FirstCharsNotMentioned(s, cs[..5]);
    FirstCharsNotMentioned(s, cs[6..]);
    AbsentCharNotMentioned(s, cs[5], 1);
    forall i | 0 <= i < |cs| ensures !Mentions(s, cs[i]) {
      if i < 5 { assert cs[i] == cs[..5][i]; }
      else if i > 5 { assert cs[i] == cs[6..][i - 6]; }
    }
  }

  lemma IndonesiaTextHead()
    ensures FirstCharsAbsent("去印度尼西亚", LexiconHead[..7])
    ensures Mentions("去印度尼西亚", LexiconHead[7])
  {
    var s := "去印度尼西亚";
    assert s == ['去', '印', '度', '尼', '西', '亚'];
    assert LexiconHead[7] == "印度尼西亚";
    assert OccursAt(s, "印度尼西亚", 1);
  }

  /**
   * "去印度尼西亚": Indonesia is reported, not India, because it comes
   * earlier in the scan order.
   */
  lemma IndonesiaBeforeIndia()
    ensures DestinationOf("去印度尼西亚", CityFirst(Lexicon)) == Some("印度尼西亚")
  {
    var s := "去印度尼西亚";
    LexiconCityFirst();
    var ds := LexiconCities + LexiconHead + LexiconTail;
    IndonesiaTextCities();
    IndonesiaTextHead();
    FirstCharsNotMentioned(s, LexiconHead[..7]);
    forall i | 0 <= i < 15 ensures !Mentions(s, ds[i]) {
      if i < 8 {
        assert ds[i] == LexiconCities[i];
      } else {
        assert ds[i] == LexiconHead[..7][i - 8];
      }
    }
    assert ds[15] == LexiconHead[7];
    ScanFindsFirst(s, ds, 15);
  }

  // ------------------------------------------------------------- preferences

  /** A category none of whose keywords begins with a character of the text is not triggered. */
  lemma NotTriggeredByFirstChars(text: string, c: Category)
    requires forall k :: 0 <= k < |c.keywords| ==> |c.keywords[k]| > 0 && c.keywords[k][0] !in text
    ensures !Triggered(text, c)
  {
    forall k | 0 <= k < |c.keywords| ensures !Contains(text, c.keywords[k]) {
      AbsentCharRulesOut(text, c.keywords[k], 0);
    }
  }

  /** When exactly one category is selected, the selection is its name alone. */
  lemma {:induction false} SelectedOnly(cs: seq<Category>, hit: Category -> bool, k: nat)
    requires k < |cs| && hit(cs[k])
    requires forall i :: 0 <= i < |cs| && i != k ==> !hit(cs[i])
    ensures Selected(cs, hit) == [cs[k].name]
    decreases |cs|
  {
    if k == 0 {
      assert Selected(cs[1..], hit) == [] by {
        assert forall i :: 0 <= i < |cs[1..]| ==> cs[1..][i] == cs[i + 1];
      }
    } else {
      assert forall i :: 0 <= i < |cs[1..]| ==> cs[1..][i] == cs[i + 1];
      SelectedOnly(cs[1..], hit, k - 1);
    }
  }

  lemma ShanghaiNature()
    ensures Triggered("去上海", Categories[3])
  {
    assert Categories[3].keywords[6] == "海";
    assert OccursAt("去上海", "海", 2);
  }

  lemma ShanghaiNothingElseA()
    ensures forall i :: 0 <= i < 3 ==> !Triggered("去上海", Categories[i])
  {
    var s := "去上海";
    assert s == ['去', '上', '海'];
    NotTriggeredByFirstChars(s, Categories[0]);
    NotTriggeredByFirstChars(s, Categories[1]);
    NotTriggeredByFirstChars(s, Categories[2]);
  }

  lemma ShanghaiNothingElseB()
    ensures forall i :: 4 <= i < 8 ==> !Triggered("去上海", Categories[i])
  {
    var s := "去上海";
    assert s == ['去', '上', '海'];
    NotTriggeredByFirstChars(s, Categories[4]);
    NotTriggeredByFirstChars(s, Categories[5]);
    NotTriggeredByFirstChars(s, Categories[6]);
    NotTriggeredByFirstChars(s, Categories[7]);
  }

  /** "去上海": the 海 in Shanghai's name alone selects the nature-scenery preference. */
  lemma ShanghaiMeansSeaside()
    ensures PreferencesOf("去上海") == Some("自然风光")
  {
    var s := "去上海";
    ShanghaiNature();
    ShanghaiNothingElseA();
    ShanghaiNothingElseB();
    SelectedOnly(Categories, c => Triggered(s, c), 3);
  }
}
