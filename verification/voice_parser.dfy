/**
 * The `VoiceParser` class: its destination list, which `extractDestination`
 * sorts in place, and the extraction methods, each a loop proved against the
 * function in `VoiceLexicon` or `VoiceRules` that specifies it.
 */
module Voice {
  import opened Wrappers
  import opened JsText
  import opened Regex
  import opened Calendar
  import opened VoiceLexicon
  import opened VoiceRules

  /**
   * What `parseVoiceInput` returns. Every field may be absent; dates are day
   * numbers (the `YYYY-MM-DD` text of a day is not modelled).
   */
  datatype TravelPlanData = TravelPlanData(
    destination: Option<string>,
    startDate: Option<int>,
    endDate: Option<int>,
    budget: Option<string>,
    travelers: Option<string>,
    preferences: Option<string>)

  /**
   * `parseVoiceInput` on the lower-cased text, once the destination list is
   * in city-first order: the destination, the dates (or the error that
   * formatting an invalid date throws), budget, travelers and preferences.
   */
  function PlanOf(text: string, nowMs: int): Result<TravelPlanData, string>
    requires TimeInRange(nowMs)
  {
    var destination := DestinationOf(text, CityFirst(Lexicon));
    match DateInfoOf(text, nowMs)
    case Failure(e) => Failure(e)
    case Success(dates) =>
      Success(TravelPlanData(
        destination,
        if dates.Some? then Some(dates.value.start) else None,
        if dates.Some? then Some(dates.value.end) else None,
        BudgetOf(text),
        TravelersOf(text),
        PreferencesOf(text)))
  }

  /** A parsed plan names a lexicon entry as destination, if any. */
  lemma PlanDestination(text: string, nowMs: int)
    requires TimeInRange(nowMs)
    ensures PlanOf(text, nowMs).Success? ==>
      var p := PlanOf(text, nowMs).value;
      p.destination.Some? ==> p.destination.value in Lexicon
  {
    DestinationInLexicon(text);
  }

  /** A parsed plan has both dates or neither, within the time range, the end at most a day before the start. */
  lemma PlanDates(text: string, nowMs: int)
    requires TimeInRange(nowMs)
    ensures PlanOf(text, nowMs).Success? ==>
      var p := PlanOf(text, nowMs).value;
      && (p.startDate.Some? <==> p.endDate.Some?)
      && (p.startDate.Some? ==> DayInRange(p.startDate.value) && DayInRange(p.endDate.value) && p.startDate.value <= p.endDate.value + 1)
  {
    DateInfoInRange(text, nowMs);
  }

  /** Budget and head count of a parsed plan are decimal numerals within their ranges. */
  lemma PlanAmounts(text: string, nowMs: int)
    requires TimeInRange(nowMs)
    ensures PlanOf(text, nowMs).Success? ==>
      var p := PlanOf(text, nowMs).value;
      && (p.budget.Some? ==> AllDigits(p.budget.value) && 100 <= DecimalValue(p.budget.value) <= 1000000)
      && (p.travelers.Some? ==> AllDigits(p.travelers.value) && 1 <= DecimalValue(p.travelers.value) <= 20)
  {
    BudgetBounds(text);
  }

  /** Parsing fails exactly when the date step throws, and then with its message. */
  lemma PlanFailsOnlyOnDates(text: string, nowMs: int)
    requires TimeInRange(nowMs)
    ensures PlanOf(text, nowMs).Failure? <==> DateInfoOf(text, nowMs).Failure?
    ensures PlanOf(text, nowMs).Failure? ==> PlanOf(text, nowMs).error == InvalidTimeValue
  {
    DateInfoFailure(text, nowMs);
  }

  /** The destination found is always one of the lexicon's entries. */
  lemma DestinationInLexicon(text: string)
    ensures DestinationOf(text, CityFirst(Lexicon)).Some? ==> DestinationOf(text, CityFirst(Lexicon)).value in Lexicon
  {
    var d := DestinationOf(text, CityFirst(Lexicon));
    if d.Some? {
      if Scan(text, CityFirst(Lexicon)).Some? {
        CityFirstMembers(Lexicon, d.value);
      } else {
        assert Lexicon[0] == "日本" && Lexicon[1] == "韩国" && Lexicon[2] == "泰国";
      }
    }
  }

  class VoiceParser {
    /** The destination list; `ExtractDestination` sorts it in place. */
    var destinations: seq<string>

    /** The list holds the lexicon, in declaration order or already sorted city-first. */
    predicate Valid()
      reads this
    {
      destinations == Lexicon || destinations == CityFirst(Lexicon)
    }

    constructor()
      ensures destinations == Lexicon && Valid()
    {
      destinations := Lexicon;
    }

    /**
     * `parseVoiceInput(transcript)` at the instant `nowMs`: the destination
     * is extracted first, so the list is sorted even when the date step
     * then throws.
     */
    method ParseVoiceInput(transcript: string, nowMs: int) returns (r: Result<TravelPlanData, string>)
      requires Valid() && TimeInRange(nowMs)
      modifies this
      ensures destinations == CityFirst(Lexicon)
      ensures r == PlanOf(ToLower(transcript), nowMs)
    {
      var text := ToLower(transcript);
      var destination := ExtractDestination(text);
      var dateInfo := ExtractDateInfo(text, nowMs);
      if dateInfo.Failure? {
        return Failure(dateInfo.error);
      }
      var startDate, endDate := None, None;
      if dateInfo.value.Some? {
        startDate, endDate := Some(dateInfo.value.value.start), Some(dateInfo.value.value.end);
      }
      var budget := ExtractBudget(text);
      var travelers := ExtractTravelers(text);
      var preferences := ExtractPreferences(text);
      r := Success(TravelPlanData(destination, startDate, endDate, budget, travelers, preferences));
    }

    /**
     * `extractDestination`: sort the list city-first in place, return the
     * first entry the text mentions, else try the keyword groups.
     */
    method ExtractDestination(text: string) returns (r: Option<string>)
      requires Valid()
      modifies this
      ensures destinations == CityFirst(Lexicon)
      ensures r == DestinationOf(text, destinations)
    {
      CityFirstIdempotent(Lexicon);
      destinations := CityFirst(destinations);
      var i := 0;
      while i < |destinations|
        invariant 0 <= i <= |destinations|
        invariant forall j :: 0 <= j < i ==> !Mentions(text, destinations[j])
      {
        var dest := destinations[i];
        if Contains(text, ToLower(dest)) || Contains(text, dest) {
          ScanFindsFirst(text, destinations, i);
          return Some(dest);
        }
        i := i + 1;
      }
      if Contains(text, "樱花") || Contains(text, "富士山") || Contains(text, "东京") || Contains(text, "大阪") || Contains(text, "京都") {
        return Some("日本");
      }
      if Contains(text, "泡菜") || Contains(text, "首尔") || Contains(text, "韩流") {
        return Some("韩国");
      }
      if Contains(text, "大象") || Contains(text, "曼谷") || Contains(text, "普吉岛") {
        return Some("泰国");
      }
      return None;
    }

    /**
     * `extractDateInfo` at the instant `nowMs`: `Success(None)` is `null`,
     * and a `Failure` is the RangeError `toISOString` throws.
     */
    method ExtractDateInfo(text: string, nowMs: int) returns (r: Result<Option<DateRange>, string>)
      requires TimeInRange(nowMs)
      ensures r == DateInfoOf(text, nowMs)
    {
      var dayMatch := FirstMatch(text, DaysPattern);
      if dayMatch.Some? {
        var days := GroupValue(dayMatch.value, 1);
        if days.NaN? {
          return Failure(InvalidTimeValue);
        }
        var endMs := nowMs + (days.value - 1) * MsPerDay;
        if !TimeInRange(endMs) {
          return Failure(InvalidTimeValue);
        }
        DaysRangeSucceeds(days.value, nowMs);
        return Success(Some(DateRange(nowMs / MsPerDay, endMs / MsPerDay)));
      }
      var k := 0;
      while k < |DatePatterns|
        invariant 0 <= k <= |DatePatterns|
        invariant ExplicitFrom(text, DatePatterns, nowMs) == ExplicitFrom(text, DatePatterns[k..], nowMs)
      {
        assert DatePatterns[k..][1..] == DatePatterns[k + 1..];
        var m := FirstMatch(text, DatePatterns[k]);
        if m.Some? {
          var range := StartFromMatch(m.value, nowMs);
          match range
          case Failure(e) => return Failure(e);
          case Success(dates) => return Success(Some(dates));
        }
        k := k + 1;
      }
      assert DatePatterns[k..] == [];
      return Success(None);
    }

    /**
     * The body of the date-pattern loop for a match with groups `g`: build
     * the date, move it a year on when it lies before `nowMs`, and span five
     * days.
     */
    method StartFromMatch(g: seq<string>, nowMs: int) returns (r: Result<DateRange, string>)
      requires TimeInRange(nowMs)
      ensures r == ExplicitRange(g, nowMs)
      ensures r.Success? ==> r.value.end == r.value.start + 4 && DayInRange(r.value.start) && DayInRange(r.value.end)
    {
      var today := CivilOf(nowMs / MsPerDay);
      var year, month, date;
      if |g| + 1 == 4 {
        year, month, date := GroupValue(g, 1), MinusOne(GroupValue(g, 2)), GroupValue(g, 3);
      } else if |g| + 1 == 3 {
        year, month, date := Num(today.year), MinusOne(GroupValue(g, 1)), GroupValue(g, 2);
      } else {
        year, month, date := Num(today.year), Num(today.month), GroupValue(g, 1);
      }
      assert (year, month, date) == DateArguments(g, today);
      if year.NaN? || month.NaN? || date.NaN? {
        return Failure(InvalidTimeValue);
      }
      var start := ConstructedDay(year.value, month.value, date.value);
      if !DayInRange(start) {
        return Failure(InvalidTimeValue);
      }
      ghost var first := start;
      if start * MsPerDay < nowMs {
        start := NextYearSameDate(start);
      }
      if !DayInRange(start) || !DayInRange(start + 4) {
        return Failure(InvalidTimeValue);
      }
      if first * MsPerDay < nowMs {
        RangeBumped(first, nowMs, start);
      } else {
        RangeKept(first, nowMs);
      }
      return Success(DateRange(start, start + 4));
    }

    /** `extractBudget`: the pattern cascade, then the fixed phrases. */
    method ExtractBudget(text: string) returns (r: Option<string>)
      ensures r == BudgetOf(text)
      ensures r.Some? ==> AllDigits(r.value) && 100 <= DecimalValue(r.value) <= 1000000
    {
      BudgetBounds(text);
      var k := 0;
      while k < |BudgetPatterns|
        invariant 0 <= k <= |BudgetPatterns|
        invariant BudgetFrom(text, BudgetPatterns) == BudgetFrom(text, BudgetPatterns[k..])
      {
        assert BudgetPatterns[k..][1..] == BudgetPatterns[k + 1..];
        var m := FirstMatch(text, BudgetPatterns[k]);
        if m.Some? {
          var amount := GroupValue(m.value, 1);
          if NumberTruthy(QuotientOfNaN(FunctionAsNumber, BoolAsNumber(Contains(text, "万")))) {
            amount := Times(amount, 10000);
          } else if Contains(text, "千") {
            amount := Times(amount, 1000);
          }
          if amount.Num? && 100 <= amount.value <= 1000000 {
            return Some(Decimal(amount.value));
          }
        }
        k := k + 1;
      }
      if Contains(text, "一万") || Contains(text, "1万") {
        return Some("10000");
      }
      if Contains(text, "五千") || Contains(text, "5千") {
        return Some("5000");
      }
      if Contains(text, "两千") || Contains(text, "2千") {
        return Some("2000");
      }
      return None;
    }

    /** `extractTravelers`: the first match whose count is between 1 and 20. */
    method ExtractTravelers(text: string) returns (r: Option<string>)
      ensures r == TravelersOf(text)
      ensures r.Some? ==> AllDigits(r.value) && 1 <= DecimalValue(r.value) <= 20
    {
      var k := 0;
      while k < |TravelerPatterns|
        invariant 0 <= k <= |TravelerPatterns|
        invariant TravelersFrom(text, TravelerPatterns) == TravelersFrom(text, TravelerPatterns[k..])
      {
        assert TravelerPatterns[k..][1..] == TravelerPatterns[k + 1..];
        var m := FirstMatch(text, TravelerPatterns[k]);
        if m.Some? {
          var count := GroupValue(m.value, 1);
          if count.Num? && 1 <= count.value <= 20 {
            return Some(Decimal(count.value));
          }
        }
        k := k + 1;
      }
      return None;
    }

    /**
     * `extractPreferences`: for each category in order, the first keyword
     * the text contains adds the category's name; the names are joined
     * with "、".
     */
    method ExtractPreferences(text: string) returns (r: Option<string>)
      ensures r == PreferencesOf(text)
      ensures r.Some? <==> exists i :: 0 <= i < |Categories| && Triggered(text, Categories[i])
    {
      var found := CollectLabels(text, Categories);
      if |found| > 0 {
        return Some(Join(found, "、"));
      }
      return None;
    }
  }

  /**
   * The nested loop of `extractPreferences` over the categories `cs`: a
   * category's name is added at the first of its keywords the text contains.
   */
  method CollectLabels(text: string, cs: seq<Category>) returns (found: seq<string>)
    ensures found == FoundLabels(text, cs)
  {
    found := [];
    var i := 0;
    while i < |cs|
      invariant 0 <= i <= |cs|
      invariant found == FoundLabels(text, cs[..i])
    {
      var category := cs[i];
      assert cs[..i + 1] == cs[..i] + [category];
      SelectedSnoc(cs[..i], category, c => Triggered(text, c));
      var j := 0;
      while j < |category.keywords|
        invariant 0 <= j <= |category.keywords|
        invariant found == FoundLabels(text, cs[..i])
        invariant forall k :: 0 <= k < j ==> !Contains(text, category.keywords[k])
      {
        if Contains(text, category.keywords[j]) {
          found := found + [category.name];
          break;
        }
        j := j + 1;
      }
      i := i + 1;
    }
    assert cs[..i] == cs;
  }

}
