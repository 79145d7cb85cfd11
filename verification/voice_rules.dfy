/**
 * The pattern cascades of the transcript parser as functions of the
 * lower-cased text: dates, budget, travelers and preferences. Each function
 * here is the specification the corresponding loop in `VoiceParser` is
 * proved against.
 */
module VoiceRules {
  import opened Wrappers
  import opened JsText
  import opened Regex
  import opened Calendar

  // ---------------------------------------------------------------- patterns

  /** `/(\d+)\s*天/` */
  const DaysPattern: Pattern := [Digits(1, None), Spaces, Lit('天')]

  /** `/(\d{4})年(\d{1,2})月(\d{1,2})日/`, `/(\d{1,2})月(\d{1,2})日/`, `/(\d{1,2})号/`, in the order they are tried. */
  const DatePatterns: seq<Pattern> := [
    [Digits(4, Some(4)), Lit('年'), Digits(1, Some(2)), Lit('月'), Digits(1, Some(2)), Lit('日')],
    [Digits(1, Some(2)), Lit('月'), Digits(1, Some(2)), Lit('日')],
    [Digits(1, Some(2)), Lit('号')]
  ]

  /** The eight budget expressions, in the order they are tried. */
  const BudgetPatterns: seq<Pattern> := [
    [Digits(1, None), Spaces, Lit('万'), Spaces, Opt('元')],   // (\d+)\s*万\s*元?
    [Digits(1, None), Spaces, Lit('万')],                      // (\d+)\s*万
    [Digits(1, None), Spaces, Lit('千'), Spaces, Opt('元')],   // (\d+)\s*千\s*元?
    [Digits(1, None), Spaces, Lit('千')],                      // (\d+)\s*千
    [Lit('预'), Lit('算'), Spaces, Digits(1, None)],           // 预算\s*(\d+)
    [Digits(1, None), Spaces, Lit('块')],                      // (\d+)\s*块
    [Digits(1, None), Spaces, Opt('元')],                      // (\d+)\s*元?
    [Digits(1, None), Spaces, Lit('块'), Opt('钱')]            // (\d+)\s*块钱?
  ]

  /** The six head-count expressions, in the order they are tried. */
  const TravelerPatterns: seq<Pattern> := [
    [Digits(1, None), Spaces, Lit('人')],                                                     // (\d+)\s*人
    [Digits(1, None), Spaces, Lit('个'), Spaces, Lit('人')],                                  // (\d+)\s*个\s*人
    [Digits(1, None), Spaces, Lit('位')],                                                     // (\d+)\s*位
    [Lit('带'), Spaces, Digits(1, None), Spaces, Opt('个'), Spaces, Lit('孩'), Opt('子')],    // 带\s*(\d+)\s*个?\s*孩子?
    [Digits(1, None), Spaces, Opt('个'), Spaces, Lit('大'), Opt('人')],                       // (\d+)\s*个?\s*大人?
    [Digits(1, None), Spaces, Lit('口'), Spaces, Lit('人')]                                   // (\d+)\s*口\s*人
  ]

  /**
   * `parseInt(match[k])` for the groups `g` of a match (`match[k]` is group
   * `k - 1`); a group the expression does not have reads as `undefined`,
   * which parses to NaN.
   */
  function GroupValue(g: seq<string>, k: nat): JsNumber {
    if 1 <= k <= |g| then ParseInt(g[k - 1]) else NaN
  }

  // ------------------------------------------------------------------ budget

  /**
   * Whether the ×10000 branch is taken. The condition is
   * `text.includes / text.includes('万')`: the dividend is the method
   * `includes` itself, a function, whose numeric value is NaN, so the quotient
   * is NaN, which is falsy.
   */
  predicate TenThousandBranch(text: string) {
    NumberTruthy(QuotientOfNaN(FunctionAsNumber, BoolAsNumber(Contains(text, "万"))))
  }

  /** The amount after the unit conversion. */
  function Scaled(amount: JsNumber, text: string): JsNumber {
    if TenThousandBranch(text) then Times(amount, 10000)
    else if Contains(text, "千") then Times(amount, 1000)
    else amount
  }

  /** The ×10000 branch never fires; the factor is 1000 exactly when the text contains 千. */
  lemma ScaleFactor(n: int, text: string)
    ensures !TenThousandBranch(text)
    ensures Scaled(Num(n), text) == Num(n * (if Contains(text, "千") then 1000 else 1))
  {
  }

  predicate BudgetInRange(x: JsNumber) {
    x.Num? && 100 <= x.value <= 1000000
  }

  /** The cascade over `ps`: the first match whose converted amount is in range. */
  function BudgetFrom(text: string, ps: seq<Pattern>): (r: Option<string>)
    ensures r.Some? ==> |r.value| > 0 && AllDigits(r.value) && 100 <= DecimalValue(r.value) <= 1000000
  {
    if ps == [] then None
    else
      match FirstMatch(text, ps[0])
      case Some(g) =>
        var amount := Scaled(GroupValue(g, 1), text);
        if BudgetInRange(amount) then Some(Decimal(amount.value)) else BudgetFrom(text, ps[1..])
      case None => BudgetFrom(text, ps[1..])
  }

  /** Pattern `p` gives the budget cascade nothing: no match, or an amount out of range. */
  predicate BudgetMiss(text: string, p: Pattern) {
    match FirstMatch(text, p)
    case None => true
    case Some(g) => !BudgetInRange(Scaled(GroupValue(g, 1), text))
  }

  /** Patterns that give nothing are passed over: the first pattern that gives an amount decides. */
  lemma {:induction false} BudgetSkips(text: string, ps: seq<Pattern>, k: nat)
    requires k <= |ps| && forall j :: 0 <= j < k ==> BudgetMiss(text, ps[j])
    ensures BudgetFrom(text, ps) == BudgetFrom(text, ps[k..])
    decreases k
  {
    if k > 0 {
      assert BudgetMiss(text, ps[0]);
      assert ps[1..][k - 1..] == ps[k..];
      BudgetSkips(text, ps[1..], k - 1);
    }
  }

  /** The cascade gives nothing exactly when every pattern gives nothing. */
  lemma {:induction false} BudgetFromNone(text: string, ps: seq<Pattern>)
    ensures BudgetFrom(text, ps).None? <==> forall j :: 0 <= j < |ps| ==> BudgetMiss(text, ps[j])
    decreases |ps|
  {
    if ps != [] {
      BudgetFromNone(text, ps[1..]);
      assert forall j :: 1 <= j < |ps| ==> ps[j] == ps[1..][j - 1];
    }
  }

  /** The fixed phrases tried when no pattern gives an amount in range. */
  function BudgetFallback(text: string): Option<string> {
    if Contains(text, "一万") || Contains(text, "1万") then Some("10000")
    else if Contains(text, "五千") || Contains(text, "5千") then Some("5000")
    else if Contains(text, "两千") || Contains(text, "2千") then Some("2000")
    else None
  }

  /** `extractBudget`. */
  function BudgetOf(text: string): Option<string> {
    match BudgetFrom(text, BudgetPatterns)
    case Some(b) => Some(b)
    case None => BudgetFallback(text)
  }

  /** Any budget found is a decimal numeral between 100 and 1,000,000. */
  lemma BudgetBounds(text: string)
    ensures BudgetOf(text).Some? ==>
      var b := BudgetOf(text).value; |b| > 0 && AllDigits(b) && 100 <= DecimalValue(b) <= 1000000
  {
    if BudgetFrom(text, BudgetPatterns).None? {
      assert DecimalValue("10000") == 10000 by { DecimalFacts(); }
      assert DecimalValue("5000") == 5000 by { DecimalFacts(); }
      assert DecimalValue("2000") == 2000 by { DecimalFacts(); }
    }
  }

  lemma DecimalFacts()
    ensures DecimalValue("10000") == 10000 && DecimalValue("5000") == 5000 && DecimalValue("2000") == 2000
  {
    assert "10000"[..4] == "1000" && "1000"[..3] == "100" && "100"[..2] == "10" && "10"[..1] == "1" && "1"[..0] == "";
    assert "5000"[..3] == "500" && "500"[..2] == "50" && "50"[..1] == "5" && "5"[..0] == "";
    assert "2000"[..3] == "200" && "200"[..2] == "20" && "20"[..1] == "2" && "2"[..0] == "";
  }

  // --------------------------------------------------------------- travelers

  predicate TravelersInRange(x: JsNumber) {
    x.Num? && 1 <= x.value <= 20
  }

  /** The cascade over `ps`: the first match whose count is between 1 and 20. */
  function TravelersFrom(text: string, ps: seq<Pattern>): (r: Option<string>)
    ensures r.Some? ==> |r.value| > 0 && AllDigits(r.value) && 1 <= DecimalValue(r.value) <= 20
  {
    if ps == [] then None
    else
      match FirstMatch(text, ps[0])
      case Some(g) =>
        var count := GroupValue(g, 1);
        if TravelersInRange(count) then Some(Decimal(count.value)) else TravelersFrom(text, ps[1..])
      case None => TravelersFrom(text, ps[1..])
  }

  /** Pattern `p` gives the head-count cascade nothing: no match, or a count out of range. */
  predicate TravelerMiss(text: string, p: Pattern) {
    match FirstMatch(text, p)
    case None => true
    case Some(g) => !TravelersInRange(GroupValue(g, 1))
  }

  /** Patterns that give nothing are passed over: the first pattern that gives a count decides. */
  lemma {:induction false} TravelersSkips(text: string, ps: seq<Pattern>, k: nat)
    requires k <= |ps| && forall j :: 0 <= j < k ==> TravelerMiss(text, ps[j])
    ensures TravelersFrom(text, ps) == TravelersFrom(text, ps[k..])
    decreases k
  {
    if k > 0 {
      assert TravelerMiss(text, ps[0]);
      assert ps[1..][k - 1..] == ps[k..];
      TravelersSkips(text, ps[1..], k - 1);
    }
  }

  /** The cascade gives nothing exactly when every pattern gives nothing. */
  lemma {:induction false} TravelersFromNone(text: string, ps: seq<Pattern>)
    ensures TravelersFrom(text, ps).None? <==> forall j :: 0 <= j < |ps| ==> TravelerMiss(text, ps[j])
    decreases |ps|
  {
    if ps != [] {
      TravelersFromNone(text, ps[1..]);
      assert forall j :: 1 <= j < |ps| ==> ps[j] == ps[1..][j - 1];
    }
  }

  /** `extractTravelers`. */
  function TravelersOf(text: string): (r: Option<string>)
    ensures r.Some? ==> |r.value| > 0 && AllDigits(r.value) && 1 <= DecimalValue(r.value) <= 20
  {
    TravelersFrom(text, TravelerPatterns)
  }

  // ------------------------------------------------------------- preferences

  datatype Category = Category(name: string, keywords: seq<string>)

  /** The preference taxonomy in declaration order; repeated keywords are kept as written. */
  const Categories: seq<Category> := [
    Category("美食", ["美食", "吃", "餐厅", "料理", "美食", "小吃", "特色菜"]),
    Category("购物", ["购物", "买", "商店", "商场", "购物中心", "血拼"]),
    Category("文化历史", ["文化", "历史", "古迹", "博物馆", "文化", "历史", "古建筑"]),
    Category("自然风光", ["自然", "风景", "山水", "海滩", "公园", "山", "海", "湖", "森林"]),
    Category("亲子游", ["亲子", "孩子", "小孩", "儿童", "带娃", "家庭游"]),
    Category("动漫文化", ["动漫", "二次元", "卡通", "动画", "漫画"]),
    Category("温泉休闲", ["温泉", "放松", "休闲", "spa", "按摩"]),
    Category("刺激冒险", ["刺激", "冒险", "极限", "跳伞", "蹦极", "过山车"])
  ]

  /** One of the category's keywords is a substring of the text. */
  predicate Triggered(text: string, c: Category) {
    exists k :: 0 <= k < |c.keywords| && Contains(text, c.keywords[k])
  }

  /** The names of the categories `hit` selects, in order. */
  function Selected(cs: seq<Category>, hit: Category -> bool): (r: seq<string>)
    ensures |r| <= |cs|
    ensures forall i :: 0 <= i < |cs| && hit(cs[i]) ==> cs[i].name in r
    ensures r == [] <==> forall i :: 0 <= i < |cs| ==> !hit(cs[i])
  {
    if cs == [] then []
    else
      var rest := Selected(cs[1..], hit);
      assert forall i :: 1 <= i < |cs| ==> cs[i] == cs[1..][i - 1];
      (if hit(cs[0]) then [cs[0].name] else []) + rest
  }

  /** Selecting from a longer list extends the selection by the new category's name when it is selected. */
  lemma {:induction false} SelectedSnoc(cs: seq<Category>, c: Category, hit: Category -> bool)
    ensures Selected(cs + [c], hit) == Selected(cs, hit) + (if hit(c) then [c.name] else [])
    decreases |cs|
  {
    if cs == [] {
      assert cs + [c] == [c];
      assert [c][1..] == [];
    } else {
      assert (cs + [c])[0] == cs[0];
      assert (cs + [c])[1..] == cs[1..] + [c];
      SelectedSnoc(cs[1..], c, hit);
    }
  }

  /** The labels of the triggered categories, in declaration order. */
  function FoundLabels(text: string, cs: seq<Category>): seq<string> {
    Selected(cs, c => Triggered(text, c))
  }

  predicate DistinctNames(cs: seq<Category>) {
    forall i, j :: 0 <= i < j < |cs| ==> cs[i].name != cs[j].name
  }

  /** `pos` lists, in increasing order, the positions in `cs` of the selected categories named in `r`. */
  predicate SelectionPositions(pos: seq<nat>, cs: seq<Category>, hit: Category -> bool, r: seq<string>) {
    && |pos| == |r|
    && (forall i :: 0 <= i < |pos| ==> pos[i] < |cs| && cs[pos[i]].name == r[i] && hit(cs[pos[i]]))
    && (forall i, j :: 0 <= i < j < |pos| ==> pos[i] < pos[j])
  }

  /**
   * The selected names are those of selected categories at strictly
   * increasing positions of `cs`: declaration order, and with distinct names
   * no name twice.
   */
  lemma {:induction false} SelectedPositions(cs: seq<Category>, hit: Category -> bool) returns (pos: seq<nat>)
    ensures SelectionPositions(pos, cs, hit, Selected(cs, hit))
    decreases |cs|
  {
    if cs == [] {
      pos := [];
    } else {
      var tail := SelectedPositions(cs[1..], hit);
      var shifted := ShiftPositions(tail, cs, hit, Selected(cs[1..], hit));
      if hit(cs[0]) {
        pos := [0] + shifted;
        PrependPosition(shifted, cs, hit, Selected(cs[1..], hit));
      } else {
        pos := shifted;
      }
    }
  }

  lemma ShiftPositions(tail: seq<nat>, cs: seq<Category>, hit: Category -> bool, rest: seq<string>) returns (shifted: seq<nat>)
    requires cs != [] && SelectionPositions(tail, cs[1..], hit, rest)
    ensures SelectionPositions(shifted, cs, hit, rest)
    ensures forall i :: 0 <= i < |shifted| ==> shifted[i] >= 1
  {
    shifted := seq(|tail|, i requires 0 <= i < |tail| => tail[i] + 1);
    assert forall i :: 0 <= i < |tail| ==> cs[shifted[i]] == cs[1..][tail[i]];
  }

  lemma PrependPosition(shifted: seq<nat>, cs: seq<Category>, hit: Category -> bool, rest: seq<string>)
    requires cs != [] && hit(cs[0]) && SelectionPositions(shifted, cs, hit, rest)
    requires forall i :: 0 <= i < |shifted| ==> shifted[i] >= 1
    ensures SelectionPositions([0] + shifted, cs, hit, [cs[0].name] + rest)
  {
    var pos := [0] + shifted;
    var r := [cs[0].name] + rest;
    forall i | 0 <= i < |pos|
      ensures pos[i] < |cs| && cs[pos[i]].name == r[i] && hit(cs[pos[i]])
    {
      if i > 0 {
        assert pos[i] == shifted[i - 1] && r[i] == rest[i - 1];
      }
    }
    forall i, j | 0 <= i < j < |pos|
      ensures pos[i] < pos[j]
    {
      assert pos[j] == shifted[j - 1];
      if i > 0 {
        assert pos[i] == shifted[i - 1];
      }
    }
  }

  /** Found preferences come in declaration order, each from a triggered category. */
  lemma FoundLabelsOrdered(text: string, cs: seq<Category>) returns (pos: seq<nat>)
    ensures var r := FoundLabels(text, cs);
      |pos| == |r| &&
      (forall i :: 0 <= i < |pos| ==> pos[i] < |cs| && cs[pos[i]].name == r[i] && Triggered(text, cs[pos[i]])) &&
      (forall i, j :: 0 <= i < j < |pos| ==> pos[i] < pos[j])
  {
    pos := SelectedPositions(cs, c => Triggered(text, c));
    assert SelectionPositions(pos, cs, c => Triggered(text, c), FoundLabels(text, cs));
  }

  /** With distinct category names, no preference is reported twice. */
  lemma FoundLabelsDistinct(text: string, cs: seq<Category>)
    requires DistinctNames(cs)
    ensures var r := FoundLabels(text, cs); forall i, j :: 0 <= i < j < |r| ==> r[i] != r[j]
  {
    var pos := FoundLabelsOrdered(text, cs);
  }

  /** A category is reported exactly when one of its keywords occurs in the text. */
  lemma FoundLabelsExactly(text: string, cs: seq<Category>)
    requires DistinctNames(cs)
    ensures forall i :: 0 <= i < |cs| ==> (cs[i].name in FoundLabels(text, cs) <==> Triggered(text, cs[i]))
  {
    var r := FoundLabels(text, cs);
    var pos := FoundLabelsOrdered(text, cs);
    forall i | 0 <= i < |cs| && cs[i].name in r
      ensures Triggered(text, cs[i])
    {
      var k :| 0 <= k < |r| && r[k] == cs[i].name;
      assert cs[pos[k]].name == cs[i].name;
    }
  }

  lemma CategoriesDistinct()
    ensures DistinctNames(Categories)
  {
  }

  /** `extractPreferences`: the found labels joined with "、", or nothing when none is found. */
  function PreferencesOf(text: string): (r: Option<string>)
    ensures r.None? <==> forall i :: 0 <= i < |Categories| ==> !Triggered(text, Categories[i])
  {
    var found := FoundLabels(text, Categories);
    if |found| > 0 then Some(Join(found, "、")) else None
  }

  // ------------------------------------------------------------------- dates

  /** The message of the RangeError `toISOString` throws for an invalid date. */
  const InvalidTimeValue: string := "Invalid time value"

  /** Start and end dates as day numbers. */
  datatype DateRange = DateRange(start: int, end: int)

  /**
   * "N天": from today to N - 1 days later. The end instant is `now` plus
   * N - 1 whole days; outside the time range it is an invalid date and
   * `toISOString` throws.
   */
  function DaysRange(days: JsNumber, nowMs: int): Result<DateRange, string>
    requires TimeInRange(nowMs)
  {
    match days
    case NaN => Failure(InvalidTimeValue)
    case Num(n) =>
      var endMs := nowMs + (n - 1) * MsPerDay;
      if TimeInRange(endMs) then Success(DateRange(nowMs / MsPerDay, endMs / MsPerDay))
      else Failure(InvalidTimeValue)
  }

  lemma DaysRangeSucceeds(n: int, nowMs: int)
    requires TimeInRange(nowMs) && TimeInRange(nowMs + (n - 1) * MsPerDay)
    ensures DaysRange(Num(n), nowMs) == Success(DateRange(nowMs / MsPerDay, (nowMs + (n - 1) * MsPerDay) / MsPerDay))
  {
  }

  /** The end lies N - 1 days after the start, so "0天" ends the day before it starts. */
  lemma DaysRangeSpan(n: int, nowMs: int)
    requires TimeInRange(nowMs)
    ensures DaysRange(Num(n), nowMs).Success? <==> TimeInRange(nowMs + (n - 1) * MsPerDay)
    ensures DaysRange(Num(n), nowMs).Success? ==>
      var r := DaysRange(Num(n), nowMs).value; r.start == nowMs / MsPerDay && r.end == r.start + n - 1
  {
    var endMs := nowMs + (n - 1) * MsPerDay;
    assert endMs / MsPerDay == nowMs / MsPerDay + (n - 1) by {
      var q, r := nowMs / MsPerDay, nowMs % MsPerDay;
      assert endMs == MsPerDay * (q + n - 1) + r && 0 <= r < MsPerDay;
    }
  }

  /** `x - 1`; NaN stays NaN. */
  function MinusOne(x: JsNumber): JsNumber {
    match x
    case Num(n) => Num(n - 1)
    case NaN => NaN
  }

  /**
   * The year, month index and date handed to `new Date(...)` for the groups
   * of the matched pattern: three groups give all three, two give month and
   * date in the current year, one gives the date in the current month.
   */
  function DateArguments(g: seq<string>, today: Civil): (JsNumber, JsNumber, JsNumber) {
    if |g| + 1 == 4 then (GroupValue(g, 1), MinusOne(GroupValue(g, 2)), GroupValue(g, 3))
    else if |g| + 1 == 3 then (Num(today.year), MinusOne(GroupValue(g, 1)), GroupValue(g, 2))
    else (Num(today.year), Num(today.month), GroupValue(g, 1))
  }

  /** The dates of an explicit match: invalid arguments make `toISOString` throw. */
  function ExplicitRange(g: seq<string>, nowMs: int): Result<DateRange, string>
    requires TimeInRange(nowMs)
  {
    var args := DateArguments(g, CivilOf(nowMs / MsPerDay));
    if args.0.NaN? || args.1.NaN? || args.2.NaN? then Failure(InvalidTimeValue)
    else RangeFromDay(ConstructedDay(args.0.value, args.1.value, args.2.value), nowMs)
  }

  /**
   * From the constructed day `first`: local midnight of it is compared with
   * the instant `now`, a day strictly before it is moved one year on with
   * `setFullYear`, and the range spans five days. Any invalid date on the
   * way makes `toISOString` throw.
   */
  function RangeFromDay(first: int, nowMs: int): (r: Result<DateRange, string>)
    requires TimeInRange(nowMs)
    ensures r.Success? ==> r.value.end == r.value.start + 4 && DayInRange(r.value.start) && DayInRange(r.value.end)
    ensures r.Success? ==> DayInRange(first)
  {
    if !DayInRange(first) then Failure(InvalidTimeValue)
    else
      var start := if first * MsPerDay < nowMs then NextYearSameDate(first) else first;
      if DayInRange(start) && DayInRange(start + 4) then Success(DateRange(start, start + 4))
      else Failure(InvalidTimeValue)
  }

  /** `RangeFromDay` succeeds with a day that was not before the current instant. */
  lemma RangeKept(first: int, nowMs: int)
    requires TimeInRange(nowMs)
    requires DayInRange(first) && DayInRange(first + 4) && first * MsPerDay >= nowMs
    ensures RangeFromDay(first, nowMs) == Success(DateRange(first, first + 4))
  {
  }

  /** `RangeFromDay` succeeds with a day that was moved one year on. */
  lemma RangeBumped(first: int, nowMs: int, start: int)
    requires TimeInRange(nowMs)
    requires DayInRange(first) && first * MsPerDay < nowMs
    requires start == NextYearSameDate(first) && DayInRange(start) && DayInRange(start + 4)
    ensures RangeFromDay(first, nowMs) == Success(DateRange(start, start + 4))
  {
  }

  /** The first of `ps` that matches decides the dates; no match means no dates. */
  function ExplicitFrom(text: string, ps: seq<Pattern>, nowMs: int): Result<Option<DateRange>, string>
    requires TimeInRange(nowMs)
  {
    if ps == [] then Success(None)
    else
      match FirstMatch(text, ps[0])
      case Some(g) =>
        (match ExplicitRange(g, nowMs)
         case Success(r) => Success(Some(r))
         case Failure(e) => Failure(e))
      case None => ExplicitFrom(text, ps[1..], nowMs)
  }

  /** `extractDateInfo`: "N天" first, then the explicit date patterns. */
  function DateInfoOf(text: string, nowMs: int): Result<Option<DateRange>, string>
    requires TimeInRange(nowMs)
  {
    match FirstMatch(text, DaysPattern)
    case Some(g) =>
      (match DaysRange(GroupValue(g, 1), nowMs)
       case Success(r) => Success(Some(r))
       case Failure(e) => Failure(e))
    case None => ExplicitFrom(text, DatePatterns, nowMs)
  }

  /** The only error the date step raises is the one for an invalid date. */
  lemma {:induction false} ExplicitFromFailure(text: string, ps: seq<Pattern>, nowMs: int)
    requires TimeInRange(nowMs)
    ensures ExplicitFrom(text, ps, nowMs).Failure? ==> ExplicitFrom(text, ps, nowMs).error == InvalidTimeValue
    decreases |ps|
  {
    if ps != [] && FirstMatch(text, ps[0]).None? {
      ExplicitFromFailure(text, ps[1..], nowMs);
    }
  }

  lemma DateInfoFailure(text: string, nowMs: int)
    requires TimeInRange(nowMs)
    ensures DateInfoOf(text, nowMs).Failure? ==> DateInfoOf(text, nowMs).error == InvalidTimeValue
  {
    ExplicitFromFailure(text, DatePatterns, nowMs);
  }

  /** An explicit date found by the cascade spans five days within the time range. */
  lemma {:induction false} ExplicitFromInRange(text: string, ps: seq<Pattern>, nowMs: int)
    requires TimeInRange(nowMs)
    ensures var r := ExplicitFrom(text, ps, nowMs);
      r.Success? && r.value.Some? ==>
        r.value.value.end == r.value.value.start + 4 && DayInRange(r.value.value.start) && DayInRange(r.value.value.end)
    decreases |ps|
  {
    if ps != [] && FirstMatch(text, ps[0]).None? {
      ExplicitFromInRange(text, ps[1..], nowMs);
    }
  }

  /**
   * Dates that are found lie within the time range, and the end is never
   * more than one day before the start (a count of 0 days ends the day
   * before it starts).
   */
  lemma DateInfoInRange(text: string, nowMs: int)
    requires TimeInRange(nowMs)
    ensures var r := DateInfoOf(text, nowMs);
      r.Success? && r.value.Some? ==>
        DayInRange(r.value.value.start) && DayInRange(r.value.value.end) && r.value.value.start <= r.value.value.end + 1
  {
    var m := FirstMatch(text, DaysPattern);
    if m.Some? {
      DaysTakePrecedence(text, nowMs);
      var n := DecimalValue(m.value[0]);
      DaysRangeSpan(n, nowMs);
      DayWithinRange(nowMs);
      DayWithinRange(nowMs + (n - 1) * MsPerDay);
    } else {
      ExplicitFromInRange(text, DatePatterns, nowMs);
    }
  }

  /** The day of an instant within the time range lies within the day range. */
  lemma DayWithinRange(t: int)
    ensures TimeInRange(t) ==> DayInRange(t / MsPerDay)
  {
  }

  /** A day count in the text wins over any explicit date: the range starts today and spans N days. */
  lemma DaysTakePrecedence(text: string, nowMs: int)
    requires TimeInRange(nowMs)
    requires FirstMatch(text, DaysPattern).Some?
    ensures var g := FirstMatch(text, DaysPattern).value;
      |g| == 1 && DateInfoOf(text, nowMs) == (match DaysRange(Num(DecimalValue(g[0])), nowMs)
        case Success(r) => Success(Some(r))
        case Failure(e) => Failure(e))
  {
    var g := FirstMatch(text, DaysPattern).value;
    assert GroupCount(DaysPattern) == 1 by {
      assert DaysPattern[1..] == [Spaces, Lit('天')] && DaysPattern[1..][1..] == [Lit('天')];
    }
    assert WellFormed(DaysPattern);
    ParseIntOfDigits(g[0]);
  }

  /**
   * A day before the current instant is moved on by exactly one calendar
   * year (365 or 366 days), however far in the past it lies; any other day
   * is kept.
   */
  lemma RangeYearBump(first: int, nowMs: int)
    requires TimeInRange(nowMs)
    requires RangeFromDay(first, nowMs).Success?
    ensures var start := RangeFromDay(first, nowMs).value.start;
      (first * MsPerDay < nowMs ==> 365 <= start - first <= 366) && (first * MsPerDay >= nowMs ==> start == first)
  {
    NextYearSameDateStep(first);
  }

  /** After midnight, a date that falls on today is pushed a year ahead. */
  lemma TodayIsPushedAhead(first: int, nowMs: int)
    requires TimeInRange(nowMs) && nowMs % MsPerDay != 0 && first == nowMs / MsPerDay
    ensures first * MsPerDay < nowMs
    ensures NextYearSameDate(first) > nowMs / MsPerDay
  {
    NextYearSameDateStep(first);
  }

  /** A date more than a year in the past stays in the past after the one-year move. */
  lemma LongPastStaysPast(first: int, nowMs: int)
    requires TimeInRange(nowMs) && first + 366 < nowMs / MsPerDay
    ensures first * MsPerDay < nowMs
    ensures NextYearSameDate(first) < nowMs / MsPerDay
  {
    NextYearSameDateStep(first);
  }
}
