/**
 * The aggregation in the expense summary: a `reduce` over the fetched rows
 * that adds each amount into a dictionary under its category and under
 * "total", updating the accumulator in place. The query itself is a
 * parameter; amounts are integers.
 */
module ExpenseSummary {
  import opened Wrappers

  datatype Expense = Expense(category: string, amount: int)

  const TotalKey := "total"
  const FetchFailedPrefix := "Failed to fetch expense summary: "

  /** `acc[key] || 0`. */
  function Lookup(acc: map<string, int>, key: string): int {
    if key in acc then acc[key] else 0
  }

  /**
   * One call of the reduce callback. The category is written first and the
   * total is read afterwards, so a category named "total" is added twice.
   */
  function Step(acc: map<string, int>, e: Expense): map<string, int> {
    var withCategory := acc[e.category := Lookup(acc, e.category) + e.amount];
    withCategory[TotalKey := Lookup(withCategory, TotalKey) + e.amount]
  }

  /** The accumulator after the first `|rows|` callbacks, starting from `{}`. */
  function SummaryOf(rows: seq<Expense>): map<string, int>
    decreases |rows|
  {
    if rows == [] then map[] else Step(SummaryOf(rows[..|rows| - 1]), rows[|rows| - 1])
  }

  /** Sum of the amounts of the rows in `category`. */
  function CategorySum(rows: seq<Expense>, category: string): int
    decreases |rows|
  {
    if rows == [] then 0
    else CategorySum(rows[..|rows| - 1], category) + (if rows[|rows| - 1].category == category then rows[|rows| - 1].amount else 0)
  }

  /** Sum of all amounts. */
  function Total(rows: seq<Expense>): int
    decreases |rows|
  {
    if rows == [] then 0 else Total(rows[..|rows| - 1]) + rows[|rows| - 1].amount
  }

  function Categories(rows: seq<Expense>): set<string> {
    set i | 0 <= i < |rows| :: rows[i].category
  }

  /** The reduce, one row at a time, with the accumulator updated in place. */
  method Summarize(rows: seq<Expense>) returns (acc: map<string, int>)
    ensures acc == SummaryOf(rows)
  {
    acc := map[];
    var i := 0;
    while i < |rows|
      invariant 0 <= i <= |rows|
      invariant acc == SummaryOf(rows[..i])
    {
      var e := rows[i];
      acc := acc[e.category := Lookup(acc, e.category) + e.amount];
      acc := acc[TotalKey := Lookup(acc, TotalKey) + e.amount];
      assert rows[..i + 1][..i] == rows[..i];
      i := i + 1;
    }
    assert rows[..|rows|] == rows;
  }

  /**
   * `getExpenseSummary` after the query: a query error becomes the thrown
   * message, `null` data gives `{}`, and rows give their summary.
   */
  method GetExpenseSummary(query: Result<Option<seq<Expense>>, string>) returns (r: Result<map<string, int>, string>)
    ensures query.Failure? ==> r == Failure(FetchFailedPrefix + query.error)
    ensures query.Success? && query.value.None? ==> r == Success(map[])
    ensures query.Success? && query.value.Some? ==> r == Success(SummaryOf(query.value.value))
    ensures query.Success? && query.value.Some? ==>
      r.value.Keys == Categories(query.value.value) + (if query.value.value == [] then {} else {TotalKey})
    ensures query.Success? && query.value.Some? ==> (r.Success?
      && (forall c :: c != TotalKey ==> Lookup(r.value, c) == CategorySum(query.value.value, c))
      && Lookup(r.value, TotalKey) == Total(query.value.value) + CategorySum(query.value.value, TotalKey))
  {
    match query
    case Failure(message) =>
      r := Failure(FetchFailedPrefix + message);
    case Success(data) =>
      if data.None? {
        r := Success(map[]);
      } else {
        var summary := Summarize(data.value);
        forall c | c != TotalKey
          ensures Lookup(summary, c) == CategorySum(data.value, c)
        {
          SummaryEntries(data.value, c);
        }
        SummaryEntries(data.value, TotalKey);
        SummaryKeys(data.value);
        r := Success(summary);
      }
  }

  /**
   * Every category other than "total" maps to the sum of its amounts (a
   * category never seen reads as 0), and "total" holds the sum of all
   * amounts plus, once more, those of a category called "total".
   */
  lemma {:induction false} SummaryEntries(rows: seq<Expense>, c: string)
    ensures c != TotalKey ==> Lookup(SummaryOf(rows), c) == CategorySum(rows, c)
    ensures Lookup(SummaryOf(rows), TotalKey) == Total(rows) + CategorySum(rows, TotalKey)
    decreases |rows|
  {
    if rows != [] {
      SummaryEntries(rows[..|rows| - 1], c);
      SummaryEntries(rows[..|rows| - 1], TotalKey);
    }
  }

  /** The keys are the categories seen, plus "total" as soon as there is a row; no rows give `{}`. */
  lemma {:induction false} SummaryKeys(rows: seq<Expense>)
    ensures SummaryOf(rows).Keys == Categories(rows) + (if rows == [] then {} else {TotalKey})
    decreases |rows|
  {
    if rows != [] {
      var init := rows[..|rows| - 1];
      SummaryKeys(init);
      assert Categories(rows) == Categories(init) + {rows[|rows| - 1].category} by {
        forall x | x in Categories(rows) ensures x in Categories(init) + {rows[|rows| - 1].category} {
          var i :| 0 <= i < |rows| && rows[i].category == x;
          if i < |rows| - 1 { assert init[i] == rows[i]; }
        }
        forall x | x in Categories(init) ensures x in Categories(rows) {
          var i :| 0 <= i < |init| && init[i].category == x;
          assert rows[i] == init[i];
        }
      }
    }
  }

  /** A category other than "total" is in the summary exactly when some row has it. */
  lemma CategoryPresent(rows: seq<Expense>, c: string)
    requires c != TotalKey
    ensures c in SummaryOf(rows) <==> exists i :: 0 <= i < |rows| && rows[i].category == c
  {
    SummaryKeys(rows);
    assert c in Categories(rows) <==> exists i :: 0 <= i < |rows| && rows[i].category == c;
  }

  /** Two meals and a taxi; and a single expense filed under "total", which the summary counts twice. */
  lemma SummaryExamples()
    ensures SummaryOf([Expense("餐饮", 30), Expense("交通", 20), Expense("餐饮", 5)])
      == map["餐饮" := 35, "交通" := 20, TotalKey := 55]
    ensures SummaryOf([Expense(TotalKey, 5)]) == map[TotalKey := 10]
  {
    var rows := [Expense("餐饮", 30), Expense("交通", 20), Expense("餐饮", 5)];
    assert "餐饮" != "交通" && "餐饮" != TotalKey && "交通" != TotalKey;
    assert rows[..2][..1] == [Expense("餐饮", 30)] && rows[..2] == [Expense("餐饮", 30), Expense("交通", 20)];
    assert [Expense("餐饮", 30)][..0] == [];
    assert SummaryOf(rows[..1]) == map["餐饮" := 30, TotalKey := 30];
    assert SummaryOf(rows[..2]) == map["餐饮" := 30, "交通" := 20, TotalKey := 50];
    assert rows[..3] == rows;
    assert [Expense(TotalKey, 5)][..0] == [];
  }
}
