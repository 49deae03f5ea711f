/** The CSV export of the diet dashboard: a header row, then three rows per day
    (breakfast, lunch, dinner), each with five double-quoted fields, joined by
    newlines. */
module DietCsv {
  import opened Wrappers
  import opened JsText
  import Diet
  import Records

  /** A meal as the dashboard receives it; the nutrient lists may be missing. */
  datatype CsvMeal = CsvMeal(name: string, vitamins: Option<seq<string>>, minerals: Option<seq<string>>)

  datatype CsvDay = CsvDay(day: string, breakfast: CsvMeal, lunch: CsvMeal, dinner: CsvMeal)

  const Header := "day,meal,type,vitamins,minerals"

  const MealTypes: seq<string> := ["breakfast", "lunch", "dinner"]

  /** The meal of day d for the k-th meal type. */
  function MealAt(d: CsvDay, k: nat): CsvMeal
    requires k < 3
  {
    if k == 0 then d.breakfast else if k == 1 then d.lunch else d.dinner
  }

  /** `(list || []).join('|')`. */
  function NutrientText(list: Option<seq<string>>): string {
    Join(if list.Some? then list.value else [], "|")
  }

  function Quote(s: string): string { "\"" + s + "\"" }

  /** The template of one data row: each field in double quotes, commas between. */
  function Row(day: string, mealType: string, meal: CsvMeal): string {
    Quote(day) + "," + Quote(mealType) + "," + Quote(meal.name) + "," + Quote(NutrientText(meal.vitamins))
      + "," + Quote(NutrientText(meal.minerals))
  }

  /** The five quoted fields of a row. */
  function RowFields(day: string, mealType: string, meal: CsvMeal): seq<string> {
    [Quote(day), Quote(mealType), Quote(meal.name), Quote(NutrientText(meal.vitamins)), Quote(NutrientText(meal.minerals))]
  }

  /** A data row is its five quoted fields separated by commas. */
  lemma RowIsQuotedFields(day: string, mealType: string, meal: CsvMeal)
    ensures Row(day, mealType, meal) == Join(RowFields(day, mealType, meal), ",")
  {
    var f := RowFields(day, mealType, meal);
    var j4 := Join(f[4..], ",");
    assert j4 == f[4];
    var j3 := Join(f[3..], ",");
    assert j3 == f[3] + "," + j4 by { assert f[3..][1..] == f[4..]; }
    var j2 := Join(f[2..], ",");
    assert j2 == f[2] + "," + j3 by { assert f[2..][1..] == f[3..]; }
    var j1 := Join(f[1..], ",");
    assert j1 == f[1] + "," + j2 by { assert f[1..][1..] == f[2..]; }
    assert Join(f, ",") == f[0] + "," + j1;
    ConcatFive(f[0], f[1], f[2], f[3], f[4], ",");
  }

  /** Left- and right-nested concatenation of five fields with separators agree. */
  lemma ConcatFive(a: string, b: string, c: string, d: string, e: string, s: string)
    ensures a + s + b + s + c + s + d + s + e == a + s + (b + s + (c + s + (d + s + e)))
  {
    assert c + s + d + s + e == c + s + (d + s + e);
    assert b + s + c + s + d + s + e == b + s + (c + s + (d + s + e));
  }

  /** Without a comma inside a field, splitting a row on commas gives its quoted fields back. */
  lemma RowSplitsIntoFields(day: string, mealType: string, meal: CsvMeal)
    requires forall k :: 0 <= k < 5 ==> ',' !in RowFields(day, mealType, meal)[k]
    ensures Split(Row(day, mealType, meal), ',') == RowFields(day, mealType, meal)
  {
    RowIsQuotedFields(day, mealType, meal);
    SplitJoin(RowFields(day, mealType, meal), ',');
  }

  /** The three rows of one day, breakfast first, then lunch, then dinner. */
  function DayRows(d: CsvDay): (rows: seq<string>)
    ensures |rows| == 3
    ensures forall k :: 0 <= k < 3 ==> rows[k] == Row(d.day, MealTypes[k], MealAt(d, k))
  {
    [Row(d.day, "breakfast", d.breakfast), Row(d.day, "lunch", d.lunch), Row(d.day, "dinner", d.dinner)]
  }

  /** The header followed by the rows of every day, in plan order. */
  function CsvRows(plan: seq<CsvDay>): (rows: seq<string>)
    ensures |rows| == 1 + 3 * |plan|
    ensures rows[0] == Header
  {
    if plan == [] then [Header] else CsvRows(plan[..|plan| - 1]) + DayRows(plan[|plan| - 1])
  }

  /** Row 1 + 3i + k is meal k of day i. */
  lemma {:induction false} CsvRowAt(plan: seq<CsvDay>, i: nat, k: nat)
    requires i < |plan| && k < 3
    ensures CsvRows(plan)[1 + 3 * i + k] == Row(plan[i].day, MealTypes[k], MealAt(plan[i], k))
  {
    var front := plan[..|plan| - 1];
    if i < |plan| - 1 {
      CsvRowAt(front, i, k);
      assert front[i] == plan[i];
    }
  }

  /** `handleDownloadCSV`, the text part: nothing without a plan; otherwise the
      rows pushed by the nested loops, joined by newlines. */
  method DownloadCsv(plan: Option<seq<CsvDay>>) returns (csv: Option<string>)
    ensures plan.None? ==> csv.None?
    ensures plan.Some? ==> csv == Some(Join(CsvRows(plan.value), "\n"))
  {
    if plan.None? {
      return None;
    }
    var days := plan.value;
    var rows: seq<string> := [Header];
    var i := 0;
    while i < |days|
      invariant 0 <= i <= |days|
      invariant rows == CsvRows(days[..i])
    {
      var d := days[i];
      var meals := [("breakfast", d.breakfast), ("lunch", d.lunch), ("dinner", d.dinner)];
      ghost var done := rows;
      for k := 0 to 3
        invariant rows == done + DayRows(d)[..k]
      {
        var (mealType, meal) := meals[k];
        assert mealType == MealTypes[k] && meal == MealAt(d, k);
        rows := rows + [Row(d.day, mealType, meal)];
        RowsStep(DayRows(d), k);
      }
      assert DayRows(d)[..3] == DayRows(d);
      CsvRowsPrefix(days, i);
      i := i + 1;
    }
    assert days[..|days|] == days;
    return Some(Join(rows, "\n"));
  }

  lemma RowsStep(rows: seq<string>, k: nat)
    requires k < |rows|
    ensures rows[..k + 1] == rows[..k] + [rows[k]]
  {
  }

  lemma CsvRowsPrefix(days: seq<CsvDay>, i: nat)
    requires i < |days|
    ensures CsvRows(days[..i + 1]) == CsvRows(days[..i]) + DayRows(days[i])
  {
    assert days[..i + 1][..i] == days[..i];
  }

  /** No field of the plan holds a newline. */
  predicate NoNewlines(plan: seq<CsvDay>) {
    forall i, k :: 0 <= i < |plan| && 0 <= k < 3 ==> '\n' !in Row(plan[i].day, MealTypes[k], MealAt(plan[i], k))
  }

  /** When no field holds a newline, splitting the text on newlines gives the rows back. */
  lemma SplitCsvLines(plan: seq<CsvDay>)
    requires NoNewlines(plan)
    ensures Split(Join(CsvRows(plan), "\n"), '\n') == CsvRows(plan)
  {
    RowsWithoutNewlines(plan);
    SplitJoin(CsvRows(plan), '\n');
  }

  /** No row of the export holds a newline when no field does. */
  lemma {:induction false} RowsWithoutNewlines(plan: seq<CsvDay>)
    requires NoNewlines(plan)
    ensures forall r :: 0 <= r < |CsvRows(plan)| ==> '\n' !in CsvRows(plan)[r]
  {
    if plan == [] {
      assert CsvRows(plan) == [Header];
    } else {
      var front := plan[..|plan| - 1];
      var last := plan[|plan| - 1];
      assert NoNewlines(front) by {
        forall i, k | 0 <= i < |front| && 0 <= k < 3
          ensures '\n' !in Row(front[i].day, MealTypes[k], MealAt(front[i], k))
        {
          assert front[i] == plan[i];
        }
      }
      RowsWithoutNewlines(front);
      forall k | 0 <= k < 3 ensures '\n' !in DayRows(last)[k] {
        assert '\n' !in Row(plan[|plan| - 1].day, MealTypes[k], MealAt(plan[|plan| - 1], k));
      }
    }
  }

  /** A generated plan, as the dashboard receives it. */
  function FromDietPlan(plan: seq<Diet.DayPlan>): (days: seq<CsvDay>)
    ensures |days| == |plan|
  {
    seq(|plan|, i requires 0 <= i < |plan| =>
      var m := plan[i].meals;
      CsvDay(plan[i].day, Lift(m.breakfast), Lift(m.lunch), Lift(m.dinner)))
  }

  function Lift(item: Diet.MealItem): CsvMeal {
    CsvMeal(item.name, Some(item.vitamins), Some(item.minerals))
  }

  /** The export of a generated weekly plan is a header and 21 rows. */
  lemma WeeklyPlanRows(members: Option<seq<Records.FamilyMember>>, risk: Option<Diet.RiskResult>)
    ensures |CsvRows(FromDietPlan(Diet.GenerateWeeklyDietPlan(members, risk)))| == 22
  {
  }
}
