/**
 * app/dashboard/DashboardClient.tsx: the activity heatmap of the data page.
 * One cell per day for the last 364 days, laid out in 52 columns of 7 rows
 * and shaded in four levels by the number of posts of that day.
 */
module DashboardClient {
  import opened Wrappers
  import opened Text
  import opened Dates

  /** `HEATMAP_DAYS`, 52 weeks. */
  const HEATMAP_DAYS: nat := 364
  const HEATMAP_COLS: nat := 52
  const HEATMAP_ROWS: nat := 7

  /** The Tailwind classes of the four shades, lightest first. */
  const LEVEL_CLASSES: seq<string> := [
    "bg-neutral-100 dark:bg-neutral-800",
    "bg-emerald-200 dark:bg-emerald-900",
    "bg-emerald-400 dark:bg-emerald-700",
    "bg-emerald-600 dark:bg-emerald-500"
  ]

  // ---------- shading ----------

  /**
   * `getHeatmapLevel`: which of the four shades a day's count gets. No post
   * (or a non-positive count) is the lightest; one and two posts have their
   * own shades; three or more share the darkest.
   */
  function HeatmapLevel(count: int): (level: nat)
    ensures level < |LEVEL_CLASSES|
    ensures level == 0 <==> count <= 0
    ensures 0 < count < |LEVEL_CLASSES| ==> level == count
    ensures count >= |LEVEL_CLASSES| - 1 ==> level == |LEVEL_CLASSES| - 1
  {
    if count <= 0 then 0
    else if count == 1 then 1
    else if count == 2 then 2
    else 3
  }

  /** The class string `getHeatmapLevel` returns. */
  function HeatmapClass(count: int): string {
    LEVEL_CLASSES[HeatmapLevel(count)]
  }

  /** More posts never give a lighter shade. */
  lemma HeatmapLevelMonotone(a: int, b: int)
    requires a <= b
    ensures HeatmapLevel(a) <= HeatmapLevel(b)
  {
  }

  // ---------- the cells ----------

  /** One day of the heatmap. */
  datatype Cell = Cell(dateKey: string, count: int)

  /** `(stats.activityByDay ?? {})[dateKey] ?? 0`. */
  function CountOn(activity: Option<map<string, int>>, key: string): (n: int)
    ensures activity.Some? && key in activity.value ==> n == activity.value[key]
    ensures activity.None? || key !in activity.value ==> n == 0
  {
    if activity.Some? && key in activity.value then activity.value[key] else 0
  }

  /**
   * The cell of a day. Days are numbered so that consecutive days have
   * consecutive numbers; `civil` gives the local calendar date of a day
   * number, which is what `getFullYear`, `getMonth` and `getDate` read.
   */
  function CellOf(activity: Option<map<string, int>>, civil: int -> ValidDate, day: int): Cell {
    var key := DayKey(civil(day));
    Cell(key, CountOn(activity, key))
  }

  /** The day number of cell `i`: the first cell is 363 days before today, the last is today. */
  function WindowDay(today: int, i: int): int {
    today - (HEATMAP_DAYS - 1) + i
  }

  /** Different day numbers are different calendar dates. */
  ghost predicate Injective(civil: int -> ValidDate) {
    forall d1, d2 :: civil(d1) == civil(d2) ==> d1 == d2
  }

  /**
   * The first loop: one cell per day from 363 days ago up to today, keyed
   * by its `YYYY-MM-DD` date and counting that day's posts, zero when the
   * record has no entry. The keys differ from cell to cell.
   */
  method Cells(activity: Option<map<string, int>>, today: int, civil: int -> ValidDate) returns (cells: seq<Cell>)
    ensures |cells| == HEATMAP_DAYS
    ensures forall i :: 0 <= i < HEATMAP_DAYS ==> cells[i] == CellOf(activity, civil, WindowDay(today, i))
    ensures Injective(civil) ==> forall i, j :: 0 <= i < j < |cells| ==> cells[i].dateKey != cells[j].dateKey
  {
    cells := [];
    for dayIndex := 0 to HEATMAP_DAYS
      invariant |cells| == dayIndex
      invariant forall i :: 0 <= i < dayIndex ==> cells[i] == CellOf(activity, civil, WindowDay(today, i))
    {
      var d := civil(WindowDay(today, dayIndex));
      var dateKey := DayKey(d);
      cells := cells + [Cell(dateKey, CountOn(activity, dateKey))];
    }
    if Injective(civil) {
      forall i, j | 0 <= i < j < |cells|
        ensures cells[i].dateKey != cells[j].dateKey
      {
        WindowKeysDiffer(activity, civil, today, i, j);
      }
    }
  }

  /** Two days of the window get different keys. */
  lemma WindowKeysDiffer(activity: Option<map<string, int>>, civil: int -> ValidDate, today: int, i: int, j: int)
    requires Injective(civil) && i != j
    ensures CellOf(activity, civil, WindowDay(today, i)).dateKey != CellOf(activity, civil, WindowDay(today, j)).dateKey
  {
    var a, b := civil(WindowDay(today, i)), civil(WindowDay(today, j));
    if DayKey(a) == DayKey(b) {
      DayKeyInjective(a, b);
    }
  }

  /**
   * The second loop: column by column, row by row, the cell `col * 7 + row`.
   * The index runs through 0..363 once each in increasing order, so the
   * weekly layout holds the cells in their own order.
   */
  method ByWeek(cells: seq<Cell>) returns (byWeek: seq<Cell>)
    requires |cells| == HEATMAP_DAYS
    ensures byWeek == cells
  {
    byWeek := [];
    for col := 0 to HEATMAP_COLS
      invariant byWeek == cells[..col * HEATMAP_ROWS]
    {
      for row := 0 to HEATMAP_ROWS
        invariant byWeek == cells[..col * HEATMAP_ROWS + row]
      {
        var dayIndex := col * 7 + row;
        assert cells[..dayIndex + 1] == cells[..dayIndex] + [cells[dayIndex]];
        byWeek := byWeek + [cells[dayIndex]];
      }
    }
    assert cells[..HEATMAP_COLS * HEATMAP_ROWS] == cells;
  }

  // ---------- the rendered squares ----------

  /** One rendered square: its React key, its class and its tooltip. */
  datatype Square = Square(key: string, className: string, title: string)

  function SquareOf(c: Cell): Square {
    Square(c.dateKey, "rounded-[2px] " + HeatmapClass(c.count), c.dateKey + "：" + IntToString(c.count) + " 篇")
  }

  /**
   * The heatmap: 364 squares for the days up to today, oldest first, each
   * shaded by its day's count. When day numbers map to distinct dates, the
   * React keys of the squares are distinct.
   */
  method Heatmap(activity: Option<map<string, int>>, today: int, civil: int -> ValidDate) returns (squares: seq<Square>)
    ensures |squares| == HEATMAP_DAYS
    ensures forall i :: 0 <= i < HEATMAP_DAYS ==>
              var c := CellOf(activity, civil, WindowDay(today, i));
              squares[i] == SquareOf(c) && squares[i].className == "rounded-[2px] " + LEVEL_CLASSES[HeatmapLevel(c.count)]
    ensures Injective(civil) ==> forall i, j :: 0 <= i < j < |squares| ==> squares[i].key != squares[j].key
  {
    var cells := Cells(activity, today, civil);
    var byWeek := ByWeek(cells);
    squares := [];
    for k := 0 to |byWeek|
      invariant |squares| == k
      invariant forall i :: 0 <= i < k ==> squares[i] == SquareOf(byWeek[i])
    {
      squares := squares + [SquareOf(byWeek[k])];
    }
  }

  // ---------- the day key ----------

  /** `getDayKey` tells dates apart: different calendar dates have different keys. */
  lemma DayKeyInjective(a: CivilDate, b: CivilDate)
    requires ValidCivil(a) && ValidCivil(b)
    requires DayKey(a) == DayKey(b)
    ensures a == b
  {
    Pad2Digits(a.month);
    Pad2Digits(a.day);
    Pad2Digits(b.month);
    Pad2Digits(b.day);
    DashFields3(IntToString(a.year), Pad2(a.month), Pad2(a.day), IntToString(b.year), Pad2(b.month), Pad2(b.day));
    IntToStringInjective(a.year, b.year);
  }
}
