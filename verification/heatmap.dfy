/**
 * The weekly visit heatmap of the owner's analytics
 * (src/features/store/components/HeatmapChart.tsx): one row per weekday present in
 * the data, Monday first, cells shaded by their share of the largest count, and a
 * five-step legend.
 *
 * Intensities are exact `real`s; the RGB arithmetic of a shaded cell is not modelled,
 * only which intensity it shows.
 */
module Heatmap {
  import opened Optional

  /** The weekday names the server sends ('MONDAY' .. 'SUNDAY'); any other string is
      `OtherName`. */
  datatype DayName =
    | MONDAY | TUESDAY | WEDNESDAY | THURSDAY | FRIDAY | SATURDAY | SUNDAY
    | OtherName(text: string)

  const DayOrder: seq<DayName> := [MONDAY, TUESDAY, WEDNESDAY, THURSDAY, FRIDAY, SATURDAY, SUNDAY]
  const DayLabels: seq<string> := ["월", "화", "수", "목", "금", "토", "일"]
  const Days: nat := 7

  datatype HourStat = HourStat(viewStoreCount: int, viewPostCount: int)

  datatype WeeklyStats = WeeklyStats(dayOfWeek: DayName, hourlyStats: seq<HourStat>)

  /** Which count the chart shows (`dataType`). */
  datatype Metric = ViewStoreCount | ViewPostCount

  function Count(h: HourStat, m: Metric): int {
    match m
    case ViewStoreCount => h.viewStoreCount
    case ViewPostCount => h.viewPostCount
  }

  /** The data has no entry for `day`. */
  predicate Absent(data: seq<WeeklyStats>, day: DayName) {
    forall i :: 0 <= i < |data| ==> data[i].dayOfWeek != day
  }

  /** `w` is the first entry of the data for `day`. */
  predicate FirstEntry(data: seq<WeeklyStats>, day: DayName, w: WeeklyStats) {
    exists i :: 0 <= i < |data| && data[i] == w && w.dayOfWeek == day && Absent(data[..i], day)
  }

  /** `data.find(item => item.dayOfWeek === day)`. */
  function FindDay(data: seq<WeeklyStats>, day: DayName): (r: Option<WeeklyStats>)
    ensures r.Some? ==> r.value.dayOfWeek == day && r.value in data
  {
    if data == [] then None
    else if data[0].dayOfWeek == day then Some(data[0])
    else FindDay(data[1..], day)
  }

  /** `find` returns nothing exactly when the data has no entry for the day, and
      otherwise the first entry for it. */
  lemma {:induction false} FindDayIsFirst(data: seq<WeeklyStats>, day: DayName)
    ensures FindDay(data, day).None? <==> Absent(data, day)
    ensures FindDay(data, day).Some? ==> FirstEntry(data, day, FindDay(data, day).value)
  {
    if data == [] {
    } else if data[0].dayOfWeek == day {
      assert data[..0] == [];
    } else {
      FindDayIsFirst(data[1..], day);
      assert FindDay(data, day) == FindDay(data[1..], day);
      AbsentPastHead(data, day);
      if FindDay(data, day).Some? {
        FirstEntryPastHead(data, day, FindDay(data, day).value);
      }
    }
  }

  /** Past a head for another day, the data has no entry for `day` exactly when its tail has none. */
  lemma AbsentPastHead(data: seq<WeeklyStats>, day: DayName)
    requires data != [] && data[0].dayOfWeek != day
    ensures Absent(data, day) <==> Absent(data[1..], day)
  {
    if Absent(data[1..], day) {
      forall i | 0 <= i < |data| ensures data[i].dayOfWeek != day {
        if i > 0 { assert data[i] == data[1..][i - 1]; }
      }
    }
  }

  /** Past a head for another day, the first entry of the tail is the first entry of the data. */
  lemma FirstEntryPastHead(data: seq<WeeklyStats>, day: DayName, w: WeeklyStats)
    requires data != [] && data[0].dayOfWeek != day
    requires FirstEntry(data[1..], day, w)
    ensures FirstEntry(data, day, w)
  {
    var i :| 0 <= i < |data[1..]| && data[1..][i] == w && w.dayOfWeek == day && Absent(data[1..][..i], day);
    assert data[1..][..i] == data[1..i + 1];
    var before := data[..i + 1];
    forall j | 0 <= j < |before| ensures before[j].dayOfWeek != day {
      if j > 0 { assert before[j] == data[1..][..i][j - 1]; }
    }
    assert data[i + 1] == w;
  }

  /** `dayOrder.map(find).filter(Boolean)`, from weekday `k` on. */
  function Rows(data: seq<WeeklyStats>, k: nat): seq<WeeklyStats>
    requires k <= Days
    decreases Days - k
  {
    if k == Days then [] else Found(data, k) + Rows(data, k + 1)
  }

  /** The row of weekday `k`, if the data has one. */
  function Found(data: seq<WeeklyStats>, k: nat): (r: seq<WeeklyStats>)
    requires k < Days
    ensures |r| <= 1 && (|r| == 1 <==> FindDay(data, DayOrder[k]).Some?)
    ensures r != [] ==> r[0] == FindDay(data, DayOrder[k]).value && r[0].dayOfWeek == DayOrder[k]
  {
    var found := FindDay(data, DayOrder[k]);
    if found.Some? then [found.value] else []
  }

  /** `sortedData`: the first entry of each weekday, in Monday..Sunday order; every
      weekday the data mentions gets its row. */
  function SortedData(data: seq<WeeklyStats>): (rows: seq<WeeklyStats>)
    ensures |rows| <= Days && DaysFrom(rows, 0) && WeekOrdered(rows)
    ensures FirstEntries(data, rows) && Covers(data, rows, 0)
  {
    RowsOrdered(data, 0);
    RowsAreFirstEntries(data, 0);
    RowsCoverData(data, 0);
    Rows(data, 0)
  }

  /** The position of a weekday name in Monday..Sunday order, or 7 for anything else. */
  function Pos(day: DayName): (p: nat)
    ensures p <= Days
    ensures p == Days <==> day.OtherName?
  {
    match day
    case MONDAY => 0
    case TUESDAY => 1
    case WEDNESDAY => 2
    case THURSDAY => 3
    case FRIDAY => 4
    case SATURDAY => 5
    case SUNDAY => 6
    case OtherName(_) => 7
  }

  /** `Pos` inverts `DayOrder`. */
  lemma PosOfDayOrder(k: nat)
    requires k < Days
    ensures Pos(DayOrder[k]) == k
  {
    if k == 0 {} else if k == 1 {} else if k == 2 {} else if k == 3 {} else if k == 4 {} else if k == 5 {} else {}
  }

  /** `DayOrder` inverts `Pos` on weekday names. */
  lemma DayOrderOfPos(day: DayName)
    requires !day.OtherName?
    ensures DayOrder[Pos(day)] == day
  {
  }

  /** Every row is for a weekday from `k` on. */
  predicate DaysFrom(rows: seq<WeeklyStats>, k: nat) {
    forall i :: 0 <= i < |rows| ==> k <= Pos(rows[i].dayOfWeek) < Days
  }

  /** Rows strictly in week order. */
  predicate WeekOrdered(rows: seq<WeeklyStats>) {
    forall i, j :: 0 <= i < j < |rows| ==> Pos(rows[i].dayOfWeek) < Pos(rows[j].dayOfWeek)
  }

  /** From weekday `k` on there are at most `7 - k` rows, all for weekdays from `k` on,
      in strictly increasing week order. */
  lemma {:induction false} RowsOrdered(data: seq<WeeklyStats>, k: nat)
    requires k <= Days
    ensures |Rows(data, k)| <= Days - k
    ensures DaysFrom(Rows(data, k), k) && WeekOrdered(Rows(data, k))
    decreases Days - k
  {
    if k < Days {
      RowsOrdered(data, k + 1);
      var rest := Rows(data, k + 1);
      var here := Found(data, k);
      assert Rows(data, k) == here + rest;
      if here != [] {
        PosOfDayOrder(k);
        ConsOrdered(here[0], rest, k);
        assert here == [here[0]];
      }
    }
  }

  lemma ConsOrdered(w: WeeklyStats, rest: seq<WeeklyStats>, k: nat)
    requires Pos(w.dayOfWeek) == k < Days
    requires DaysFrom(rest, k + 1) && WeekOrdered(rest)
    ensures DaysFrom([w] + rest, k) && WeekOrdered([w] + rest)
  {
    var r := [w] + rest;
    forall i | 0 <= i < |r| ensures k <= Pos(r[i].dayOfWeek) < Days {
      if i > 0 { assert r[i] == rest[i - 1]; }
    }
    forall i, j | 0 <= i < j < |r| ensures Pos(r[i].dayOfWeek) < Pos(r[j].dayOfWeek) {
      assert r[j] == rest[j - 1];
      if i > 0 { assert r[i] == rest[i - 1]; }
    }
  }

  /** Each row is the first entry of the data for its day. */
  predicate FirstEntries(data: seq<WeeklyStats>, rows: seq<WeeklyStats>) {
    forall i :: 0 <= i < |rows| ==> FirstEntry(data, rows[i].dayOfWeek, rows[i])
  }

  lemma {:induction false} RowsAreFirstEntries(data: seq<WeeklyStats>, k: nat)
    requires k <= Days
    ensures FirstEntries(data, Rows(data, k))
    decreases Days - k
  {
    if k < Days {
      RowsAreFirstEntries(data, k + 1);
      var rest := Rows(data, k + 1);
      var here := Found(data, k);
      FindDayIsFirst(data, DayOrder[k]);
      assert FirstEntries(data, here) by {
        if here != [] {
          assert FirstEntry(data, here[0].dayOfWeek, here[0]);
        }
      }
      AppendFirstEntries(data, here, rest);
      assert Rows(data, k) == here + rest;
    }
  }

  lemma AppendFirstEntries(data: seq<WeeklyStats>, a: seq<WeeklyStats>, b: seq<WeeklyStats>)
    requires FirstEntries(data, a) && FirstEntries(data, b)
    ensures FirstEntries(data, a + b)
  {
    var r := a + b;
    forall i | 0 <= i < |r| ensures FirstEntry(data, r[i].dayOfWeek, r[i]) {
      if i < |a| { assert r[i] == a[i]; } else { assert r[i] == b[i - |a|]; }
    }
  }

  /** Some row is for `day`. */
  predicate HasRowFor(rows: seq<WeeklyStats>, day: DayName) {
    exists i :: 0 <= i < |rows| && rows[i].dayOfWeek == day
  }

  /** Every weekday from `k` on that the data has an entry for gets a row. */
  predicate Covers(data: seq<WeeklyStats>, rows: seq<WeeklyStats>, k: nat) {
    forall d :: k <= d < Days && !Absent(data, DayOrder[d]) ==> HasRowFor(rows, DayOrder[d])
  }

  lemma {:induction false} RowsCoverData(data: seq<WeeklyStats>, k: nat)
    requires k <= Days
    ensures Covers(data, Rows(data, k), k)
    ensures DaysFrom(Rows(data, k), k)
    decreases Days - k
  {
    RowsOrdered(data, k);
    if k < Days {
      RowsCoverData(data, k + 1);
      var rest := Rows(data, k + 1);
      var here := Found(data, k);
      var rows := here + rest;
      assert Rows(data, k) == rows;
      forall d | k <= d < Days && !Absent(data, DayOrder[d]) ensures HasRowFor(rows, DayOrder[d]) {
        if d == k {
          FindDayIsFirst(data, DayOrder[k]);
          assert rows[0] == here[0];
        } else {
          assert HasRowFor(rest, DayOrder[d]);
          HasRowForAppend(here, rest, DayOrder[d]);
        }
      }
    }
  }

  lemma HasRowForAppend(a: seq<WeeklyStats>, b: seq<WeeklyStats>, day: DayName)
    requires HasRowFor(b, day)
    ensures HasRowFor(a + b, day)
  {
    var i :| 0 <= i < |b| && b[i].dayOfWeek == day;
    assert (a + b)[|a| + i] == b[i];
  }

  /** The chart's rows: at most seven, Monday to Sunday, no day twice, each the first
      entry for its day, and every weekday present in the data shown. */
  lemma SortedDataShape(data: seq<WeeklyStats>)
    ensures var rows := SortedData(data);
      && |rows| <= Days
      && WeekOrdered(rows)
      && (forall i, j :: 0 <= i < j < |rows| ==> rows[i].dayOfWeek != rows[j].dayOfWeek)
      && FirstEntries(data, rows)
      && Covers(data, rows, 0)
  {
    RowsOrdered(data, 0);
    RowsAreFirstEntries(data, 0);
    RowsCoverData(data, 0);
  }

  // ---------------------------------------------------------------------------
  // Row labels

  /** As written: the row at position `i` of the filtered list gets the `i`-th label. */
  function RowLabelAsWritten(rows: seq<WeeklyStats>, i: nat): (text: string)
    requires i < |rows| <= Days
    ensures !rows[i].dayOfWeek.OtherName? ==>
      (text == RowLabel(rows[i]) <==> rows[i].dayOfWeek == DayOrder[i])
  {
    if rows[i].dayOfWeek.OtherName? then DayLabels[i]
    else
      DayOrderOfPos(rows[i].dayOfWeek);
      LabelsDistinct(i, Pos(rows[i].dayOfWeek));
      DayLabels[i]
  }

  /** Different positions carry different labels. */
  lemma LabelsDistinct(a: nat, b: nat)
    requires a < Days && b < Days
    ensures DayLabels[a] == DayLabels[b] ==> a == b
  {
    if a != b {
      assert DayLabels[a][0] != DayLabels[b][0];
    }
  }

  /** The label of the row's own weekday. */
  function RowLabel(row: WeeklyStats): (text: string)
    requires !row.dayOfWeek.OtherName?
    ensures exists d :: 0 <= d < Days && DayOrder[d] == row.dayOfWeek && DayLabels[d] == text
  {
    DayOrderOfPos(row.dayOfWeek);
    DayLabels[Pos(row.dayOfWeek)]
  }

  /** With Monday missing, the Tuesday row is labelled '월'. */
  lemma LabelShiftsWhenDayMissing()
    ensures var rows := SortedData([WeeklyStats(TUESDAY, [])]);
      |rows| == 1 && rows[0].dayOfWeek == TUESDAY &&
      RowLabelAsWritten(rows, 0) == "월" && RowLabel(rows[0]) == "화"
  {
    var data := [WeeklyStats(TUESDAY, [])];
    assert Rows(data, 7) == [];
    assert Rows(data, 6) == [];
    assert Rows(data, 5) == [];
    assert Rows(data, 4) == [];
    assert Rows(data, 3) == [];
    assert Rows(data, 2) == [];
    assert Rows(data, 1) == data;
    assert Rows(data, 0) == data;
  }

  /** With every weekday present, the row at position `i` from weekday `k` on is weekday
      `k + i`. */
  /** The data has an entry for each of the seven weekdays. */
  predicate AllPresent(data: seq<WeeklyStats>) {
    forall d :: 0 <= d < Days ==> FindDay(data, DayOrder[d]).Some?
  }

  /** `rows` holds one row per weekday from `k` on, in week order. */
  predicate WeekFrom(rows: seq<WeeklyStats>, k: nat) {
    && |rows| + k == Days
    && forall i :: 0 <= i < |rows| ==> rows[i].dayOfWeek == DayOrder[k + i]
  }

  /** With every weekday present, the rows from weekday `k` on are weekdays `k`..Sunday. */
  lemma {:induction false} FullWeekRows(data: seq<WeeklyStats>, k: nat)
    requires k <= Days
    requires AllPresent(data)
    ensures WeekFrom(Rows(data, k), k)
    decreases Days - k
  {
    if k < Days {
      FullWeekRows(data, k + 1);
      assert FindDay(data, DayOrder[k]).Some?;
      WeekFromCons(Found(data, k), Rows(data, k + 1), k);
    }
  }

  lemma WeekFromCons(here: seq<WeeklyStats>, rest: seq<WeeklyStats>, k: nat)
    requires k < Days
    requires |here| == 1 && here[0].dayOfWeek == DayOrder[k]
    requires WeekFrom(rest, k + 1)
    ensures WeekFrom(here + rest, k)
  {
    var rows := here + rest;
    forall i | 0 <= i < |rows| ensures rows[i].dayOfWeek == DayOrder[k + i] {
      if i > 0 { assert rows[i] == rest[i - 1]; }
    }
  }

  /** The two labellings agree whenever all seven days are present: the shift needs a
      missing day. */
  lemma LabelsAgreeOnFullWeek(data: seq<WeeklyStats>, i: nat)
    requires AllPresent(data)
    requires i < Days
    ensures |SortedData(data)| == Days
    ensures !SortedData(data)[i].dayOfWeek.OtherName?
    ensures RowLabelAsWritten(SortedData(data), i) == RowLabel(SortedData(data)[i])
  {
    FullWeekLabel(data, i);
  }

  /** The same fact about the rows before they are named the chart's data. */
  lemma FullWeekLabel(data: seq<WeeklyStats>, i: nat)
    requires AllPresent(data)
    requires i < Days
    ensures |Rows(data, 0)| == Days
    ensures Rows(data, 0)[i].dayOfWeek == DayOrder[i] && !DayOrder[i].OtherName?
  {
    FullWeekRows(data, 0);
    PosOfDayOrder(i);
  }

  // ---------------------------------------------------------------------------
  // Intensities

  function Values(rows: seq<WeeklyStats>, m: Metric): seq<int> {
    if rows == [] then [] else HourValues(rows[0].hourlyStats, m) + Values(rows[1..], m)
  }

  function HourValues(hours: seq<HourStat>, m: Metric): (vs: seq<int>)
    ensures |vs| == |hours| && forall k :: 0 <= k < |hours| ==> vs[k] == Count(hours[k], m)
  {
    if hours == [] then [] else [Count(hours[0], m)] + HourValues(hours[1..], m)
  }

  /** `Math.max(...values)`; no values (JavaScript's -Infinity) is `None`. */
  function MaxValue(vs: seq<int>): (r: Option<int>)
    ensures r.None? <==> vs == []
    ensures r.Some? ==> r.value in vs && forall k :: 0 <= k < |vs| ==> vs[k] <= r.value
  {
    if vs == [] then None
    else
      match MaxValue(vs[1..])
      case None => Some(vs[0])
      case Some(m) => Some(if vs[0] > m then vs[0] else m)
  }

  /** `getColorIntensity`: 0 against a zero maximum, else the share of the maximum capped
      at 1. Without any value no cell is drawn; the value given then is 0. */
  function Intensity(value: int, max: Option<int>): (r: real)
    ensures max.Some? && 0 <= value <= max.value ==> 0.0 <= r <= 1.0
    ensures value == 0 ==> r == 0.0
    ensures max == Some(value) && value > 0 ==> r == 1.0
  {
    if max.None? || max.value == 0 then 0.0
    else
      var share := value as real / max.value as real;
      if 0 <= value <= max.value then ShareInUnit(value, max.value); if share < 1.0 then share else 1.0
      else if share < 1.0 then share else 1.0
  }

  /** Cells of non-negative counts have intensities in [0, 1]; a largest positive count
      has intensity 1 and a zero count intensity 0. */
  lemma IntensityInUnit(vs: seq<int>, k: nat)
    requires forall i :: 0 <= i < |vs| ==> vs[i] >= 0
    requires k < |vs|
    ensures 0.0 <= Intensity(vs[k], MaxValue(vs)) <= 1.0
    ensures vs[k] == 0 ==> Intensity(vs[k], MaxValue(vs)) == 0.0
    ensures MaxValue(vs) == Some(vs[k]) && vs[k] > 0 ==> Intensity(vs[k], MaxValue(vs)) == 1.0
  {
    var m := MaxValue(vs);
    if m.Some? && m.value != 0 {
      assert 0 <= vs[k] <= m.value;
      ShareInUnit(vs[k], m.value);
    }
  }

  lemma ShareInUnit(v: int, m: int)
    requires 0 <= v <= m && m > 0
    ensures 0.0 <= v as real / m as real <= 1.0
    ensures v == m ==> v as real / m as real == 1.0
  {
    var share := v as real / m as real;
    assert share * m as real == v as real;
  }

  datatype Color = Blank | Shade(intensity: real)

  /** `getColor`: '#f0f0f0' for intensity 0, otherwise an orange shade of that intensity. */
  function ColorOf(intensity: real): (c: Color)
    ensures c == Blank <==> intensity == 0.0
  {
    if intensity == 0.0 then Blank else Shade(intensity)
  }

  /** The legend: five swatches at intensities 0, 1/4, 1/2, 3/4 and 1. */
  function Legend(): (swatches: seq<Color>)
    ensures swatches == [Blank, Shade(0.25), Shade(0.5), Shade(0.75), Shade(1.0)]
  {
    seq(5, i => ColorOf(i as real / 4.0))
  }
}
