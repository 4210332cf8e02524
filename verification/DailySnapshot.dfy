/** The snapshot loop over branches and days (src/cron-jobs/computeProfit.job.ts, snapshotDailyProfits).
    Instants are milliseconds and the server keeps one fixed offset from UTC. */
module DailySnapshot {
  import opened Schema
  import opened Sums
  import opened DailyProfit

  /** The unique key of the DailyProfit table. */
  datatype RowKey = RowKey(companyId: int, branchId: int, day: int)

  datatype StoredProfit = StoredProfit(totalProfit: Money, profit: BranchProfit)

  /** `setHours(0, 0, 0, 0)`: the last local midnight at or before t. */
  function Midnight(t: int, offset: int): int {
    (t + offset) / DAY * DAY - offset
  }

  /** `toISOString().slice(0, 10)`: the UTC calendar day of an instant. */
  function UtcDay(t: int): int {
    t / DAY
  }

  /** A midnight is a whole number of days from the offset, and t falls in the day it begins. */
  lemma MidnightIsLast(t: int, offset: int)
    ensures Midnight(t, offset) <= t < Midnight(t, offset) + 86_400_000
    ensures (Midnight(t, offset) + offset) % 86_400_000 == 0
  {
  }

  lemma UtcDayShift(t: int, k: int)
    ensures UtcDay(t + k * DAY) == UtcDay(t) + k
  {
  }

  lemma DayBeforeMidnight(t: int, offset: int)
    ensures Midnight(Midnight(t, offset) - DAY, offset) == Midnight(t, offset) - DAY
    ensures UtcDay(Midnight(t, offset) - DAY) == UtcDay(Midnight(t, offset)) - 1
  {
    UtcDayShift(Midnight(t, offset), -1);
    UtcDayShift(Midnight(t, offset) + offset, -1);
  }

  function KeyOf(b: Branch, day: int): RowKey {
    RowKey(b.companyId, b.id, day)
  }

  function RowOf(db: Db, b: Branch, from: int, to: int): StoredProfit {
    var p := ComputeBranchDayProfit(db, b.companyId, b.id, IsMain(b), from, to);
    StoredProfit(Total(p), p)
  }

  class DailyProfitTable {
    var rows: map<RowKey, StoredProfit>
  }

  /** A JavaScript Date, which setHours and setDate change in place. */
  class JsDate {
    var time: int
    constructor (time: int)
      ensures this.time == time
    {
      this.time := time;
    }
  }

  /** The rows of a run for the day that ends at the midnight `to`. */
  ghost function DayRows(db: Db, to: int): Branch -> StoredProfit {
    (b: Branch) => RowOf(db, b, to - DAY, to)
  }

  /** The table after upserting the row of every branch of bs for one day. */
  ghost function Upserted(rows: map<RowKey, StoredProfit>, bs: seq<Branch>, day: int, row: Branch -> StoredProfit)
    : map<RowKey, StoredProfit>
  {
    if bs == [] then rows
    else
      var last := bs[|bs| - 1];
      Upserted(rows, bs[..|bs| - 1], day, row)[KeyOf(last, day) := row(last)]
  }

  /** The stored row: the branch's columns over the 24 hours up to `to`, main when it owns a main repository, under the
      UTC day of `to`, their total beside them. */
  lemma StoredColumns(rows: map<RowKey, StoredProfit>, db: Db, to: int, b: Branch)
    requires DistinctBranches(db.branches) && b in db.branches
    ensures var key := RowKey(b.companyId, b.id, to / 86_400_000);
            var p := ComputeBranchDayProfit(db, b.companyId, b.id, b.mainRepositories > 0, to - 86_400_000, to);
            && key in Snapshot(rows, db, to)
            && Snapshot(rows, db, to)[key] == StoredProfit(p.insideProfit + p.receivedProfit + p.forwardedProfit, p)
  {
    UpsertedRows(rows, db.branches, UtcDay(to), DayRows(db, to));
  }

  lemma RowOfDay(db: Db, b: Branch, from: int, to: int)
    requires to == from + DAY
    ensures DayRows(db, to)(b) == RowOf(db, b, from, to)
  {
  }

  lemma UpsertedNext(rows: map<RowKey, StoredProfit>, bs: seq<Branch>, day: int, row: Branch -> StoredProfit, i: nat)
    requires i < |bs|
    ensures Upserted(rows, bs[..i + 1], day, row) == Upserted(rows, bs[..i], day, row)[KeyOf(bs[i], day) := row(bs[i])]
  {
    assert bs[..i + 1][..i] == bs[..i];
  }

  /** A run for the day that ends at the midnight `to`. */
  ghost function Snapshot(rows: map<RowKey, StoredProfit>, db: Db, to: int): map<RowKey, StoredProfit> {
    Upserted(rows, db.branches, UtcDay(to), DayRows(db, to))
  }

  /** The loop over the branches. */
  method UpsertBranches(db: Db, table: DailyProfitTable, from: int, to: int) returns (written: nat)
    requires to == from + DAY
    modifies table
    ensures table.rows == Snapshot(old(table.rows), db, to) && written == |db.branches|
  {
    var day := UtcDay(to);
    written := 0;
    for i := 0 to |db.branches|
      invariant written == i
      invariant table.rows == Upserted(old(table.rows), db.branches[..i], day, DayRows(db, to))
    {
      var branch := db.branches[i];
      UpsertedNext(old(table.rows), db.branches, day, DayRows(db, to), i);
      RowOfDay(db, branch, from, to);
      table.rows := table.rows[KeyOf(branch, day) := RowOf(db, branch, from, to)];
      written := written + 1;
    }
    assert db.branches[..|db.branches|] == db.branches;
  }

  method SnapshotDailyProfits(db: Db, table: DailyProfitTable, targetDay: JsDate?, now: int, offset: int)
    returns (day: int, written: nat)
    modifies table, targetDay
    ensures var t := if targetDay == null then now else old(targetDay.time);
            && table.rows == Snapshot(old(table.rows), db, Midnight(t, offset))
            && day == UtcDay(Midnight(t, offset))
            && (targetDay != null ==> targetDay.time == Midnight(t, offset) - DAY)
    ensures written == |db.branches|
  {
    var date: JsDate;
    if targetDay == null {
      date := new JsDate(now);
    } else {
      date := targetDay;
    }
    date.time := Midnight(date.time, offset);
    date.time := date.time - DAY;
    var from, to := date.time, date.time + DAY;
    day := UtcDay(to);
    written := UpsertBranches(db, table, from, to);
  }

  // ---------------------------------------------------------------- one run

  ghost predicate HasRows(rows: map<RowKey, StoredProfit>, bs: seq<Branch>, day: int, row: Branch -> StoredProfit) {
    forall b | b in bs :: KeyOf(b, day) in rows && rows[KeyOf(b, day)] == row(b)
  }

  ghost predicate KeyOfSome(k: RowKey, bs: seq<Branch>, day: int) {
    exists b :: b in bs && KeyOf(b, day) == k
  }

  /** A run leaves exactly one fresh row per branch under the run's day and keeps every other row. */
  lemma {:induction false} UpsertedRows(rows: map<RowKey, StoredProfit>, bs: seq<Branch>, day: int,
                                        row: Branch -> StoredProfit)
    requires DistinctBranches(bs)
    ensures var after := Upserted(rows, bs, day, row);
            && HasRows(after, bs, day, row)
            && forall k: RowKey | !KeyOfSome(k, bs, day) ::
                 (k in after <==> k in rows) && (k in rows ==> after[k] == rows[k])
  {
    if bs != [] {
      var init, last := bs[..|bs| - 1], bs[|bs| - 1];
      UpsertedRows(rows, init, day, row);
      assert forall b :: b in bs <==> b in init || b == last;
      forall k: RowKey | !KeyOfSome(k, bs, day) ensures !KeyOfSome(k, init, day) && k != KeyOf(last, day) {
      }
    }
  }

  lemma UpsertedKeepsOtherDay(rows: map<RowKey, StoredProfit>, bs: seq<Branch>, day: int, row: Branch -> StoredProfit,
                              k: RowKey)
    requires DistinctBranches(bs) && k.day != day
    ensures var after := Upserted(rows, bs, day, row);
            (k in after <==> k in rows) && (k in rows ==> after[k] == rows[k])
  {
    UpsertedRows(rows, bs, day, row);
    assert !KeyOfSome(k, bs, day);
  }

  lemma SameDayTwice(rows: map<RowKey, StoredProfit>, bs: seq<Branch>, day: int, row: Branch -> StoredProfit)
    requires DistinctBranches(bs)
    ensures Upserted(Upserted(rows, bs, day, row), bs, day, row) == Upserted(rows, bs, day, row)
  {
    var once := Upserted(rows, bs, day, row);
    var twice := Upserted(once, bs, day, row);
    UpsertedRows(rows, bs, day, row);
    UpsertedRows(once, bs, day, row);
    forall k: RowKey ensures (k in twice <==> k in once) && (k in once ==> twice[k] == once[k]) {
      if KeyOfSome(k, bs, day) {
        var b :| b in bs && KeyOf(b, day) == k;
      }
    }
    assert twice == once;
  }

  /** Runs for two different days leave the rows of both, and the second one's rows are not the first one's doing. */
  lemma OtherDayAdds(rows: map<RowKey, StoredProfit>, bs: seq<Branch>, day: int, row: Branch -> StoredProfit,
                     other: int, otherRow: Branch -> StoredProfit)
    requires DistinctBranches(bs) && day != other
    ensures var once := Upserted(rows, bs, day, row);
            var twice := Upserted(once, bs, other, otherRow);
            && HasRows(twice, bs, day, row) && HasRows(twice, bs, other, otherRow)
            && forall b | b in bs :: KeyOf(b, other) in once <==> KeyOf(b, other) in rows
  {
    var once := Upserted(rows, bs, day, row);
    UpsertedRows(rows, bs, day, row);
    UpsertedRows(once, bs, other, otherRow);
    forall b | b in bs
      ensures KeyOf(b, other) in once <==> KeyOf(b, other) in rows
      ensures var twice := Upserted(once, bs, other, otherRow); KeyOf(b, day) in twice && twice[KeyOf(b, day)] == row(b)
    {
      UpsertedKeepsOtherDay(rows, bs, day, row, KeyOf(b, other));
      UpsertedKeepsOtherDay(once, bs, other, otherRow, KeyOf(b, day));
    }
  }

  /** A midnight's UTC day tells which midnight it is. */
  lemma SameMidnightIff(t: int, u: int, offset: int)
    ensures UtcDay(Midnight(t, offset)) == UtcDay(Midnight(u, offset)) <==> Midnight(t, offset) == Midnight(u, offset)
  {
    UtcDayShift(-offset, (t + offset) / DAY);
    UtcDayShift(-offset, (u + offset) / DAY);
  }

  /** A second run over the same orders changes no table at all exactly when it falls on the same local day, or there
      are no branches. */
  lemma SnapshotRerunIff(db: Db, t: int, u: int, offset: int)
    requires DistinctBranches(db.branches)
    ensures var to, again := Midnight(t, offset), Midnight(u, offset);
            (forall rows :: Snapshot(Snapshot(rows, db, to), db, again) == Snapshot(rows, db, to))
            <==> db.branches == [] || to == again
  {
    SameMidnightIff(t, u, offset);
    RerunIff(db, Midnight(t, offset), Midnight(u, offset));
  }

  lemma RerunIff(db: Db, to: int, again: int)
    requires DistinctBranches(db.branches) && (UtcDay(to) == UtcDay(again) <==> to == again)
    ensures (forall rows :: Snapshot(Snapshot(rows, db, to), db, again) == Snapshot(rows, db, to))
            <==> db.branches == [] || to == again
  {
    var bs := db.branches;
    if to == again {
      forall rows ensures Snapshot(Snapshot(rows, db, to), db, again) == Snapshot(rows, db, to) {
        SameDayTwice(rows, bs, UtcDay(to), DayRows(db, to));
      }
    } else if bs != [] {
      OtherDayAdds(map[], bs, UtcDay(to), DayRows(db, to), UtcDay(again), DayRows(db, again));
      assert bs[0] in bs;
      assert Snapshot(Snapshot(map[], db, to), db, again) != Snapshot(map[], db, to);
    }
  }

  /** The table after runs for a day and then for the day before it, with the rows of both. */
  ghost predicate DayThenDayBefore(before: map<RowKey, StoredProfit>, after: map<RowKey, StoredProfit>, db: Db, to: int,
                                   first: int, second: int)
  {
    && first == UtcDay(to) && second == first - 1
    && after == Snapshot(Snapshot(before, db, to), db, to - DAY)
    && HasRows(after, db.branches, first, DayRows(db, to))
    && HasRows(after, db.branches, second, DayRows(db, to - DAY))
  }

  lemma PreviousDayAdds(before: map<RowKey, StoredProfit>, after: map<RowKey, StoredProfit>, db: Db, to: int,
                        first: int, second: int)
    requires DistinctBranches(db.branches) && first == UtcDay(to) && second == UtcDay(to - DAY)
    requires after == Snapshot(Snapshot(before, db, to), db, to - DAY)
    ensures DayThenDayBefore(before, after, db, to, first, second)
  {
    UtcDayShift(to, -1);
    OtherDayAdds(before, db.branches, first, DayRows(db, to), second, DayRows(db, to - DAY));
  }

  lemma SecondCall(before: map<RowKey, StoredProfit>, mid: map<RowKey, StoredProfit>, after: map<RowKey, StoredProfit>,
                   db: Db, t: int, offset: int, first: int, second: int)
    requires DistinctBranches(db.branches)
    requires first == UtcDay(Midnight(t, offset)) && mid == Snapshot(before, db, Midnight(t, offset))
    requires var u := Midnight(t, offset) - DAY;
             second == UtcDay(Midnight(u, offset)) && after == Snapshot(mid, db, Midnight(u, offset))
    ensures DayThenDayBefore(before, after, db, Midnight(t, offset), first, second)
  {
    DayBeforeMidnight(t, offset);
    PreviousDayAdds(before, after, db, Midnight(t, offset), first, second);
  }

  /** Passing the same Date object twice is never a run for the same day: the first call moved it, so the second
      call snapshots the day before and leaves the first call's rows alone. */
  method SnapshotTwiceWithOneDate(db: Db, table: DailyProfitTable, date: JsDate, offset: int)
    returns (first: int, second: int)
    requires DistinctBranches(db.branches)
    modifies table, date
    ensures DayThenDayBefore(old(table.rows), table.rows, db, Midnight(old(date.time), offset), first, second)
  {
    ghost var t, before := date.time, table.rows;
    var n;
    first, n := SnapshotDailyProfits(db, table, date, 0, offset);
    ghost var mid := table.rows;
    second, n := SnapshotDailyProfits(db, table, date, 0, offset);
    SecondCall(before, mid, table.rows, db, t, offset, first, second);
  }

  ghost function StoredTotals(rows: map<RowKey, StoredProfit>, day: int): Branch -> Money {
    (b: Branch) => if KeyOf(b, day) in rows then rows[KeyOf(b, day)].totalProfit else 0.0
  }

  lemma StoredTotalsAreTotals(rows: map<RowKey, StoredProfit>, db: Db, bs: seq<Branch>, company: int, to: int)
    requires HasRows(rows, db.branches, UtcDay(to), DayRows(db, to))
    requires forall b | b in bs :: b in db.branches && b.companyId == company
    ensures Sum(bs, StoredTotals(rows, UtcDay(to))) == Sum(bs, BranchTotals(db, company, to - DAY, to))
  {
    forall b | b in bs ensures StoredTotals(rows, UtcDay(to))(b) == BranchTotals(db, company, to - DAY, to)(b) {
      assert rows[KeyOf(b, UtcDay(to))] == DayRows(db, to)(b);
    }
    SumCongruent(bs, StoredTotals(rows, UtcDay(to)), BranchTotals(db, company, to - DAY, to));
  }

  lemma CompanyBranchesListed(db: Db, company: int)
    requires DistinctBranches(db.branches)
    ensures DistinctBranches(CompanyBranches(db, company))
    ensures forall b :: b in CompanyBranches(db, company) <==> b in db.branches && b.companyId == company
  {
    var own := (b: Branch) => b.companyId == company;
    SelectPairwise(db.branches, own, (b: Branch, c: Branch) => b.id != c.id);
    forall b ensures b in CompanyBranches(db, company) <==> b in db.branches && b.companyId == company {
      SelectMembers(db.branches, own, b);
    }
  }

  /** After a run for any day the stored totals of a company's branches conserve its cross-branch and inside order
      value, given one main branch and no order that leaves the company. */
  lemma StoredTotalsConserve(rows: map<RowKey, StoredProfit>, db: Db, company: int, to: int)
    requires DistinctBranches(db.branches)
    requires MainCount(CompanyBranches(db, company)) == 1
    requires ClosedOver(db, CompanyBranches(db, company), company, to - DAY, to)
    ensures var bs := CompanyBranches(db, company);
            Sum(bs, StoredTotals(Snapshot(rows, db, to), UtcDay(to)))
            == Sum(db.orders, OrderValue(db, bs, company, to - DAY, to))
  {
    var bs := CompanyBranches(db, company);
    CompanyBranchesListed(db, company);
    UpsertedRows(rows, db.branches, UtcDay(to), DayRows(db, to));
    StoredTotalsAreTotals(Snapshot(rows, db, to), db, bs, company, to);
    ConservationIff(db, bs, company, to - DAY, to);
  }

  // ---------------------------------------------------------------- a run every day

  /** One nightly run: the database as it stood, and the instant. */
  datatype NightlyRun = NightlyRun(db: Db, t: int)

  ghost function RunDays(rows: map<RowKey, StoredProfit>, runs: seq<NightlyRun>, offset: int)
    : map<RowKey, StoredProfit>
  {
    if runs == [] then rows
    else
      var last := runs[|runs| - 1];
      Snapshot(RunDays(rows, runs[..|runs| - 1], offset), last.db, Midnight(last.t, offset))
  }

  /** k days after the instant. */
  function DaysAfter(at: int, k: nat): int {
    if k == 0 then at else DaysAfter(at, k - 1) + DAY
  }

  lemma {:induction false} DaysAfterUtc(at: int, k: nat)
    ensures UtcDay(DaysAfter(at, k)) == UtcDay(at) + k
    ensures DaysAfter(at, k) >= at
  {
    if k > 0 {
      DaysAfterUtc(at, k - 1);
      UtcDayShift(DaysAfter(at, k - 1), 1);
    }
  }

  /** Some instant of each of the days that follow one another from the midnight `start` on. Every run saw the branch,
      and the orders it saw delivered on its day are those the final database db shows for that day. */
  ghost predicate NightAfterNight(runs: seq<NightlyRun>, db: Db, b: Branch, start: int, offset: int) {
    forall k | 0 <= k < |runs| ::
      && Midnight(runs[k].t, offset) == DaysAfter(start, k + 1)
      && DistinctBranches(runs[k].db.branches) && b in runs[k].db.branches
      && AgreeOn(runs[k].db, db, DaysAfter(start, k), DaysAfter(start, k + 1))
  }

  const NOTHING := BranchProfit(0.0, 0.0, 0.0, 0, 0, 0)

  /** What the n rows of a branch stored after `day` add up to, a missing row counting as nothing. */
  ghost function StoredSum(rows: map<RowKey, StoredProfit>, b: Branch, day: int, n: nat): BranchProfit {
    if n == 0 then NOTHING
    else
      var k := KeyOf(b, day + n);
      AddProfit(StoredSum(rows, b, day, n - 1), if k in rows then rows[k].profit else NOTHING)
  }

  lemma AgreeingRows(d: Db, db: Db, b: Branch, to: int)
    requires AgreeOn(d, db, to - DAY, to)
    ensures DayRows(d, to)(b) == DayRows(db, to)(b)
  {
    AgreeingProfits(d, db, b.companyId, b.id, IsMain(b), to - DAY, to);
  }

  /** The table holds the branch's row of the i-th day after `start`. */
  ghost predicate HoldsDay(rows: map<RowKey, StoredProfit>, db: Db, b: Branch, start: int, i: nat) {
    var key := KeyOf(b, UtcDay(start) + i);
    key in rows && rows[key] == DayRows(db, DaysAfter(start, i))(b)
  }

  lemma RunHoldsDay(rows: map<RowKey, StoredProfit>, d: Db, db: Db, b: Branch, start: int, i: nat)
    requires i > 0 && DistinctBranches(d.branches) && b in d.branches
    requires AgreeOn(d, db, DaysAfter(start, i - 1), DaysAfter(start, i))
    ensures HoldsDay(Snapshot(rows, d, DaysAfter(start, i)), db, b, start, i)
  {
    var to := DaysAfter(start, i);
    DaysAfterUtc(start, i);
    UpsertedRows(rows, d.branches, UtcDay(to), DayRows(d, to));
    AgreeingRows(d, db, b, to);
  }

  lemma RunKeepsDay(rows: map<RowKey, StoredProfit>, d: Db, db: Db, b: Branch, start: int, i: nat, n: nat)
    requires i < n && DistinctBranches(d.branches) && HoldsDay(rows, db, b, start, i)
    ensures HoldsDay(Snapshot(rows, d, DaysAfter(start, n)), db, b, start, i)
  {
    var to := DaysAfter(start, n);
    DaysAfterUtc(start, n);
    UpsertedKeepsOtherDay(rows, d.branches, UtcDay(to), DayRows(d, to), KeyOf(b, UtcDay(start) + i));
  }

  lemma FirstNights(runs: seq<NightlyRun>, db: Db, b: Branch, start: int, offset: int)
    requires runs != [] && NightAfterNight(runs, db, b, start, offset)
    ensures NightAfterNight(runs[..|runs| - 1], db, b, start, offset)
  {
  }

  /** After the runs each day has the row that the final database gives for that day. */
  lemma {:induction false} DayStored(rows: map<RowKey, StoredProfit>, runs: seq<NightlyRun>, db: Db, b: Branch,
                                     start: int, offset: int, i: nat)
    requires NightAfterNight(runs, db, b, start, offset)
    requires 1 <= i <= |runs|
    ensures HoldsDay(RunDays(rows, runs, offset), db, b, start, i)
  {
    var n := |runs|;
    var init, last := runs[..n - 1], runs[n - 1];
    assert Midnight(last.t, offset) == DaysAfter(start, n);
    if i == n {
      RunHoldsDay(RunDays(rows, init, offset), last.db, db, b, start, n);
    } else {
      FirstNights(runs, db, b, start, offset);
      DayStored(rows, init, db, b, start, offset, i);
      RunKeepsDay(RunDays(rows, init, offset), last.db, db, b, start, i, n);
    }
  }

  /** The branch's formulas as a function of the window. */
  ghost function Range(db: Db, b: Branch): (int, int) -> BranchProfit {
    (from: int, to: int) => ComputeBranchDayProfit(db, b.companyId, b.id, IsMain(b), from, to)
  }

  lemma RangeTiles(db: Db, b: Branch, from: int, mid: int, to: int)
    requires from <= mid <= to
    ensures Range(db, b)(from, to) == AddProfit(Range(db, b)(from, mid), Range(db, b)(mid, to))
  {
    WindowsTile(db, b.companyId, b.id, IsMain(b), from, mid, to);
  }

  lemma EmptyRange(db: Db, b: Branch, at: int)
    ensures Range(db, b)(at, at) == NOTHING
  {
    RangeTiles(db, b, at, at, at);
  }

  lemma RowAt(rows: map<RowKey, StoredProfit>, db: Db, b: Branch, start: int, n: nat)
    requires n > 0 && HoldsDay(rows, db, b, start, n)
    ensures KeyOf(b, UtcDay(start) + n) in rows
    ensures rows[KeyOf(b, UtcDay(start) + n)].profit == Range(db, b)(DaysAfter(start, n - 1), DaysAfter(start, n))
  {
  }

  lemma TileNext(rows: map<RowKey, StoredProfit>, b: Branch, day: int, n: nat, range: (int, int) -> BranchProfit,
                 from: int, mid: int, to: int)
    requires n > 0 && KeyOf(b, day + n) in rows && rows[KeyOf(b, day + n)].profit == range(mid, to)
    requires range(from, to) == AddProfit(range(from, mid), range(mid, to))
    requires StoredSum(rows, b, day, n - 1) == range(from, mid)
    ensures StoredSum(rows, b, day, n) == range(from, to)
  {
  }

  /** A table that holds the row of each of n days holds their whole range. */
  lemma {:induction false} StoredRowsTile(rows: map<RowKey, StoredProfit>, db: Db, b: Branch, start: int, n: nat)
    requires forall i: nat | 1 <= i <= n :: HoldsDay(rows, db, b, start, i)
    ensures StoredSum(rows, b, UtcDay(start), n) == Range(db, b)(start, DaysAfter(start, n))
  {
    if n == 0 {
      EmptyRange(db, b, start);
    } else {
      var mid, to := DaysAfter(start, n - 1), DaysAfter(start, n);
      StoredRowsTile(rows, db, b, start, n - 1);
      DaysAfterUtc(start, n - 1);
      RowAt(rows, db, b, start, n);
      RangeTiles(db, b, start, mid, to);
      TileNext(rows, b, UtcDay(start), n, Range(db, b), start, mid, to);
    }
  }

  /** The rows a branch got from n consecutive nightly runs sum, column by column, to the formulas of the final database
      on the whole range. */
  lemma DailyRowsTileTheRange(rows: map<RowKey, StoredProfit>, runs: seq<NightlyRun>, db: Db, b: Branch, start: int,
                              offset: int)
    requires NightAfterNight(runs, db, b, start, offset)
    ensures StoredSum(RunDays(rows, runs, offset), b, UtcDay(start), |runs|)
         == ComputeBranchDayProfit(db, b.companyId, b.id, IsMain(b), start, DaysAfter(start, |runs|))
  {
    forall i: nat | 1 <= i <= |runs| ensures HoldsDay(RunDays(rows, runs, offset), db, b, start, i) {
      DayStored(rows, runs, db, b, start, offset, i);
    }
    StoredRowsTile(RunDays(rows, runs, offset), db, b, start, |runs|);
  }
}
