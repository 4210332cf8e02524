/** The six report flags of an order as an index over its report links: what keeps them exact
    (src/app/reports/reports.repository.ts), what rebuilds them (src/lib/backfillReportFlags.ts,
    src/cron-jobs/reconcileReportFlags.job.ts), and what the filters that trust them select
    (src/app/orders/orders.repository.ts). */
module ReportFlags {
  import opened Schema
  import opened Keyset

  datatype SecondaryType = DELIVERED_REPORT | RETURNED_REPORT

  /** What the flags see of a report; its direction is a free text column. */
  datatype ReportKind =
    | ClientKind(secondaryType: SecondaryType)
    | BranchKind(direction: string, forChild: bool)
    | OtherKind

  datatype Report = Report(kind: ReportKind, deleted: bool)

  /** links holds the rows of both join tables; flags holds one row per order. */
  datatype Db = Db(reports: map<int, Report>, links: set<(int, string)>, flags: map<string, Flags>, nextId: int)

  datatype Error = NoOrders | UnknownOrder | AlreadyReported | ReportNotFound

  // ---------------------------------------------------------------- the flags' meaning

  predicate Supports(db: Db, report: int, order: string, kind: ReportKind) {
    (report, order) in db.links && report in db.reports && db.reports[report] == Report(kind, false)
  }

  /** The EXISTS clause: some report of this kind that is not deleted is linked to the order. */
  predicate Has(db: Db, order: string, kind: ReportKind) {
    exists r | r in db.reports :: Supports(db, r, order, kind)
  }

  function FlagsOf(db: Db, order: string): Flags {
    Flags(Has(db, order, BranchKind("received", false)), Has(db, order, BranchKind("forwarded", false)),
          Has(db, order, BranchKind("received", true)), Has(db, order, BranchKind("forwarded", true)),
          Has(db, order, ClientKind(DELIVERED_REPORT)), Has(db, order, ClientKind(RETURNED_REPORT)))
  }

  ghost predicate Exact(db: Db) {
    forall o | o in db.flags :: db.flags[o] == FlagsOf(db, o)
  }

  /** Links name existing reports and orders, and new ids are unused. */
  ghost predicate WellFormed(db: Db) {
    && (forall l | l in db.links :: l.0 in db.reports && l.1 in db.flags)
    && (forall r | r in db.reports :: r < db.nextId)
  }

  /** `recomputeReportFlags`: one UPDATE over the orders a condition selects. */
  function Recomputed(db: Db, ids: set<string>): Db {
    db.(flags := map o | o in db.flags :: if o in ids then FlagsOf(db, o) else db.flags[o])
  }

  function OrdersOf(db: Db, report: int): set<string> {
    set l | l in db.links && l.0 == report :: l.1
  }

  function Linked(report: int, ids: set<string>): set<(int, string)> {
    set o | o in ids :: (report, o)
  }

  // ---------------------------------------------------------------- report life cycle

  function WithReport(db: Db, kind: ReportKind, ids: set<string>): Db {
    db.(reports := db.reports[db.nextId := Report(kind, false)],
        links := db.links + Linked(db.nextId, ids), nextId := db.nextId + 1)
  }

  /** A client report needs orders, all of them known and none in a live client report of the same type. */
  function ClientReportCreated(db: Db, secondaryType: SecondaryType, ids: set<string>): Result<Db, Error> {
    if ids == {} then Err(NoOrders)
    else if !(ids <= db.flags.Keys) then Err(UnknownOrder)
    else if exists o :: o in ids && Has(db, o, ClientKind(secondaryType)) then Err(AlreadyReported)
    else Ok(Recomputed(WithReport(db, ClientKind(secondaryType), ids), ids))
  }

  function BranchReportCreated(db: Db, direction: string, forChild: bool, ids: set<string>): Result<Db, Error> {
    if !(ids <= db.flags.Keys) then Err(UnknownOrder)
    else Ok(Recomputed(WithReport(db, BranchKind(direction, forChild), ids), ids))
  }

  /** Deactivating and reactivating set `deleted` and recompute the report's orders, for the two kinds that have
      flags. */
  function DeletedSet(db: Db, report: int, deleted: bool): Result<Db, Error> {
    if report !in db.reports then Err(ReportNotFound)
    else
      var next := db.(reports := db.reports[report := db.reports[report].(deleted := deleted)]);
      if next.reports[report].kind.OtherKind? then Ok(next) else Ok(Recomputed(next, OrdersOf(next, report)))
  }

  /** The hard delete cascades to the links and recomputes nothing. */
  function Erased(db: Db, report: int): Result<Db, Error> {
    if report !in db.reports then Err(ReportNotFound)
    else Ok(db.(reports := db.reports - {report}, links := set l | l in db.links && l.0 != report))
  }

  /** A new order starts with all flags down. */
  function OrderAdded(db: Db, order: string): Result<Db, Error> {
    if order in db.flags then Err(AlreadyReported)
    else Ok(db.(flags := db.flags[order := Flags(false, false, false, false, false, false)]))
  }

  datatype Step =
    | CreateClientReport(secondaryType: SecondaryType, ids: set<string>)
    | CreateBranchReport(direction: string, forChild: bool, ids: set<string>)
    | Deactivate(report: int)
    | Reactivate(report: int)
    | Erase(report: int)
    | AddOrder(order: string)

  /** A request that fails leaves the tables as they were. */
  function Next(db: Db, s: Step): Db {
    var r := match s
      case CreateClientReport(t, ids) => ClientReportCreated(db, t, ids)
      case CreateBranchReport(d, c, ids) => BranchReportCreated(db, d, c, ids)
      case Deactivate(id) => DeletedSet(db, id, true)
      case Reactivate(id) => DeletedSet(db, id, false)
      case Erase(id) => Erased(db, id)
      case AddOrder(o) => OrderAdded(db, o);
    if r.Ok? then r.value else db
  }

  /** The kinds some flag stands for. */
  predicate Flagged(k: ReportKind) {
    k.ClientKind? || (k.BranchKind? && (k.direction == "received" || k.direction == "forwarded"))
  }

  // ---------------------------------------------------------------- the flags stay exact

  lemma LinkKnown(db: Db, report: int, order: string)
    requires WellFormed(db) && (report, order) in db.links
    ensures report in db.reports && report < db.nextId && order in db.flags
  {
    var l := (report, order);
    assert l.0 in db.reports && l.1 in db.flags;
  }

  lemma FlagsAgree(a: Db, b: Db, order: string)
    requires forall r, k | Flagged(k) :: Supports(a, r, order, k) == Supports(b, r, order, k)
    ensures FlagsOf(a, order) == FlagsOf(b, order)
    ensures forall k | Flagged(k) :: Has(a, order, k) == Has(b, order, k)
  {
    forall k | Flagged(k) ensures Has(a, order, k) == Has(b, order, k) {
      if r :| r in a.reports && Supports(a, r, order, k) {
        assert Supports(b, r, order, k);
      }
      if r :| r in b.reports && Supports(b, r, order, k) {
        assert Supports(a, r, order, k);
      }
    }
  }

  /** A change of reports and links, followed by recomputing every order it touched, keeps the flags exact. */
  lemma RecomputeKeepsExact(before: Db, changed: Db, touched: set<string>)
    requires Exact(before) && changed.flags == before.flags
    requires forall o, r, k | o in before.flags && o !in touched && Flagged(k) ::
      Supports(changed, r, o, k) == Supports(before, r, o, k)
    ensures Exact(Recomputed(changed, touched))
  {
    var after := Recomputed(changed, touched);
    forall o | o in after.flags ensures after.flags[o] == FlagsOf(after, o) {
      FlagsAgree(changed, after, o);
      if o !in touched { FlagsAgree(before, changed, o); }
    }
  }

  lemma CreateKeepsExact(db: Db, kind: ReportKind, ids: set<string>)
    requires WellFormed(db) && Exact(db) && ids <= db.flags.Keys
    ensures var after := Recomputed(WithReport(db, kind, ids), ids);
            WellFormed(after) && Exact(after)
  {
    RecomputeKeepsExact(db, WithReport(db, kind, ids), ids);
  }

  lemma DeletedSetKeepsExact(db: Db, report: int, deleted: bool)
    requires WellFormed(db) && Exact(db) && report in db.reports
    ensures WellFormed(DeletedSet(db, report, deleted).value) && Exact(DeletedSet(db, report, deleted).value)
  {
    var changed := db.(reports := db.reports[report := db.reports[report].(deleted := deleted)]);
    var touched := OrdersOf(changed, report);
    forall o, r, k | o in db.flags && Flagged(k) && (o !in touched || db.reports[report].kind.OtherKind?)
      ensures Supports(changed, r, o, k) == Supports(db, r, o, k)
    {
      if (report, o) in db.links {
        assert (report, o).1 in touched;
      }
    }
    if db.reports[report].kind.OtherKind? {
      forall o | o in db.flags ensures db.flags[o] == FlagsOf(changed, o) {
        FlagsAgree(db, changed, o);
      }
    } else {
      RecomputeKeepsExact(db, changed, touched);
    }
  }

  lemma AddOrderKeepsExact(db: Db, order: string)
    requires WellFormed(db) && Exact(db) && order !in db.flags
    ensures WellFormed(OrderAdded(db, order).value) && Exact(OrderAdded(db, order).value)
  {
    var after := OrderAdded(db, order).value;
    forall o | o in after.flags ensures after.flags[o] == FlagsOf(after, o) {
      FlagsAgree(db, after, o);
      forall r ensures o == order ==> (r, o) !in db.links {
        if (r, o) in db.links { LinkKnown(db, r, o); }
      }
    }
  }

  /** Every order the report flags is also flagged by another live report of the same kind. */
  ghost predicate CoveredWithout(db: Db, report: int) {
    forall o, k | Flagged(k) && Supports(db, report, o, k) :: exists r :: r != report && Supports(db, r, o, k)
  }

  /** The hard delete is the one step that recomputes nothing: the flags stay exact exactly when
      every order the erased report flagged is covered by another live report of its kind. */
  lemma EraseKeepsExactIff(db: Db, report: int)
    requires WellFormed(db) && Exact(db) && report in db.reports
    ensures WellFormed(Erased(db, report).value)
    ensures Exact(Erased(db, report).value) <==> CoveredWithout(db, report)
  {
    var after := Erased(db, report).value;
    forall r, o, k ensures Supports(after, r, o, k) <==> r != report && Supports(db, r, o, k) {
    }
    if CoveredWithout(db, report) {
      forall o | o in db.flags ensures db.flags[o] == FlagsOf(after, o) {
        forall k | Flagged(k) ensures Has(after, o, k) == Has(db, o, k) {
          if r :| r in db.reports && Supports(db, r, o, k) {
            if r == report {
              var q :| q != report && Supports(db, q, o, k);
              assert Supports(after, q, o, k);
            } else {
              assert Supports(after, r, o, k);
            }
          }
          if r :| r in after.reports && Supports(after, r, o, k) {
            assert Supports(db, r, o, k);
          }
        }
      }
    } else {
      var o, k :| Flagged(k) && Supports(db, report, o, k) && !(exists r :: r != report && Supports(db, r, o, k));
      assert (report, o).1 in db.flags;
      assert Has(db, o, k);
      assert !Has(after, o, k);
      FlagOfKind(db, after, o, k);
    }
  }

  lemma FlagOfKind(a: Db, b: Db, o: string, k: ReportKind)
    requires Flagged(k) && Has(a, o, k) != Has(b, o, k)
    ensures FlagsOf(a, o) != FlagsOf(b, o)
  {
    if k.ClientKind? {
      match k.secondaryType
      case DELIVERED_REPORT =>
      case RETURNED_REPORT =>
    } else {
      assert k == BranchKind("received", k.forChild) || k == BranchKind("forwarded", k.forChild);
    }
  }

  function RunSteps(db: Db, steps: seq<Step>): Db
    decreases |steps|
  {
    if steps == [] then db else RunSteps(Next(db, steps[0]), steps[1..])
  }

  /** No step of the run hard-deletes a report whose orders are left uncovered. */
  ghost predicate CoveredRun(db: Db, steps: seq<Step>)
    decreases |steps|
  {
    steps == [] ||
      (&& (steps[0].Erase? && steps[0].report in db.reports ==> CoveredWithout(db, steps[0].report))
       && CoveredRun(Next(db, steps[0]), steps[1..]))
  }

  lemma StepKeepsExact(db: Db, s: Step)
    requires WellFormed(db) && Exact(db)
    requires s.Erase? && s.report in db.reports ==> CoveredWithout(db, s.report)
    ensures WellFormed(Next(db, s)) && Exact(Next(db, s))
  {
    if Next(db, s) != db {
      match s
      case CreateClientReport(t, ids) => CreateKeepsExact(db, ClientKind(t), ids);
      case CreateBranchReport(d, c, ids) => CreateKeepsExact(db, BranchKind(d, c), ids);
      case Deactivate(id) => DeletedSetKeepsExact(db, id, true);
      case Reactivate(id) => DeletedSetKeepsExact(db, id, false);
      case Erase(id) => EraseKeepsExactIff(db, id);
      case AddOrder(o) => AddOrderKeepsExact(db, o);
    }
  }

  /** Over every run of creations, deactivations, reactivations, new orders and covered hard deletes,
      failures included, every flag says what the joins say. */
  lemma {:induction false} RunKeepsExact(db: Db, steps: seq<Step>)
    requires WellFormed(db) && Exact(db) && CoveredRun(db, steps)
    ensures WellFormed(RunSteps(db, steps)) && Exact(RunSteps(db, steps))
    decreases |steps|
  {
    if steps != [] {
      StepKeepsExact(db, steps[0]);
      RunKeepsExact(Next(db, steps[0]), steps[1..]);
    }
  }

  // ---------------------------------------------------------------- one live client report per type

  ghost predicate OnePerType(db: Db) {
    forall o, t, q, r | Supports(db, q, o, ClientKind(t)) && Supports(db, r, o, ClientKind(t)) :: q == r
  }

  /** Reactivation does not repeat the check that creation makes: of all steps it alone can give an order two live
      client reports of one type, and does so exactly when an order of the report has moved to another. */
  lemma StepKeepsOnePerTypeIff(db: Db, s: Step)
    requires WellFormed(db) && OnePerType(db)
    ensures OnePerType(Next(db, s))
            <==> !(s.Reactivate? && s.report in db.reports && db.reports[s.report].kind.ClientKind?
                   && exists o, r :: r != s.report && (s.report, o) in db.links
                                     && Supports(db, r, o, db.reports[s.report].kind))
  {
    var after := Next(db, s);
    match s
    case CreateClientReport(t, ids) =>
      forall o, u, q, r | Supports(after, q, o, ClientKind(u)) && Supports(after, r, o, ClientKind(u)) ensures q == r {
        if after != db {
          CreateSupports(db, ClientKind(t), ids, q, o, ClientKind(u));
          CreateSupports(db, ClientKind(t), ids, r, o, ClientKind(u));
        }
      }
    case CreateBranchReport(d, c, ids) =>
      forall o, u, q | Supports(after, q, o, ClientKind(u)) ensures Supports(db, q, o, ClientKind(u)) {
        if after != db { CreateSupports(db, BranchKind(d, c), ids, q, o, ClientKind(u)); }
      }
    case Deactivate(id) =>
      forall o, u, q | Supports(after, q, o, ClientKind(u)) ensures Supports(db, q, o, ClientKind(u)) {
      }
    case Reactivate(id) => ReactivateOnePerTypeIff(db, id);
    case Erase(id) =>
      forall o, u, q | Supports(after, q, o, ClientKind(u)) ensures Supports(db, q, o, ClientKind(u)) {
      }
    case AddOrder(o) =>
      forall o, u, q | Supports(after, q, o, ClientKind(u)) ensures Supports(db, q, o, ClientKind(u)) {
      }
  }

  lemma CreateSupports(db: Db, kind: ReportKind, ids: set<string>, r: int, o: string, k: ReportKind)
    requires WellFormed(db)
    ensures Supports(Recomputed(WithReport(db, kind, ids), ids), r, o, k)
            <==> Supports(db, r, o, k) || (r == db.nextId && o in ids && k == kind)
  {
    if (db.nextId, o) in db.links { LinkKnown(db, db.nextId, o); }
  }

  lemma ReactivateOnePerTypeIff(db: Db, id: int)
    requires WellFormed(db) && OnePerType(db)
    ensures OnePerType(Next(db, Reactivate(id)))
            <==> !(id in db.reports && db.reports[id].kind.ClientKind?
                   && exists o, r :: r != id && (id, o) in db.links && Supports(db, r, o, db.reports[id].kind))
  {
    if id in db.reports {
      var after := Next(db, Reactivate(id));
      forall r, o, k ensures Supports(after, r, o, k)
          <==> if r == id then (id, o) in db.links && db.reports[id].kind == k else Supports(db, r, o, k)
      {
      }
      if o, r :| r != id && (id, o) in db.links && Supports(db, r, o, db.reports[id].kind)
                 && db.reports[id].kind.ClientKind? {
        var t := db.reports[id].kind.secondaryType;
        assert Supports(after, id, o, ClientKind(t)) && Supports(after, r, o, ClientKind(t));
      }
    }
  }

  // ---------------------------------------------------------------- rebuilding and repairing

  class FlagStore {
    var db: Db

    /** Afterwards the flags of the given orders say what the joins say; every other order, report and link is as it
        was. Returns how many rows the UPDATE touched. */
    method RecomputeReportFlags(ids: set<string>) returns (touched: nat)
      modifies this
      ensures db == old(db).(flags := db.flags) && db.flags.Keys == old(db).flags.Keys
      ensures forall o | o in db.flags :: db.flags[o] == if o in ids then FlagsOf(db, o) else old(db).flags[o]
      ensures touched == |ids * db.flags.Keys|
      ensures db == Recomputed(old(db), ids)
    {
      touched := |ids * db.flags.Keys|;
      db := Recomputed(db, ids);
      forall o | o in ids && o in db.flags ensures db.flags[o] == FlagsOf(db, o) {
        FlagsAgree(old(db), db, o);
      }
    }

    method RecomputePage(ids: seq<string>, ghost before: Db, ghost visited: seq<string>)
      requires db == Recomputed(before, ToSet(visited))
      modifies this
      ensures db == Recomputed(before, ToSet(visited + ids))
    {
      RecomputedTwice(before, ToSet(visited), ToSet(ids));
      ToSetConcat(visited, ids);
      var _ := RecomputeReportFlags(ToSet(ids));
    }

    /** One keyset pass over the order ids. */
    method BackfillLoop(lt: (string, string) -> bool, index: seq<string>) returns (visited: seq<string>, processed: nat)
      requires Pages(lt, index, BACKFILL_BATCH)
      modifies this
      ensures visited == index && processed == |index|
      ensures db == Recomputed(old(db), ToSet(index))
    {
      ghost var before := db;
      var cursor: Option<string> := None;
      visited, processed := [], 0;
      RecomputedNothing(db);
      while true
        invariant processed <= |index| && visited == index[..processed]
        invariant After(lt, index, cursor) == index[processed..]
        invariant db == Recomputed(before, ToSet(visited))
        decreases |index| - processed
      {
        var ids := Fetch(lt, index, cursor, BACKFILL_BATCH);
        NextPage(lt, index, cursor, processed, BACKFILL_BATCH);
        if |ids| == 0 { break; }
        RecomputePage(ids, before, visited);
        visited := visited + ids;
        cursor := Some(ids[|ids| - 1]);
        processed := processed + |ids|;
      }
    }

    /** The backfill visits every order id exactly once and leaves every flag exact, whatever the flags held before.
        The excluded table is the one on which it never ends (Keyset.TerminatesIff). */
    method Backfill(lt: (string, string) -> bool, index: seq<string>) returns (visited: seq<string>, processed: nat)
      requires TextOrder(lt) && Ascending(lt, index) && index != [""]
      requires forall id :: id in index <==> id in db.flags
      modifies this
      ensures visited == index && processed == |index|
      ensures forall i, j :: 0 <= i < j < |visited| ==> visited[i] != visited[j]
      ensures Exact(db)
      ensures db == old(db).(flags := db.flags) && db.flags.Keys == old(db).flags.Keys
    {
      KeysetPages(lt, index, BACKFILL_BATCH);
      visited, processed := BackfillLoop(lt, index);
      forall o | o in db.flags ensures db.flags[o] == FlagsOf(db, o) {
        FlagsAgree(old(db), db, o);
      }
      forall i, j | 0 <= i < j < |visited| ensures visited[i] != visited[j] {
        assert lt(index[i], index[j]);
      }
    }

    /** One reconcile run: finds at most 1000 mismatching orders among the recently touched ones, in no particular
        order, and repairs exactly those. */
    method ReconcileReportFlags(recent: set<string>) returns (mismatchCount: nat, fixed: nat)
      modifies this
      ensures mismatchCount == fixed
      ensures fixed == if |Mismatches(old(db), recent)| <= 1000 then |Mismatches(old(db), recent)| else 1000
      ensures Mismatches(db, recent) <= Mismatches(old(db), recent)
      ensures |Mismatches(db, recent)| == |Mismatches(old(db), recent)| - fixed
      ensures fixed < 1000 ==> forall o | o in db.flags && o in recent :: db.flags[o] == FlagsOf(db, o)
      ensures db == old(db).(flags := db.flags) && db.flags.Keys == old(db).flags.Keys
      ensures forall o | o in db.flags ::
                db.flags[o] == old(db).flags[o] || (o in recent && db.flags[o] == FlagsOf(db, o))
    {
      var all := Mismatches(db, recent);
      var n := if |all| <= 1000 then |all| else 1000;
      SubsetOfSize(all, n);
      var ids :| ids <= all && |ids| == n;
      mismatchCount := |ids|;
      if mismatchCount == 0 {
        NoMismatch(db, recent);
        return 0, 0;
      }
      assert ids * db.flags.Keys == ids;
      fixed := RecomputeReportFlags(ids);
      RepairedMismatches(old(db), recent, ids);
      if fixed < 1000 { NoMismatch(db, recent); }
    }
  }

  function ToSet(ids: seq<string>): set<string> {
    set id | id in ids
  }

  lemma ToSetConcat(a: seq<string>, b: seq<string>)
    ensures ToSet(a + b) == ToSet(a) + ToSet(b)
  {
  }

  const BACKFILL_BATCH: nat := 5000

  /** The recently touched orders on which some flag differs from its EXISTS clause. */
  function Mismatches(db: Db, recent: set<string>): set<string> {
    set o | o in db.flags && o in recent && db.flags[o] != FlagsOf(db, o)
  }

  lemma NoMismatch(db: Db, recent: set<string>)
    requires |Mismatches(db, recent)| == 0
    ensures forall o | o in db.flags && o in recent :: db.flags[o] == FlagsOf(db, o)
  {
    forall o | o in db.flags && o in recent ensures db.flags[o] == FlagsOf(db, o) {
      assert o !in Mismatches(db, recent);
    }
  }

  lemma RecomputedNothing(db: Db)
    ensures Recomputed(db, {}) == db
  {
    assert Recomputed(db, {}).flags == db.flags;
  }

  lemma RecomputedTwice(db: Db, a: set<string>, b: set<string>)
    ensures Recomputed(Recomputed(db, a), b) == Recomputed(db, a + b)
  {
    var once := Recomputed(db, a);
    forall o ensures FlagsOf(once, o) == FlagsOf(db, o) {
      FlagsAgree(once, db, o);
    }
    assert Recomputed(once, b).flags == Recomputed(db, a + b).flags;
  }

  lemma {:induction false} SubsetOfSize(s: set<string>, n: nat)
    requires n <= |s|
    ensures exists t :: t <= s && |t| == n
  {
    if n == |s| {
      assert s <= s;
    } else {
      var x :| x in s;
      SubsetOfSize(s - {x}, n);
      var t :| t <= s - {x} && |t| == n;
      assert t <= s;
    }
  }

  lemma RepairedMismatches(db: Db, recent: set<string>, ids: set<string>)
    requires ids <= Mismatches(db, recent)
    ensures Mismatches(Recomputed(db, ids), recent) == Mismatches(db, recent) - ids
    ensures |Mismatches(Recomputed(db, ids), recent)| == |Mismatches(db, recent)| - |ids|
    ensures forall o :: FlagsOf(Recomputed(db, ids), o) == FlagsOf(db, o)
  {
    var after := Recomputed(db, ids);
    forall o ensures FlagsOf(after, o) == FlagsOf(db, o) {
      FlagsAgree(after, db, o);
    }
    assert Mismatches(after, recent) == Mismatches(db, recent) - ids;
  }

  // ---------------------------------------------------------------- the filters

  datatype FlagField =
    | hasMainReceivedReport | hasMainForwardedReport | hasChildReceivedReport | hasChildForwardedReport
    | hasDeliveredClientReport | hasReturnedClientReport

  datatype FlagTest = FlagTest(field: FlagField, value: bool)

  /** The two shapes of condition the filters return. */
  datatype Where = All(tests: seq<FlagTest>) | Any(tests: seq<FlagTest>)

  function Read(f: Flags, field: FlagField): bool {
    match field
    case hasMainReceivedReport => f.mainReceived
    case hasMainForwardedReport => f.mainForwarded
    case hasChildReceivedReport => f.childReceived
    case hasChildForwardedReport => f.childForwarded
    case hasDeliveredClientReport => f.deliveredClient
    case hasReturnedClientReport => f.returnedClient
  }

  predicate Selects(w: Where, f: Flags) {
    match w
    case All(ts) => forall t | t in ts :: Read(f, t.field) == t.value
    case Any(ts) => exists t | t in ts :: Read(f, t.field) == t.value
  }

  function ClientReportFilter(secondaryType: Option<SecondaryType>, hasReport: bool): Where {
    match secondaryType
    case Some(DELIVERED_REPORT) => All([FlagTest(hasDeliveredClientReport, hasReport)])
    case Some(RETURNED_REPORT) => All([FlagTest(hasReturnedClientReport, hasReport)])
    case None =>
      if hasReport then Any([FlagTest(hasDeliveredClientReport, true), FlagTest(hasReturnedClientReport, true)])
      else All([FlagTest(hasDeliveredClientReport, false), FlagTest(hasReturnedClientReport, false)])
  }

  function FlagFieldFor(orderType: Option<string>, forChilds: Option<bool>): FlagField {
    var isReceived := orderType == Some("received");
    if forChilds == Some(true) then
      if isReceived then hasChildReceivedReport else hasChildForwardedReport
    else if isReceived then hasMainReceivedReport else hasMainForwardedReport
  }

  function GetBranchReportFilter(value: Option<string>): Where {
    if value == Some("1") || value == Some("true") then
      Any([FlagTest(hasMainReceivedReport, true), FlagTest(hasMainForwardedReport, true),
           FlagTest(hasChildReceivedReport, true), FlagTest(hasChildForwardedReport, true)])
    else if value == Some("0") || value == Some("false") then
      All([FlagTest(hasMainReceivedReport, false), FlagTest(hasMainForwardedReport, false),
           FlagTest(hasChildReceivedReport, false), FlagTest(hasChildForwardedReport, false)])
    else if value == Some("received") then
      Any([FlagTest(hasMainReceivedReport, true), FlagTest(hasChildReceivedReport, true)])
    else if value == Some("without_received") then
      All([FlagTest(hasMainReceivedReport, false), FlagTest(hasChildReceivedReport, false)])
    else if value == Some("forwarded") then
      Any([FlagTest(hasMainForwardedReport, true), FlagTest(hasChildForwardedReport, true)])
    else if value == Some("without_forwarded") then
      All([FlagTest(hasMainForwardedReport, false), FlagTest(hasChildForwardedReport, false)])
    else All([])
  }

  /** The order is in a live client report of the given type, or of any type. */
  ghost predicate InClientReport(db: Db, o: string, secondaryType: Option<SecondaryType>) {
    exists r, t :: Supports(db, r, o, ClientKind(t)) && (secondaryType.Some? ==> t == secondaryType.value)
  }

  /** The order is in a live branch report of one of these directions. */
  ghost predicate InBranchReport(db: Db, o: string, directions: set<string>) {
    exists r, d, c :: Supports(db, r, o, BranchKind(d, c)) && d in directions
  }

  lemma ClientFilterMeansRelation(db: Db, o: string, secondaryType: Option<SecondaryType>, hasReport: bool)
    requires Exact(db) && o in db.flags
    ensures Selects(ClientReportFilter(secondaryType, hasReport), db.flags[o])
            <==> (InClientReport(db, o, secondaryType) <==> hasReport)
  {
    var w := ClientReportFilter(secondaryType, hasReport);
    SelectsTests(w, db.flags[o]);
    InClientReportIffHas(db, o, secondaryType);
  }

  lemma InClientReportIffHas(db: Db, o: string, secondaryType: Option<SecondaryType>)
    ensures InClientReport(db, o, secondaryType)
            <==> (secondaryType != Some(RETURNED_REPORT) && Has(db, o, ClientKind(DELIVERED_REPORT)))
                 || (secondaryType != Some(DELIVERED_REPORT) && Has(db, o, ClientKind(RETURNED_REPORT)))
  {
    if r, t :| Supports(db, r, o, ClientKind(t)) && (secondaryType.Some? ==> t == secondaryType.value) {
      match t
      case DELIVERED_REPORT =>
      case RETURNED_REPORT =>
    }
    if Has(db, o, ClientKind(DELIVERED_REPORT)) && secondaryType != Some(RETURNED_REPORT) {
      var r :| r in db.reports && Supports(db, r, o, ClientKind(DELIVERED_REPORT));
    }
    if Has(db, o, ClientKind(RETURNED_REPORT)) && secondaryType != Some(DELIVERED_REPORT) {
      var r :| r in db.reports && Supports(db, r, o, ClientKind(RETURNED_REPORT));
    }
  }

  /** Selects, for the at most four tests a filter has. */
  lemma SelectsTests(w: Where, f: Flags)
    requires |w.tests| <= 4
    ensures w.All? ==> (Selects(w, f) <==>
              && (|w.tests| > 0 ==> Read(f, w.tests[0].field) == w.tests[0].value)
              && (|w.tests| > 1 ==> Read(f, w.tests[1].field) == w.tests[1].value)
              && (|w.tests| > 2 ==> Read(f, w.tests[2].field) == w.tests[2].value)
              && (|w.tests| > 3 ==> Read(f, w.tests[3].field) == w.tests[3].value))
    ensures w.Any? ==> (Selects(w, f) <==>
              || (|w.tests| > 0 && Read(f, w.tests[0].field) == w.tests[0].value)
              || (|w.tests| > 1 && Read(f, w.tests[1].field) == w.tests[1].value)
              || (|w.tests| > 2 && Read(f, w.tests[2].field) == w.tests[2].value)
              || (|w.tests| > 3 && Read(f, w.tests[3].field) == w.tests[3].value))
  {
  }

  /** What each accepted value of the branch-report filter asks of the joins. */
  ghost predicate BranchRelation(db: Db, o: string, value: Option<string>) {
    if value == Some("1") || value == Some("true") then InBranchReport(db, o, {"received", "forwarded"})
    else if value == Some("0") || value == Some("false") then !InBranchReport(db, o, {"received", "forwarded"})
    else if value == Some("received") then InBranchReport(db, o, {"received"})
    else if value == Some("without_received") then !InBranchReport(db, o, {"received"})
    else if value == Some("forwarded") then InBranchReport(db, o, {"forwarded"})
    else if value == Some("without_forwarded") then !InBranchReport(db, o, {"forwarded"})
    else true
  }

  ghost predicate HasDirection(db: Db, o: string, direction: string) {
    Has(db, o, BranchKind(direction, false)) || Has(db, o, BranchKind(direction, true))
  }

  lemma InBranchReportIffHas(db: Db, o: string, directions: set<string>)
    ensures InBranchReport(db, o, directions) <==> exists d :: d in directions && HasDirection(db, o, d)
  {
    if r, d, c :| Supports(db, r, o, BranchKind(d, c)) && d in directions {
      assert Has(db, o, BranchKind(d, c));
      assert HasDirection(db, o, d);
    }
    if d :| d in directions && HasDirection(db, o, d) {
      if Has(db, o, BranchKind(d, false)) {
        var r :| r in db.reports && Supports(db, r, o, BranchKind(d, false));
      } else {
        var r :| r in db.reports && Supports(db, r, o, BranchKind(d, true));
      }
    }
  }

  lemma InBranchReportFlags(db: Db, o: string)
    requires Exact(db) && o in db.flags
    ensures var f := db.flags[o];
            && (InBranchReport(db, o, {"received"}) <==> f.mainReceived || f.childReceived)
            && (InBranchReport(db, o, {"forwarded"}) <==> f.mainForwarded || f.childForwarded)
            && (InBranchReport(db, o, {"received", "forwarded"})
                <==> f.mainReceived || f.childReceived || f.mainForwarded || f.childForwarded)
  {
    InBranchReportIffHas(db, o, {"received"});
    InBranchReportIffHas(db, o, {"forwarded"});
    InBranchReportIffHas(db, o, {"received", "forwarded"});
    assert "received" in {"received", "forwarded"} && "forwarded" in {"received", "forwarded"};
  }

  /** The filter's conditions on the flags alone. */
  lemma BranchFilterReads(value: Option<string>, f: Flags)
    ensures var received, forwarded := f.mainReceived || f.childReceived, f.mainForwarded || f.childForwarded;
            Selects(GetBranchReportFilter(value), f)
            <==> if value == Some("1") || value == Some("true") then received || forwarded
                 else if value == Some("0") || value == Some("false") then !received && !forwarded
                 else if value == Some("received") then received
                 else if value == Some("without_received") then !received
                 else if value == Some("forwarded") then forwarded
                 else if value == Some("without_forwarded") then !forwarded
                 else true
  {
    SelectsTests(GetBranchReportFilter(value), f);
  }

  lemma BranchFilterMeansRelation(db: Db, o: string, value: Option<string>)
    requires Exact(db) && o in db.flags
    ensures Selects(GetBranchReportFilter(value), db.flags[o]) <==> BranchRelation(db, o, value)
  {
    BranchFilterReads(value, db.flags[o]);
    InBranchReportFlags(db, o);
  }

  lemma FlagFieldMeansRelation(db: Db, o: string, orderType: Option<string>, forChilds: Option<bool>)
    requires Exact(db) && o in db.flags
    ensures var direction := if orderType == Some("received") then "received" else "forwarded";
            var kind := BranchKind(direction, forChilds == Some(true));
            Read(db.flags[o], FlagFieldFor(orderType, forChilds)) <==> exists r :: Supports(db, r, o, kind)
  {
    var kind := BranchKind(if orderType == Some("received") then "received" else "forwarded", forChilds == Some(true));
    if Has(db, o, kind) {
      var r :| r in db.reports && Supports(db, r, o, kind);
    }
  }

  // ---------------------------------------------------------------- in the columns of the tables

  /** A report of this kind that is not deleted is linked to the order. */
  ghost predicate LiveReport(db: Db, o: string, kind: ReportKind) {
    exists r :: r in db.reports && (r, o) in db.links && !db.reports[r].deleted && db.reports[r].kind == kind
  }

  lemma HasColumns(db: Db, o: string, kind: ReportKind)
    ensures Has(db, o, kind) <==> LiveReport(db, o, kind)
  {
    if r :| r in db.reports && (r, o) in db.links && !db.reports[r].deleted && db.reports[r].kind == kind {
      assert Supports(db, r, o, kind);
    }
  }

  /** Which flag stands for which kind of report. */
  lemma FlagColumns(db: Db, o: string)
    ensures var f := FlagsOf(db, o);
            && (f.mainReceived <==> LiveReport(db, o, BranchKind("received", false)))
            && (f.mainForwarded <==> LiveReport(db, o, BranchKind("forwarded", false)))
            && (f.childReceived <==> LiveReport(db, o, BranchKind("received", true)))
            && (f.childForwarded <==> LiveReport(db, o, BranchKind("forwarded", true)))
            && (f.deliveredClient <==> LiveReport(db, o, ClientKind(DELIVERED_REPORT)))
            && (f.returnedClient <==> LiveReport(db, o, ClientKind(RETURNED_REPORT)))
  {
    HasColumns(db, o, BranchKind("received", false));
    HasColumns(db, o, BranchKind("forwarded", false));
    HasColumns(db, o, BranchKind("received", true));
    HasColumns(db, o, BranchKind("forwarded", true));
    HasColumns(db, o, ClientKind(DELIVERED_REPORT));
    HasColumns(db, o, ClientKind(RETURNED_REPORT));
  }

  /** A mismatch is a recently touched order one of whose six flags disagrees with the live linked reports. */
  lemma MismatchColumns(db: Db, recent: set<string>, o: string)
    ensures o in Mismatches(db, recent)
            <==> && o in db.flags && o in recent
                 && var f := db.flags[o];
                    || f.mainReceived != LiveReport(db, o, BranchKind("received", false))
                    || f.mainForwarded != LiveReport(db, o, BranchKind("forwarded", false))
                    || f.childReceived != LiveReport(db, o, BranchKind("received", true))
                    || f.childForwarded != LiveReport(db, o, BranchKind("forwarded", true))
                    || f.deliveredClient != LiveReport(db, o, ClientKind(DELIVERED_REPORT))
                    || f.returnedClient != LiveReport(db, o, ClientKind(RETURNED_REPORT))
  {
    FlagColumns(db, o);
  }

  /** A new live report of the kind under the next id, linked to exactly the given orders; no other report or link,
      and no other order's flags, are touched. */
  ghost predicate ReportAdded(db: Db, kind: ReportKind, ids: set<string>, after: Db) {
    && after.reports == db.reports[db.nextId := Report(kind, false)] && after.nextId == db.nextId + 1
    && (forall r, o :: (r, o) in after.links <==> (r, o) in db.links || (r == db.nextId && o in ids))
    && after.flags.Keys == db.flags.Keys
    && forall o | o in db.flags :: after.flags[o] == if o in ids then FlagsOf(after, o) else db.flags[o]
  }

  lemma AddedColumns(db: Db, kind: ReportKind, ids: set<string>)
    ensures ReportAdded(db, kind, ids, Recomputed(WithReport(db, kind, ids), ids))
  {
    var after := Recomputed(WithReport(db, kind, ids), ids);
    forall o ensures FlagsOf(WithReport(db, kind, ids), o) == FlagsOf(after, o) {
      FlagsAgree(WithReport(db, kind, ids), after, o);
    }
    forall r, o ensures (r, o) in after.links <==> (r, o) in db.links || (r == db.nextId && o in ids) {
      if r == db.nextId && o in ids { assert (db.nextId, o) in Linked(db.nextId, ids); }
    }
  }

  /** A client report is refused without orders, for an unknown order, and for one that a live client report of the same
      type already has; a branch report only for an unknown order. */
  lemma CreationColumns(db: Db, t: SecondaryType, direction: string, forChild: bool, ids: set<string>)
    ensures var refused := ids == {} || (exists o :: o in ids && o !in db.flags)
                           || exists o :: o in ids && LiveReport(db, o, ClientKind(t));
            var after := Next(db, CreateClientReport(t, ids));
            if refused then after == db else ReportAdded(db, ClientKind(t), ids, after)
    ensures var after := Next(db, CreateBranchReport(direction, forChild, ids));
            if exists o :: o in ids && o !in db.flags then after == db
            else ReportAdded(db, BranchKind(direction, forChild), ids, after)
  {
    AddedColumns(db, ClientKind(t), ids);
    AddedColumns(db, BranchKind(direction, forChild), ids);
    forall o ensures Has(db, o, ClientKind(t)) <==> LiveReport(db, o, ClientKind(t)) {
      HasColumns(db, o, ClientKind(t));
    }
    assert ids <= db.flags.Keys <==> !exists o :: o in ids && o !in db.flags;
  }

  /** Setting `deleted` changes that column of the one report, and recomputes the flags of exactly its orders unless the
      report is of a kind without flags. */
  lemma DeletedColumns(db: Db, report: int, deleted: bool)
    ensures var after := Next(db, if deleted then Deactivate(report) else Reactivate(report));
            if report !in db.reports then after == db
            else
              && after.reports == db.reports[report := Report(db.reports[report].kind, deleted)]
              && after.links == db.links && after.nextId == db.nextId && after.flags.Keys == db.flags.Keys
              && forall o | o in db.flags ::
                   after.flags[o] == if (report, o) in db.links && db.reports[report].kind != OtherKind
                                     then FlagsOf(after, o) else db.flags[o]
  {
    if report in db.reports {
      var next := db.(reports := db.reports[report := db.reports[report].(deleted := deleted)]);
      var after := Next(db, if deleted then Deactivate(report) else Reactivate(report));
      forall o ensures FlagsOf(next, o) == FlagsOf(after, o) {
        FlagsAgree(next, after, o);
      }
      forall o ensures o in OrdersOf(next, report) <==> (report, o) in db.links {
        if (report, o) in db.links { assert (report, o).1 in OrdersOf(next, report); }
      }
    }
  }

  /** A hard delete takes the report and its links and no flag; a new order starts with every flag down. */
  lemma EraseAndAddColumns(db: Db, report: int, order: string)
    ensures var after := Next(db, Erase(report));
            if report !in db.reports then after == db
            else
              && after.reports == db.reports - {report} && after.flags == db.flags && after.nextId == db.nextId
              && forall r, o :: (r, o) in after.links <==> (r, o) in db.links && r != report
    ensures Next(db, AddOrder(order))
         == if order in db.flags then db
            else db.(flags := db.flags[order := Flags(false, false, false, false, false, false)])
  {
  }
}
