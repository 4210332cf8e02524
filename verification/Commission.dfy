/** Employee commission reports (src/app/employeeCommissions/employeeCommission.repository.ts): a total computed by
    one query, the orders fetched by another, and a batched link. Accounts track what each link was worth. */
module Commission {
  import opened Schema
  import opened Sums

  datatype Assignment = Assignment(clientId: int, employeeId: int, active: bool, baghdadOrderCost: Money,
                                   govOrderCost: Money)

  datatype Report = Report(deleted: bool, deliveryAgentNet: Money, baghdadOrdersCount: nat,
                           governoratesOrdersCount: nat)

  /** reports holds the employee reports; a client is assigned at most once. */
  datatype Db = Db(orders: seq<Order>, assignments: seq<Assignment>, reports: map<int, Report>, nextReport: int)

  datatype Window = Window(startDate: Option<int>, endDate: Option<int>)

  datatype Error = AssignedElsewhere | NotFound

  // ---------------------------------------------------------------- the two queries

  predicate InLiveReport(db: Db, o: Order) {
    o.employeeReportId.Some? && o.employeeReportId.value in db.reports && !db.reports[o.employeeReportId.value].deleted
  }

  predicate InWindow(w: Window, at: Option<int>) {
    && (w.startDate.Some? ==> at.Some? && at.value >= w.startDate.value)
    && (w.endDate.Some? ==> at.Some? && at.value <= w.endDate.value)
  }

  predicate Eligible(db: Db, w: Window, o: Order) {
    !o.deleted && Completed(o.status) && o.flags.deliveredClient && !InLiveReport(db, o) && InWindow(w, o.receivedAt)
  }

  function EligibleOf(db: Db, w: Window, a: Assignment): seq<Order> {
    Select(db.orders, (o: Order) => o.clientId == a.clientId && Eligible(db, w, o))
  }

  function ActiveAssignments(db: Db, employee: int): seq<Assignment> {
    Select(db.assignments, (a: Assignment) => a.employeeId == employee && a.active)
  }

  predicate IsBaghdad(o: Order) { o.governorate == BAGHDAD }

  function Times(count: nat, rate: Money): Money { count as real * rate }

  datatype Detail = Detail(clientId: int, baghdadCount: nat, govCount: nat, baghdadTotal: Money, govTotal: Money)

  function DetailOf(db: Db, w: Window, a: Assignment): Detail {
    var es := EligibleOf(db, w, a);
    var b, g := |Select(es, IsBaghdad)|, |Select(es, (o: Order) => !IsBaghdad(o))|;
    Detail(a.clientId, b, g, Times(b, a.baghdadOrderCost), Times(g, a.govOrderCost))
  }

  function Details(db: Db, w: Window, rows: seq<Assignment>): seq<Detail> {
    if rows == [] then []
    else
      var d := DetailOf(db, w, rows[0]);
      (if d.baghdadCount + d.govCount > 0 then [d] else []) + Details(db, w, rows[1..])
  }

  datatype Calculation = Calculation(details: seq<Detail>, totalBaghdadOrders: nat, totalGovOrders: nat,
                                     totalCommission: Money)

  function CountTotal(ds: seq<Detail>, baghdad: bool): nat {
    if ds == [] then 0 else (if baghdad then ds[0].baghdadCount else ds[0].govCount) + CountTotal(ds[1..], baghdad)
  }

  /** `calculateEmployeeCommission`: grouped counts times rates, clients without orders dropped. */
  function Calculate(db: Db, employee: int, w: Window): Calculation {
    var ds := Details(db, w, ActiveAssignments(db, employee));
    Calculation(ds, CountTotal(ds, true), CountTotal(ds, false), Sum(ds, (d: Detail) => d.baghdadTotal + d.govTotal))
  }

  function IdsOf(os: seq<Order>): seq<string> {
    if os == [] then [] else [os[0].id] + IdsOf(os[1..])
  }

  function JoinedIds(db: Db, w: Window, rows: seq<Assignment>): seq<string> {
    if rows == [] then [] else IdsOf(EligibleOf(db, w, rows[0])) + JoinedIds(db, w, rows[1..])
  }

  /** `getEmployeeOrderIDs`: the same joins and conditions, ungrouped. */
  function EmployeeOrderIDs(db: Db, employee: int, w: Window): seq<string> {
    JoinedIds(db, w, ActiveAssignments(db, employee))
  }

  // ---------------------------------------------------------------- the report

  /** One UPDATE over the order table. */
  function MapOrders(os: seq<Order>, m: Order -> Order): seq<Order> {
    if os == [] then [] else [m(os[0])] + MapOrders(os[1..], m)
  }

  function Link(ids: seq<string>, report: int): Order -> Order {
    (o: Order) => if o.id in ids then o.(employeeReportId := Some(report)) else o
  }

  function LinkedOrders(os: seq<Order>, ids: seq<string>, report: int): seq<Order> {
    MapOrders(os, Link(ids, report))
  }

  /** What the two queries of createReport return. */
  datatype Plan = Plan(data: Calculation, ids: seq<string>)

  function Planned(db: Db, employee: int, w: Window): Plan {
    Plan(Calculate(db, employee, w), EmployeeOrderIDs(db, employee, w))
  }

  function NewReport(data: Calculation): Report {
    Report(false, data.totalCommission, data.totalBaghdadOrders, data.totalGovOrders)
  }

  /** The transaction of createReport. */
  function Committed(db: Db, p: Plan): Db {
    db.(reports := db.reports[db.nextReport := NewReport(p.data)],
        nextReport := db.nextReport + 1,
        orders := LinkedOrders(db.orders, p.ids, db.nextReport))
  }

  const CONNECT_BATCH_SIZE: nat := 1000

  lemma {:induction false} LinkNone(os: seq<Order>, report: int)
    ensures LinkedOrders(os, [], report) == os
  {
    if os != [] { LinkNone(os[1..], report); }
  }

  lemma {:induction false} LinkInBatches(os: seq<Order>, a: seq<string>, b: seq<string>, report: int)
    ensures LinkedOrders(LinkedOrders(os, a, report), b, report) == LinkedOrders(os, a + b, report)
  {
    if os != [] { LinkInBatches(os[1..], a, b, report); }
  }

  class CommissionRepository {
    var db: Db

    /** A client assigned to another employee is refused; otherwise its one row is created or overwritten. */
    method UpsertEmployeeClient(a: Assignment) returns (r: Result<(), Error>)
      modifies this
      ensures match Upserted(old(db), a)
              case Err(e) => r == Err(e) && db == old(db)
              case Ok(next) => r == Ok(()) && db == next
    {
      var i := 0;
      while i < |db.assignments|
        invariant i <= |db.assignments|
        invariant FindClient(db.assignments, a.clientId) ==
                  if FindClient(db.assignments[i..], a.clientId).None? then None
                  else Some(i + FindClient(db.assignments[i..], a.clientId).value)
      {
        if db.assignments[i].clientId == a.clientId {
          if db.assignments[i].employeeId != a.employeeId {
            return Err(AssignedElsewhere);
          }
          db := db.(assignments := db.assignments[i := a]);
          return Ok(());
        }
        assert db.assignments[i..][1..] == db.assignments[i + 1..];
        i := i + 1;
      }
      db := db.(assignments := db.assignments + [a]);
      return Ok(());
    }

    /** Each batch is a statement of its own; the outcome is one link of all the orders. */
    method ConnectOrders(orderIDs: seq<string>, id: int)
      modifies this
      ensures db == old(db).(orders := LinkedOrders(old(db).orders, orderIDs, id))
    {
      ghost var before := db;
      LinkNone(before.orders, id);
      var offset: nat := 0;
      ghost var done: nat := 0;
      while offset < |orderIDs|
        invariant done <= |orderIDs| && (done == offset || (done == |orderIDs| && offset >= |orderIDs|))
        invariant db == before.(orders := LinkedOrders(before.orders, orderIDs[..done], id))
        decreases |orderIDs| - offset
      {
        var end := if offset + CONNECT_BATCH_SIZE <= |orderIDs| then offset + CONNECT_BATCH_SIZE else |orderIDs|;
        var batch := orderIDs[offset..end];
        LinkInBatches(before.orders, orderIDs[..offset], batch, id);
        assert orderIDs[..offset] + batch == orderIDs[..end];
        db := db.(orders := LinkedOrders(db.orders, batch, id));
        done := end;
        offset := offset + CONNECT_BATCH_SIZE;
      }
      assert orderIDs[..|orderIDs|] == orderIDs;
    }

    method CreateReport(employee: int, w: Window) returns (id: int, data: Calculation)
      modifies this
      ensures id == old(db).nextReport && data == Calculate(old(db), employee, w)
      ensures db == Committed(old(db), Planned(old(db), employee, w))
      ensures db.reports == old(db).reports[id := Report(false, data.totalCommission, data.totalBaghdadOrders,
                                                         data.totalGovOrders)]
      ensures old(DistinctIds(db.orders) && DistinctClients(db.assignments)) ==>
                CalculationColumns(old(db), employee, w, data) && LinkColumns(old(db), employee, w, id, db)
    {
      if old(DistinctIds(db.orders) && DistinctClients(db.assignments)) {
        CalculatedColumns(db, employee, w);
        LinkedColumns(db, employee, w);
      }
      data := Calculate(db, employee, w);
      var orderIDs := EmployeeOrderIDs(db, employee, w);
      id := db.nextReport;
      db := db.(reports := db.reports[id := NewReport(data)], nextReport := id + 1);
      ConnectOrders(orderIDs, id);
    }
  }

  function FindClient(rows: seq<Assignment>, client: int): Option<nat> {
    if rows == [] then None
    else if rows[0].clientId == client then Some(0)
    else match FindClient(rows[1..], client)
      case None => None
      case Some(i) => Some(i + 1)
  }

  lemma {:induction false} FindClientSound(rows: seq<Assignment>, client: int)
    ensures match FindClient(rows, client)
            case None => forall r | r in rows :: r.clientId != client
            case Some(i) => i < |rows| && rows[i].clientId == client
  {
    if rows != [] { FindClientSound(rows[1..], client); }
  }

  function Upserted(db: Db, a: Assignment): (r: Result<Db, Error>) {
    FindClientSound(db.assignments, a.clientId);
    match FindClient(db.assignments, a.clientId)
    case None => Ok(db.(assignments := db.assignments + [a]))
    case Some(i) =>
      if db.assignments[i].employeeId != a.employeeId then Err(AssignedElsewhere)
      else Ok(db.(assignments := db.assignments[i := a]))
  }

  // ---------------------------------------------------------------- the two queries agree

  ghost predicate DistinctClients(rows: seq<Assignment>) {
    forall i, j :: 0 <= i < j < |rows| ==> rows[i].clientId != rows[j].clientId
  }

  function Rate(a: Assignment, o: Order): Money {
    if IsBaghdad(o) then a.baghdadOrderCost else a.govOrderCost
  }

  ghost function RateOf(a: Assignment): Order -> Money {
    (o: Order) => Rate(a, o)
  }

  /** What an order is worth to an employee's next report. */
  ghost function Worth(db: Db, employee: int, w: Window): Order -> Money {
    (o: Order) => Sum(ActiveAssignments(db, employee), WorthOf(db, w, o))
  }

  ghost function WorthUnder(db: Db, w: Window, a: Assignment, o: Order): Money {
    if o.clientId == a.clientId && Eligible(db, w, o) then Rate(a, o) else 0.0
  }

  ghost function WorthOf(db: Db, w: Window, o: Order): Assignment -> Money {
    (a: Assignment) => WorthUnder(db, w, a, o)
  }

  lemma {:induction false} CountsTimesRates(es: seq<Order>, a: Assignment)
    ensures Times(|Select(es, IsBaghdad)|, a.baghdadOrderCost)
            + Times(|Select(es, (o: Order) => !IsBaghdad(o))|, a.govOrderCost)
            == Sum(es, RateOf(a))
    ensures |Select(es, IsBaghdad)| + |Select(es, (o: Order) => !IsBaghdad(o))| == |es|
  {
    if es != [] {
      CountsTimesRates(es[1..], a);
      TimesNext(|Select(es[1..], IsBaghdad)|, a.baghdadOrderCost);
      TimesNext(|Select(es[1..], (o: Order) => !IsBaghdad(o))|, a.govOrderCost);
    }
  }

  lemma TimesNext(n: nat, rate: Money)
    ensures Times(n + 1, rate) == Times(n, rate) + rate
  {
  }

  ghost function ClientTotal(db: Db, w: Window): Assignment -> Money {
    (a: Assignment) => Sum(EligibleOf(db, w, a), RateOf(a))
  }

  lemma {:induction false} DetailsTotal(db: Db, w: Window, rows: seq<Assignment>)
    ensures Sum(Details(db, w, rows), (d: Detail) => d.baghdadTotal + d.govTotal) == Sum(rows, ClientTotal(db, w))
    ensures CountTotal(Details(db, w, rows), true) + CountTotal(Details(db, w, rows), false) == |JoinedIds(db, w, rows)|
  {
    if rows != [] {
      var es := EligibleOf(db, w, rows[0]);
      var total := (d: Detail) => d.baghdadTotal + d.govTotal;
      var d, rest := DetailOf(db, w, rows[0]), Details(db, w, rows[1..]);
      DetailsTotal(db, w, rows[1..]);
      CountsTimesRates(es, rows[0]);
      IdsLength(es);
      if d.baghdadCount + d.govCount > 0 {
        assert Details(db, w, rows) == [d] + rest;
      } else {
        assert es == [];
        assert Details(db, w, rows) == rest;
      }
    }
  }

  lemma {:induction false} IdsLength(os: seq<Order>)
    ensures |IdsOf(os)| == |os|
  {
    if os != [] { IdsLength(os[1..]); }
  }

  /** The grouped total is the sum, over all orders, of what each is worth; the saved counts count the fetched ids. */
  lemma TotalIsSumOfWorth(db: Db, employee: int, w: Window)
    ensures Calculate(db, employee, w).totalCommission == Sum(db.orders, Worth(db, employee, w))
    ensures Calculate(db, employee, w).totalBaghdadOrders + Calculate(db, employee, w).totalGovOrders
            == |EmployeeOrderIDs(db, employee, w)|
  {
    var rows := ActiveAssignments(db, employee);
    DetailsTotal(db, w, rows);
    var f := (a: Assignment, o: Order) => WorthUnder(db, w, a, o);
    forall a | a in rows ensures ClientTotal(db, w)(a) == ColumnTotals(db.orders, f)(a) {
      SumSelected(db.orders, (o: Order) => o.clientId == a.clientId && Eligible(db, w, o), RateOf(a), Column(a, f));
    }
    SumCongruent(rows, ClientTotal(db, w), ColumnTotals(db.orders, f));
    SumSwap(rows, db.orders, f);
    forall o | o in db.orders ensures RowTotals(rows, f)(o) == Worth(db, employee, w)(o) {
      SumCongruent(rows, Row(o, f), WorthOf(db, w, o));
    }
    SumCongruent(db.orders, RowTotals(rows, f), Worth(db, employee, w));
  }

  // ---------------------------------------------------------------- which orders a report takes

  /** The assignment gives the employee the order's client. */
  predicate Holds(a: Assignment, employee: int, o: Order) {
    a.employeeId == employee && a.active && a.clientId == o.clientId
  }

  /** The employee holds the order's client and the order is eligible. */
  ghost predicate Takes(db: Db, employee: int, w: Window, o: Order) {
    Eligible(db, w, o) && exists a :: a in db.assignments && Holds(a, employee, o)
  }

  lemma {:induction false} InIdsOf(os: seq<Order>, id: string)
    ensures id in IdsOf(os) <==> exists o :: o in os && o.id == id
  {
    if os != [] {
      InIdsOf(os[1..], id);
      assert forall o :: o in os <==> o == os[0] || o in os[1..];
    }
  }

  lemma {:induction false} InJoinedIds(db: Db, w: Window, rows: seq<Assignment>, id: string)
    ensures id in JoinedIds(db, w, rows) <==> exists a, o :: a in rows && o in EligibleOf(db, w, a) && o.id == id
  {
    if rows != [] {
      InJoinedIds(db, w, rows[1..], id);
      InIdsOf(EligibleOf(db, w, rows[0]), id);
      assert forall a :: a in rows <==> a == rows[0] || a in rows[1..];
    }
  }

  lemma UniqueOrder(os: seq<Order>, o: Order, p: Order)
    requires DistinctIds(os) && o in os && p in os && o.id == p.id
    ensures o == p
  {
    var i :| 0 <= i < |os| && os[i] == o;
    var j :| 0 <= j < |os| && os[j] == p;
    assert i == j;
  }

  /** The fetched ids are those of exactly the orders the report is entitled to. */
  lemma FetchedIffTaken(db: Db, employee: int, w: Window, o: Order)
    requires DistinctIds(db.orders) && o in db.orders
    ensures o.id in EmployeeOrderIDs(db, employee, w) <==> Takes(db, employee, w, o)
  {
    var rows := ActiveAssignments(db, employee);
    InJoinedIds(db, w, rows, o.id);
    if a, p :| a in rows && p in EligibleOf(db, w, a) && p.id == o.id {
      SelectMembers(db.assignments, (b: Assignment) => b.employeeId == employee && b.active, a);
      SelectMembers(db.orders, (q: Order) => q.clientId == a.clientId && Eligible(db, w, q), p);
      UniqueOrder(db.orders, o, p);
    }
    if Takes(db, employee, w, o) {
      var a :| a in db.assignments && a.employeeId == employee && a.active && a.clientId == o.clientId;
      SelectMembers(db.assignments, (b: Assignment) => b.employeeId == employee && b.active, a);
      SelectMembers(db.orders, (q: Order) => q.clientId == a.clientId && Eligible(db, w, q), o);
    }
  }

  /** An order a report does not take is worth nothing to it; one it takes is worth its client's rate. */
  lemma WorthIsRate(db: Db, employee: int, w: Window, o: Order)
    requires DistinctClients(db.assignments)
    ensures !Takes(db, employee, w, o) ==> Worth(db, employee, w)(o) == 0.0
    ensures forall a | a in db.assignments && Holds(a, employee, o) && Eligible(db, w, o) ::
              Worth(db, employee, w)(o) == Rate(a, o)
  {
    var rows := ActiveAssignments(db, employee);
    var mine := (a: Assignment) => a.employeeId == employee && a.active;
    forall a ensures a in rows <==> a in db.assignments && mine(a) {
      SelectMembers(db.assignments, mine, a);
    }
    if Takes(db, employee, w, o) {
      var a :| a in db.assignments && mine(a) && a.clientId == o.clientId;
      DistinctSelected(db.assignments, mine);
      forall b | b in db.assignments && b.clientId == o.clientId ensures b == a {
      }
      SumAtMostOnce(rows, (b: Assignment) => b.clientId == o.clientId, Rate(a, o), WorthOf(db, w, o));
    } else {
      SumZero(rows, WorthOf(db, w, o));
    }
  }

  lemma DistinctSelected(rows: seq<Assignment>, p: Assignment -> bool)
    requires DistinctClients(rows)
    ensures DistinctClients(Select(rows, p))
  {
    SelectPairwise(rows, p, (a: Assignment, b: Assignment) => a.clientId != b.clientId);
  }

  ghost function TakenUnder(db: Db, w: Window, rows: seq<Assignment>): Order -> bool {
    (o: Order) => Eligible(db, w, o) && exists a :: a in rows && a.clientId == o.clientId
  }

  lemma {:induction false} JoinedCount(db: Db, w: Window, rows: seq<Assignment>)
    requires DistinctClients(rows)
    ensures |JoinedIds(db, w, rows)| == |Select(db.orders, TakenUnder(db, w, rows))|
  {
    if rows == [] {
      SelectNone(db.orders, TakenUnder(db, w, rows));
    } else {
      var first, rest := rows[0], rows[1..];
      JoinedCount(db, w, rest);
      IdsLength(EligibleOf(db, w, first));
      assert forall a :: a in rows <==> a == first || a in rest;
      forall a | a in rest ensures a.clientId != first.clientId {
        var k :| 0 <= k < |rest| && rest[k] == a;
        assert rows[k + 1] == a;
      }
      SelectSplits(db.orders, (o: Order) => o.clientId == first.clientId && Eligible(db, w, o), TakenUnder(db, w, rest),
                   TakenUnder(db, w, rows));
    }
  }

  /** No id is fetched twice: there are as many as orders with such an id. */
  lemma FetchedCount(db: Db, employee: int, w: Window)
    requires DistinctIds(db.orders) && DistinctClients(db.assignments)
    ensures var ids := EmployeeOrderIDs(db, employee, w);
            |ids| == |Select(db.orders, (o: Order) => o.id in ids)|
  {
    var ids, rows := EmployeeOrderIDs(db, employee, w), ActiveAssignments(db, employee);
    var mine := (a: Assignment) => a.employeeId == employee && a.active;
    DistinctSelected(db.assignments, mine);
    JoinedCount(db, w, rows);
    forall a ensures a in rows <==> a in db.assignments && mine(a) {
      SelectMembers(db.assignments, mine, a);
    }
    forall o | o in db.orders ensures TakenUnder(db, w, rows)(o) <==> o.id in ids {
      FetchedIffTaken(db, employee, w, o);
    }
    SelectCongruent(db.orders, TakenUnder(db, w, rows), (o: Order) => o.id in ids);
  }

  // ---------------------------------------------------------------- the books

  /** rate is what each order counts for since it was last linked; lost is what later reports took from a report. */
  datatype Account = Account(rate: string -> Money, lost: map<int, Money>)

  /** One account in money, one in orders, each of which counts for 1. */
  datatype Books = Books(db: Db, money: Account, count: Account)

  ghost function Lost(acc: Account, report: int): Money {
    if report in acc.lost then acc.lost[report] else 0.0
  }

  ghost function LinkedWorth(acc: Account, report: int): Order -> Money {
    (o: Order) => if o.employeeReportId == Some(report) then acc.rate(o.id) else 0.0
  }

  /** Orders linked to the report that the given ids take away from it. */
  ghost function TakenWorth(acc: Account, ids: seq<string>, report: int): Order -> Money {
    (o: Order) => if o.id in ids && o.employeeReportId == Some(report) then acc.rate(o.id) else 0.0
  }

  ghost function SavedMoney(): Report -> Money {
    (r: Report) => r.deliveryAgentNet
  }

  function SavedCount(r: Report): nat {
    r.baghdadOrdersCount + r.governoratesOrdersCount
  }

  ghost function SavedOrders(): Report -> Money {
    (r: Report) => SavedCount(r) as real
  }

  ghost predicate WellFormed(db: Db) {
    && DistinctIds(db.orders) && DistinctClients(db.assignments)
    && (forall r | r in db.reports :: r < db.nextReport)
    && (forall o | o in db.orders && o.employeeReportId.Some? :: o.employeeReportId.value in db.reports)
  }

  /** What every report saved is what its linked orders count for plus what was taken from it since. */
  ghost predicate Balanced(db: Db, acc: Account, saved: Report -> Money) {
    forall r | r in db.reports :: saved(db.reports[r]) == Sum(db.orders, LinkedWorth(acc, r)) + Lost(acc, r)
  }

  /** Nothing was taken from a live report, and no money without orders. */
  ghost predicate LiveWhole(b: Books) {
    forall r | r in b.db.reports ::
      && Lost(b.count, r) >= 0.0
      && (!b.db.reports[r].deleted ==> Lost(b.count, r) == 0.0)
      && (Lost(b.count, r) == 0.0 ==> Lost(b.money, r) == 0.0)
  }

  ghost predicate Inv(b: Books) {
    && WellFormed(b.db) && (forall id :: b.count.rate(id) == 1.0)
    && Balanced(b.db, b.money, SavedMoney()) && Balanced(b.db, b.count, SavedOrders()) && LiveWhole(b)
  }

  function LinkedCount(db: Db, report: int): nat {
    |Select(db.orders, (o: Order) => o.employeeReportId == Some(report))|
  }

  /** As many orders are linked to the report as it counted: what one query on stored columns shows. */
  predicate Complete(db: Db, report: int)
    requires report in db.reports
  {
    LinkedCount(db, report) == SavedCount(db.reports[report])
  }

  /** The stored columns show whether anything was taken. */
  lemma CompleteIff(b: Books, r: int)
    requires Inv(b) && r in b.db.reports
    ensures Complete(b.db, r) <==> Lost(b.count, r) == 0.0
  {
    var linked := (o: Order) => o.employeeReportId == Some(r);
    CountIsSum(b.db.orders, linked);
    SumCongruent(b.db.orders, Ones(linked), LinkedWorth(b.count, r));
    assert SavedOrders()(b.db.reports[r]) == Sum(b.db.orders, LinkedWorth(b.count, r)) + Lost(b.count, r);
  }

  ghost function FindOrder(os: seq<Order>, id: string): Option<Order> {
    if os == [] then None else if os[0].id == id then Some(os[0]) else FindOrder(os[1..], id)
  }

  lemma {:induction false} FindOrderFinds(os: seq<Order>, o: Order)
    requires DistinctIds(os) && o in os
    ensures FindOrder(os, o.id) == Some(o)
  {
    if os[0] != o {
      var k :| 0 <= k < |os| && os[k] == o;
      FindOrderFinds(os[1..], o);
    }
  }

  /** The rates when the fetched orders count for what they are worth in `seen`, the database the queries saw. */
  ghost function NewRates(old_: string -> Money, seen: Db, employee: int, w: Window): string -> Money {
    (id: string) =>
      if id in EmployeeOrderIDs(seen, employee, w) && FindOrder(seen.orders, id).Some?
      then Worth(seen, employee, w)(FindOrder(seen.orders, id).value)
      else old_(id)
  }

  ghost function Taken(db: Db, acc: Account, ids: seq<string>, rate: string -> Money): Account {
    Account(rate, map r | r in db.reports :: Lost(acc, r) + Sum(db.orders, TakenWorth(acc, ids, r)))
  }

  /** createReport, with the history it makes, when its queries saw the database `seen`. */
  ghost function ReportedFrom(b: Books, seen: Db, employee: int, w: Window): Books {
    var p := Planned(seen, employee, w);
    Books(Committed(b.db, p), Taken(b.db, b.money, p.ids, NewRates(b.money.rate, seen, employee, w)),
          Taken(b.db, b.count, p.ids, b.count.rate))
  }

  /** createReport run without interruption. */
  ghost function Reported(b: Books, employee: int, w: Window): Books {
    ReportedFrom(b, b.db, employee, w)
  }

  lemma {:induction false} SumMapped(os: seq<Order>, m: Order -> Order, f: Order -> Money, g: Order -> Money)
    requires forall o | o in os :: f(m(o)) == g(o)
    ensures Sum(MapOrders(os, m), f) == Sum(os, g)
  {
    if os != [] { SumMapped(os[1..], m, f, g); }
  }

  lemma {:induction false} MapKeepsIds(os: seq<Order>, m: Order -> Order)
    requires forall o | o in os :: m(o).id == o.id
    ensures |MapOrders(os, m)| == |os|
    ensures forall i | 0 <= i < |os| :: MapOrders(os, m)[i] == m(os[i])
    ensures DistinctIds(os) ==> DistinctIds(MapOrders(os, m))
  {
    if os != [] { MapKeepsIds(os[1..], m); }
  }

  // ---------------------------------------------------------------- a plan committed late

  ghost predicate KeepsLive(before: Db, after: Db) {
    forall o | o in before.orders && InLiveReport(before, o) :: o in after.orders
  }

  ghost predicate NamesNoneLive(db: Db, ids: seq<string>) {
    forall o | o in db.orders && InLiveReport(db, o) :: o.id !in ids
  }

  /** Whatever plan is committed, on whatever database, every order of a live report stays with it exactly when the plan
      names none: the transaction could check this before it links. */
  lemma LatePlanSafeIff(db: Db, p: Plan)
    requires WellFormed(db)
    ensures KeepsLive(db, Committed(db, p)) <==> NamesNoneLive(db, p.ids)
  {
    forall o | o in db.orders && InLiveReport(db, o) ensures o in Committed(db, p).orders <==> o.id !in p.ids {
      LateOrder(db, p, o);
    }
  }

  lemma LateOrder(db: Db, p: Plan, o: Order)
    requires WellFormed(db) && o in db.orders && InLiveReport(db, o)
    ensures o in Committed(db, p).orders <==> o.id !in p.ids
  {
    var m := Link(p.ids, db.nextReport);
    MapKeepsIds(db.orders, m);
    var i :| 0 <= i < |db.orders| && db.orders[i] == o;
    var after := Committed(db, p).orders;
    assert after[i] == m(o);
    if o in after { UniqueOrder(after, o, after[i]); }
  }

  /** No new report takes an order that is linked to a live report. */
  lemma NoOrderTakenFromLive(db: Db, employee: int, w: Window, o: Order)
    requires WellFormed(db) && o in db.orders && InLiveReport(db, o)
    ensures var after := Committed(db, Planned(db, employee, w));
            o in after.orders && InLiveReport(after, o)
  {
    FetchedIffTaken(db, employee, w, o);
    LateOrder(db, Planned(db, employee, w), o);
  }

  /** Committing a plan keeps every earlier report's account balanced: what it does not keep it lost. */
  lemma CommitBalance(db: Db, p: Plan, acc: Account, rate: string -> Money, saved: Report -> Money, r: int)
    requires WellFormed(db) && Balanced(db, acc, saved) && r in db.reports
    requires forall id | id !in p.ids :: rate(id) == acc.rate(id)
    ensures var after, next := Committed(db, p), Taken(db, acc, p.ids, rate);
            && after.reports[r] == db.reports[r]
            && saved(after.reports[r]) == Sum(after.orders, LinkedWorth(next, r)) + Lost(next, r)
            && Lost(next, r) == Lost(acc, r) + Sum(db.orders, TakenWorth(acc, p.ids, r))
  {
    var next := Taken(db, acc, p.ids, rate);
    var stays := (o: Order) => if o.id !in p.ids && o.employeeReportId == Some(r) then acc.rate(o.id) else 0.0;
    SumMapped(db.orders, Link(p.ids, db.nextReport), LinkedWorth(next, r), stays);
    SumOfSums(db.orders, stays, TakenWorth(acc, p.ids, r), LinkedWorth(acc, r));
  }

  lemma CommitWellFormed(db: Db, p: Plan)
    requires WellFormed(db)
    ensures WellFormed(Committed(db, p))
  {
    var after := Committed(db, p);
    MapKeepsIds(db.orders, Link(p.ids, db.nextReport));
    forall o | o in after.orders && o.employeeReportId.Some? ensures o.employeeReportId.value in after.reports {
      var i :| 0 <= i < |after.orders| && after.orders[i] == o;
      assert db.orders[i] in db.orders;
    }
  }

  /** Of two requests whose queries saw the same database the one that commits second leaves every order of a live
      report in place, the first one's included, exactly when the two fetched no common order. */
  lemma OverlapSafeIff(db: Db, employee: int, w: Window, other: int, v: Window)
    requires WellFormed(db)
    ensures var p, q := Planned(db, employee, w), Planned(db, other, v);
            var mid := Committed(db, p);
            KeepsLive(mid, Committed(mid, q)) <==> forall id | id in p.ids :: id !in q.ids
  {
    var p, q := Planned(db, employee, w), Planned(db, other, v);
    CommitWellFormed(db, p);
    LatePlanSafeIff(Committed(db, p), q);
    if NamesNoneLive(Committed(db, p), q.ids) {
      forall id | id in p.ids ensures id !in q.ids {
        CommonIsLive(db, employee, w, other, v, id);
      }
    } else {
      LiveIsCommon(db, p, other, v);
    }
  }

  lemma CommonIsLive(db: Db, employee: int, w: Window, other: int, v: Window, id: string)
    requires WellFormed(db) && id in EmployeeOrderIDs(db, employee, w)
    requires NamesNoneLive(Committed(db, Planned(db, employee, w)), EmployeeOrderIDs(db, other, v))
    ensures id !in EmployeeOrderIDs(db, other, v)
  {
    var p := Planned(db, employee, w);
    var mid := Committed(db, p);
    var o := FetchedOrder(db, employee, w, id);
    var i :| 0 <= i < |db.orders| && db.orders[i] == o;
    OverlapOrder(db, p, other, v, i);
    assert mid.orders[i] in mid.orders;
  }

  lemma LiveIsCommon(db: Db, p: Plan, other: int, v: Window)
    requires WellFormed(db) && !NamesNoneLive(Committed(db, p), EmployeeOrderIDs(db, other, v))
    ensures exists id :: id in p.ids && id in EmployeeOrderIDs(db, other, v)
  {
    var mid := Committed(db, p);
    var o :| o in mid.orders && InLiveReport(mid, o) && o.id in EmployeeOrderIDs(db, other, v);
    var i :| 0 <= i < |mid.orders| && mid.orders[i] == o;
    MapKeepsIds(db.orders, Link(p.ids, db.nextReport));
    OverlapOrder(db, p, other, v, i);
  }

  lemma FetchedOrder(db: Db, employee: int, w: Window, id: string) returns (o: Order)
    requires id in EmployeeOrderIDs(db, employee, w)
    ensures o in db.orders && o.id == id
  {
    InJoinedIds(db, w, ActiveAssignments(db, employee), id);
    var a, x :| a in ActiveAssignments(db, employee) && x in EligibleOf(db, w, a) && x.id == id;
    SelectMembers(db.orders, (y: Order) => y.clientId == a.clientId && Eligible(db, w, y), x);
    o := x;
  }

  /** After the first commit an order the second request fetched is live exactly when the first one fetched it too. */
  lemma OverlapOrder(db: Db, p: Plan, other: int, v: Window, i: nat)
    requires WellFormed(db) && i < |db.orders|
    ensures var mid := Committed(db, p);
            && |mid.orders| == |db.orders| && mid.orders[i].id == db.orders[i].id
            && (mid.orders[i].id in EmployeeOrderIDs(db, other, v)
                ==> (InLiveReport(mid, mid.orders[i]) <==> mid.orders[i].id in p.ids))
  {
    MapKeepsIds(db.orders, Link(p.ids, db.nextReport));
    assert db.orders[i] in db.orders;
    FetchedIffTaken(db, other, v, db.orders[i]);
  }

  /** What the overlap costs: the first report keeps its full saved amount, and the orders it still has are worth that
      less what the common orders were worth to it. */
  lemma OverlapLoses(b: Books, employee: int, w: Window, other: int, v: Window)
    requires Inv(b)
    ensures var first, mid := b.db.nextReport, Reported(b, employee, w);
            var after := ReportedFrom(mid, b.db, other, v);
            && first in after.db.reports && after.db.reports[first] == mid.db.reports[first]
            && after.db.reports[first].deliveryAgentNet
               == Sum(after.db.orders, LinkedWorth(after.money, first))
                  + Sum(mid.db.orders, TakenWorth(mid.money, EmployeeOrderIDs(b.db, other, v), first))
  {
    var first, mid := b.db.nextReport, Reported(b, employee, w);
    ReportKeepsInv(b, employee, w);
    var p := Planned(b.db, other, v);
    CommitBalance(mid.db, p, mid.money, NewRates(mid.money.rate, b.db, other, v), SavedMoney(), first);
  }

  /** Two overlapping requests for the same employee and window: the first report stays live with its full amount and no
      orders. */
  lemma OverlappingRequestsEmptyTheFirst(db: Db, employee: int, w: Window)
    requires WellFormed(db)
    ensures var p, first := Planned(db, employee, w), db.nextReport;
            var both := Committed(Committed(db, p), p);
            && first in both.reports && !both.reports[first].deleted
            && both.reports[first].deliveryAgentNet == p.data.totalCommission
            && both.reports[first + 1].deliveryAgentNet == p.data.totalCommission
            && LinkedCount(both, first) == 0
  {
    var p, n := Planned(db, employee, w), db.nextReport;
    CommitWellFormed(db, p);
    NewlyLinked(db, p);
    NoneLinked(Committed(db, p), p, n);
  }

  /** The orders of the new report are those the plan names. */
  lemma NewlyLinked(db: Db, p: Plan)
    requires WellFormed(db)
    ensures forall o | o in Committed(db, p).orders && o.employeeReportId == Some(db.nextReport) :: o.id in p.ids
  {
    var after := Committed(db, p).orders;
    MapKeepsIds(db.orders, Link(p.ids, db.nextReport));
    forall o | o in after && o.employeeReportId == Some(db.nextReport) ensures o.id in p.ids {
      var i :| 0 <= i < |after| && after[i] == o;
      assert db.orders[i] in db.orders;
    }
  }

  lemma NoneLinked(db: Db, p: Plan, r: int)
    requires WellFormed(db) && r in db.reports
    requires forall o | o in db.orders && o.employeeReportId == Some(r) :: o.id in p.ids
    ensures LinkedCount(Committed(db, p), r) == 0
  {
    var after := Committed(db, p).orders;
    MapKeepsIds(db.orders, Link(p.ids, db.nextReport));
    forall o | o in after ensures o.employeeReportId != Some(r) {
      var i :| 0 <= i < |after| && after[i] == o;
      assert db.orders[i] in db.orders;
    }
    SelectNone(after, (o: Order) => o.employeeReportId == Some(r));
  }

  // ---------------------------------------------------------------- two queries, two databases

  /** A sum over the orders with these ids. */
  ghost function Among(ids: set<string>, g: string -> Money): Order -> Money {
    (o: Order) => if o.id in ids then g(o.id) else 0.0
  }

  ghost predicate Holding(os: seq<Order>, ids: set<string>) {
    forall id | id in ids :: exists o :: o in os && o.id == id
  }

  lemma AmongNext(os: seq<Order>, ids: set<string>, id: string, g: string -> Money)
    requires DistinctIds(os) && id in ids && Holding(os, ids)
    ensures Sum(os, Among(ids, g)) == g(id) + Sum(os, Among(ids - {id}, g))
  {
    var one := (o: Order) => if o.id == id then g(id) else 0.0;
    var o :| o in os && o.id == id;
    SumOnce(os, o, one);
    SumOfSums(os, one, Among(ids - {id}, g), Among(ids, g));
  }

  lemma {:induction false} SumOnce(os: seq<Order>, o: Order, f: Order -> Money)
    requires DistinctIds(os) && o in os && forall x | x in os && x.id != o.id :: f(x) == 0.0
    ensures Sum(os, f) == f(o)
  {
    var rest := os[1..];
    if os[0] == o {
      forall x | x in rest ensures x.id != o.id {
        var k :| 0 <= k < |rest| && rest[k] == x;
        assert os[k + 1] == x;
      }
      SumZero(rest, f);
    } else {
      var k :| 0 <= k < |os| && os[k] == o;
      assert rest[k - 1] == o;
      SumOnce(rest, o, f);
    }
  }

  /** Such a sum does not depend on the table that holds the orders. */
  lemma {:induction false} AmongAnywhere(os: seq<Order>, ps: seq<Order>, ids: set<string>, g: string -> Money)
    requires DistinctIds(os) && DistinctIds(ps) && Holding(os, ids) && Holding(ps, ids)
    ensures Sum(os, Among(ids, g)) == Sum(ps, Among(ids, g))
    decreases |ids|
  {
    if ids == {} {
      SumZero(os, Among(ids, g));
      SumZero(ps, Among(ids, g));
    } else {
      var id :| id in ids;
      AmongNext(os, ids, id, g);
      AmongNext(ps, ids, id, g);
      AmongAnywhere(os, ps, ids - {id}, g);
    }
  }

  lemma {:induction false} AmongCount(os: seq<Order>, ids: set<string>)
    requires DistinctIds(os) && Holding(os, ids)
    ensures |Select(os, (o: Order) => o.id in ids)| == |ids|
    decreases |ids|
  {
    CountIsSum(os, (o: Order) => o.id in ids);
    SumCongruent(os, Ones((o: Order) => o.id in ids), Among(ids, (id: string) => 1.0));
    OnesAmong(os, ids);
  }

  lemma {:induction false} OnesAmong(os: seq<Order>, ids: set<string>)
    requires DistinctIds(os) && Holding(os, ids)
    ensures Sum(os, Among(ids, (id: string) => 1.0)) == |ids| as real
    decreases |ids|
  {
    var one := (id: string) => 1.0;
    if ids == {} {
      SumZero(os, Among(ids, one));
    } else {
      var id :| id in ids;
      AmongNext(os, ids, id, one);
      OnesAmong(os, ids - {id});
      SumCongruent(os, Among(ids, one), Among(ids, (id: string) => 1.0));
      SumCongruent(os, Among(ids - {id}, one), Among(ids - {id}, (id: string) => 1.0));
      assert |ids| == |ids - {id}| + 1;
    }
  }

  function IdSet(ids: seq<string>): set<string> {
    set id | id in ids
  }

  lemma FetchedSet(db: Db, employee: int, w: Window)
    requires WellFormed(db)
    ensures var ids := EmployeeOrderIDs(db, employee, w); Holding(db.orders, IdSet(ids)) && |ids| == |IdSet(ids)|
  {
    var ids := EmployeeOrderIDs(db, employee, w);
    forall id | id in IdSet(ids) ensures exists o :: o in db.orders && o.id == id {
      var o := FetchedOrder(db, employee, w, id);
    }
    FetchedCount(db, employee, w);
    AmongCount(db.orders, IdSet(ids));
    SelectCongruent(db.orders, (o: Order) => o.id in ids, (o: Order) => o.id in IdSet(ids));
  }

  /** The two queries of createReport as the statements they are: totals and counts from what the first one saw, ids
      from what the second one saw. */
  function SplitPlan(first: Db, second: Db, employee: int, w: Window): Plan {
    Plan(Calculate(first, employee, w), EmployeeOrderIDs(second, employee, w))
  }

  /** What the first query counted an order for. */
  ghost function CountedFor(first: Db, employee: int, w: Window): Account {
    Account(NewRates((id: string) => 0.0, first, employee, w), map[])
  }

  lemma SplitMoney(db: Db, first: Db, second: Db, employee: int, w: Window)
    requires WellFormed(db) && WellFormed(first) && WellFormed(second)
    requires Holding(db.orders, IdSet(EmployeeOrderIDs(second, employee, w)))
    ensures var g, after := CountedFor(first, employee, w), Committed(db, SplitPlan(first, second, employee, w));
            var dropped := IdSet(EmployeeOrderIDs(first, employee, w)) - IdSet(EmployeeOrderIDs(second, employee, w));
            after.reports[db.nextReport].deliveryAgentNet
            == Sum(after.orders, LinkedWorth(g, db.nextReport)) + Sum(first.orders, Among(dropped, g.rate))
  {
    var n, g, p := db.nextReport, CountedFor(first, employee, w).rate, SplitPlan(first, second, employee, w);
    var ones, twos := IdSet(EmployeeOrderIDs(first, employee, w)), IdSet(p.ids);
    FetchedSet(first, employee, w);
    TotalIsSumOfWorth(first, employee, w);
    forall o | o in first.orders ensures Worth(first, employee, w)(o) == Among(ones, g)(o) {
      FetchedIffTaken(first, employee, w, o);
      WorthIsRate(first, employee, w, o);
      FindOrderFinds(first.orders, o);
    }
    SumCongruent(first.orders, Worth(first, employee, w), Among(ones, g));
    SumOfSums(first.orders, Among(ones * twos, g), Among(ones - twos, g), Among(ones, g));
    AmongAnywhere(first.orders, db.orders, ones * twos, g);
    forall o | o in db.orders
      ensures LinkedWorth(CountedFor(first, employee, w), n)(Link(p.ids, n)(o)) == Among(ones * twos, g)(o)
    {
    }
    SumMapped(db.orders, Link(p.ids, n), LinkedWorth(CountedFor(first, employee, w), n), Among(ones * twos, g));
  }

  lemma SplitCount(db: Db, first: Db, second: Db, employee: int, w: Window)
    requires WellFormed(db) && WellFormed(first) && WellFormed(second)
    requires Holding(db.orders, IdSet(EmployeeOrderIDs(second, employee, w)))
    ensures var after := Committed(db, SplitPlan(first, second, employee, w));
            Complete(after, db.nextReport)
            <==> |IdSet(EmployeeOrderIDs(first, employee, w))| == |IdSet(EmployeeOrderIDs(second, employee, w))|
  {
    var n, p := db.nextReport, SplitPlan(first, second, employee, w);
    var linked := (o: Order) => o.employeeReportId == Some(n);
    TotalIsSumOfWorth(first, employee, w);
    FetchedSet(first, employee, w);
    FetchedSet(second, employee, w);
    CountMapped(db.orders, Link(p.ids, n), linked, (o: Order) => o.id in IdSet(p.ids));
    AmongCount(db.orders, IdSet(p.ids));
  }

  lemma {:induction false} CountMapped(os: seq<Order>, m: Order -> Order, p: Order -> bool, q: Order -> bool)
    requires forall o | o in os :: p(m(o)) == q(o)
    ensures |Select(MapOrders(os, m), p)| == |Select(os, q)|
  {
    if os != [] { CountMapped(os[1..], m, p, q); }
  }

  /** When every order the first query counts costs something, the new report's counts and amount are those of its
      orders exactly when both queries saw the same taken orders. */
  lemma SplitQueriesBalanceIff(db: Db, first: Db, second: Db, employee: int, w: Window)
    requires WellFormed(db) && WellFormed(first) && WellFormed(second) && PositiveRates(first.assignments)
    requires Holding(db.orders, IdSet(EmployeeOrderIDs(second, employee, w)))
    ensures var after, n := Committed(db, SplitPlan(first, second, employee, w)), db.nextReport;
            && Complete(after, n)
            && after.reports[n].deliveryAgentNet == Sum(after.orders, LinkedWorth(CountedFor(first, employee, w), n))
            <==> IdSet(EmployeeOrderIDs(first, employee, w)) == IdSet(EmployeeOrderIDs(second, employee, w))
  {
    var n, g := db.nextReport, CountedFor(first, employee, w);
    var after := Committed(db, SplitPlan(first, second, employee, w));
    var ones, twos := IdSet(EmployeeOrderIDs(first, employee, w)), IdSet(EmployeeOrderIDs(second, employee, w));
    SplitMoney(db, first, second, employee, w);
    SplitCount(db, first, second, employee, w);
    DroppedCost(first, employee, w, ones - twos);
    BothAgreeIff(Complete(after, n), after.reports[n].deliveryAgentNet, Sum(after.orders, LinkedWorth(g, n)),
                 Sum(first.orders, Among(ones - twos, g.rate)), ones, twos);
  }

  lemma BothAgreeIff(complete: bool, net: Money, linked: Money, dropped: Money, ones: set<string>, twos: set<string>)
    requires net == linked + dropped && (complete <==> |ones| == |twos|) && (dropped == 0.0 <==> ones - twos == {})
    ensures complete && net == linked <==> ones == twos
  {
    if |ones| == |twos| && ones - twos == {} { SubsetOfSameSize(ones, twos); }
  }

  lemma SubsetOfSameSize(a: set<string>, b: set<string>)
    requires |a| == |b| && a - b == {}
    ensures a == b
  {
    forall id | id in a ensures id in b {
      assert id !in a - b;
    }
    assert a + (b - a) == b;
    assert |a + (b - a)| == |a| + |b - a|;
  }

  lemma DroppedCost(first: Db, employee: int, w: Window, dropped: set<string>)
    requires WellFormed(first) && PositiveRates(first.assignments)
    requires dropped <= IdSet(EmployeeOrderIDs(first, employee, w))
    ensures Sum(first.orders, Among(dropped, CountedFor(first, employee, w).rate)) == 0.0 <==> dropped == {}
  {
    var f := Among(dropped, CountedFor(first, employee, w).rate);
    forall o | o in first.orders && o.id in dropped ensures f(o) > 0.0 {
      RatePositive(first, employee, w, o);
    }
    SumNotNegative(first.orders, f);
    if id :| id in dropped {
      var o := FetchedOrder(first, employee, w, id);
      assert f(o) > 0.0;
    }
  }

  lemma RatePositive(first: Db, employee: int, w: Window, o: Order)
    requires WellFormed(first) && PositiveRates(first.assignments)
    requires o in first.orders && o.id in EmployeeOrderIDs(first, employee, w)
    ensures CountedFor(first, employee, w).rate(o.id) > 0.0
  {
    FindOrderFinds(first.orders, o);
    FetchedIffTaken(first, employee, w, o);
    WorthIsRate(first, employee, w, o);
    var a :| a in first.assignments && Holds(a, employee, o);
    assert Worth(first, employee, w)(o) == Rate(a, o);
  }

  // ---------------------------------------------------------------- one report keeps the books

  lemma ReportedNewMoney(b: Books, employee: int, w: Window)
    requires Inv(b)
    ensures var after, n := Reported(b, employee, w), b.db.nextReport;
            after.db.reports[n].deliveryAgentNet == Sum(after.db.orders, LinkedWorth(after.money, n))
  {
    var after, ids, n := Reported(b, employee, w), EmployeeOrderIDs(b.db, employee, w), b.db.nextReport;
    TotalIsSumOfWorth(b.db, employee, w);
    forall o | o in b.db.orders
      ensures LinkedWorth(after.money, n)(Link(ids, n)(o)) == Worth(b.db, employee, w)(o)
    {
      FetchedIffTaken(b.db, employee, w, o);
      WorthIsRate(b.db, employee, w, o);
      FindOrderFinds(b.db.orders, o);
    }
    SumMapped(b.db.orders, Link(ids, n), LinkedWorth(after.money, n), Worth(b.db, employee, w));
  }

  lemma ReportedNewCount(b: Books, employee: int, w: Window)
    requires Inv(b)
    ensures var after, n := Reported(b, employee, w), b.db.nextReport;
            SavedCount(after.db.reports[n]) as real == Sum(after.db.orders, LinkedWorth(after.count, n))
  {
    var after, ids, n := Reported(b, employee, w), EmployeeOrderIDs(b.db, employee, w), b.db.nextReport;
    var fetched := (o: Order) => o.id in ids;
    TotalIsSumOfWorth(b.db, employee, w);
    FetchedCount(b.db, employee, w);
    CountIsSum(b.db.orders, fetched);
    SumMapped(b.db.orders, Link(ids, n), LinkedWorth(after.count, n), Ones(fetched));
  }

  /** A sequential report takes nothing from a live one, and no money without orders from any. */
  lemma ReportedTakes(b: Books, employee: int, w: Window, r: int)
    requires Inv(b) && r in b.db.reports
    ensures var ids := EmployeeOrderIDs(b.db, employee, w);
            var money := Sum(b.db.orders, TakenWorth(b.money, ids, r));
            var count := Sum(b.db.orders, TakenWorth(b.count, ids, r));
            && count >= 0.0 && (!b.db.reports[r].deleted ==> count == 0.0) && (count == 0.0 ==> money == 0.0)
  {
    var ids := EmployeeOrderIDs(b.db, employee, w);
    var money, count := TakenWorth(b.money, ids, r), TakenWorth(b.count, ids, r);
    SumNotNegative(b.db.orders, count);
    if !b.db.reports[r].deleted {
      forall o | o in b.db.orders ensures count(o) == 0.0 {
        FetchedIffTaken(b.db, employee, w, o);
      }
    }
    if Sum(b.db.orders, count) == 0.0 {
      forall o | o in b.db.orders ensures money(o) == 0.0 {
        assert count(o) == 0.0;
      }
      SumZero(b.db.orders, money);
    }
  }

  lemma CommitKeepsBalance(db: Db, p: Plan, acc: Account, rate: string -> Money, saved: Report -> Money)
    requires WellFormed(db) && Balanced(db, acc, saved)
    requires forall id | id !in p.ids :: rate(id) == acc.rate(id)
    requires var after, next := Committed(db, p), Taken(db, acc, p.ids, rate);
             saved(after.reports[db.nextReport]) == Sum(after.orders, LinkedWorth(next, db.nextReport))
    ensures Balanced(Committed(db, p), Taken(db, acc, p.ids, rate), saved)
  {
    var after, next := Committed(db, p), Taken(db, acc, p.ids, rate);
    forall r | r in after.reports
      ensures saved(after.reports[r]) == Sum(after.orders, LinkedWorth(next, r)) + Lost(next, r)
    {
      if r != db.nextReport { CommitBalance(db, p, acc, rate, saved, r); }
    }
  }

  lemma ReportedLiveWhole(b: Books, employee: int, w: Window)
    requires Inv(b)
    ensures LiveWhole(Reported(b, employee, w))
  {
    var after := Reported(b, employee, w);
    forall r | r in b.db.reports
      ensures Lost(after.count, r) >= 0.0 && (!after.db.reports[r].deleted ==> Lost(after.count, r) == 0.0)
      ensures Lost(after.count, r) == 0.0 ==> Lost(after.money, r) == 0.0
    {
      ReportedTakes(b, employee, w, r);
    }
  }

  lemma ReportKeepsInv(b: Books, employee: int, w: Window)
    requires Inv(b)
    ensures Inv(Reported(b, employee, w))
  {
    CommitWellFormed(b.db, Planned(b.db, employee, w));
    ReportedNewMoney(b, employee, w);
    ReportedNewCount(b, employee, w);
    CommitKeepsBalance(b.db, Planned(b.db, employee, w), b.money, NewRates(b.money.rate, b.db, employee, w),
                       SavedMoney());
    CommitKeepsBalance(b.db, Planned(b.db, employee, w), b.count, b.count.rate, SavedOrders());
    ReportedLiveWhole(b, employee, w);
  }

  /** A second report for the same window right after the first finds nothing. */
  lemma SecondReportIsEmpty(db: Db, employee: int, w: Window)
    requires WellFormed(db)
    ensures var after := Committed(db, Planned(db, employee, w));
            EmployeeOrderIDs(after, employee, w) == [] && Calculate(after, employee, w).totalCommission == 0.0
  {
    var ids, n := EmployeeOrderIDs(db, employee, w), db.nextReport;
    var after := Committed(db, Planned(db, employee, w));
    var rows := ActiveAssignments(after, employee);
    MapKeepsIds(db.orders, Link(ids, n));
    forall o, a | o in after.orders && a in rows ensures !(o.clientId == a.clientId && Eligible(after, w, o)) {
      var i :| 0 <= i < |after.orders| && after.orders[i] == o;
      var old_ := db.orders[i];
      assert o == Link(ids, n)(old_);
      FetchedIffTaken(db, employee, w, old_);
      SelectMembers(db.assignments, (b: Assignment) => b.employeeId == employee && b.active, a);
    }
    forall a | a in rows ensures EligibleOf(after, w, a) == [] {
      SelectNone(after.orders, (o: Order) => o.clientId == a.clientId && Eligible(after, w, o));
    }
    NothingJoined(after, w, rows);
    TotalIsSumOfWorth(after, employee, w);
    DetailsTotal(after, w, rows);
    SumZero(rows, ClientTotal(after, w));
  }

  lemma {:induction false} NothingJoined(db: Db, w: Window, rows: seq<Assignment>)
    requires forall a | a in rows :: EligibleOf(db, w, a) == []
    ensures JoinedIds(db, w, rows) == []
  {
    if rows != [] { NothingJoined(db, w, rows[1..]); }
  }

  // ---------------------------------------------------------------- runs

  datatype Event =
    | CreateReport(employee: int, window: Window)
    | Deactivate(report: int)
    | Reactivate(report: int)
    | Erase(report: int)
    | Upsert(assignment: Assignment)
    | Unassign(employee: int, client: int)
    | ReplaceOrder(order: Order)
    | AddOrder(order: Order)
    | EraseOrder(id: string)

  function Overwrite(o: Order): Order -> Order {
    (x: Order) => if x.id == o.id then o.(employeeReportId := x.employeeReportId) else x
  }

  function Unlink(report: int): Order -> Order {
    (x: Order) => if x.employeeReportId == Some(report) then x.(employeeReportId := None) else x
  }

  function WithDeleted(db: Db, report: int, deleted: bool): Db {
    if report in db.reports then db.(reports := db.reports[report := db.reports[report].(deleted := deleted)]) else db
  }

  /** The hard delete of an order. */
  function WithoutOrder(db: Db, id: string): Db {
    db.(orders := Select(db.orders, (o: Order) => o.id != id))
  }

  /** Erasing a report clears the links to it; order edits may change anything but the id and the link. */
  ghost function Next(b: Books, e: Event): Books {
    match e
    case CreateReport(employee, w) => Reported(b, employee, w)
    case Deactivate(r) => b.(db := WithDeleted(b.db, r, true))
    case Reactivate(r) => b.(db := WithDeleted(b.db, r, false))
    case Erase(r) => b.(db := b.db.(reports := b.db.reports - {r}, orders := MapOrders(b.db.orders, Unlink(r))))
    case Upsert(a) => (match Upserted(b.db, a) case Err(_) => b case Ok(db) => b.(db := db))
    case Unassign(employee, client) =>
      var others := Select(b.db.assignments, (a: Assignment) => !(a.employeeId == employee && a.clientId == client));
      b.(db := b.db.(assignments := others))
    case ReplaceOrder(o) => b.(db := b.db.(orders := MapOrders(b.db.orders, Overwrite(o))))
    case AddOrder(o) =>
      if exists x :: x in b.db.orders && x.id == o.id then b
      else b.(db := b.db.(orders := b.db.orders + [o.(employeeReportId := None)]))
    case EraseOrder(id) => b.(db := WithoutOrder(b.db, id))
  }

  lemma SameSums(db: Db, next: Db, acc: Account, saved: Report -> Money)
    requires Balanced(db, acc, saved) && next.orders == db.orders && next.reports.Keys == db.reports.Keys
    requires forall r | r in db.reports :: saved(next.reports[r]) == saved(db.reports[r])
    ensures Balanced(next, acc, saved)
  {
  }

  /** A reactivated report is as good as any live one exactly when its orders are still as many as it counted. Then its
      saved amount is what they were worth; and where money is lost with every order, only then. */
  lemma ReactivateWholeIff(b: Books, r: int)
    requires Inv(b) && r in b.db.reports
    ensures var after := Next(b, Reactivate(r));
            && (Inv(after) <==> Complete(b.db, r))
            && (Complete(b.db, r) ==> WorthItsOrders(after, r))
            && (LossesCost(b) ==> (WorthItsOrders(after, r) <==> Complete(b.db, r)))
  {
    var after := Next(b, Reactivate(r));
    CompleteIff(b, r);
    SameSums(b.db, after.db, b.money, SavedMoney());
    SameSums(b.db, after.db, b.count, SavedOrders());
    assert SavedMoney()(after.db.reports[r])
        == Sum(after.db.orders, LinkedWorth(after.money, r)) + Lost(after.money, r);
  }

  /** The saved amount is what the linked orders were worth when they were linked. */
  ghost predicate WorthItsOrders(b: Books, r: int)
    requires r in b.db.reports
  {
    b.db.reports[r].deliveryAgentNet == Sum(b.db.orders, LinkedWorth(b.money, r))
  }

  /** Every report that lost orders lost money, and every linked order has a price. */
  ghost predicate LossesCost(b: Books) {
    && (forall r | r in b.db.reports :: Lost(b.money, r) >= 0.0 && (Lost(b.count, r) > 0.0 ==> Lost(b.money, r) > 0.0))
    && (forall o | o in b.db.orders && o.employeeReportId.Some? :: b.money.rate(o.id) > 0.0)
  }

  /** A report that takes all the orders of another one takes all it saved. */
  lemma TakesAll(b: Books, employee: int, w: Window, r: int)
    requires Inv(b) && r in b.db.reports
    requires forall o | o in b.db.orders && o.employeeReportId == Some(r) :: o.id in EmployeeOrderIDs(b.db, employee, w)
    ensures var after := Reported(b, employee, w);
            && r in after.db.reports && after.db.reports[r] == b.db.reports[r] && LinkedCount(after.db, r) == 0
            && Lost(after.money, r) == b.db.reports[r].deliveryAgentNet
            && Lost(after.count, r) == SavedCount(b.db.reports[r]) as real
  {
    var ids := EmployeeOrderIDs(b.db, employee, w);
    SumCongruent(b.db.orders, TakenWorth(b.money, ids, r), LinkedWorth(b.money, r));
    SumCongruent(b.db.orders, TakenWorth(b.count, ids, r), LinkedWorth(b.count, r));
    assert SavedMoney()(b.db.reports[r]) == Sum(b.db.orders, LinkedWorth(b.money, r)) + Lost(b.money, r);
    assert SavedOrders()(b.db.reports[r]) == Sum(b.db.orders, LinkedWorth(b.count, r)) + Lost(b.count, r);
    NoneLinked(b.db, Planned(b.db, employee, w), r);
  }

  /** Deactivate a report, report the same window again, and reactivate it: everything it saved has gone to the second
      report, none of its orders is left, and unless it never had any it is live with an amount for orders it lost. */
  lemma RetakenReportIsHollow(b: Books, employee: int, w: Window)
    requires Inv(b)
    ensures var first := b.db.nextReport;
            var again := Next(Next(Next(b, CreateReport(employee, w)), Deactivate(first)), CreateReport(employee, w));
            && first in again.db.reports && LinkedCount(again.db, first) == 0
            && Lost(again.money, first) == again.db.reports[first].deliveryAgentNet
            && Lost(again.count, first) == SavedCount(again.db.reports[first]) as real
            && (Inv(Next(again, Reactivate(first))) <==> SavedCount(again.db.reports[first]) == 0)
  {
    var first, once := b.db.nextReport, Reported(b, employee, w);
    var gone := Next(once, Deactivate(first));
    ReportKeepsInv(b, employee, w);
    EventKeepsInv(once, Deactivate(first));
    forall o | o in gone.db.orders && o.employeeReportId == Some(first)
      ensures o.id in EmployeeOrderIDs(gone.db, employee, w)
    {
      RetakenOrder(b, employee, w, o);
    }
    TakesAll(gone, employee, w, first);
    ReportKeepsInv(gone, employee, w);
    ReactivateWholeIff(Reported(gone, employee, w), first);
  }

  lemma RetakenOrder(b: Books, employee: int, w: Window, o: Order)
    requires Inv(b)
    requires var gone := WithDeleted(Committed(b.db, Planned(b.db, employee, w)), b.db.nextReport, true);
             o in gone.orders && o.employeeReportId == Some(b.db.nextReport)
    ensures var gone := WithDeleted(Committed(b.db, Planned(b.db, employee, w)), b.db.nextReport, true);
            o.id in EmployeeOrderIDs(gone, employee, w)
  {
    var p, n := Planned(b.db, employee, w), b.db.nextReport;
    var gone := WithDeleted(Committed(b.db, p), n, true);
    CommitWellFormed(b.db, p);
    MapKeepsIds(b.db.orders, Link(p.ids, n));
    var i :| 0 <= i < |gone.orders| && gone.orders[i] == o;
    var before := b.db.orders[i];
    assert before in b.db.orders && o == Link(p.ids, n)(before);
    FetchedIffTaken(b.db, employee, w, before);
    assert Takes(b.db, employee, w, before);
    assert Eligible(gone, w, o);
    FetchedIffTaken(gone, employee, w, o);
  }

  lemma MapKeepsBalance(db: Db, acc: Account, saved: Report -> Money, m: Order -> Order, reports: map<int, Report>)
    requires Balanced(db, acc, saved)
    requires forall r | r in reports :: r in db.reports && reports[r] == db.reports[r]
    requires forall o | o in db.orders :: m(o).id == o.id
    requires forall o, r | o in db.orders && r in reports ::
      m(o).employeeReportId == Some(r) <==> o.employeeReportId == Some(r)
    ensures Balanced(db.(reports := reports, orders := MapOrders(db.orders, m)), acc, saved)
  {
    var after := db.(reports := reports, orders := MapOrders(db.orders, m));
    forall r | r in reports ensures Sum(after.orders, LinkedWorth(acc, r)) == Sum(db.orders, LinkedWorth(acc, r)) {
      SumMapped(db.orders, m, LinkedWorth(acc, r), LinkedWorth(acc, r));
    }
  }

  /** A change of the orders that keeps ids and, for the reports that remain, links keeps the books. */
  lemma MapKeepsInv(b: Books, m: Order -> Order, reports: map<int, Report>)
    requires Inv(b)
    requires forall r | r in reports :: r in b.db.reports && reports[r] == b.db.reports[r]
    requires forall o | o in b.db.orders ::
      m(o).id == o.id && (m(o).employeeReportId.Some? ==> m(o).employeeReportId.value in reports)
    requires forall o, r | o in b.db.orders && r in reports ::
      m(o).employeeReportId == Some(r) <==> o.employeeReportId == Some(r)
    ensures Inv(b.(db := b.db.(reports := reports, orders := MapOrders(b.db.orders, m))))
  {
    var after := b.db.(reports := reports, orders := MapOrders(b.db.orders, m));
    MapKeepsIds(b.db.orders, m);
    MapKeepsBalance(b.db, b.money, SavedMoney(), m, reports);
    MapKeepsBalance(b.db, b.count, SavedOrders(), m, reports);
    forall o | o in after.orders && o.employeeReportId.Some? ensures o.employeeReportId.value in reports {
      var i :| 0 <= i < |after.orders| && after.orders[i] == o;
      assert b.db.orders[i] in b.db.orders;
    }
  }

  lemma UnlinkedKeepsBalance(db: Db, acc: Account, saved: Report -> Money, row: Order)
    requires Balanced(db, acc, saved) && row.employeeReportId.None?
    ensures Balanced(db.(orders := db.orders + [row]), acc, saved)
  {
    forall r | r in db.reports
      ensures Sum(db.orders + [row], LinkedWorth(acc, r)) == Sum(db.orders, LinkedWorth(acc, r))
    {
      SumAppend(db.orders, [row], LinkedWorth(acc, r));
    }
  }

  lemma AddOrderKeepsInv(b: Books, o: Order)
    requires Inv(b)
    ensures Inv(Next(b, AddOrder(o)))
  {
    if Next(b, AddOrder(o)) != b {
      var row := o.(employeeReportId := None);
      UnlinkedKeepsBalance(b.db, b.money, SavedMoney(), row);
      UnlinkedKeepsBalance(b.db, b.count, SavedOrders(), row);
    }
  }

  lemma SameOrdersKeepsInv(b: Books, db: Db)
    requires Inv(b) && WellFormed(db) && db.orders == b.db.orders
    requires db.reports.Keys == b.db.reports.Keys
    requires forall r | r in db.reports ::
      && db.reports[r].(deleted := true) == b.db.reports[r].(deleted := true)
      && (db.reports[r].deleted || db.reports[r] == b.db.reports[r])
    ensures Inv(b.(db := db))
  {
    forall r | r in db.reports
      ensures SavedMoney()(db.reports[r]) == SavedMoney()(b.db.reports[r])
      ensures SavedOrders()(db.reports[r]) == SavedOrders()(b.db.reports[r])
    {
      assert db.reports[r].(deleted := true) == b.db.reports[r].(deleted := true);
    }
    SameSums(b.db, db, b.money, SavedMoney());
    SameSums(b.db, db, b.count, SavedOrders());
  }

  /** A sum without the orders of an id. */
  lemma SumWithout(os: seq<Order>, id: string, f: Order -> Money)
    ensures Sum(os, f) == Sum(Select(os, (o: Order) => o.id != id), f) + Sum(os, Of(id, f))
  {
    var others := (o: Order) => o.id != id;
    var rest := (o: Order) => if others(o) then f(o) else 0.0;
    SumSelected(os, others, f, rest);
    SumOfSums(os, rest, Of(id, f), f);
  }

  ghost function Of(id: string, f: Order -> Money): Order -> Money {
    (o: Order) => if o.id == id then f(o) else 0.0
  }

  ghost predicate LinkedNowhere(db: Db, id: string) {
    forall o | o in db.orders && o.id == id :: o.employeeReportId.None?
  }

  lemma UnlinkedOrderKeepsBalance(db: Db, acc: Account, saved: Report -> Money, id: string)
    requires Balanced(db, acc, saved) && LinkedNowhere(db, id)
    ensures Balanced(WithoutOrder(db, id), acc, saved)
  {
    forall r | r in db.reports
      ensures Sum(WithoutOrder(db, id).orders, LinkedWorth(acc, r)) == Sum(db.orders, LinkedWorth(acc, r))
    {
      SumWithout(db.orders, id, LinkedWorth(acc, r));
      SumZero(db.orders, Of(id, LinkedWorth(acc, r)));
    }
  }

  lemma LinkedOrderBreaksBalance(b: Books, id: string, o: Order)
    requires Inv(b) && o in b.db.orders && o.id == id && o.employeeReportId.Some?
    ensures !Balanced(WithoutOrder(b.db, id), b.count, SavedOrders())
  {
    var r := o.employeeReportId.value;
    var lost := Of(id, LinkedWorth(b.count, r));
    SumWithout(b.db.orders, id, LinkedWorth(b.count, r));
    SumNotNegative(b.db.orders, lost);
    assert lost(o) == 1.0;
    assert SavedOrders()(b.db.reports[r]) == Sum(b.db.orders, LinkedWorth(b.count, r)) + Lost(b.count, r);
  }

  lemma WithoutOrderWellFormed(db: Db, id: string)
    requires WellFormed(db)
    ensures WellFormed(WithoutOrder(db, id))
  {
    var others := (o: Order) => o.id != id;
    SelectPairwise(db.orders, others, (o: Order, p: Order) => o.id != p.id);
    forall o | o in WithoutOrder(db, id).orders ensures o in db.orders {
      SelectMembers(db.orders, others, o);
    }
  }

  /** The hard delete of an order keeps the books exactly when the order is linked to no report. */
  lemma EraseOrderKeepsInvIff(b: Books, id: string)
    requires Inv(b)
    ensures Inv(Next(b, EraseOrder(id))) <==> LinkedNowhere(b.db, id)
  {
    WithoutOrderWellFormed(b.db, id);
    if LinkedNowhere(b.db, id) {
      UnlinkedOrderKeepsBalance(b.db, b.money, SavedMoney(), id);
      UnlinkedOrderKeepsBalance(b.db, b.count, SavedOrders(), id);
    } else {
      var o :| o in b.db.orders && o.id == id && o.employeeReportId.Some?;
      LinkedOrderBreaksBalance(b, id, o);
    }
  }

  /** Reports are reactivated only while their orders are as many as they counted, and orders erased only unlinked: both
      can be read off stored columns. */
  ghost predicate Harmless(db: Db, e: Event) {
    && (e.Reactivate? && e.report in db.reports ==> Complete(db, e.report))
    && (e.EraseOrder? ==> LinkedNowhere(db, e.id))
  }

  lemma EventKeepsInv(b: Books, e: Event)
    requires Inv(b) && Harmless(b.db, e)
    ensures Inv(Next(b, e))
  {
    match e
    case CreateReport(employee, w) => ReportKeepsInv(b, employee, w);
    case Deactivate(r) => SameOrdersKeepsInv(b, WithDeleted(b.db, r, true));
    case Reactivate(r) => if r in b.db.reports { ReactivateWholeIff(b, r); }
    case Erase(r) => MapKeepsInv(b, Unlink(r), b.db.reports - {r});
    case Upsert(a) =>
      FindClientSound(b.db.assignments, a.clientId);
      SameOrdersKeepsInv(b, Next(b, e).db);
    case Unassign(employee, client) =>
      DistinctSelected(b.db.assignments, (a: Assignment) => !(a.employeeId == employee && a.clientId == client));
      SameOrdersKeepsInv(b, Next(b, e).db);
    case ReplaceOrder(o) => MapKeepsInv(b, Overwrite(o), b.db.reports);
    case AddOrder(o) => AddOrderKeepsInv(b, o);
    case EraseOrder(id) => EraseOrderKeepsInvIff(b, id);
  }

  ghost function Run(b: Books, events: seq<Event>): Books
    decreases |events|
  {
    if events == [] then b else Run(Next(b, events[0]), events[1..])
  }

  ghost predicate HarmlessRun(b: Books, events: seq<Event>)
    decreases |events|
  {
    events == [] || (Harmless(b.db, events[0]) && HarmlessRun(Next(b, events[0]), events[1..]))
  }

  ghost predicate LiveReportsAddUp(b: Books) {
    forall r | r in b.db.reports && !b.db.reports[r].deleted :: Complete(b.db, r) && WorthItsOrders(b, r)
  }

  /** Over every sequential run of reports, deactivations, erasures, complete reactivations, assignment and order
      changes and hard deletes of unlinked orders, each live report has as many orders as it counted, and its saved
      amount is the sum of their rates at creation. */
  lemma {:induction false} RunKeepsBooks(b: Books, events: seq<Event>)
    requires Inv(b) && HarmlessRun(b, events)
    ensures Inv(Run(b, events))
    ensures LiveReportsAddUp(Run(b, events))
    decreases |events|
  {
    if events != [] {
      EventKeepsInv(b, events[0]);
      RunKeepsBooks(Next(b, events[0]), events[1..]);
    } else {
      forall r | r in b.db.reports && !b.db.reports[r].deleted ensures Complete(b.db, r) && WorthItsOrders(b, r) {
        CompleteIff(b, r);
        assert SavedMoney()(b.db.reports[r]) == Sum(b.db.orders, LinkedWorth(b.money, r)) + Lost(b.money, r);
      }
    }
  }

  // ---------------------------------------------------------------- with positive rates

  ghost predicate PositiveRates(rows: seq<Assignment>) {
    forall a | a in rows :: a.baghdadOrderCost > 0.0 && a.govOrderCost > 0.0
  }

  lemma ReportKeepsLossesCost(b: Books, employee: int, w: Window)
    requires Inv(b) && LossesCost(b) && PositiveRates(b.db.assignments)
    ensures LossesCost(Reported(b, employee, w))
  {
    var after, ids, n := Reported(b, employee, w), EmployeeOrderIDs(b.db, employee, w), b.db.nextReport;
    forall r | r in b.db.reports
      ensures Lost(after.money, r) >= 0.0 && (Lost(after.count, r) > 0.0 ==> Lost(after.money, r) > 0.0)
    {
      TakenCosts(b, ids, r);
    }
    MapKeepsIds(b.db.orders, Link(ids, n));
    forall o | o in after.db.orders && o.employeeReportId.Some? ensures after.money.rate(o.id) > 0.0 {
      var i :| 0 <= i < |after.db.orders| && after.db.orders[i] == o;
      NewRatePositive(b, employee, w, b.db.orders[i]);
    }
  }

  lemma TakenCosts(b: Books, ids: seq<string>, r: int)
    requires Inv(b) && LossesCost(b) && r in b.db.reports
    ensures var money := Sum(b.db.orders, TakenWorth(b.money, ids, r));
            var count := Sum(b.db.orders, TakenWorth(b.count, ids, r));
            money >= 0.0 && (count > 0.0 ==> money > 0.0)
  {
    var money, count := TakenWorth(b.money, ids, r), TakenWorth(b.count, ids, r);
    SumNotNegative(b.db.orders, money);
    SumNotNegative(b.db.orders, count);
    if Sum(b.db.orders, money) == 0.0 {
      forall o | o in b.db.orders ensures count(o) == 0.0 {
        assert money(o) == 0.0;
      }
    }
  }

  lemma NewRatePositive(b: Books, employee: int, w: Window, o: Order)
    requires Inv(b) && LossesCost(b) && PositiveRates(b.db.assignments) && o in b.db.orders
    requires o.employeeReportId.Some? || o.id in EmployeeOrderIDs(b.db, employee, w)
    ensures NewRates(b.money.rate, b.db, employee, w)(o.id) > 0.0
  {
    FindOrderFinds(b.db.orders, o);
    FetchedIffTaken(b.db, employee, w, o);
    WorthIsRate(b.db, employee, w, o);
    if Takes(b.db, employee, w, o) {
      var a :| a in b.db.assignments && a.employeeId == employee && a.active && a.clientId == o.clientId;
      assert Worth(b.db, employee, w)(o) == Rate(a, o);
    }
  }

  lemma MapKeepsLossesCost(b: Books, m: Order -> Order, reports: map<int, Report>)
    requires LossesCost(b) && forall r | r in reports :: r in b.db.reports
    requires forall o | o in b.db.orders ::
      m(o).id == o.id && (m(o).employeeReportId.Some? ==> o.employeeReportId.Some?)
    ensures LossesCost(b.(db := b.db.(reports := reports, orders := MapOrders(b.db.orders, m))))
  {
    var after := MapOrders(b.db.orders, m);
    MapKeepsIds(b.db.orders, m);
    forall o | o in after && o.employeeReportId.Some? ensures b.money.rate(o.id) > 0.0 {
      var i :| 0 <= i < |after| && after[i] == o;
      assert b.db.orders[i] in b.db.orders;
    }
  }

  /** With positive rates every event keeps it so that orders are never lost without money. */
  lemma EventKeepsLossesCost(b: Books, e: Event)
    requires Inv(b) && LossesCost(b) && PositiveRates(b.db.assignments)
    requires e.Upsert? ==> PositiveRates([e.assignment])
    ensures LossesCost(Next(b, e)) && PositiveRates(Next(b, e).db.assignments)
  {
    match e
    case CreateReport(employee, w) => ReportKeepsLossesCost(b, employee, w);
    case Erase(r) => MapKeepsLossesCost(b, Unlink(r), b.db.reports - {r});
    case ReplaceOrder(o) => MapKeepsLossesCost(b, Overwrite(o), b.db.reports);
    case EraseOrder(id) =>
      forall o | o in Next(b, e).db.orders ensures o in b.db.orders {
        SelectMembers(b.db.orders, (x: Order) => x.id != id, o);
      }
    case Upsert(a) =>
      assert a in [a];
      FindClientSound(b.db.assignments, a.clientId);
      forall row | row in Next(b, e).db.assignments ensures row == a || row in b.db.assignments {
      }
    case Unassign(employee, client) =>
      var others := (a: Assignment) => !(a.employeeId == employee && a.clientId == client);
      forall a | a in Select(b.db.assignments, others) ensures a in b.db.assignments {
        SelectMembers(b.db.assignments, others, a);
      }
    case _ =>
  }

  // ---------------------------------------------------------------- in the columns of the tables

  /** The order counts for the employee through this assignment: it is not deleted, completed, delivered to its
      client by report, in no live employee report and received within both closed ends of the window, and the
      assignment is an active one of the employee for its client. */
  ghost predicate Due(db: Db, employee: int, w: Window, a: Assignment, o: Order) {
    && a in db.assignments && a.employeeId == employee && a.active && a.clientId == o.clientId
    && !o.deleted && o.status in {DELIVERED, PARTIALLY_RETURNED, REPLACED} && o.flags.deliveredClient
    && (o.employeeReportId.None? || o.employeeReportId.value !in db.reports
        || db.reports[o.employeeReportId.value].deleted)
    && (w.startDate.None? || (o.receivedAt.Some? && w.startDate.value <= o.receivedAt.value))
    && (w.endDate.None? || (o.receivedAt.Some? && o.receivedAt.value <= w.endDate.value))
  }

  ghost predicate DueTo(db: Db, employee: int, w: Window, o: Order) {
    exists a :: Due(db, employee, w, a, o)
  }

  /** The rate of the assignment for the order's governorate, or nothing. */
  ghost function Earned(db: Db, employee: int, w: Window): Order -> Money {
    (o: Order) => EarnedBy(db, employee, w, o)
  }

  ghost function EarnedBy(db: Db, employee: int, w: Window, o: Order): Money {
    if !DueTo(db, employee, w, o) then 0.0
    else match o.governorate
      case BAGHDAD => Through(db, employee, w, o).baghdadOrderCost
      case PROVINCE(_) => Through(db, employee, w, o).govOrderCost
  }

  ghost function Through(db: Db, employee: int, w: Window, o: Order): (a: Assignment)
    requires DueTo(db, employee, w, o)
    ensures Due(db, employee, w, a, o)
  {
    var a :| Due(db, employee, w, a, o);
    a
  }

  ghost function DueIn(db: Db, employee: int, w: Window, baghdad: bool): Order -> bool {
    (o: Order) => DueTo(db, employee, w, o) && (o.governorate == BAGHDAD <==> baghdad)
  }

  lemma DueIffTakes(db: Db, employee: int, w: Window, o: Order)
    ensures DueTo(db, employee, w, o) <==> Takes(db, employee, w, o)
    ensures forall a :: Due(db, employee, w, a, o)
                        <==> a in db.assignments && Holds(a, employee, o) && Eligible(db, w, o)
  {
    if Takes(db, employee, w, o) {
      var a :| a in db.assignments && Holds(a, employee, o);
      assert Due(db, employee, w, a, o);
    }
  }

  /** What an order earns does not depend on the assignment found: there is only one. */
  lemma EarnedIsRate(db: Db, employee: int, w: Window, a: Assignment, o: Order)
    requires DistinctClients(db.assignments) && Due(db, employee, w, a, o)
    ensures Earned(db, employee, w)(o) == if o.governorate == BAGHDAD then a.baghdadOrderCost else a.govOrderCost
  {
    var b := Through(db, employee, w, o);
    var i :| 0 <= i < |db.assignments| && db.assignments[i] == a;
    var j :| 0 <= j < |db.assignments| && db.assignments[j] == b;
  }

  ghost function TakenIn(db: Db, w: Window, rows: seq<Assignment>, baghdad: bool): Order -> bool {
    (o: Order) => Eligible(db, w, o) && IsBaghdad(o) == baghdad && exists a :: a in rows && a.clientId == o.clientId
  }

  ghost function OwnIn(db: Db, w: Window, a: Assignment, baghdad: bool): Order -> bool {
    (o: Order) => o.clientId == a.clientId && Eligible(db, w, o) && IsBaghdad(o) == baghdad
  }

  lemma OwnCount(db: Db, w: Window, a: Assignment, baghdad: bool)
    ensures var d := DetailOf(db, w, a);
            (if baghdad then d.baghdadCount else d.govCount) == |Select(db.orders, OwnIn(db, w, a, baghdad))|
  {
    var same := (o: Order) => IsBaghdad(o) == baghdad;
    SelectTwice(db.orders, (o: Order) => o.clientId == a.clientId && Eligible(db, w, o),
                same, OwnIn(db, w, a, baghdad));
    if baghdad {
      SelectCongruent(EligibleOf(db, w, a), same, IsBaghdad);
    } else {
      SelectCongruent(EligibleOf(db, w, a), same, (o: Order) => !IsBaghdad(o));
    }
  }

  lemma {:induction false} DetailCounts(db: Db, w: Window, rows: seq<Assignment>, baghdad: bool)
    requires DistinctClients(rows)
    ensures CountTotal(Details(db, w, rows), baghdad) == |Select(db.orders, TakenIn(db, w, rows, baghdad))|
  {
    if rows == [] {
      SelectNone(db.orders, TakenIn(db, w, rows, baghdad));
    } else {
      var first, rest := rows[0], rows[1..];
      DetailCounts(db, w, rest, baghdad);
      OwnCount(db, w, first, baghdad);
      assert forall a :: a in rows <==> a == first || a in rest;
      forall a | a in rest ensures a.clientId != first.clientId {
        var k :| 0 <= k < |rest| && rest[k] == a;
        assert rows[k + 1] == a;
      }
      SelectSplits(db.orders, OwnIn(db, w, first, baghdad), TakenIn(db, w, rest, baghdad),
                   TakenIn(db, w, rows, baghdad));
      CountTotalNext(db, w, rows, baghdad);
    }
  }

  lemma CountTotalNext(db: Db, w: Window, rows: seq<Assignment>, baghdad: bool)
    requires rows != []
    ensures var d := DetailOf(db, w, rows[0]);
            CountTotal(Details(db, w, rows), baghdad)
            == (if baghdad then d.baghdadCount else d.govCount) + CountTotal(Details(db, w, rows[1..]), baghdad)
  {
    var d, rest := DetailOf(db, w, rows[0]), Details(db, w, rows[1..]);
    assert [d] + rest == Details(db, w, rows) || (d.baghdadCount + d.govCount == 0 && Details(db, w, rows) == rest) by {
      assert [] + rest == rest;
    }
  }

  /** The three totals: every due order counts once, for its own governorate, and earns that governorate's rate. */
  ghost predicate CalculationColumns(db: Db, employee: int, w: Window, data: Calculation) {
    && data.totalBaghdadOrders == |Select(db.orders, DueIn(db, employee, w, true))|
    && data.totalGovOrders == |Select(db.orders, DueIn(db, employee, w, false))|
    && data.totalCommission == Sum(db.orders, Earned(db, employee, w))
  }

  lemma CalculatedCount(db: Db, employee: int, w: Window, baghdad: bool)
    requires DistinctClients(db.assignments)
    ensures CountTotal(Details(db, w, ActiveAssignments(db, employee)), baghdad)
         == |Select(db.orders, DueIn(db, employee, w, baghdad))|
  {
    var rows, mine := ActiveAssignments(db, employee), (a: Assignment) => a.employeeId == employee && a.active;
    DistinctSelected(db.assignments, mine);
    DetailCounts(db, w, rows, baghdad);
    forall a ensures a in rows <==> a in db.assignments && mine(a) {
      SelectMembers(db.assignments, mine, a);
    }
    forall o ensures TakenIn(db, w, rows, baghdad)(o) <==> DueIn(db, employee, w, baghdad)(o) {
      DueIffTakes(db, employee, w, o);
    }
    SelectCongruent(db.orders, TakenIn(db, w, rows, baghdad), DueIn(db, employee, w, baghdad));
  }

  lemma CalculatedColumns(db: Db, employee: int, w: Window)
    requires DistinctClients(db.assignments)
    ensures CalculationColumns(db, employee, w, Calculate(db, employee, w))
  {
    CalculatedCount(db, employee, w, true);
    CalculatedCount(db, employee, w, false);
    TotalIsSumOfWorth(db, employee, w);
    forall o | o in db.orders ensures Worth(db, employee, w)(o) == Earned(db, employee, w)(o) {
      DueIffTakes(db, employee, w, o);
      WorthIsRate(db, employee, w, o);
      if a :| Due(db, employee, w, a, o) { EarnedIsRate(db, employee, w, a, o); }
    }
    SumCongruent(db.orders, Worth(db, employee, w), Earned(db, employee, w));
  }

  /** Afterwards exactly the due orders are linked to the report, and nothing else about the orders has changed. */
  ghost predicate LinkColumns(before: Db, employee: int, w: Window, report: int, after: Db) {
    && |after.orders| == |before.orders| && after.assignments == before.assignments
    && forall i | 0 <= i < |before.orders| ::
         after.orders[i] == if DueTo(before, employee, w, before.orders[i])
                            then before.orders[i].(employeeReportId := Some(report)) else before.orders[i]
  }

  lemma LinkedColumns(db: Db, employee: int, w: Window)
    requires DistinctIds(db.orders)
    ensures LinkColumns(db, employee, w, db.nextReport, Committed(db, Planned(db, employee, w)))
  {
    var ids := EmployeeOrderIDs(db, employee, w);
    MapKeepsIds(db.orders, Link(ids, db.nextReport));
    forall i | 0 <= i < |db.orders| ensures db.orders[i].id in ids <==> DueTo(db, employee, w, db.orders[i]) {
      FetchedIffTaken(db, employee, w, db.orders[i]);
      DueIffTakes(db, employee, w, db.orders[i]);
    }
  }

  /** One line of the details: a client the employee actively holds, its due orders by governorate and what they
      earn. */
  lemma DetailColumns(db: Db, w: Window, a: Assignment)
    ensures var d, os := DetailOf(db, w, a), EligibleOf(db, w, a);
            && d.clientId == a.clientId
            && d.baghdadCount == |Select(os, (o: Order) => o.governorate == BAGHDAD)|
            && d.govCount == |Select(os, (o: Order) => o.governorate != BAGHDAD)|
            && d.baghdadTotal == d.baghdadCount as real * a.baghdadOrderCost
            && d.govTotal == d.govCount as real * a.govOrderCost
  {
    var os := EligibleOf(db, w, a);
    SelectCongruent(os, IsBaghdad, (o: Order) => o.governorate == BAGHDAD);
    SelectCongruent(os, (o: Order) => !IsBaghdad(o), (o: Order) => o.governorate != BAGHDAD);
  }

  /** The details hold a line for exactly the actively held clients with due orders. */
  lemma {:induction false} DetailsColumns(db: Db, w: Window, rows: seq<Assignment>, d: Detail)
    ensures d in Details(db, w, rows) <==>
            exists a :: a in rows && d == DetailOf(db, w, a) && EligibleOf(db, w, a) != []
  {
    if rows != [] {
      var first := rows[0];
      DetailsColumns(db, w, rows[1..], d);
      CountsTimesRates(EligibleOf(db, w, first), first);
      assert forall a :: a in rows <==> a == first || a in rows[1..];
    }
  }

  /** A client is refused exactly when another employee holds it; otherwise it has the given row and no other. */
  lemma UpsertColumns(db: Db, a: Assignment)
    requires DistinctClients(db.assignments)
    ensures Upserted(db, a).Err?
            <==> exists x :: x in db.assignments && x.clientId == a.clientId && x.employeeId != a.employeeId
    ensures Upserted(db, a).Ok? ==>
              && Upserted(db, a).value == db.(assignments := Upserted(db, a).value.assignments)
              && forall x :: x in Upserted(db, a).value.assignments
                             <==> x == a || (x in db.assignments && x.clientId != a.clientId)
  {
    FindClientSound(db.assignments, a.clientId);
    var rows := db.assignments;
    match FindClient(rows, a.clientId)
    case None =>
    case Some(i) =>
      forall x | x in rows && x.clientId == a.clientId ensures x == rows[i] {
        var k :| 0 <= k < |rows| && rows[k] == x;
      }
      forall x ensures x in rows[i := a] <==> x == a || (x in rows && x.clientId != a.clientId) {
        if x in rows && x.clientId != a.clientId {
          var k :| 0 <= k < |rows| && rows[k] == x;
          assert rows[i := a][k] == x;
        }
        if x in rows[i := a] && x != a {
          var k :| 0 <= k < |rows| && rows[i := a][k] == x;
          assert k != i;
        }
        assert rows[i := a][i] == a;
      }
  }
}
