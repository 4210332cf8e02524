/** The daily profit snapshot (src/cron-jobs/computeProfit.job.ts): three groups of orders per branch,
    a per-branch upsert, and what the stored rows add up to over a company and over time. */
module DailyProfit {
  import opened Schema
  import opened Sums

  datatype Db = Db(orders: seq<Order>, clients: map<int, Client>, branches: seq<Branch>)

  datatype BranchProfit = BranchProfit(insideProfit: Money, receivedProfit: Money, forwardedProfit: Money,
                                       insideCount: nat, receivedCount: nat, forwardedCount: nat)

  // ---------------------------------------------------------------- the three queries

  /** The company, deletion, confirmation, status and date conditions every group shares, and the join with Client. */
  predicate InBase(db: Db, company: int, from: int, to: int, o: Order) {
    && o.clientId in db.clients
    && o.companyId == company && !o.deleted && o.confirmed && Completed(o.status)
    && o.deliveriedAt.Some? && from <= o.deliveriedAt.value < to
  }

  /** A null client branch fails `<>` but satisfies `IS DISTINCT FROM`. */
  predicate IsInside(db: Db, b: int, scoped: bool, o: Order) {
    var cb := ClientBranch(db.clients, o);
    if scoped then cb.Some? && cb.value != b && o.branchId != cb
    else o.branchId == Some(b) && cb == Some(b)
  }

  predicate IsReceived(db: Db, b: int, o: Order) {
    o.branchId == Some(b) && ClientBranch(db.clients, o) != Some(b)
  }

  predicate IsForwarded(db: Db, b: int, o: Order) {
    o.branchId != Some(b) && ClientBranch(db.clients, o) == Some(b)
  }

  function ComputeBranchDayProfit(db: Db, company: int, b: int, scoped: bool, from: int, to: int): BranchProfit {
    var inside := Select(db.orders, (o: Order) => InBase(db, company, from, to, o) && IsInside(db, b, scoped, o));
    var received := Select(db.orders, (o: Order) => InBase(db, company, from, to, o) && IsReceived(db, b, o));
    var forwarded := Select(db.orders, (o: Order) => InBase(db, company, from, to, o) && IsForwarded(db, b, o));
    BranchProfit(
      if scoped then
        N(SqlSum(inside, (o: Order) => o.forwardedBranchNet)) - N(SqlSum(inside, (o: Order) => o.receivingBranchNet))
      else
        N(SqlSum(inside, (o: Order) => o.insideBranchNet)),
      N(SqlSum(received, (o: Order) => o.receivingBranchNet)) - N(SqlSum(received, (o: Order) => o.deliveryAgentNet)),
      if scoped then
        N(SqlSum(forwarded, (o: Order) => o.deliveryCost)) - N(SqlSum(forwarded, (o: Order) => o.receivingBranchNet))
      else
        N(SqlSum(forwarded, (o: Order) => o.deliveryCost)) - N(SqlSum(forwarded, (o: Order) => o.forwardedBranchNet)),
      |inside|, |received|, |forwarded|)
  }

  function Total(p: BranchProfit): Money {
    p.insideProfit + p.receivedProfit + p.forwardedProfit
  }

  // ---------------------------------------------------------------- each group as a sum over all orders

  ghost function InsidePart(db: Db, company: int, b: int, scoped: bool, from: int, to: int, o: Order): Money {
    if InBase(db, company, from, to, o) && IsInside(db, b, scoped, o) then
      if scoped then o.forwardedBranchNet - o.receivingBranchNet else o.insideBranchNet
    else 0.0
  }

  ghost function ReceivedPart(db: Db, company: int, b: int, from: int, to: int, o: Order): Money {
    if InBase(db, company, from, to, o) && IsReceived(db, b, o)
    then o.receivingBranchNet - o.deliveryAgentNet else 0.0
  }

  ghost function ForwardedPart(db: Db, company: int, b: int, scoped: bool, from: int, to: int, o: Order): Money {
    if InBase(db, company, from, to, o) && IsForwarded(db, b, o)
    then o.deliveryCost - (if scoped then o.receivingBranchNet else o.forwardedBranchNet) else 0.0
  }

  ghost function InsideShare(db: Db, company: int, b: int, scoped: bool, from: int, to: int): Order -> Money {
    (o: Order) => InsidePart(db, company, b, scoped, from, to, o)
  }

  ghost function ReceivedShare(db: Db, company: int, b: int, from: int, to: int): Order -> Money {
    (o: Order) => ReceivedPart(db, company, b, from, to, o)
  }

  ghost function ForwardedShare(db: Db, company: int, b: int, scoped: bool, from: int, to: int): Order -> Money {
    (o: Order) => ForwardedPart(db, company, b, scoped, from, to, o)
  }

  /** A difference of two SQL sums over the same rows is one sum of differences. */
  lemma DifferenceOfSqlSums(s: seq<Order>, p: Order -> bool, f: Order -> Money, g: Order -> Money, h: Order -> Money)
    requires forall o | o in s :: h(o) == if p(o) then f(o) - g(o) else 0.0
    ensures N(SqlSum(Select(s, p), f)) - N(SqlSum(Select(s, p), g)) == Sum(s, h)
  {
    var f0 := (o: Order) => if p(o) then f(o) else 0.0;
    var g0 := (o: Order) => if p(o) then g(o) else 0.0;
    SumSelected(s, p, f, f0);
    SumSelected(s, p, g, g0);
    SumOfSums(s, h, g0, f0);
  }

  ghost function InsideTest(db: Db, company: int, b: int, scoped: bool, from: int, to: int): Order -> bool {
    (o: Order) => InBase(db, company, from, to, o) && IsInside(db, b, scoped, o)
  }

  ghost function ReceivedTest(db: Db, company: int, b: int, from: int, to: int): Order -> bool {
    (o: Order) => InBase(db, company, from, to, o) && IsReceived(db, b, o)
  }

  ghost function ForwardedTest(db: Db, company: int, b: int, from: int, to: int): Order -> bool {
    (o: Order) => InBase(db, company, from, to, o) && IsForwarded(db, b, o)
  }

  /** The counts are sums of ones over the same orders as the profits. */
  lemma CountsAreSums(db: Db, company: int, b: int, scoped: bool, from: int, to: int)
    ensures var p := ComputeBranchDayProfit(db, company, b, scoped, from, to);
            && p.insideCount as real == Sum(db.orders, Ones(InsideTest(db, company, b, scoped, from, to)))
            && p.receivedCount as real == Sum(db.orders, Ones(ReceivedTest(db, company, b, from, to)))
            && p.forwardedCount as real == Sum(db.orders, Ones(ForwardedTest(db, company, b, from, to)))
  {
    var inside, received, forwarded := InsideTest(db, company, b, scoped, from, to),
      ReceivedTest(db, company, b, from, to), ForwardedTest(db, company, b, from, to);
    CountIsSum(db.orders, inside);
    CountIsSum(db.orders, received);
    CountIsSum(db.orders, forwarded);
    SelectCongruent(db.orders, inside, (o: Order) => InBase(db, company, from, to, o) && IsInside(db, b, scoped, o));
    SelectCongruent(db.orders, received, (o: Order) => InBase(db, company, from, to, o) && IsReceived(db, b, o));
    SelectCongruent(db.orders, forwarded, (o: Order) => InBase(db, company, from, to, o) && IsForwarded(db, b, o));
  }

  lemma GroupsAreSums(db: Db, company: int, b: int, scoped: bool, from: int, to: int)
    ensures var p := ComputeBranchDayProfit(db, company, b, scoped, from, to);
            && p.insideProfit == Sum(db.orders, InsideShare(db, company, b, scoped, from, to))
            && p.receivedProfit == Sum(db.orders, ReceivedShare(db, company, b, from, to))
            && p.forwardedProfit == Sum(db.orders, ForwardedShare(db, company, b, scoped, from, to))
  {
    var isInside := (o: Order) => InBase(db, company, from, to, o) && IsInside(db, b, scoped, o);
    var inside := InsideShare(db, company, b, scoped, from, to);
    if scoped {
      DifferenceOfSqlSums(db.orders, isInside, (o: Order) => o.forwardedBranchNet, (o: Order) => o.receivingBranchNet,
                          inside);
    } else {
      SumSelected(db.orders, isInside, (o: Order) => o.insideBranchNet, inside);
    }
    DifferenceOfSqlSums(db.orders, (o: Order) => InBase(db, company, from, to, o) && IsReceived(db, b, o),
                        (o: Order) => o.receivingBranchNet, (o: Order) => o.deliveryAgentNet,
                        ReceivedShare(db, company, b, from, to));
    var isForwarded := (o: Order) => InBase(db, company, from, to, o) && IsForwarded(db, b, o);
    if scoped {
      DifferenceOfSqlSums(db.orders, isForwarded, (o: Order) => o.deliveryCost, (o: Order) => o.receivingBranchNet,
                          ForwardedShare(db, company, b, scoped, from, to));
    } else {
      DifferenceOfSqlSums(db.orders, isForwarded, (o: Order) => o.deliveryCost, (o: Order) => o.forwardedBranchNet,
                          ForwardedShare(db, company, b, scoped, from, to));
    }
  }

  // ---------------------------------------------------------------- all branches of a company

  predicate IsMain(b: Branch) { b.mainRepositories > 0 }

  function CompanyBranches(db: Db, company: int): seq<Branch> {
    Select(db.branches, (b: Branch) => b.companyId == company)
  }

  ghost predicate DistinctBranches(bs: seq<Branch>) {
    forall i, j :: 0 <= i < j < |bs| ==> bs[i].id != bs[j].id
  }

  ghost function BranchTotals(db: Db, company: int, from: int, to: int): Branch -> Money {
    (b: Branch) => Total(ComputeBranchDayProfit(db, company, b.id, IsMain(b), from, to))
  }

  /** What one order contributes to one branch. */
  ghost function Share(db: Db, company: int, from: int, to: int): (Branch, Order) -> Money {
    (b: Branch, o: Order) =>
      InsidePart(db, company, b.id, IsMain(b), from, to, o)
      + ReceivedPart(db, company, b.id, from, to, o)
      + ForwardedPart(db, company, b.id, IsMain(b), from, to, o)
  }

  lemma BranchTotalIsSum(db: Db, company: int, from: int, to: int, b: Branch)
    ensures BranchTotals(db, company, from, to)(b)
            == Sum(db.orders, Column(b, Share(db, company, from, to)))
  {
    GroupsAreSums(db, company, b.id, IsMain(b), from, to);
    var i, r, f := InsideShare(db, company, b.id, IsMain(b), from, to), ReceivedShare(db, company, b.id, from, to),
      ForwardedShare(db, company, b.id, IsMain(b), from, to);
    var ir := (o: Order) => i(o) + r(o);
    SumOfSums(db.orders, i, r, ir);
    SumOfSums(db.orders, ir, f, Column(b, Share(db, company, from, to)));
  }

  ghost predicate Listed(bs: seq<Branch>, id: Option<int>) {
    id.Some? && exists b :: b in bs && b.id == id.value
  }

  ghost predicate ListedOrdinary(bs: seq<Branch>, id: Option<int>) {
    id.Some? && exists b :: b in bs && b.id == id.value && !IsMain(b)
  }

  ghost function MainCount(bs: seq<Branch>): nat {
    |Select(bs, IsMain)|
  }

  predicate CrossBranch(db: Db, o: Order) {
    o.branchId != ClientBranch(db.clients, o)
  }

  /** What one order contributes to all of bs together: each leg only if its branch is listed, and the
      main branch's margin once per branch that owns a main repository. */
  ghost function CompanyShare(db: Db, bs: seq<Branch>, company: int, from: int, to: int): Order -> Money {
    (o: Order) =>
      if !InBase(db, company, from, to, o) then 0.0
      else if CrossBranch(db, o) then
        (if Listed(bs, ClientBranch(db.clients, o)) then o.deliveryCost - o.forwardedBranchNet else 0.0)
        + (if Listed(bs, o.branchId) then o.receivingBranchNet - o.deliveryAgentNet else 0.0)
        + (if ClientBranch(db.clients, o).Some? then Repeat(MainCount(bs), o.forwardedBranchNet - o.receivingBranchNet)
           else 0.0)
      else if ListedOrdinary(bs, o.branchId) then o.insideBranchNet
      else 0.0
  }

  lemma {:induction false} SumPerMain(bs: seq<Branch>, x: Money, f: Branch -> Money)
    requires forall b | b in bs :: f(b) == if IsMain(b) then x else 0.0
    ensures Sum(bs, f) == Repeat(MainCount(bs), x)
  {
    if bs != [] { SumPerMain(bs[1..], x, f); }
  }

  ghost function ForwardLeg(db: Db, o: Order): Branch -> Money {
    (b: Branch) => if ClientBranch(db.clients, o) == Some(b.id) then o.deliveryCost - o.forwardedBranchNet else 0.0
  }

  ghost function ReceiveLeg(o: Order): Branch -> Money {
    (b: Branch) => if o.branchId == Some(b.id) then o.receivingBranchNet - o.deliveryAgentNet else 0.0
  }

  ghost function MainLeg(db: Db, o: Order): Branch -> Money {
    (b: Branch) =>
      if ClientBranch(db.clients, o).Some? && IsMain(b) then o.forwardedBranchNet - o.receivingBranchNet else 0.0
  }

  /** Per branch, the three groups of a cross-branch order regroup into three legs. */
  lemma SharesAreLegs(db: Db, company: int, from: int, to: int, b: Branch, o: Order)
    requires InBase(db, company, from, to, o) && CrossBranch(db, o)
    ensures Share(db, company, from, to)(b, o) == ForwardLeg(db, o)(b) + ReceiveLeg(o)(b) + MainLeg(db, o)(b)
  {
  }

  lemma CrossSharesTelescope(db: Db, bs: seq<Branch>, company: int, from: int, to: int, o: Order)
    requires DistinctBranches(bs) && InBase(db, company, from, to, o) && CrossBranch(db, o)
    ensures Sum(bs, Row(o, Share(db, company, from, to))) == CompanyShare(db, bs, company, from, to)(o)
  {
    var share := Row(o, Share(db, company, from, to));
    var cb := ClientBranch(db.clients, o);
    var forwardLeg, receiveLeg, mainLeg := ForwardLeg(db, o), ReceiveLeg(o), MainLeg(db, o);
    var outer := (b: Branch) => forwardLeg(b) + receiveLeg(b);
    SumAtMostOnce(bs, (b: Branch) => cb == Some(b.id), o.deliveryCost - o.forwardedBranchNet, forwardLeg);
    SumAtMostOnce(bs, (b: Branch) => o.branchId == Some(b.id), o.receivingBranchNet - o.deliveryAgentNet, receiveLeg);
    if cb.Some? {
      SumPerMain(bs, o.forwardedBranchNet - o.receivingBranchNet, mainLeg);
    } else {
      SumZero(bs, mainLeg);
    }
    SumOfSums(bs, forwardLeg, receiveLeg, outer);
    forall b | b in bs ensures share(b) == outer(b) + mainLeg(b) {
      SharesAreLegs(db, company, from, to, b, o);
    }
    SumOfSums(bs, outer, mainLeg, share);
  }

  lemma InsideShareOnce(db: Db, bs: seq<Branch>, company: int, from: int, to: int, o: Order)
    requires DistinctBranches(bs) && InBase(db, company, from, to, o) && !CrossBranch(db, o)
    ensures Sum(bs, Row(o, Share(db, company, from, to))) == CompanyShare(db, bs, company, from, to)(o)
  {
    var share := Row(o, Share(db, company, from, to));
    var own := (b: Branch) => o.branchId == Some(b.id) && !IsMain(b);
    SumAtMostOnce(bs, own, o.insideBranchNet, share);
  }

  /** The legs of one order telescope over distinct branches. */
  lemma OrderSharesTelescope(db: Db, bs: seq<Branch>, company: int, from: int, to: int, o: Order)
    requires DistinctBranches(bs)
    ensures Sum(bs, Row(o, Share(db, company, from, to))) == CompanyShare(db, bs, company, from, to)(o)
  {
    if !InBase(db, company, from, to, o) {
      SumZero(bs, Row(o, Share(db, company, from, to)));
    } else if CrossBranch(db, o) {
      CrossSharesTelescope(db, bs, company, from, to, o);
    } else {
      InsideShareOnce(db, bs, company, from, to, o);
    }
  }

  /** The company's profit for a window, as the branches report it, is a sum over its orders. */
  lemma CompanyProfitIsSumOverOrders(db: Db, bs: seq<Branch>, company: int, from: int, to: int)
    requires DistinctBranches(bs)
    ensures Sum(bs, BranchTotals(db, company, from, to)) == Sum(db.orders, CompanyShare(db, bs, company, from, to))
  {
    var share := Share(db, company, from, to);
    forall b | b in bs ensures BranchTotals(db, company, from, to)(b) == ColumnTotals(db.orders, share)(b) {
      BranchTotalIsSum(db, company, from, to, b);
    }
    SumCongruent(bs, BranchTotals(db, company, from, to), ColumnTotals(db.orders, share));
    SumSwap(bs, db.orders, share);
    forall o | o in db.orders ensures RowTotals(bs, share)(o) == CompanyShare(db, bs, company, from, to)(o) {
      OrderSharesTelescope(db, bs, company, from, to, o);
    }
    SumCongruent(db.orders, RowTotals(bs, share), CompanyShare(db, bs, company, from, to));
  }

  // ---------------------------------------------------------------- conservation

  /** Delivery cost minus agent pay for a cross-branch order, the stored inside net for one kept in an ordinary
      branch. */
  ghost function OrderValue(db: Db, bs: seq<Branch>, company: int, from: int, to: int): Order -> Money {
    (o: Order) =>
      if !InBase(db, company, from, to, o) then 0.0
      else if CrossBranch(db, o) then o.deliveryCost - o.deliveryAgentNet
      else if ListedOrdinary(bs, o.branchId) then o.insideBranchNet
      else 0.0
  }

  /** The margin between the two branch nets of a cross-branch order. */
  ghost function MainMargin(db: Db, company: int, from: int, to: int): Order -> Money {
    (o: Order) =>
      if InBase(db, company, from, to, o) && CrossBranch(db, o)
      then o.forwardedBranchNet - o.receivingBranchNet else 0.0
  }

  /** Every counted order starts and ends in a branch of the list. */
  ghost predicate ClosedOver(db: Db, bs: seq<Branch>, company: int, from: int, to: int) {
    forall o | o in db.orders && InBase(db, company, from, to, o) ::
      Listed(bs, o.branchId) && Listed(bs, ClientBranch(db.clients, o))
  }

  /** With k main branches the branches report, above the orders' value, k copies of the main margin where one is
      due. */
  lemma ConservationDefect(db: Db, bs: seq<Branch>, company: int, from: int, to: int)
    requires DistinctBranches(bs) && ClosedOver(db, bs, company, from, to)
    ensures var margin := Sum(db.orders, MainMargin(db, company, from, to));
            Sum(bs, BranchTotals(db, company, from, to)) + margin
            == Sum(db.orders, OrderValue(db, bs, company, from, to)) + Repeat(MainCount(bs), margin)
  {
    CompanyProfitIsSumOverOrders(db, bs, company, from, to);
    var margin, value, share := MainMargin(db, company, from, to), OrderValue(db, bs, company, from, to),
      CompanyShare(db, bs, company, from, to);
    var copies := (o: Order) => Repeat(MainCount(bs), margin(o));
    var both := (o: Order) => value(o) + copies(o);
    RepeatZeroIff(MainCount(bs), 0.0);
    SumRepeated(db.orders, MainCount(bs), margin, copies);
    SumOfSums(db.orders, value, copies, both);
    SumOfSums(db.orders, share, margin, both);
  }

  /** Company profit is conserved exactly when there is one main branch or the margins cancel out. */
  lemma ConservationIff(db: Db, bs: seq<Branch>, company: int, from: int, to: int)
    requires DistinctBranches(bs) && ClosedOver(db, bs, company, from, to)
    ensures Sum(bs, BranchTotals(db, company, from, to)) == Sum(db.orders, OrderValue(db, bs, company, from, to))
            <==> MainCount(bs) == 1 || Sum(db.orders, MainMargin(db, company, from, to)) == 0.0
  {
    ConservationDefect(db, bs, company, from, to);
    var k, m := MainCount(bs), Sum(db.orders, MainMargin(db, company, from, to));
    if k > 0 { RepeatZeroIff(k - 1, m); }
  }

  // ---------------------------------------------------------------- a day is a sum over any partition of its window

  function AddProfit(p: BranchProfit, q: BranchProfit): BranchProfit {
    BranchProfit(p.insideProfit + q.insideProfit, p.receivedProfit + q.receivedProfit,
                 p.forwardedProfit + q.forwardedProfit,
                 p.insideCount + q.insideCount, p.receivedCount + q.receivedCount, p.forwardedCount + q.forwardedCount)
  }

  lemma SumsTile(db: Db, company: int, b: int, scoped: bool, from: int, mid: int, to: int)
    requires from <= mid <= to
    ensures var p, q, r := ComputeBranchDayProfit(db, company, b, scoped, from, mid),
                           ComputeBranchDayProfit(db, company, b, scoped, mid, to),
                           ComputeBranchDayProfit(db, company, b, scoped, from, to);
            && r.insideProfit == p.insideProfit + q.insideProfit
            && r.receivedProfit == p.receivedProfit + q.receivedProfit
            && r.forwardedProfit == p.forwardedProfit + q.forwardedProfit
  {
    GroupsAreSums(db, company, b, scoped, from, mid);
    GroupsAreSums(db, company, b, scoped, mid, to);
    GroupsAreSums(db, company, b, scoped, from, to);
    SumOfSums(db.orders, InsideShare(db, company, b, scoped, from, mid), InsideShare(db, company, b, scoped, mid, to),
              InsideShare(db, company, b, scoped, from, to));
    SumOfSums(db.orders, ReceivedShare(db, company, b, from, mid), ReceivedShare(db, company, b, mid, to),
              ReceivedShare(db, company, b, from, to));
    SumOfSums(db.orders, ForwardedShare(db, company, b, scoped, from, mid),
              ForwardedShare(db, company, b, scoped, mid, to), ForwardedShare(db, company, b, scoped, from, to));
  }

  lemma CountsTile(db: Db, company: int, b: int, scoped: bool, from: int, mid: int, to: int)
    requires from <= mid <= to
    ensures var p, q, r := ComputeBranchDayProfit(db, company, b, scoped, from, mid),
                           ComputeBranchDayProfit(db, company, b, scoped, mid, to),
                           ComputeBranchDayProfit(db, company, b, scoped, from, to);
            && r.insideCount == p.insideCount + q.insideCount
            && r.receivedCount == p.receivedCount + q.receivedCount
            && r.forwardedCount == p.forwardedCount + q.forwardedCount
  {
    SelectSplits(db.orders, (o: Order) => InBase(db, company, from, mid, o) && IsInside(db, b, scoped, o),
                (o: Order) => InBase(db, company, mid, to, o) && IsInside(db, b, scoped, o),
                (o: Order) => InBase(db, company, from, to, o) && IsInside(db, b, scoped, o));
    SelectSplits(db.orders, (o: Order) => InBase(db, company, from, mid, o) && IsReceived(db, b, o),
                (o: Order) => InBase(db, company, mid, to, o) && IsReceived(db, b, o),
                (o: Order) => InBase(db, company, from, to, o) && IsReceived(db, b, o));
    SelectSplits(db.orders, (o: Order) => InBase(db, company, from, mid, o) && IsForwarded(db, b, o),
                (o: Order) => InBase(db, company, mid, to, o) && IsForwarded(db, b, o),
                (o: Order) => InBase(db, company, from, to, o) && IsForwarded(db, b, o));
  }

  /** Two adjacent half-open windows together give the window that spans them, in every column. */
  lemma WindowsTile(db: Db, company: int, b: int, scoped: bool, from: int, mid: int, to: int)
    requires from <= mid <= to
    ensures ComputeBranchDayProfit(db, company, b, scoped, from, to)
            == AddProfit(ComputeBranchDayProfit(db, company, b, scoped, from, mid),
                         ComputeBranchDayProfit(db, company, b, scoped, mid, to))
  {
    SumsTile(db, company, b, scoped, from, mid, to);
    CountsTile(db, company, b, scoped, from, mid, to);
  }

  // ---------------------------------------------------------------- order tables that agree on a window

  predicate DeliveredIn(from: int, to: int, o: Order) {
    o.deliveriedAt.Some? && from <= o.deliveriedAt.value < to
  }

  /** The same orders were delivered in the window, for clients in the same branches. */
  ghost predicate AgreeOn(d: Db, db: Db, from: int, to: int) {
    && DeliveredRows(d, from, to) == DeliveredRows(db, from, to)
    && forall o | o in DeliveredRows(db, from, to) ::
         && (o.clientId in d.clients <==> o.clientId in db.clients)
         && ClientBranch(d.clients, o) == ClientBranch(db.clients, o)
  }

  ghost function DeliveredRows(db: Db, from: int, to: int): seq<Order> {
    Select(db.orders, (o: Order) => DeliveredIn(from, to, o))
  }

  lemma AgreeOnTest(d: Db, db: Db, from: int, to: int, p: Order -> bool, q: Order -> bool)
    requires AgreeOn(d, db, from, to)
    requires forall o | p(o) || q(o) :: DeliveredIn(from, to, o)
    requires forall o | o in DeliveredRows(db, from, to) :: p(o) == q(o)
    ensures Select(d.orders, p) == Select(db.orders, q)
  {
    var delivered := (o: Order) => DeliveredIn(from, to, o);
    SelectTwice(d.orders, delivered, p, p);
    SelectTwice(db.orders, delivered, q, q);
    SelectCongruent(DeliveredRows(db, from, to), p, q);
  }

  /** A branch's profit in a window depends only on what was delivered in it. */
  lemma AgreeingProfits(d: Db, db: Db, company: int, b: int, scoped: bool, from: int, to: int)
    requires AgreeOn(d, db, from, to)
    ensures ComputeBranchDayProfit(d, company, b, scoped, from, to)
         == ComputeBranchDayProfit(db, company, b, scoped, from, to)
  {
    AgreeOnTest(d, db, from, to, (o: Order) => InBase(d, company, from, to, o) && IsInside(d, b, scoped, o),
                (o: Order) => InBase(db, company, from, to, o) && IsInside(db, b, scoped, o));
    AgreeOnTest(d, db, from, to, (o: Order) => InBase(d, company, from, to, o) && IsReceived(d, b, o),
                (o: Order) => InBase(db, company, from, to, o) && IsReceived(db, b, o));
    AgreeOnTest(d, db, from, to, (o: Order) => InBase(d, company, from, to, o) && IsForwarded(d, b, o),
                (o: Order) => InBase(db, company, from, to, o) && IsForwarded(db, b, o));
  }

  // ---------------------------------------------------------------- in the columns of the tables

  lemma EmptyTable(clients: map<int, Client>, branches: seq<Branch>, company: int, b: int, scoped: bool, from: int,
                   to: int)
    ensures ComputeBranchDayProfit(Db([], clients, branches), company, b, scoped, from, to)
         == BranchProfit(0.0, 0.0, 0.0, 0, 0, 0)
  {
  }

  lemma AppendedSum(rows: seq<Order>, o: Order, f: Order -> Money)
    ensures N(SqlSum(rows + [o], f)) == N(SqlSum(rows, f)) + f(o)
  {
    SumAppend(rows, [o], f);
  }

  lemma AppendedSelection(db: Db, o: Order, p: Order -> bool, q: Order -> bool)
    requires forall x :: p(x) == q(x)
    ensures Select(db.orders + [o], p) == Select(db.orders, q) + if q(o) then [o] else []
  {
    SelectAppend(db.orders, [o], p);
    SelectCongruent(db.orders, p, q);
  }

  /** The group a new row joins, or does not. */
  lemma AppendedGroup(db: Db, o: Order, p: Order -> bool, q: Order -> bool, f: Order -> Money)
    requires forall x :: p(x) == q(x)
    ensures var before, after := Select(db.orders, q), Select(db.orders + [o], p);
            && |after| == |before| + (if q(o) then 1 else 0)
            && N(SqlSum(after, f)) == N(SqlSum(before, f)) + if q(o) then f(o) else 0.0
  {
    AppendedSelection(db, o, p, q);
    var before := Select(db.orders, q);
    assert before + [] == before;
    if q(o) { AppendedSum(before, o, f); }
  }

  lemma AppendedInside(db: Db, o: Order, company: int, b: int, scoped: bool, from: int, to: int)
    ensures var before := ComputeBranchDayProfit(db, company, b, scoped, from, to);
            var after := ComputeBranchDayProfit(db.(orders := db.orders + [o]), company, b, scoped, from, to);
            var joins := InBase(db, company, from, to, o) && IsInside(db, b, scoped, o);
            && after.insideCount == before.insideCount + (if joins then 1 else 0)
            && after.insideProfit == before.insideProfit
               + if !joins then 0.0
                  else if scoped then o.forwardedBranchNet - o.receivingBranchNet else o.insideBranchNet
  {
    var next := db.(orders := db.orders + [o]);
    var p := (x: Order) => InBase(next, company, from, to, x) && IsInside(next, b, scoped, x);
    var q := (x: Order) => InBase(db, company, from, to, x) && IsInside(db, b, scoped, x);
    AppendedGroup(db, o, p, q, (x: Order) => x.forwardedBranchNet);
    AppendedGroup(db, o, p, q, (x: Order) => x.receivingBranchNet);
    AppendedGroup(db, o, p, q, (x: Order) => x.insideBranchNet);
  }

  lemma AppendedReceived(db: Db, o: Order, company: int, b: int, scoped: bool, from: int, to: int)
    ensures var before := ComputeBranchDayProfit(db, company, b, scoped, from, to);
            var after := ComputeBranchDayProfit(db.(orders := db.orders + [o]), company, b, scoped, from, to);
            var joins := InBase(db, company, from, to, o) && IsReceived(db, b, o);
            && after.receivedCount == before.receivedCount + (if joins then 1 else 0)
            && after.receivedProfit == before.receivedProfit
               + if joins then o.receivingBranchNet - o.deliveryAgentNet else 0.0
  {
    var next := db.(orders := db.orders + [o]);
    var p := (x: Order) => InBase(next, company, from, to, x) && IsReceived(next, b, x);
    var q := (x: Order) => InBase(db, company, from, to, x) && IsReceived(db, b, x);
    AppendedGroup(db, o, p, q, (x: Order) => x.receivingBranchNet);
    AppendedGroup(db, o, p, q, (x: Order) => x.deliveryAgentNet);
  }

  lemma AppendedForwarded(db: Db, o: Order, company: int, b: int, scoped: bool, from: int, to: int)
    ensures var before := ComputeBranchDayProfit(db, company, b, scoped, from, to);
            var after := ComputeBranchDayProfit(db.(orders := db.orders + [o]), company, b, scoped, from, to);
            var joins := InBase(db, company, from, to, o) && IsForwarded(db, b, o);
            && after.forwardedCount == before.forwardedCount + (if joins then 1 else 0)
            && after.forwardedProfit == before.forwardedProfit
               + if !joins then 0.0
                 else if scoped then o.deliveryCost - o.receivingBranchNet else o.deliveryCost - o.forwardedBranchNet
  {
    var next := db.(orders := db.orders + [o]);
    var p := (x: Order) => InBase(next, company, from, to, x) && IsForwarded(next, b, x);
    var q := (x: Order) => InBase(db, company, from, to, x) && IsForwarded(db, b, x);
    AppendedGroup(db, o, p, q, (x: Order) => x.deliveryCost);
    AppendedGroup(db, o, p, q, (x: Order) => x.receivingBranchNet);
    AppendedGroup(db, o, p, q, (x: Order) => x.forwardedBranchNet);
  }

  /** An order that is deleted, unconfirmed, not completed, of another company, without a client row or delivered
      outside the window changes no column. */
  lemma UncountedOrder(db: Db, o: Order, company: int, b: int, scoped: bool, from: int, to: int)
    requires || o.deleted || !o.confirmed || o.companyId != company || o.clientId !in db.clients
             || o.status !in {DELIVERED, PARTIALLY_RETURNED, REPLACED}
             || o.deliveriedAt.None? || o.deliveriedAt.value < from || o.deliveriedAt.value >= to
    ensures ComputeBranchDayProfit(db.(orders := db.orders + [o]), company, b, scoped, from, to)
         == ComputeBranchDayProfit(db, company, b, scoped, from, to)
  {
    AppendedInside(db, o, company, b, scoped, from, to);
    AppendedReceived(db, o, company, b, scoped, from, to);
    AppendedForwarded(db, o, company, b, scoped, from, to);
  }

  /** Any other order adds one to exactly the counts its own branch and its client's branch name, and the amounts of its
      columns to those profits. A comparison with a missing client branch is not met. */
  lemma CountedOrder(db: Db, o: Order, client: Client, company: int, b: int, scoped: bool, from: int, to: int)
    requires !o.deleted && o.confirmed && o.companyId == company
             && o.status in {DELIVERED, PARTIALLY_RETURNED, REPLACED}
    requires o.clientId in db.clients && db.clients[o.clientId] == client
    requires o.deliveriedAt.Some? && from <= o.deliveriedAt.value < to
    ensures var before := ComputeBranchDayProfit(db, company, b, scoped, from, to);
            var after := ComputeBranchDayProfit(db.(orders := db.orders + [o]), company, b, scoped, from, to);
            var inside := if scoped then client.branchId.Some? && client.branchId.value != b
                                  && o.branchId != client.branchId
                          else o.branchId == Some(b) && client.branchId == Some(b);
            var received := o.branchId == Some(b) && client.branchId != Some(b);
            var forwarded := o.branchId != Some(b) && client.branchId == Some(b);
            && after.insideCount == before.insideCount + (if inside then 1 else 0)
            && after.receivedCount == before.receivedCount + (if received then 1 else 0)
            && after.forwardedCount == before.forwardedCount + (if forwarded then 1 else 0)
            && after.insideProfit == before.insideProfit
               + (if !inside then 0.0
                   else if scoped then o.forwardedBranchNet - o.receivingBranchNet else o.insideBranchNet)
            && after.receivedProfit == before.receivedProfit
               + (if received then o.receivingBranchNet - o.deliveryAgentNet else 0.0)
            && after.forwardedProfit == before.forwardedProfit
               + (if !forwarded then 0.0
                  else if scoped then o.deliveryCost - o.receivingBranchNet else o.deliveryCost - o.forwardedBranchNet)
  {
    AppendedInside(db, o, company, b, scoped, from, to);
    AppendedReceived(db, o, company, b, scoped, from, to);
    AppendedForwarded(db, o, company, b, scoped, from, to);
  }
}
