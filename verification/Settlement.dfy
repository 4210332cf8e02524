/** Settling the orders of a report (src/app/orders/orders.repository.ts, updateOrdersCosts2): per-order rows are
    computed in memory and written back in chunks. */
module Settlement {
  import opened Schema
  import opened Sums
  import Pricing

  /** An order as the report query returns it, with its branch, client, forwarding company and agent joined in. */
  datatype ReportOrder = ReportOrder(order: Order, branch: Option<Branch>, client: Client,
                                     forwarderActive: bool, forwarderCosts: seq<BranchCost>, agentCost: Option<Money>)

  datatype Costs = Costs(baghdadDeliveryCost: Option<Money>, governoratesDeliveryCost: Option<Money>,
                         deliveryAgentDeliveryCost: Option<Money>)

  datatype Kind = CLIENT_REPORT | BRANCH_REPORT(direction: Option<string>) | DELIVERY_AGENT_REPORT

  /** One computed row, holding the columns its report kind writes. */
  datatype Update =
    | ClientUpdate(id: string, deliveryCost: Money, clientNet: Money, insideBranchNet: Money)
    | BranchUpdate(id: string, branchNet: Money, forwardedBranchNet: Money, receivingBranchNet: Money)
    | AgentUpdate(id: string, deliveryAgentNet: Money, companyNet: Money)

  datatype Error = EmptyValues

  function BranchId(r: ReportOrder): Option<int> {
    if r.branch.Some? then Some(r.branch.value.id) else None
  }

  /** A child branch uses the row of its parent. */
  function CostRow(r: ReportOrder): Option<BranchCost> {
    if r.branch.Some? && r.branch.value.isChild then FindBranchCost(r.client.branchCosts, r.branch.value.parentBranchId)
    else FindBranchCost(r.client.branchCosts, BranchId(r))
  }

  // ---------------------------------------------------------------- the computed rows

  function ClientCost(c: Costs, r: ReportOrder): Money {
    if r.client.activeProfit && CostRow(r).Some? then Pricing.ActivePrice(CostRow(r).value)
    else if Or(c.baghdadDeliveryCost, 0.0) == 0.0 && Or(c.governoratesDeliveryCost, 0.0) == 0.0
    then FindCost(r.client.governoratesDeliveryCosts, r.order.governorate)
    else Or(if r.order.governorate == BAGHDAD then c.baghdadDeliveryCost else c.governoratesDeliveryCost,
            r.order.deliveryCost)
  }

  function ClientRow(c: Costs, r: ReportOrder): Update {
    var cost := ClientCost(c, r);
    ClientUpdate(r.order.id, cost, r.order.paidAmount - cost,
                 if BranchId(r).Some? && r.client.branchId == BranchId(r) then cost - r.order.deliveryAgentNet else 0.0)
  }

  function GivenBranchCost(c: Costs, direction: Option<string>, r: ReportOrder): Money {
    if r.client.activeProfit && CostRow(r).Some? && direction == Some("received")
    then CostRow(r).value.receivingBranchProfit + CostRow(r).value.deliveryAgentProfit
    else if r.client.activeProfit && CostRow(r).Some? && direction == Some("forwarded")
    then CostRow(r).value.receivingBranchProfit + CostRow(r).value.deliveryAgentProfit
         + CostRow(r).value.mainBranchProfit
    else Or(if r.order.governorate == BAGHDAD then c.baghdadDeliveryCost else c.governoratesDeliveryCost, 0.0)
  }

  /** A cost of 0 falls back on the branches' price lists. */
  function BranchCostOf(t: Pricing.Tables, c: Costs, direction: Option<string>, r: ReportOrder): Money {
    var given := GivenBranchCost(c, direction, r);
    if given != 0.0 then given
    else if direction == Some("forwarded")
    then FindCost(Pricing.ReceivingList(t, r.client.branchId), r.order.governorate)
    else if direction == Some("received") then FindCost(Pricing.ForwardedList(t, BranchId(r)), r.order.governorate)
    else 0.0
  }

  function BranchRow(t: Pricing.Tables, c: Costs, direction: Option<string>, r: ReportOrder): Update {
    var cost := BranchCostOf(t, c, direction, r);
    BranchUpdate(r.order.id, r.order.paidAmount - cost,
                 if direction == Some("forwarded") then cost else r.order.forwardedBranchNet,
                 if direction == Some("received") then cost else r.order.receivingBranchNet)
  }

  function BaseAgentPay(c: Costs, r: ReportOrder): Money {
    if Or(c.deliveryAgentDeliveryCost, 0.0) != 0.0 then c.deliveryAgentDeliveryCost.value else Or(r.agentCost, 0.0)
  }

  /** The row that caps the agent's pay: the forwarding company's if it has active profit, else the client's. */
  function CapRow(r: ReportOrder): Option<BranchCost> {
    if r.forwarderActive then FindBranchCost(r.forwarderCosts, BranchId(r))
    else if r.client.activeProfit then FindBranchCost(r.client.branchCosts, BranchId(r))
    else None
  }

  function AgentPay(c: Costs, r: ReportOrder): Money {
    var base := BaseAgentPay(c, r);
    match CapRow(r)
    case None => base
    case Some(row) => if base > row.receivingBranchProfit then row.receivingBranchProfit - 250.0 else base - 250.0
  }

  function AgentRow(c: Costs, r: ReportOrder): Update {
    AgentUpdate(r.order.id, AgentPay(c, r), r.order.paidAmount - AgentPay(c, r))
  }

  function ComputedRow(t: Pricing.Tables, kind: Kind, c: Costs, r: ReportOrder): Update {
    match kind
    case CLIENT_REPORT => ClientRow(c, r)
    case BRANCH_REPORT(direction) => BranchRow(t, c, direction, r)
    case DELIVERY_AGENT_REPORT => AgentRow(c, r)
  }

  function ComputedRows(t: Pricing.Tables, kind: Kind, c: Costs, rs: seq<ReportOrder>): seq<Update> {
    if rs == [] then []
    else ComputedRows(t, kind, c, rs[..|rs| - 1]) + [ComputedRow(t, kind, c, rs[|rs| - 1])]
  }

  // ---------------------------------------------------------------- writing back

  function Apply(u: Update, o: Order): Order {
    match u
    case ClientUpdate(_, cost, net, inside) => o.(deliveryCost := cost, clientNet := net, insideBranchNet := inside)
    case BranchUpdate(_, net, forwarded, receiving) =>
      o.(branchNet := net, forwardedBranchNet := forwarded, receivingBranchNet := receiving)
    case AgentUpdate(_, agent, company) => o.(deliveryAgentNet := agent, companyNet := company)
  }

  function FindUpdate(us: seq<Update>, id: string): Option<Update> {
    if us == [] then None else if us[0].id == id then Some(us[0]) else FindUpdate(us[1..], id)
  }

  /** `UPDATE ... FROM (VALUES ...)`: each listed order is overwritten once, all others stay. */
  function Written(rows: map<string, Order>, us: seq<Update>): map<string, Order> {
    map id | id in rows :: match FindUpdate(us, id) case None => rows[id] case Some(u) => Apply(u, rows[id])
  }

  ghost predicate DistinctUpdates(us: seq<Update>) {
    forall i, j :: 0 <= i < j < |us| ==> us[i].id != us[j].id
  }

  lemma {:induction false} FindInConcat(a: seq<Update>, b: seq<Update>, id: string)
    ensures FindUpdate(a + b, id) == if FindUpdate(a, id).Some? then FindUpdate(a, id) else FindUpdate(b, id)
  {
    if a == [] {
      assert a + b == b;
    } else {
      assert (a + b)[1..] == a[1..] + b;
      FindInConcat(a[1..], b, id);
    }
  }

  lemma {:induction false} FindAbsent(us: seq<Update>, id: string)
    ensures FindUpdate(us, id).None? <==> forall u | u in us :: u.id != id
    ensures FindUpdate(us, id).Some? ==> FindUpdate(us, id).value in us && FindUpdate(us, id).value.id == id
  {
    if us != [] { FindAbsent(us[1..], id); }
  }

  /** Writing two disjoint chunks one after the other is one write of both. */
  lemma WrittenInChunks(rows: map<string, Order>, a: seq<Update>, b: seq<Update>)
    requires DistinctUpdates(a + b)
    ensures Written(Written(rows, a), b) == Written(rows, a + b)
  {
    forall u, v | u in a && v in b ensures u.id != v.id {
      var i :| 0 <= i < |a| && a[i] == u;
      var j :| 0 <= j < |b| && b[j] == v;
      assert (a + b)[i] == u && (a + b)[|a| + j] == v;
    }
    forall id | id in rows ensures Written(Written(rows, a), b)[id] == Written(rows, a + b)[id] {
      FindInConcat(a, b, id);
      FindAbsent(a, id);
      FindAbsent(b, id);
    }
  }

  ghost predicate DistinctOrders(rs: seq<ReportOrder>) {
    forall i, j :: 0 <= i < j < |rs| ==> rs[i].order.id != rs[j].order.id
  }

  lemma {:induction false} ComputedRowsAt(t: Pricing.Tables, kind: Kind, c: Costs, rs: seq<ReportOrder>)
    ensures |ComputedRows(t, kind, c, rs)| == |rs|
    ensures forall i | 0 <= i < |rs| :: ComputedRows(t, kind, c, rs)[i] == ComputedRow(t, kind, c, rs[i])
    ensures DistinctOrders(rs) ==> DistinctUpdates(ComputedRows(t, kind, c, rs))
  {
    if rs != [] {
      ComputedRowsAt(t, kind, c, rs[..|rs| - 1]);
      forall i | 0 <= i < |rs| ensures ComputedRows(t, kind, c, rs)[i] == ComputedRow(t, kind, c, rs[i]) {
        if i < |rs| - 1 { assert rs[..|rs| - 1][i] == rs[i]; }
      }
    }
  }

  const CHUNK_SIZE: nat := 5000

  class OrdersTable {
    var rows: map<string, Order>

    method WriteChunks(us: seq<Update>)
      requires DistinctUpdates(us)
      modifies this
      ensures rows == Written(old(rows), us)
    {
      ghost var before := rows;
      ghost var done: nat := 0;
      var i: nat := 0;
      assert Written(before, []) == before;
      while i < |us|
        invariant done <= |us| && (done == i || (done == |us| && i >= |us|))
        invariant rows == Written(before, us[..done])
        decreases |us| - i
      {
        var end := if i + CHUNK_SIZE <= |us| then i + CHUNK_SIZE else |us|;
        var chunk := us[i..end];
        assert us[..i] + chunk == us[..end];
        WrittenInChunks(before, us[..i], chunk);
        rows := Written(rows, chunk);
        done := end;
        i := i + CHUNK_SIZE;
      }
      assert us[..|us|] == us;
    }

    /** Computes a row per order and writes each exactly once, touching no other order. Joining no values
        is an error, which only the delivery-agent branch does not guard against. */
    method UpdateOrdersCosts2(t: Pricing.Tables, kind: Kind, c: Costs, orders: seq<ReportOrder>)
      returns (r: Result<seq<Update>, Error>)
      requires DistinctOrders(orders)
      modifies this
      ensures r == if kind == DELIVERY_AGENT_REPORT && orders == [] then Err(EmptyValues)
                   else Ok(ComputedRows(t, kind, c, orders))
      ensures rows == if r.Ok? then Written(old(rows), r.value) else old(rows)
    {
      var updatedOrders: seq<Update> := [];
      for i := 0 to |orders|
        invariant updatedOrders == ComputedRows(t, kind, c, orders[..i])
        invariant rows == old(rows)
      {
        assert orders[..i + 1][..i] == orders[..i];
        updatedOrders := updatedOrders + [ComputedRow(t, kind, c, orders[i])];
      }
      assert orders[..|orders|] == orders;
      ComputedRowsAt(t, kind, c, orders);
      if kind == DELIVERY_AGENT_REPORT {
        if |updatedOrders| == 0 {
          return Err(EmptyValues);
        }
        rows := Written(rows, updatedOrders);
      } else {
        WriteChunks(updatedOrders);
      }
      return Ok(updatedOrders);
    }
  }

  // ---------------------------------------------------------------- what is settled

  /** The table after settling, for an order of the report that was read as it is stored. */
  lemma SettledRow(t: Pricing.Tables, kind: Kind, c: Costs, rs: seq<ReportOrder>, rows: map<string, Order>, i: nat)
    requires DistinctOrders(rs) && i < |rs| && rs[i].order.id in rows
    ensures Written(rows, ComputedRows(t, kind, c, rs))[rs[i].order.id]
            == Apply(ComputedRow(t, kind, c, rs[i]), rows[rs[i].order.id])
  {
    var us, id := ComputedRows(t, kind, c, rs), rs[i].order.id;
    ComputedRowsAt(t, kind, c, rs);
    FindAbsent(us, id);
    assert us[i] in us && us[i].id == id;
    var j :| 0 <= j < |us| && us[j] == FindUpdate(us, id).value;
    assert j == i;
  }

  /** Orders outside the report are not touched. */
  lemma OthersUntouched(t: Pricing.Tables, kind: Kind, c: Costs, rs: seq<ReportOrder>, rows: map<string, Order>,
                        id: string)
    requires id in rows && forall r | r in rs :: r.order.id != id
    ensures Written(rows, ComputedRows(t, kind, c, rs))[id] == rows[id]
  {
    var us := ComputedRows(t, kind, c, rs);
    ComputedRowsAt(t, kind, c, rs);
    FindAbsent(us, id);
    forall u | u in us ensures u.id != id {
      var i :| 0 <= i < |us| && us[i] == u;
      assert rs[i] in rs;
    }
  }

  /** After a client report the client's net and the delivery cost make up what was paid, and an order
      delivered by the client's own branch keeps the cost less the agent's pay inside. */
  lemma ClientReportSettles(t: Pricing.Tables, c: Costs, rs: seq<ReportOrder>, rows: map<string, Order>, i: nat)
    requires DistinctOrders(rs) && i < |rs| && rs[i].order.id in rows && rows[rs[i].order.id] == rs[i].order
    ensures var o := Written(rows, ComputedRows(t, CLIENT_REPORT, c, rs))[rs[i].order.id];
            && o.clientNet + o.deliveryCost == o.paidAmount
            && o.insideBranchNet == (if BranchId(rs[i]).Some? && rs[i].client.branchId == BranchId(rs[i])
                                     then o.deliveryCost - o.deliveryAgentNet else 0.0)
  {
    SettledRow(t, CLIENT_REPORT, c, rs, rows, i);
  }

  /** After a received or forwarded branch report the branch's net and the net it wrote make up what was paid,
      and the other direction's net stays. */
  lemma BranchReportSettles(t: Pricing.Tables, c: Costs, direction: string, rs: seq<ReportOrder>, rows: map<string,
                            Order>, i: nat)
    requires direction == "received" || direction == "forwarded"
    requires DistinctOrders(rs) && i < |rs| && rs[i].order.id in rows && rows[rs[i].order.id] == rs[i].order
    ensures var o := Written(rows, ComputedRows(t, BRANCH_REPORT(Some(direction)), c, rs))[rs[i].order.id];
            if direction == "received"
            then && o.branchNet + o.receivingBranchNet == o.paidAmount
                 && o.forwardedBranchNet == rs[i].order.forwardedBranchNet
            else && o.branchNet + o.forwardedBranchNet == o.paidAmount
                 && o.receivingBranchNet == rs[i].order.receivingBranchNet
  {
    SettledRow(t, BRANCH_REPORT(Some(direction)), c, rs, rows, i);
    assert "received" != "forwarded" by { assert |"received"| != |"forwarded"|; }
  }

  /** After an agent report the agent's pay and the company's net make up what was paid; where a row caps it, the pay
      is the smaller of the base pay and the receiving profit, less 250. */
  lemma AgentReportSettles(t: Pricing.Tables, c: Costs, rs: seq<ReportOrder>, rows: map<string, Order>, i: nat)
    requires DistinctOrders(rs) && i < |rs| && rs[i].order.id in rows && rows[rs[i].order.id] == rs[i].order
    ensures var o := Written(rows, ComputedRows(t, DELIVERY_AGENT_REPORT, c, rs))[rs[i].order.id];
            && o.companyNet + o.deliveryAgentNet == o.paidAmount
            && o.deliveryAgentNet <= BaseAgentPay(c, rs[i])
            && (CapRow(rs[i]).None? ==> o.deliveryAgentNet == BaseAgentPay(c, rs[i]))
            && (CapRow(rs[i]).Some? ==>
                  var cap := CapRow(rs[i]).value.receivingBranchProfit;
                  && o.deliveryAgentNet + 250.0 <= cap
                  && o.deliveryAgentNet + 250.0 <= BaseAgentPay(c, rs[i])
                  && (o.deliveryAgentNet + 250.0 == cap || o.deliveryAgentNet + 250.0 == BaseAgentPay(c, rs[i])))
  {
    SettledRow(t, DELIVERY_AGENT_REPORT, c, rs, rows, i);
  }

  // ---------------------------------------------------------------- settling agrees with pricing

  /** The report query saw the same client as the price tables, and the order's own branch. */
  ghost predicate ReadFrom(t: Pricing.Tables, r: ReportOrder) {
    && r.order.clientId in t.clients && r.client == t.clients[r.order.clientId]
    && BranchId(r) == r.order.branchId
  }

  /** The nets an active-profit order was priced with when it was delivered survive its client report and both of its
      branch reports, whatever costs those reports name, when its branch is not a child branch. */
  lemma SettlementKeepsActivePrices(t: Pricing.Tables, c: Costs, direction: Option<string>, r: ReportOrder)
    requires ReadFrom(t, r) && Pricing.CarriesActivePrice(t, r.order)
    requires r.branch.Some? && !r.branch.value.isChild
    requires direction == Some("received") ==> r.order.receivingBranchNet != 0.0
    requires direction == Some("forwarded") ==> r.order.forwardedBranchNet != 0.0
    ensures Pricing.CarriesActivePrice(t, Apply(ClientRow(c, r), r.order))
    ensures Pricing.CarriesActivePrice(t, Apply(BranchRow(t, c, direction, r), r.order))
  {
  }

  // ---------------------------------------------------------------- in the columns of the tables

  /** The client's cost row for the order's branch, a child branch taking that of its parent. */
  ghost predicate SettlingRow(r: ReportOrder, row: Option<BranchCost>) {
    match r.branch
    case None => row == None
    case Some(b) => RowFor(r.client.branchCosts, if b.isChild then b.parentBranchId else Some(b.id), row)
  }

  lemma CostRowColumns(r: ReportOrder)
    ensures SettlingRow(r, CostRow(r))
  {
    FindBranchCostIsFirst(r.client.branchCosts, BranchId(r));
    if r.branch.Some? { FindBranchCostIsFirst(r.client.branchCosts, r.branch.value.parentBranchId); }
  }

  /** The named cost for the order's governorate, if it was named. */
  ghost function Named(c: Costs, g: Governorate): Option<Money> {
    match g
    case BAGHDAD => c.baghdadDeliveryCost
    case PROVINCE(_) => c.governoratesDeliveryCost
  }

  /** What a client report takes as delivery cost: the four parts of an active-profit client's row, else the client's
      own price when no cost above 0 or below was named, else the cost named for the governorate, else the order's
      own. */
  ghost predicate ClientCostIs(c: Costs, r: ReportOrder, cost: Money) {
    exists row :: SettlingRow(r, row)
      && if r.client.activeProfit && row.Some? then
           cost == row.value.deliveryAgentProfit + row.value.mainBranchProfit
                   + row.value.forwardedBranchProfit + row.value.receivingBranchProfit
         else if c.baghdadDeliveryCost in {None, Some(0.0)} && c.governoratesDeliveryCost in {None, Some(0.0)} then
           PricedAt(r.client.governoratesDeliveryCosts, r.order.governorate, cost)
         else cost == if Named(c, r.order.governorate).Some? then Named(c, r.order.governorate).value
                      else r.order.deliveryCost
  }

  lemma ClientColumns(t: Pricing.Tables, c: Costs, r: ReportOrder)
    ensures var u, o := ComputedRow(t, CLIENT_REPORT, c, r), r.order;
            && u.ClientUpdate? && u.id == o.id && ClientCostIs(c, r, u.deliveryCost)
            && u.clientNet == o.paidAmount - u.deliveryCost
            && u.insideBranchNet == (if r.branch.Some? && r.client.branchId == Some(r.branch.value.id)
                                     then u.deliveryCost - o.deliveryAgentNet else 0.0)
  {
    CostRowColumns(r);
    FindCostIsFirst(r.client.governoratesDeliveryCosts, r.order.governorate);
    assert ClientCostIs(c, r, ClientCost(c, r));
  }

  /** What a branch report names as the branch's cost before it falls back on price lists. */
  ghost predicate BranchCostGiven(c: Costs, direction: Option<string>, r: ReportOrder, cost: Money) {
    exists row :: SettlingRow(r, row)
      && if r.client.activeProfit && row.Some? && direction == Some("received") then
           cost == row.value.receivingBranchProfit + row.value.deliveryAgentProfit
         else if r.client.activeProfit && row.Some? && direction == Some("forwarded") then
           cost == row.value.receivingBranchProfit + row.value.deliveryAgentProfit + row.value.mainBranchProfit
         else cost == if Named(c, r.order.governorate).Some? then Named(c, r.order.governorate).value else 0.0
  }

  ghost predicate BranchCostIs(t: Pricing.Tables, c: Costs, direction: Option<string>, r: ReportOrder, cost: Money) {
    exists given :: BranchCostGiven(c, direction, r, given)
      && if given != 0.0 then cost == given
         else if direction == Some("forwarded") then
           Pricing.ReceivingPrice(t, r.client.branchId, r.order.governorate, cost)
         else if direction == Some("received") then
           Pricing.ForwardedPrice(t, if r.branch.Some? then Some(r.branch.value.id) else None,
                                   r.order.governorate, cost)
         else cost == 0.0
  }

  lemma BranchColumns(t: Pricing.Tables, c: Costs, direction: Option<string>, r: ReportOrder)
    ensures var u, o := ComputedRow(t, BRANCH_REPORT(direction), c, r), r.order;
            && u.BranchUpdate? && u.id == o.id && BranchCostIs(t, c, direction, r, o.paidAmount - u.branchNet)
            && u.forwardedBranchNet == (if direction == Some("forwarded") then o.paidAmount - u.branchNet
                                        else o.forwardedBranchNet)
            && u.receivingBranchNet == (if direction == Some("received") then o.paidAmount - u.branchNet
                                        else o.receivingBranchNet)
  {
    CostRowColumns(r);
    FindCostIsFirst(Pricing.ReceivingList(t, r.client.branchId), r.order.governorate);
    FindCostIsFirst(Pricing.ForwardedList(t, BranchId(r)), r.order.governorate);
    assert BranchCostGiven(c, direction, r, GivenBranchCost(c, direction, r));
    assert BranchCostIs(t, c, direction, r, BranchCostOf(t, c, direction, r));
  }

  /** The row that caps the agent's pay: the forwarding company's when it has active profit, else the client's when it
      has, for the order's own branch. */
  ghost predicate CappingRow(r: ReportOrder, row: Option<BranchCost>) {
    var branch := if r.branch.Some? then Some(r.branch.value.id) else None;
    if r.forwarderActive then RowFor(r.forwarderCosts, branch, row)
    else if r.client.activeProfit then RowFor(r.client.branchCosts, branch, row)
    else row == None
  }

  /** What an agent report pays: the named cost unless it is 0 or missing, else the agent's own price; capped by the
      row's receiving profit and lowered by 250 where a row applies. */
  lemma AgentColumns(t: Pricing.Tables, c: Costs, r: ReportOrder)
    ensures var u, o := ComputedRow(t, DELIVERY_AGENT_REPORT, c, r), r.order;
            var base := if c.deliveryAgentDeliveryCost.Some? && c.deliveryAgentDeliveryCost.value != 0.0
                        then c.deliveryAgentDeliveryCost.value
                        else if r.agentCost.Some? then r.agentCost.value else 0.0;
            && u.AgentUpdate? && u.id == o.id && u.companyNet == o.paidAmount - u.deliveryAgentNet
            && exists row :: CappingRow(r, row)
                 && u.deliveryAgentNet == if row.None? then base
                                          else (if base > row.value.receivingBranchProfit
                                                then row.value.receivingBranchProfit else base) - 250.0
  {
    FindBranchCostIsFirst(r.forwarderCosts, BranchId(r));
    FindBranchCostIsFirst(r.client.branchCosts, BranchId(r));
    assert CappingRow(r, CapRow(r));
  }

  /** Which columns a computed row overwrites in the stored one. */
  lemma WrittenColumns(u: Update, o: Order)
    ensures match u
            case ClientUpdate(_, cost, net, inside) =>
              Apply(u, o) == o.(deliveryCost := cost, clientNet := net, insideBranchNet := inside)
            case BranchUpdate(_, net, forwarded, receiving) =>
              Apply(u, o) == o.(branchNet := net, forwardedBranchNet := forwarded, receivingBranchNet := receiving)
            case AgentUpdate(_, agent, company) => Apply(u, o) == o.(deliveryAgentNet := agent, companyNet := company)
  {
  }
}
