/** Pricing of a single order: `getDeliverCost`, `getProfits` and the cost part of `updateOrder`
    (src/app/orders/orders.repository.ts), what a run of updates preserves, and how the active-profit
    prices come back out of the daily split. */
module Pricing {
  import opened Schema
  import opened Sums
  import DailyProfit

  datatype Tables = Tables(clients: map<int, Client>, branches: map<int, Branch>,
                           companyCosts: map<int, seq<CostEntry>>, agentCosts: map<int, Money>)

  datatype Error = ClientNotFound | OrderNotFound | InvalidQuery

  datatype Profits = Profits(deliveryAgentCost: Money, forwardedProfit: Money, receivingBranchNet: Money,
                             insideProfit: Money)

  // ---------------------------------------------------------------- getDeliverCost

  function ActivePrice(c: BranchCost): Money {
    c.deliveryAgentProfit + c.mainBranchProfit + c.forwardedBranchProfit + c.receivingBranchProfit
  }

  function DeliverCost(t: Tables, clientId: int, governorate: Governorate, branchId: int): Result<Money, Error> {
    if clientId !in t.clients then Err(ClientNotFound)
    else
      var client := t.clients[clientId];
      if client.activeProfit then
        match FindBranchCost(client.branchCosts, Some(branchId))
        case Some(c) => Ok(ActivePrice(c))
        case None => Ok(0.0)
      else Ok(FindCost(client.governoratesDeliveryCosts, governorate))
  }

  // ---------------------------------------------------------------- getProfits

  function AgentCost(t: Tables, o: Order): Money {
    if o.deliveryAgentId.Some? && o.deliveryAgentId.value in t.agentCosts then t.agentCosts[o.deliveryAgentId.value]
    else 0.0
  }

  /** An order without a branch is never inside: undefined is not null. */
  predicate Inside(t: Tables, o: Order) {
    o.branchId.Some? && o.branchId == ClientBranch(t.clients, o)
  }

  predicate ForwardedByOther(o: Order) {
    o.forwarded && Truthy(o.forwardedFromId) && o.forwardedFromId.value != o.companyId
  }

  /** The branch-cost row the profit query returns first. With no branch the filter is undefined and keeps every row. */
  function ProfitRow(t: Tables, o: Order): Option<BranchCost> {
    if o.clientId !in t.clients || !t.clients[o.clientId].activeProfit then None
    else
      var rows := t.clients[o.clientId].branchCosts;
      if o.branchId.Some? then FindBranchCost(rows, o.branchId)
      else if rows == [] then None
      else Some(rows[0])
  }

  function ReceivingList(t: Tables, id: Option<int>): seq<CostEntry> {
    if id.Some? && id.value in t.branches then t.branches[id.value].receivingDeliveryCosts else []
  }

  function ForwardedList(t: Tables, id: Option<int>): seq<CostEntry> {
    if id.Some? && id.value in t.branches then t.branches[id.value].forwardedDeliveryCosts else []
  }

  function CompanyList(t: Tables, id: Option<int>): seq<CostEntry> {
    if id.Some? && id.value in t.companyCosts then t.companyCosts[id.value] else []
  }

  /** A forwarded order without a branch makes `findUnique` run with an undefined id, which it rejects. */
  function ProfitsOf(t: Tables, o: Order): Result<Profits, Error> {
    var agent := AgentCost(t, o);
    if Inside(t, o) then Ok(Profits(agent, 0.0, 0.0, o.deliveryCost - agent))
    else if ForwardedByOther(o) then
      if o.branchId.None? then Err(InvalidQuery)
      else Ok(Profits(agent, FindCost(CompanyList(t, o.forwardedFromId), o.governorate),
                      FindCost(ForwardedList(t, o.branchId), o.governorate), 0.0))
    else match ProfitRow(t, o)
      case Some(c) => Ok(Profits(agent, c.deliveryAgentProfit + c.mainBranchProfit + c.receivingBranchProfit,
                                 c.deliveryAgentProfit + c.receivingBranchProfit, 0.0))
      case None => Ok(Profits(agent, FindCost(ReceivingList(t, ClientBranch(t.clients, o)), o.governorate),
                              FindCost(ForwardedList(t, o.branchId), o.governorate), 0.0))
  }

  // ---------------------------------------------------------------- updateOrder

  /** The fields of an update that bear on costs; None is an absent field. */
  datatype Patch = Patch(branchID: Option<int>, governorate: Option<Governorate>, status: Option<OrderStatus>,
                         paidAmount: Option<Money>, clientID: Option<int>)

  predicate Reprices(p: Patch) {
    Truthy(p.branchID) || p.governorate.Some? || (p.status.Some? && Completed(p.status.value))
  }

  predicate Returns(p: Patch) {
    p.status == Some(RETURNED)
  }

  /** `deliveryCost ? deliveryCost : oldDeliveryCost` */
  function EffectiveCost(o: Order): Money {
    if o.deliveryCost != 0.0 then o.deliveryCost else o.oldDeliveryCost
  }

  function NewGovernorate(o: Order, p: Patch): Governorate {
    if p.governorate.Some? then p.governorate.value else o.governorate
  }

  /** The price an update looks up, reading the branch of an order without one is an error. */
  function NewPrice(t: Tables, o: Order, p: Patch): Result<Money, Error> {
    if Truthy(p.branchID) then DeliverCost(t, o.clientId, NewGovernorate(o, p), p.branchID.value)
    else if o.branchId.Some? then DeliverCost(t, o.clientId, NewGovernorate(o, p), o.branchId.value)
    else Err(InvalidQuery)
  }

  /** The columns an update overwrites without looking at prices. */
  function PlainColumns(o: Order, p: Patch, now: int): Order {
    o.(branchId := if Truthy(p.branchID) then p.branchID else o.branchId,
       governorate := NewGovernorate(o, p),
       status := if p.status.Some? then p.status.value else o.status,
       clientId := if Truthy(p.clientID) then p.clientID.value else o.clientId,
       deliveriedAt := if p.status.Some? && Completed(p.status.value) then Some(now) else o.deliveriedAt,
       paidAmount := if p.paidAmount.Some? then p.paidAmount.value else o.paidAmount)
  }

  function PaidForNet(o: Order, p: Patch): Money {
    if p.paidAmount.Some? && p.paidAmount.value != 0.0 then p.paidAmount.value else o.paidAmount
  }

  function CostColumns(o: Order, p: Patch, cost: Money, row: Order): Order {
    row.(deliveryCost := if Returns(p) then 0.0 else cost,
         oldDeliveryCost := EffectiveCost(o),
         clientNet := if Returns(p) then 0.0 else PaidForNet(o, p) - (if cost != 0.0 then cost else o.deliveryCost))
  }

  function ProfitColumns(q: Profits, row: Order): Order {
    row.(deliveryAgentNet := q.deliveryAgentCost, insideBranchNet := q.insideProfit,
         forwardedBranchNet := q.forwardedProfit, receivingBranchNet := q.receivingBranchNet)
  }

  function Updated(t: Tables, o: Order, p: Patch, now: int): Result<Order, Error> {
    if !Reprices(p) then Ok(CostColumns(o, p, EffectiveCost(o), PlainColumns(o, p, now)))
    else match NewPrice(t, o, p)
      case Err(e) => Err(e)
      case Ok(price) =>
        match ProfitsOf(t, o)
        case Err(e) => Err(e)
        case Ok(q) => Ok(ProfitColumns(q, CostColumns(o, p, price, PlainColumns(o, p, now))))
  }

  /** What an update takes the new cost to be. */
  function CostFound(t: Tables, o: Order, p: Patch): Result<Money, Error> {
    if Reprices(p) then NewPrice(t, o, p) else Ok(EffectiveCost(o))
  }

  // ---------------------------------------------------------------- in the columns of the tables

  /** What an order of the client in this governorate costs when the branch delivers it: an ordinary client's first list
      entry, an active-profit client's branch row added up, and 0 where there is none. */
  ghost predicate Costs(client: Client, g: Governorate, branch: int, cost: Money) {
    if !client.activeProfit then PricedAt(client.governoratesDeliveryCosts, g, cost)
    else exists row :: RowFor(client.branchCosts, Some(branch), row)
                       && cost == if row.None? then 0.0
                                  else row.value.deliveryAgentProfit + row.value.mainBranchProfit
                                       + row.value.forwardedBranchProfit + row.value.receivingBranchProfit
  }

  lemma DeliverCostColumns(t: Tables, clientId: int, g: Governorate, branch: int)
    ensures DeliverCost(t, clientId, g, branch).Ok? <==> clientId in t.clients
    ensures clientId in t.clients ==> Costs(t.clients[clientId], g, branch, DeliverCost(t, clientId, g, branch).value)
  {
    if clientId in t.clients {
      FindCostIsFirst(t.clients[clientId].governoratesDeliveryCosts, g);
      FindBranchCostIsFirst(t.clients[clientId].branchCosts, Some(branch));
    }
  }

  /** The branch's price list for orders it receives from other branches' clients. */
  ghost predicate ForwardedPrice(t: Tables, branch: Option<int>, g: Governorate, cost: Money) {
    PricedAt(if branch.Some? && branch.value in t.branches then t.branches[branch.value].forwardedDeliveryCosts else [],
             g, cost)
  }

  ghost predicate ReceivingPrice(t: Tables, branch: Option<int>, g: Governorate, cost: Money) {
    PricedAt(if branch.Some? && branch.value in t.branches then t.branches[branch.value].receivingDeliveryCosts else [],
             g, cost)
  }

  /** The agent's own price, or 0 without an agent. */
  ghost predicate AgentPrice(t: Tables, agent: Option<int>, cost: Money) {
    if agent.Some? && agent.value in t.agentCosts then cost == t.agentCosts[agent.value] else cost == 0.0
  }

  /** The row of an active-profit client: its order's branch's, or its first when the order has no branch. */
  ghost predicate ActiveProfitRow(t: Tables, o: Order, row: Option<BranchCost>) {
    if o.clientId in t.clients && t.clients[o.clientId].activeProfit then
      var rows := t.clients[o.clientId].branchCosts;
      if o.branchId.Some? then RowFor(rows, o.branchId, row)
      else row == if rows == [] then None else Some(rows[0])
    else row == None
  }

  /** The order was forwarded, by a named company other than its own. */
  ghost predicate ByOtherCompany(o: Order) {
    && o.forwarded && o.forwardedFromId.Some?
    && o.forwardedFromId.value != 0 && o.forwardedFromId.value != o.companyId
  }

  /** The four amounts getProfits returns, case by case: delivered by the client's own branch, forwarded by another
      company, priced by an active-profit row, priced by the two branches' lists. */
  ghost predicate ProfitColumnsOf(t: Tables, o: Order, q: Profits) {
    var home := if o.clientId in t.clients then t.clients[o.clientId].branchId else None;
    && AgentPrice(t, o.deliveryAgentId, q.deliveryAgentCost)
    && if o.branchId.Some? && o.branchId == home then
         && q.insideProfit == o.deliveryCost - q.deliveryAgentCost
         && q.forwardedProfit == 0.0 && q.receivingBranchNet == 0.0
       else if ByOtherCompany(o) then
         && q.insideProfit == 0.0 && ForwardedPrice(t, o.branchId, o.governorate, q.receivingBranchNet)
         && PricedAt(if o.forwardedFromId.value in t.companyCosts then t.companyCosts[o.forwardedFromId.value] else [],
                     o.governorate, q.forwardedProfit)
       else
         && q.insideProfit == 0.0
         && exists row :: ActiveProfitRow(t, o, row)
                          && if row.Some? then
                               && q.receivingBranchNet
                                  == row.value.deliveryAgentProfit + row.value.receivingBranchProfit
                               && q.forwardedProfit == row.value.deliveryAgentProfit + row.value.receivingBranchProfit
                                                       + row.value.mainBranchProfit
                             else
                               && ForwardedPrice(t, o.branchId, o.governorate, q.receivingBranchNet)
                               && ReceivingPrice(t, home, o.governorate, q.forwardedProfit)
  }

  lemma ListsArePrices(t: Tables, o: Order)
    ensures ForwardedPrice(t, o.branchId, o.governorate, FindCost(ForwardedList(t, o.branchId), o.governorate))
    ensures var home := if o.clientId in t.clients then t.clients[o.clientId].branchId else None;
            ReceivingPrice(t, home, o.governorate,
                           FindCost(ReceivingList(t, ClientBranch(t.clients, o)), o.governorate))
    ensures ByOtherCompany(o) ==>
              PricedAt(if o.forwardedFromId.value in t.companyCosts
                       then t.companyCosts[o.forwardedFromId.value] else [],
                       o.governorate, FindCost(CompanyList(t, o.forwardedFromId), o.governorate))
    ensures AgentPrice(t, o.deliveryAgentId, AgentCost(t, o))
    ensures ActiveProfitRow(t, o, ProfitRow(t, o))
  {
    FindCostIsFirst(ForwardedList(t, o.branchId), o.governorate);
    FindCostIsFirst(ReceivingList(t, ClientBranch(t.clients, o)), o.governorate);
    FindCostIsFirst(CompanyList(t, o.forwardedFromId), o.governorate);
    if o.clientId in t.clients { FindBranchCostIsFirst(t.clients[o.clientId].branchCosts, o.branchId); }
  }

  lemma ProfitsColumns(t: Tables, o: Order)
    ensures ProfitsOf(t, o).Err? <==> o.branchId.None? && ByOtherCompany(o)
    ensures ProfitsOf(t, o).Ok? ==> ProfitColumnsOf(t, o, ProfitsOf(t, o).value)
  {
    ListsArePrices(t, o);
    assert ForwardedByOther(o) <==> ByOtherCompany(o);
  }

  /** The columns an update writes whether or not it re-prices. */
  ghost predicate UpdateColumns(o: Order, p: Patch, now: int, row: Order) {
    && row.id == o.id && row.companyId == o.companyId
    && row.branchId == (if Truthy(p.branchID) then p.branchID else o.branchId)
    && row.governorate == (if p.governorate.Some? then p.governorate.value else o.governorate)
    && row.status == (if p.status.Some? then p.status.value else o.status)
    && (if Truthy(p.clientID) then row.clientId == p.clientID.value else row.clientId == o.clientId)
    && row.deliveriedAt == (if p.status in {Some(DELIVERED), Some(REPLACED), Some(PARTIALLY_RETURNED)} then Some(now)
                            else o.deliveriedAt)
    && row.paidAmount == (if p.paidAmount.Some? then p.paidAmount.value else o.paidAmount)
    && row.oldDeliveryCost == (if o.deliveryCost != 0.0 then o.deliveryCost else o.oldDeliveryCost)
  }

  /** An update looks prices up when it names a branch or a governorate or completes the delivery. */
  ghost predicate LooksUp(p: Patch) {
    || Truthy(p.branchID) || p.governorate.Some?
    || p.status in {Some(DELIVERED), Some(REPLACED), Some(PARTIALLY_RETURNED)}
  }

  /** The price it finds: for the new governorate and branch, where it names them; without a look-up the effective cost
      is carried on. */
  ghost predicate NewCost(t: Tables, o: Order, p: Patch, cost: Money) {
    if !LooksUp(p) then cost == if o.deliveryCost != 0.0 then o.deliveryCost else o.oldDeliveryCost
    else
      var branch := if Truthy(p.branchID) then p.branchID else o.branchId;
      && o.clientId in t.clients && branch.Some?
      && Costs(t.clients[o.clientId], if p.governorate.Some? then p.governorate.value else o.governorate,
               branch.value, cost)
  }

  /** A returned order costs and owes nothing, any other one costs what was found and owes what was paid less that, an
      amount of 0 standing for the stored one. */
  ghost predicate CostColumnsOf(o: Order, p: Patch, cost: Money, row: Order) {
    if p.status == Some(RETURNED) then row.deliveryCost == 0.0 && row.clientNet == 0.0
    else
      var paid := if p.paidAmount.Some? && p.paidAmount.value != 0.0 then p.paidAmount.value else o.paidAmount;
      row.deliveryCost == cost && row.clientNet == paid - if cost != 0.0 then cost else o.deliveryCost
  }

  ghost predicate PricedColumns(t: Tables, o: Order, p: Patch, row: Order) {
    exists cost :: NewCost(t, o, p, cost) && CostColumnsOf(o, p, cost, row)
  }

  lemma LookUpColumns(t: Tables, o: Order, p: Patch)
    requires CostFound(t, o, p).Ok?
    ensures LooksUp(p) <==> Reprices(p)
    ensures NewCost(t, o, p, CostFound(t, o, p).value)
  {
    if Reprices(p) {
      var branch := if Truthy(p.branchID) then p.branchID else o.branchId;
      DeliverCostColumns(t, o.clientId, NewGovernorate(o, p), branch.value);
    }
  }

  /** What an update makes of a row: the cost is the one found, with the columns that follow from it, and re-pricing
      overwrites the three branch nets and the agent's pay. */
  lemma UpdatedColumns(t: Tables, o: Order, p: Patch, now: int)
    requires Updated(t, o, p, now).Ok?
    ensures var row := Updated(t, o, p, now).value;
            UpdateColumns(o, p, now, row) && PricedColumns(t, o, p, row)
  {
    LookUpColumns(t, o, p);
  }

  lemma UpdatedProfits(t: Tables, o: Order, p: Patch, now: int)
    requires Updated(t, o, p, now).Ok?
    ensures var row := Updated(t, o, p, now).value;
            if LooksUp(p) then
              ProfitColumnsOf(t, o, Profits(row.deliveryAgentNet, row.forwardedBranchNet, row.receivingBranchNet,
                                            row.insideBranchNet))
            else && row.deliveryAgentNet == o.deliveryAgentNet && row.forwardedBranchNet == o.forwardedBranchNet
                 && row.receivingBranchNet == o.receivingBranchNet && row.insideBranchNet == o.insideBranchNet
  {
    if Reprices(p) { ProfitsColumns(t, o); }
  }

  /** An update fails when it looks prices up for an order without client row or branch, or a forwarded one without
      branch. */
  lemma UpdateFailsIff(t: Tables, o: Order, p: Patch, now: int)
    ensures Updated(t, o, p, now).Err?
            <==> && LooksUp(p)
                 && (|| o.clientId !in t.clients
                     || (!Truthy(p.branchID) && o.branchId.None?)
                     || (o.branchId.None? && ByOtherCompany(o)))
  {
    ProfitsColumns(t, o);
    if LooksUp(p) && (Truthy(p.branchID) || o.branchId.Some?) {
      DeliverCostColumns(t, o.clientId, NewGovernorate(o, p),
                       if Truthy(p.branchID) then p.branchID.value else o.branchId.value);
    }
  }

  /** The repository methods, as they assign their locals and overwrite the stored row. */
  class OrdersRepository {
    var rows: map<string, Order>

    method GetDeliverCost(t: Tables, clientId: int, governorate: Governorate, branchId: int)
      returns (r: Result<Money, Error>)
      ensures r == DeliverCost(t, clientId, governorate, branchId)
      ensures r.Ok? <==> clientId in t.clients
      ensures r.Ok? ==> Costs(t.clients[clientId], governorate, branchId, r.value)
    {
      DeliverCostColumns(t, clientId, governorate, branchId);
      var deliveryCost := 0.0;
      if clientId !in t.clients {
        return Err(ClientNotFound);
      }
      var client := t.clients[clientId];
      if client.activeProfit {
        var branchCost := FindBranchCost(client.branchCosts, Some(branchId));
        if branchCost.Some? {
          deliveryCost := branchCost.value.deliveryAgentProfit + branchCost.value.mainBranchProfit
            + branchCost.value.forwardedBranchProfit + branchCost.value.receivingBranchProfit;
        }
        return Ok(deliveryCost);
      }
      deliveryCost := FindCost(client.governoratesDeliveryCosts, governorate);
      return Ok(deliveryCost);
    }

    method GetProfits(t: Tables, o: Order) returns (r: Result<Profits, Error>)
      ensures r == ProfitsOf(t, o)
      ensures r.Ok? ==> ProfitColumnsOf(t, o, r.value)
    {
      ProfitsColumns(t, o);
      var insideProfit, forwardedProfit, receivingBranchNet := 0.0, 0.0, 0.0;
      var deliveryAgentCost := AgentCost(t, o);
      if Inside(t, o) {
        insideProfit := o.deliveryCost - deliveryAgentCost;
      } else if ForwardedByOther(o) {
        if o.branchId.None? {
          return Err(InvalidQuery);
        }
        receivingBranchNet := FindCost(ForwardedList(t, o.branchId), o.governorate);
        forwardedProfit := FindCost(CompanyList(t, o.forwardedFromId), o.governorate);
      } else {
        var row := ProfitRow(t, o);
        if row.Some? {
          forwardedProfit := row.value.deliveryAgentProfit + row.value.mainBranchProfit
            + row.value.receivingBranchProfit;
          receivingBranchNet := row.value.deliveryAgentProfit + row.value.receivingBranchProfit;
        } else {
          receivingBranchNet := FindCost(ForwardedList(t, o.branchId), o.governorate);
          forwardedProfit := FindCost(ReceivingList(t, ClientBranch(t.clients, o)), o.governorate);
        }
      }
      return Ok(Profits(deliveryAgentCost, forwardedProfit, receivingBranchNet, insideProfit));
    }

    /** The prices an update looks up. */
    method LookUp(t: Tables, o: Order, p: Patch) returns (r: Result<(Money, Profits), Error>)
      requires Reprices(p)
      ensures NewPrice(t, o, p).Err? ==> r == Err(NewPrice(t, o, p).error)
      ensures NewPrice(t, o, p).Ok? && ProfitsOf(t, o).Err? ==> r == Err(ProfitsOf(t, o).error)
      ensures NewPrice(t, o, p).Ok? && ProfitsOf(t, o).Ok? ==>
                r == Ok((NewPrice(t, o, p).value, ProfitsOf(t, o).value))
    {
      if !Truthy(p.branchID) && o.branchId.None? {
        return Err(InvalidQuery);
      }
      var branch := if Truthy(p.branchID) then p.branchID.value else o.branchId.value;
      var price := GetDeliverCost(t, o.clientId, NewGovernorate(o, p), branch);
      if price.Err? {
        return Err(price.error);
      }
      var q := GetProfits(t, o);
      if q.Err? {
        return Err(q.error);
      }
      return Ok((price.value, q.value));
    }

    /** On an error nothing is written; otherwise only the addressed row changes. */
    method UpdateOrder(t: Tables, id: string, p: Patch, now: int) returns (r: Result<Order, Error>)
      modifies this
      ensures id !in old(rows) ==> r == Err(OrderNotFound)
      ensures id in old(rows) ==> r == Updated(t, old(rows)[id], p, now)
      ensures rows == if r.Ok? then old(rows)[id := r.value] else old(rows)
      ensures r.Ok? ==> UpdateColumns(old(rows)[id], p, now, r.value) && PricedColumns(t, old(rows)[id], p, r.value)
    {
      if id !in rows {
        return Err(OrderNotFound);
      }
      var o := rows[id];
      var profits: Option<Profits> := None;
      var newDeliveryCost := if o.deliveryCost != 0.0 then o.deliveryCost else o.oldDeliveryCost;
      var oldDeliveryCost := newDeliveryCost;
      if Reprices(p) {
        var found := LookUp(t, o, p);
        if found.Err? {
          return Err(found.error);
        }
        newDeliveryCost := found.value.0;
        profits := Some(found.value.1);
      }
      var deliveryCost := if newDeliveryCost != 0.0 then newDeliveryCost else o.deliveryCost;
      var clientNet: Money;
      if p.paidAmount.Some? && p.paidAmount.value != 0.0 {
        clientNet := p.paidAmount.value - deliveryCost;
      } else {
        clientNet := o.paidAmount - deliveryCost;
      }
      if Returns(p) {
        newDeliveryCost := 0.0;
        clientNet := 0.0;
      }
      var row := PlainColumns(o, p, now).(deliveryCost := newDeliveryCost, oldDeliveryCost := oldDeliveryCost,
                                          clientNet := clientNet);
      if profits.Some? {
        row := ProfitColumns(profits.value, row);
      }
      assert Updated(t, o, p, now) == Ok(row);
      UpdatedColumns(t, o, p, now);
      rows := rows[id := row];
      return Ok(row);
    }
  }

  // ---------------------------------------------------------------- runs of updates

  /** One update: prices may differ from step to step. */
  datatype Step = Step(tables: Tables, patch: Patch, now: int)

  function Run(o: Order, steps: seq<Step>): Result<Order, Error>
    decreases |steps|
  {
    if steps == [] then Ok(o)
    else match Updated(steps[0].tables, o, steps[0].patch, steps[0].now)
      case Err(e) => Err(e)
      case Ok(next) => Run(next, steps[1..])
  }

  /** The non-zero prices that the non-RETURNED steps of a run looked up. */
  ghost function PricesSet(o: Order, steps: seq<Step>): seq<Money>
    requires Run(o, steps).Ok?
    decreases |steps|
  {
    if steps == [] then []
    else
      var s := steps[0];
      var rest := PricesSet(Updated(s.tables, o, s.patch, s.now).value, steps[1..]);
      if Reprices(s.patch) && !Returns(s.patch) && NewPrice(s.tables, o, s.patch).value != 0.0
      then [NewPrice(s.tables, o, s.patch).value] + rest
      else rest
  }

  /** However often an order is returned and re-updated, the cost it can restore is the last price set on it. */
  lemma {:induction false} RunKeepsLastPrice(o: Order, steps: seq<Step>)
    requires Run(o, steps).Ok?
    ensures var prices := [EffectiveCost(o)] + PricesSet(o, steps);
            EffectiveCost(Run(o, steps).value) == prices[|prices| - 1]
    decreases |steps|
  {
    if steps != [] {
      var s := steps[0];
      RunKeepsLastPrice(Updated(s.tables, o, s.patch, s.now).value, steps[1..]);
    }
  }

  /** After one or more RETURNED updates the costs are 0 and the old cost survives. */
  lemma {:induction false} ReturnedRun(o: Order, steps: seq<Step>)
    requires steps != [] && Run(o, steps).Ok?
    requires forall s | s in steps :: Returns(s.patch)
    ensures var r := Run(o, steps).value;
            r.deliveryCost == 0.0 && r.clientNet == 0.0 && r.oldDeliveryCost == EffectiveCost(o)
    decreases |steps|
  {
    var s := steps[0];
    var next := Updated(s.tables, o, s.patch, s.now).value;
    if |steps| > 1 {
      ReturnedRun(next, steps[1..]);
    } else {
      assert Run(next, steps[1..]) == Ok(next);
    }
  }

  /** The next update that neither returns nor re-prices puts the cost back, and the client owes exactly the difference
      unless it explicitly sets a paid amount of 0 over a non-zero one. */
  lemma ReturnThenRestore(o: Order, steps: seq<Step>, restore: Step)
    requires steps != [] && Run(o, steps).Ok?
    requires forall s | s in steps :: Returns(s.patch)
    requires !Reprices(restore.patch) && !Returns(restore.patch)
    ensures Run(o, steps + [restore]).Ok?
    ensures var r := Run(o, steps + [restore]).value;
            && r.deliveryCost == EffectiveCost(o)
            && (r.clientNet == r.paidAmount - r.deliveryCost
                <==> !(restore.patch.paidAmount == Some(0.0) && Run(o, steps).value.paidAmount != 0.0))
  {
    ReturnedRun(o, steps);
    RunAppend(o, steps, restore);
    var back := Run(o, steps).value;
    NetMatchesCostIff(restore.tables, back, restore.patch, restore.now);
  }

  lemma {:induction false} RunAppend(o: Order, steps: seq<Step>, last: Step)
    requires Run(o, steps).Ok?
    ensures Run(o, steps + [last]) == Updated(last.tables, Run(o, steps).value, last.patch, last.now)
    decreases |steps|
  {
    if steps == [] {
      assert (steps + [last])[1..] == [];
    } else {
      assert (steps + [last])[1..] == steps[1..] + [last];
      RunAppend(Updated(steps[0].tables, o, steps[0].patch, steps[0].now).value, steps[1..], last);
    }
  }

  /** A non-RETURNED update leaves clientNet = paidAmount - deliveryCost exactly when the two fallbacks it
      takes on zeros cancel: an explicit 0 keeps the old paid amount, and a zero cost keeps the old cost. */
  lemma NetMatchesCostIff(t: Tables, o: Order, p: Patch, now: int)
    requires Updated(t, o, p, now).Ok? && !Returns(p)
    ensures var r := Updated(t, o, p, now).value;
            r.clientNet == r.paidAmount - r.deliveryCost
            <==> (if p.paidAmount == Some(0.0) then o.paidAmount else 0.0)
                 == (if CostFound(t, o, p) == Ok(0.0) then o.deliveryCost else 0.0)
  {
    assert CostFound(t, o, p).Ok?;
    assert CostFound(t, o, p) == Ok(0.0) <==> CostFound(t, o, p).value == 0.0;
  }

  // ---------------------------------------------------------------- prices come back out of the daily split

  /** The row that prices an order of an active-profit client. */
  ghost function ActiveRow(t: Tables, o: Order): Option<BranchCost> {
    if o.clientId in t.clients && t.clients[o.clientId].activeProfit
    then FindBranchCost(t.clients[o.clientId].branchCosts, o.branchId) else None
  }

  /** A cross-branch order carrying the prices of its active-profit row. */
  ghost predicate CarriesActivePrice(t: Tables, o: Order) {
    && ActiveRow(t, o).Some? && ClientBranch(t.clients, o).Some? && o.branchId != ClientBranch(t.clients, o)
    && var c := ActiveRow(t, o).value;
      && o.deliveryCost == ActivePrice(c)
      && o.forwardedBranchNet == c.deliveryAgentProfit + c.mainBranchProfit + c.receivingBranchProfit
      && o.receivingBranchNet == c.deliveryAgentProfit + c.receivingBranchProfit
  }

  /** Delivering such an order, branch and governorate unchanged, writes those prices. */
  lemma DeliveryWritesActivePrice(t: Tables, o: Order, p: Patch, now: int)
    requires ActiveRow(t, o).Some? && ClientBranch(t.clients, o).Some? && o.branchId != ClientBranch(t.clients, o)
    requires !ForwardedByOther(o)
    requires p.status.Some? && Completed(p.status.value)
    requires !Truthy(p.branchID) && p.governorate.None? && p.clientID.None?
    ensures Updated(t, o, p, now).Ok? && CarriesActivePrice(t, Updated(t, o, p, now).value)
    ensures Updated(t, o, p, now).value.deliveryAgentNet == AgentCost(t, o)
  {
  }

  /** What a branch keeps of one active-profit order. */
  ghost function ActiveKeep(t: Tables, b: int, scoped: bool, o: Order): Money
    requires ActiveRow(t, o).Some?
  {
    var c := ActiveRow(t, o).value;
    if scoped then c.mainBranchProfit
    else
      (if ClientBranch(t.clients, o) == Some(b) then c.forwardedBranchProfit else 0.0)
      + (if o.branchId == Some(b) then c.receivingBranchProfit + c.deliveryAgentProfit - o.deliveryAgentNet else 0.0)
  }

  ghost function ActiveKeeps(t: Tables, db: DailyProfit.Db, company: int, b: int, scoped: bool, from: int,
                             to: int): Order -> Money {
    (o: Order) =>
      if DailyProfit.InBase(db, company, from, to, o) && ActiveRow(t, o).Some? then ActiveKeep(t, b, scoped, o) else 0.0
  }

  /** Over any set of such orders between ordinary branches, the split pays the client's branch its forwarded
      profit, the main branch its own profit, and the delivering branch the rest less the agent's pay. */
  lemma SplitReturnsActivePrices(t: Tables, db: DailyProfit.Db, company: int, b: int, scoped: bool, from: int, to: int)
    requires db.clients == t.clients
    requires forall o | o in db.orders && DailyProfit.InBase(db, company, from, to, o) ::
      CarriesActivePrice(t, o) && (scoped ==> o.branchId != Some(b) && ClientBranch(t.clients, o) != Some(b))
    ensures DailyProfit.Total(DailyProfit.ComputeBranchDayProfit(db, company, b, scoped, from, to))
            == Sum(db.orders, ActiveKeeps(t, db, company, b, scoped, from, to))
  {
    DailyProfit.GroupsAreSums(db, company, b, scoped, from, to);
    var inside, received, forwarded := DailyProfit.InsideShare(db, company, b, scoped, from, to),
      DailyProfit.ReceivedShare(db, company, b, from, to), DailyProfit.ForwardedShare(db, company, b, scoped, from, to);
    var ir := (o: Order) => inside(o) + received(o);
    SumOfSums(db.orders, inside, received, ir);
    SumOfSums(db.orders, ir, forwarded, ActiveKeeps(t, db, company, b, scoped, from, to));
  }
}
