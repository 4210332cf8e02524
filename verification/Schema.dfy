/** The tables the modules share, reduced to the columns the modelled code reads or writes
    (src/database/schema.prisma). Money columns are exact numbers. */
module Schema {
  type Money = real

  datatype Option<+T> = None | Some(value: T)

  datatype Result<+T, +E> = Ok(value: T) | Err(error: E)

  datatype Governorate = BAGHDAD | PROVINCE(name: string)

  datatype OrderStatus =
    | REGISTERED | READY_TO_SEND | WITH_DELIVERY_AGENT | DELIVERED | REPLACED | PARTIALLY_RETURNED | RETURNED
    | POSTPONED | CHANGE_ADDRESS | RESEND | WITH_RECEIVING_AGENT | PROCESSING
    | IN_MAIN_REPOSITORY | IN_GOV_REPOSITORY

  datatype Role =
    | COMPANY_MANAGER | ACCOUNT_MANAGER | ACCOUNTANT | DELIVERY_AGENT | RECEIVING_AGENT | BRANCH_MANAGER
    | EMERGENCY_EMPLOYEE | DATA_ENTRY | REPOSITORIY_EMPLOYEE | INQUIRY_EMPLOYEE | CLIENT_ASSISTANT | CLIENT
    | ADMIN | ADMIN_ASSISTANT | MAIN_EMERGENCY_EMPLOYEE | EMPLOYEE_CLIENT_ASSISTANT | RECEIVING_AGENTS_MANAGER

  /** One entry of the JSON price lists kept on branches, clients and companies. */
  datatype CostEntry = CostEntry(governorate: Governorate, cost: Money)

  /** A row of ClientBranchCost. */
  datatype BranchCost = BranchCost(branchId: int, deliveryAgentProfit: Money, mainBranchProfit: Money,
                                   forwardedBranchProfit: Money, receivingBranchProfit: Money)

  datatype Branch = Branch(id: int, companyId: int, mainRepositories: nat,
                           isChild: bool, parentBranchId: Option<int>,
                           forwardedDeliveryCosts: seq<CostEntry>, receivingDeliveryCosts: seq<CostEntry>)

  datatype Client = Client(branchId: Option<int>, activeProfit: bool,
                           governoratesDeliveryCosts: seq<CostEntry>, branchCosts: seq<BranchCost>)

  /** The six booleans that stand in for joins with BranchReport and ClientReport. */
  datatype Flags = Flags(mainReceived: bool, mainForwarded: bool, childReceived: bool, childForwarded: bool,
                         deliveredClient: bool, returnedClient: bool)

  datatype Order = Order(
    id: string,
    companyId: int,
    branchId: Option<int>,
    clientId: int,
    governorate: Governorate,
    status: OrderStatus,
    deleted: bool,
    confirmed: bool,
    forwarded: bool,
    forwardedFromId: Option<int>,
    deliveryAgentId: Option<int>,
    storeId: int,
    locationId: int,
    deliveriedAt: Option<int>,
    receivedAt: Option<int>,
    employeeReportId: Option<int>,
    flags: Flags,
    paidAmount: Money,
    deliveryCost: Money,
    oldDeliveryCost: Money,
    clientNet: Money,
    deliveryAgentNet: Money,
    companyNet: Money,
    branchNet: Money,
    forwardedBranchNet: Money,
    receivingBranchNet: Money,
    insideBranchNet: Money)

  /** The statuses that count as a completed delivery. */
  predicate Completed(s: OrderStatus) {
    s == DELIVERED || s == PARTIALLY_RETURNED || s == REPLACED
  }

  /** `list.find(c => c.governorate === g)?.cost ?? 0` */
  function FindCost(list: seq<CostEntry>, g: Governorate): Money {
    if list == [] then 0.0
    else if list[0].governorate == g then list[0].cost
    else FindCost(list[1..], g)
  }

  /** `list.find(c => c.branchId === id)`; undefined matches no row. */
  function FindBranchCost(list: seq<BranchCost>, id: Option<int>): Option<BranchCost> {
    if list == [] || id.None? then None
    else if list[0].branchId == id.value then Some(list[0])
    else FindBranchCost(list[1..], id)
  }

  /** The cost is that of the list's first entry for the governorate, or 0 when there is none. */
  ghost predicate PricedAt(list: seq<CostEntry>, g: Governorate, cost: Money) {
    if exists i :: 0 <= i < |list| && list[i].governorate == g
    then exists i :: 0 <= i < |list| && list[i].governorate == g && cost == list[i].cost
                     && forall j | 0 <= j < i :: list[j].governorate != g
    else cost == 0.0
  }

  lemma {:induction false} FindCostIsFirst(list: seq<CostEntry>, g: Governorate)
    ensures PricedAt(list, g, FindCost(list, g))
  {
    if list != [] && list[0].governorate != g {
      var rest := list[1..];
      FindCostIsFirst(rest, g);
      if i :| 0 <= i < |list| && list[i].governorate == g {
        assert rest[i - 1].governorate == g;
        var k :| 0 <= k < |rest| && rest[k].governorate == g && FindCost(rest, g) == rest[k].cost
                 && forall j | 0 <= j < k :: rest[j].governorate != g;
        assert list[k + 1] == rest[k];
        forall j | 0 <= j < k + 1 ensures list[j].governorate != g {
          if j > 0 { assert list[j] == rest[j - 1]; }
        }
      }
    } else if list != [] {
      assert list[0].governorate == g;
    }
  }

  /** The row is the list's first one for the branch; a missing branch has none. */
  ghost predicate RowFor(rows: seq<BranchCost>, branch: Option<int>, row: Option<BranchCost>) {
    if branch.Some? && exists i :: 0 <= i < |rows| && rows[i].branchId == branch.value
    then exists i :: 0 <= i < |rows| && rows[i].branchId == branch.value && row == Some(rows[i])
                     && forall j | 0 <= j < i :: rows[j].branchId != branch.value
    else row == None
  }

  lemma {:induction false} FindBranchCostIsFirst(rows: seq<BranchCost>, branch: Option<int>)
    ensures RowFor(rows, branch, FindBranchCost(rows, branch))
  {
    if rows != [] && branch.Some? && rows[0].branchId != branch.value {
      var rest := rows[1..];
      FindBranchCostIsFirst(rest, branch);
      if i :| 0 <= i < |rows| && rows[i].branchId == branch.value {
        assert rest[i - 1].branchId == branch.value;
        var k :| 0 <= k < |rest| && rest[k].branchId == branch.value && FindBranchCost(rest, branch) == Some(rest[k])
                 && forall j | 0 <= j < k :: rest[j].branchId != branch.value;
        assert rows[k + 1] == rest[k];
        forall j | 0 <= j < k + 1 ensures rows[j].branchId != branch.value {
          if j > 0 { assert rows[j] == rest[j - 1]; }
        }
      }
    } else if rows != [] && branch.Some? {
      assert rows[0].branchId == branch.value;
    }
  }

  /** A day in milliseconds. */
  const DAY: int := 86_400_000

  /** `x ?? otherwise` */
  function Or<T>(x: Option<T>, otherwise: T): T {
    if x.Some? then x.value else otherwise
  }

  /** The branch of an order's client, as the join or the relation shows it. */
  function ClientBranch(clients: map<int, Client>, o: Order): Option<int> {
    if o.clientId in clients then clients[o.clientId].branchId else None
  }

  /** A JavaScript number used as a condition: absent and 0 are both false. */
  predicate Truthy(id: Option<int>) {
    id.Some? && id.value != 0
  }

  lemma TruthyNumbers()
    ensures !Truthy(None) && !Truthy(Some(0)) && forall n | n != 0 :: Truthy(Some(n))
  {
  }

  ghost predicate DistinctIds(orders: seq<Order>) {
    forall i, j :: 0 <= i < j < |orders| ==> orders[i].id != orders[j].id
  }
}
