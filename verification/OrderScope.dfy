/** The two builders of a user's order scope (src/app/messages/messages.controller.ts): a Prisma condition tree for the
    page of chats and a list of SQL conditions for the unseen counts, and exactly when they select the same orders. */
module OrderScope {
  import opened Schema

  /** The order type is free text; only two values mean anything. */
  datatype OrderType = RECEIVING | FORWARDED | OTHER_TYPE(text: string)

  /** What the inquiry employee is limited to; a list that is present is not empty. */
  datatype InquiryScope = InquiryScope(orderType: Option<OrderType>, statuses: Option<seq<OrderStatus>>,
                                       governorates: Option<seq<Governorate>>, locations: Option<seq<int>>,
                                       branches: Option<seq<int>>, stores: Option<seq<int>>,
                                       companies: Option<seq<int>>)

  /** The limits as stored. */
  datatype InquiryStuff = InquiryStuff(orderType: Option<OrderType>, statuses: seq<OrderStatus>,
                                       governorates: seq<Governorate>,
                                       locations: seq<int>, branches: seq<int>, stores: seq<int>, companies: seq<int>)

  datatype User = User(id: int, role: Role, companyID: int, branchId: Option<int>, mainRepository: bool)

  datatype Employee = Employee(branchId: Option<int>, orderStatus: seq<OrderStatus>)

  /** status is None when absent, empty or the text "null". */
  datatype Params = Params(user: User, employee: Option<Employee>, scope: InquiryScope, status: Option<OrderStatus>,
                           stores: Option<seq<int>>, includeStatusAndDeleted: bool)

  function IfAny<T>(xs: seq<T>): Option<seq<T>> {
    if xs == [] then None else Some(xs)
  }

  const UNLIMITED := InquiryScope(None, None, None, None, None, None, None)

  function ResolveInquiryScope(role: Role, stuff: Option<InquiryStuff>): InquiryScope {
    if role != INQUIRY_EMPLOYEE || stuff.None? then UNLIMITED
    else
      var s := stuff.value;
      InquiryScope(if s.orderType == Some(OTHER_TYPE("")) then None else s.orderType, IfAny(s.statuses),
                   IfAny(s.governorates), IfAny(s.locations), IfAny(s.branches), IfAny(s.stores), IfAny(s.companies))
  }

  // ---------------------------------------------------------------- conditions

  /** Tests of one field of an order row or of its client; a null column satisfies no membership test. */
  datatype Test =
    | StatusIn(statuses: seq<OrderStatus>)
    | GovernorateIn(governorates: seq<Governorate>)
    | BranchIn(ids: seq<int>)
    | BranchNull
    | ClientBranchIn(ids: seq<int>)
    | ClientBranchNull
    | StoreIn(ids: seq<int>)
    | LocationIn(ids: seq<int>)
    | CompanyIs(id: int)
    | ForwardedFromIn(ids: seq<int>)
    | ClientIs(id: int)
    | AgentIs(id: int)
    | NotDeleted
    | NoTest

  /** One member of an AND: a test, an OR of at most two tests (`OR: []` holds nowhere), or two tests on one object. */
  datatype Clause = One(t: Test) | Either(t: Test, u: Test) | Both(t: Test, u: Test) | Nowhere

  predicate OneOf(v: Option<int>, ids: seq<int>) {
    v.Some? && v.value in ids
  }

  /** cb is the branch of the order's client. */
  predicate Passes(t: Test, o: Order, cb: Option<int>) {
    match t
    case StatusIn(ss) => o.status in ss
    case GovernorateIn(gs) => o.governorate in gs
    case BranchIn(ids) => OneOf(o.branchId, ids)
    case BranchNull => o.branchId.None?
    case ClientBranchIn(ids) => OneOf(cb, ids)
    case ClientBranchNull => cb.None?
    case StoreIn(ids) => o.storeId in ids
    case LocationIn(ids) => o.locationId in ids
    case CompanyIs(id) => o.companyId == id
    case ForwardedFromIn(ids) => OneOf(o.forwardedFromId, ids)
    case ClientIs(id) => o.clientId == id
    case AgentIs(id) => o.deliveryAgentId == Some(id)
    case NotDeleted => !o.deleted
    case NoTest => true
  }

  predicate Holds(c: Clause, o: Order, cb: Option<int>) {
    match c
    case One(t) => Passes(t, o, cb)
    case Either(t, u) => Passes(t, o, cb) || Passes(u, o, cb)
    case Both(t, u) => Passes(t, o, cb) && Passes(u, o, cb)
    case Nowhere => false
  }

  predicate AllHold(cs: seq<Clause>, o: Order, cb: Option<int>) {
    cs == [] || (AllHold(cs[..|cs| - 1], o, cb) && Holds(cs[|cs| - 1], o, cb))
  }

  predicate IsClientAssistant(u: User) {
    u.role == CLIENT_ASSISTANT || u.role == EMPLOYEE_CLIENT_ASSISTANT
  }

  predicate UsesBranchFilter(u: User) {
    && u.role != COMPANY_MANAGER && !IsClientAssistant(u) && !u.mainRepository
    && u.role != DELIVERY_AGENT && u.role != BRANCH_MANAGER
  }

  function ListOf<T>(v: Option<seq<T>>): seq<T> {
    if v.Some? then v.value else []
  }

  function Ids(v: Option<seq<int>>): seq<int> {
    ListOf(v)
  }

  /** The inquiry branch lists apply. */
  predicate ListsUsed(u: User, s: InquiryScope) {
    && u.mainRepository && Ids(s.branches) != []
    && (s.orderType.None? || s.orderType.value == RECEIVING || s.orderType.value == FORWARDED)
  }

  /** The branch list, on the side or sides the order type names. */
  function ListedBranches(s: InquiryScope): Clause {
    if s.orderType == Some(RECEIVING) then One(BranchIn(Ids(s.branches)))
    else if s.orderType == Some(FORWARDED) then One(ClientBranchIn(Ids(s.branches)))
    else Either(BranchIn(Ids(s.branches)), ClientBranchIn(Ids(s.branches)))
  }

  function CompanyEither(u: User): Clause {
    Either(CompanyIs(u.companyID), ForwardedFromIn([u.companyID]))
  }

  // ---------------------------------------------------------------- the Prisma tree

  /** `{branchId: id}`: undefined drops the test. */
  function BranchField(id: Option<int>): Test { if id.Some? then BranchIn([id.value]) else NoTest }

  function ClientBranchField(id: Option<int>): Test { if id.Some? then ClientBranchIn([id.value]) else NoTest }

  /** The same with the employee's branch, where null asks for null. */
  function EmployeeBranch(e: Option<Employee>): Test {
    if e.None? then NoTest else if e.value.branchId.None? then BranchNull else BranchIn([e.value.branchId.value])
  }

  function EmployeeClientBranch(e: Option<Employee>): Test {
    if e.None? then NoTest
    else if e.value.branchId.None? then ClientBranchNull else ClientBranchIn([e.value.branchId.value])
  }

  /** `OR: buildInquiryBranchOR(...)` */
  function InquiryBranchOR(u: User, s: InquiryScope): Clause {
    if ListsUsed(u, s) then ListedBranches(s)
    else if Ids(s.companies) != [] then Nowhere
    else Either(BranchField(u.branchId), ClientBranchField(u.branchId))
  }

  /** `buildOrderWhere`: the members of its top-level AND, with a test that always holds where a role has fewer. */
  function BuildOrderWhere(p: Params): seq<Clause> {
    var u, s := p.user, p.scope;
    if u.role == INQUIRY_EMPLOYEE then
      [One(if p.status.Some? then StatusIn([p.status.value])
           else if s.statuses.Some? then StatusIn(s.statuses.value)
           else NoTest),
       One(if s.governorates.Some? then GovernorateIn(s.governorates.value) else NoTest),
       InquiryBranchOR(u, s),
       One(if p.stores.Some? then StoreIn(p.stores.value) else NoTest),
       if s.companies.Some? then Both(CompanyIs(u.companyID), ForwardedFromIn(s.companies.value)) else CompanyEither(u),
       One(if s.locations.Some? then LocationIn(s.locations.value) else NoTest),
       One(if p.includeStatusAndDeleted then NotDeleted else NoTest),
       One(NoTest)]
    else
      [One(if p.includeStatusAndDeleted then NotDeleted else NoTest),
       One(if !p.includeStatusAndDeleted then NoTest
           else if p.status.Some? then StatusIn([p.status.value])
           else if IsClientAssistant(u) && p.employee.Some? then StatusIn(p.employee.value.orderStatus)
           else NoTest),
       One(if u.role == CLIENT then ClientIs(u.id) else NoTest),
       CompanyEither(u),
       One(if UsesBranchFilter(u) then EmployeeBranch(p.employee) else NoTest),
       One(if u.role == DELIVERY_AGENT then AgentIs(u.id) else NoTest),
       One(if IsClientAssistant(u) && p.stores.Some? then StoreIn(p.stores.value) else NoTest),
       if u.role == BRANCH_MANAGER then Either(EmployeeBranch(p.employee), EmployeeClientBranch(p.employee))
       else One(NoTest)]
  }

  predicate TreeSelects(p: Params, o: Order, cb: Option<int>) {
    AllHold(BuildOrderWhere(p), o, cb)
  }

  // ---------------------------------------------------------------- the SQL list

  /** Comparing with a missing branch is comparing with null. */
  function OwnBranchIds(u: User): seq<int> {
    if u.branchId.Some? then [u.branchId.value] else []
  }

  function InquiryBranchORSql(u: User, s: InquiryScope): Clause {
    if ListsUsed(u, s) then ListedBranches(s)
    else Either(BranchIn(OwnBranchIds(u)), ClientBranchIn(OwnBranchIds(u)))
  }

  function SetBranch(p: Params): Option<int> {
    if p.employee.Some? then p.employee.value.branchId else None
  }

  predicate AssistantHasStatuses(p: Params) {
    IsClientAssistant(p.user) && p.employee.Some? && p.employee.value.orderStatus != []
  }

  /** `if (guard) conditions.push(clause)` */
  method PushIf(conditions: seq<Clause>, guard: bool, clause: Clause) returns (r: seq<Clause>)
    ensures forall o: Order, cb: Option<int> ::
              AllHold(r, o, cb) <==> AllHold(conditions, o, cb) && (guard ==> Holds(clause, o, cb))
  {
    r := conditions;
    if guard {
      r := r + [clause];
      assert r[..|conditions|] == conditions;
    }
  }

  /** `conditions.push(this.buildInquiryBranchORSql(user, scope))` */
  method PushInquiryBranches(conditions: seq<Clause>, u: User, s: InquiryScope) returns (r: seq<Clause>)
    ensures forall o: Order, cb: Option<int> ::
              AllHold(r, o, cb) <==> AllHold(conditions, o, cb) && InquiryBranchRow(u, s, o, cb)
  {
    r := PushIf(conditions, true, InquiryBranchORSql(u, s));
    forall o: Order, cb: Option<int>
      ensures AllHold(r, o, cb) <==> AllHold(conditions, o, cb) && InquiryBranchRow(u, s, o, cb)
    {
      InquiryBranches(u, s, o, cb);
    }
  }

  method InquiryStatuses(p: Params) returns (conditions: seq<Clause>)
    ensures forall o: Order, cb: Option<int> :: AllHold(conditions, o, cb) <==> InquirySqlStatus(p, o)
  {
    if p.status.Some? {
      conditions := PushIf([], true, One(StatusIn([p.status.value])));
    } else {
      conditions := PushIf([], ListOf(p.scope.statuses) != [], One(StatusIn(ListOf(p.scope.statuses))));
    }
  }

  method InquiryConditions(p: Params) returns (conditions: seq<Clause>)
    ensures forall o: Order, cb: Option<int> :: AllHold(conditions, o, cb) <==> InquirySqlRow(p, o, cb)
  {
    var u, s := p.user, p.scope;
    conditions := InquiryStatuses(p);
    conditions := PushIf(conditions, ListOf(s.governorates) != [], One(GovernorateIn(ListOf(s.governorates))));
    conditions := PushInquiryBranches(conditions, u, s);
    conditions := PushIf(conditions, Ids(p.stores) != [], One(StoreIn(Ids(p.stores))));
    conditions := PushIf(conditions, true, CompanyEither(u));
    conditions := PushIf(conditions, Ids(s.locations) != [], One(LocationIn(Ids(s.locations))));
    conditions := PushIf(conditions, p.includeStatusAndDeleted, One(NotDeleted));
  }

  method OtherStatuses(p: Params) returns (conditions: seq<Clause>)
    ensures forall o: Order, cb: Option<int> :: AllHold(conditions, o, cb) <==> OtherSqlStatus(p, o)
  {
    conditions := [];
    if p.includeStatusAndDeleted {
      conditions := PushIf(conditions, true, One(NotDeleted));
      if p.status.Some? {
        conditions := PushIf(conditions, true, One(StatusIn([p.status.value])));
      } else if AssistantHasStatuses(p) {
        conditions := PushIf(conditions, true, One(StatusIn(p.employee.value.orderStatus)));
      }
    }
  }

  method PushBranchFilter(conditions: seq<Clause>, u: User, b: Option<int>) returns (r: seq<Clause>)
    ensures forall o: Order, cb: Option<int> ::
              AllHold(r, o, cb) <==> AllHold(conditions, o, cb) && (UsesBranchFilter(u) && b.Some? ==> o.branchId == b)
  {
    r := PushIf(conditions, UsesBranchFilter(u) && b.Some?, One(BranchField(b)));
  }

  method PushManagerBranch(conditions: seq<Clause>, u: User, b: Option<int>) returns (r: seq<Clause>)
    ensures forall o: Order, cb: Option<int> ::
              AllHold(r, o, cb) <==> && AllHold(conditions, o, cb)
                                     && (u.role == BRANCH_MANAGER && b.Some? ==> o.branchId == b || cb == b)
  {
    r := PushIf(conditions, u.role == BRANCH_MANAGER && b.Some?, Either(BranchField(b), ClientBranchField(b)));
  }

  method OtherConditions(p: Params) returns (conditions: seq<Clause>)
    ensures forall o: Order, cb: Option<int> :: AllHold(conditions, o, cb) <==> OtherSqlRow(p, o, cb)
  {
    var u, b := p.user, SetBranch(p);
    conditions := OtherStatuses(p);
    conditions := PushIf(conditions, u.role == CLIENT, One(ClientIs(u.id)));
    conditions := PushIf(conditions, true, CompanyEither(u));
    conditions := PushBranchFilter(conditions, u, b);
    conditions := PushIf(conditions, u.role == DELIVERY_AGENT, One(AgentIs(u.id)));
    conditions := PushIf(conditions, IsClientAssistant(u) && Ids(p.stores) != [], One(StoreIn(Ids(p.stores))));
    conditions := PushManagerBranch(conditions, u, b);
  }

  /** `buildOrderScopeSql`: whatever was pushed, the conditions joined with AND accept exactly the rows of
      SqlSelects. */
  method BuildOrderScopeSql(p: Params) returns (conditions: seq<Clause>)
    ensures forall o: Order, cb: Option<int> :: AllHold(conditions, o, cb) <==> SqlSelects(p, o, cb)
  {
    if p.user.role == INQUIRY_EMPLOYEE {
      conditions := InquiryConditions(p);
    } else {
      conditions := OtherConditions(p);
    }
  }

  // ---------------------------------------------------------------- what each of them selects

  lemma NextClause(cs: seq<Clause>, k: nat, o: Order, cb: Option<int>)
    requires k < |cs|
    ensures AllHold(cs[..k + 1], o, cb) <==> AllHold(cs[..k], o, cb) && Holds(cs[k], o, cb)
  {
    assert cs[..k + 1][..k] == cs[..k];
  }

  lemma EightClauses(cs: seq<Clause>, o: Order, cb: Option<int>)
    requires |cs| == 8
    ensures AllHold(cs, o, cb)
            <==> && Holds(cs[0], o, cb) && Holds(cs[1], o, cb) && Holds(cs[2], o, cb) && Holds(cs[3], o, cb)
                 && Holds(cs[4], o, cb) && Holds(cs[5], o, cb) && Holds(cs[6], o, cb) && Holds(cs[7], o, cb)
  {
    NextClause(cs, 0, o, cb);
    NextClause(cs, 1, o, cb);
    NextClause(cs, 2, o, cb);
    NextClause(cs, 3, o, cb);
    NextClause(cs, 4, o, cb);
    NextClause(cs, 5, o, cb);
    NextClause(cs, 6, o, cb);
    NextClause(cs, 7, o, cb);
    assert cs[..0] == [] && cs[..8] == cs;
  }

  predicate ListedBranch(s: InquiryScope, o: Order, cb: Option<int>) {
    || (s.orderType != Some(FORWARDED) && OneOf(o.branchId, Ids(s.branches)))
    || (s.orderType != Some(RECEIVING) && OneOf(cb, Ids(s.branches)))
  }

  predicate OwnBranch(u: User, o: Order, cb: Option<int>) {
    u.branchId.Some? && (o.branchId == u.branchId || cb == u.branchId)
  }

  lemma InquiryBranches(u: User, s: InquiryScope, o: Order, cb: Option<int>)
    ensures Holds(InquiryBranchOR(u, s), o, cb)
            <==> if ListsUsed(u, s) then ListedBranch(s, o, cb)
                 else Ids(s.companies) == [] && (u.branchId.None? || OwnBranch(u, o, cb))
    ensures Holds(InquiryBranchORSql(u, s), o, cb)
            <==> if ListsUsed(u, s) then ListedBranch(s, o, cb) else OwnBranch(u, o, cb)
  {
  }

  predicate CompanyMatches(u: User, o: Order) {
    o.companyId == u.companyID || o.forwardedFromId == Some(u.companyID)
  }

  predicate InquiryBranchRow(u: User, s: InquiryScope, o: Order, cb: Option<int>) {
    if ListsUsed(u, s) then ListedBranch(s, o, cb) else OwnBranch(u, o, cb)
  }

  predicate InquirySqlStatus(p: Params, o: Order) {
    if p.status.Some? then o.status == p.status.value
    else ListOf(p.scope.statuses) != [] ==> o.status in ListOf(p.scope.statuses)
  }

  /** What the SQL lets an inquiry employee see. */
  predicate InquirySqlRow(p: Params, o: Order, cb: Option<int>) {
    var u, s := p.user, p.scope;
    && InquirySqlStatus(p, o)
    && (ListOf(s.governorates) != [] ==> o.governorate in ListOf(s.governorates))
    && InquiryBranchRow(u, s, o, cb)
    && (Ids(p.stores) != [] ==> o.storeId in Ids(p.stores))
    && CompanyMatches(u, o)
    && (Ids(s.locations) != [] ==> o.locationId in Ids(s.locations))
    && (p.includeStatusAndDeleted ==> !o.deleted)
  }

  predicate OtherSqlStatus(p: Params, o: Order) {
    && (p.includeStatusAndDeleted ==> !o.deleted)
    && (p.includeStatusAndDeleted && p.status.Some? ==> o.status == p.status.value)
    && (p.includeStatusAndDeleted && p.status.None? && AssistantHasStatuses(p)
        ==> o.status in p.employee.value.orderStatus)
  }

  /** What the SQL lets every other role see. */
  predicate OtherSqlRow(p: Params, o: Order, cb: Option<int>) {
    var u, b := p.user, SetBranch(p);
    && OtherSqlStatus(p, o)
    && (u.role == CLIENT ==> o.clientId == u.id)
    && CompanyMatches(u, o)
    && (UsesBranchFilter(u) && b.Some? ==> o.branchId == b)
    && (u.role == DELIVERY_AGENT ==> o.deliveryAgentId == Some(u.id))
    && (IsClientAssistant(u) && Ids(p.stores) != [] ==> o.storeId in Ids(p.stores))
    && (u.role == BRANCH_MANAGER && b.Some? ==> o.branchId == b || cb == b)
  }

  predicate SqlSelects(p: Params, o: Order, cb: Option<int>) {
    if p.user.role == INQUIRY_EMPLOYEE then InquirySqlRow(p, o, cb) else OtherSqlRow(p, o, cb)
  }

  /** The limits of the tree that the SQL sets in the same way. */
  predicate InquiryCommon(p: Params, o: Order) {
    var s := p.scope;
    && (if p.status.Some? then o.status == p.status.value else s.statuses.Some? ==> o.status in s.statuses.value)
    && (s.governorates.Some? ==> o.governorate in s.governorates.value)
    && (s.locations.Some? ==> o.locationId in s.locations.value)
    && (p.includeStatusAndDeleted ==> !o.deleted)
  }

  lemma InquiryTreeClauses(p: Params, o: Order, cb: Option<int>)
    requires p.user.role == INQUIRY_EMPLOYEE
    ensures var cs, s := BuildOrderWhere(p), p.scope;
            && (Holds(cs[0], o, cb) <==> if p.status.Some? then o.status == p.status.value
                                         else s.statuses.Some? ==> o.status in s.statuses.value)
            && (Holds(cs[1], o, cb) <==> (s.governorates.Some? ==> o.governorate in s.governorates.value))
            && (Holds(cs[3], o, cb) <==> (p.stores.Some? ==> o.storeId in p.stores.value))
            && (Holds(cs[5], o, cb) <==> (s.locations.Some? ==> o.locationId in s.locations.value))
            && (Holds(cs[6], o, cb) <==> (p.includeStatusAndDeleted ==> !o.deleted))
  {
  }

  lemma InquiryTreeSelects(p: Params, o: Order, cb: Option<int>)
    requires p.user.role == INQUIRY_EMPLOYEE
    ensures TreeSelects(p, o, cb)
            <==> && InquiryCommon(p, o)
                 && Holds(InquiryBranchOR(p.user, p.scope), o, cb)
                 && (p.stores.Some? ==> o.storeId in p.stores.value)
                 && (if p.scope.companies.Some?
                     then o.companyId == p.user.companyID && OneOf(o.forwardedFromId, p.scope.companies.value)
                     else CompanyMatches(p.user, o))
  {
    InquiryTreeClauses(p, o, cb);
    EightClauses(BuildOrderWhere(p), o, cb);
  }

  predicate OtherCommon(p: Params, o: Order) {
    var u := p.user;
    && (p.includeStatusAndDeleted ==> !o.deleted && (p.status.Some? ==> o.status == p.status.value))
    && (u.role == CLIENT ==> o.clientId == u.id)
    && CompanyMatches(u, o)
    && (u.role == DELIVERY_AGENT ==> o.deliveryAgentId == Some(u.id))
  }

  lemma OtherTreeClauses(p: Params, o: Order, cb: Option<int>)
    requires p.user.role != INQUIRY_EMPLOYEE
    ensures var cs, u := BuildOrderWhere(p), p.user;
            && (Holds(cs[1], o, cb)
                <==> p.includeStatusAndDeleted ==>
                       if p.status.Some? then o.status == p.status.value
                       else IsClientAssistant(u) && p.employee.Some? ==> o.status in p.employee.value.orderStatus)
            && (Holds(cs[4], o, cb)
                <==> (UsesBranchFilter(u) && p.employee.Some? ==> o.branchId == p.employee.value.branchId))
            && (Holds(cs[6], o, cb) <==> (IsClientAssistant(u) && p.stores.Some? ==> o.storeId in p.stores.value))
            && (Holds(cs[7], o, cb)
                <==> (u.role == BRANCH_MANAGER && p.employee.Some?
                      ==> o.branchId == p.employee.value.branchId || cb == p.employee.value.branchId))
  {
  }

  lemma OtherTreeSelects(p: Params, o: Order, cb: Option<int>)
    requires p.user.role != INQUIRY_EMPLOYEE
    ensures TreeSelects(p, o, cb)
            <==> && OtherCommon(p, o)
                 && (p.includeStatusAndDeleted && p.status.None? && IsClientAssistant(p.user) && p.employee.Some?
                     ==> o.status in p.employee.value.orderStatus)
                 && (UsesBranchFilter(p.user) && p.employee.Some? ==> o.branchId == p.employee.value.branchId)
                 && (IsClientAssistant(p.user) && p.stores.Some? ==> o.storeId in p.stores.value)
                 && (p.user.role == BRANCH_MANAGER && p.employee.Some?
                     ==> o.branchId == p.employee.value.branchId || cb == p.employee.value.branchId)
  {
    OtherTreeClauses(p, o, cb);
    EightClauses(BuildOrderWhere(p), o, cb);
  }

  // ---------------------------------------------------------------- agreement

  ghost predicate LimitsNotEmpty(s: InquiryScope) {
    && (s.statuses.Some? ==> s.statuses.value != []) && (s.governorates.Some? ==> s.governorates.value != [])
    && (s.locations.Some? ==> s.locations.value != []) && (s.branches.Some? ==> s.branches.value != [])
    && (s.stores.Some? ==> s.stores.value != []) && (s.companies.Some? ==> s.companies.value != [])
  }

  lemma ResolvedLimitsNotEmpty(role: Role, stuff: Option<InquiryStuff>)
    ensures LimitsNotEmpty(ResolveInquiryScope(role, stuff))
  {
  }

  /** Lists that are present are not empty, and an employee record has a branch where a branch is asked of it.
      For inquiry employees: no company list and, unless their branch lists apply, a branch of their own;
      without one the SQL selects nothing, and the tree does so too only through an empty store list or a company
      list. */
  predicate SameScope(p: Params) {
    var u, s := p.user, p.scope;
    if u.role == INQUIRY_EMPLOYEE then
      if !ListsUsed(u, s) && u.branchId.None? then p.stores == Some([]) || s.companies.Some?
      else s.companies.None? && p.stores != Some([])
    else
      && !(IsClientAssistant(u) && p.includeStatusAndDeleted && p.status.None? && p.employee.Some?
           && p.employee.value.orderStatus == [])
      && !(IsClientAssistant(u) && p.stores == Some([]))
      && !((UsesBranchFilter(u) || u.role == BRANCH_MANAGER) && p.employee.Some? && p.employee.value.branchId.None?)
  }

  function FirstOr<T>(xs: seq<T>, default_: T): T {
    if xs == [] then default_ else xs[0]
  }

  /** An order that satisfies every limit that can be satisfied. */
  ghost function Sample(p: Params): Order {
    var u, s := p.user, p.scope;
    var branch := if u.role == INQUIRY_EMPLOYEE then
                    if ListsUsed(u, s) then Some(FirstOr(Ids(s.branches), 0))
                    else if u.branchId.Some? then u.branchId
                    else Some(0)
                  else if SetBranch(p).Some? then SetBranch(p) else Some(0);
    var statuses := if u.role == INQUIRY_EMPLOYEE then ListOf(s.statuses)
                    else if AssistantHasStatuses(p) then p.employee.value.orderStatus
                    else [];
    Order("", u.companyID, branch, u.id, FirstOr(ListOf(s.governorates), BAGHDAD),
          if p.status.Some? then p.status.value else FirstOr(statuses, DELIVERED),
          false, true, false, None, Some(u.id), FirstOr(Ids(p.stores), 0), FirstOr(Ids(s.locations), 0),
          None, None, None,
          Flags(false, false, false, false, false, false),
          0.0, 0.0, 0.0, 0.0, 0.0, 0.0, 0.0, 0.0, 0.0, 0.0)
  }

  /** The tree and the list select the same orders, for every role, status argument and flag, exactly when SameScope
      holds. */
  lemma BuildersAgreeIff(p: Params)
    requires LimitsNotEmpty(p.scope)
    ensures (forall o: Order, cb: Option<int> :: TreeSelects(p, o, cb) <==> SqlSelects(p, o, cb)) <==> SameScope(p)
  {
    if p.user.role == INQUIRY_EMPLOYEE {
      forall o: Order, cb: Option<int>
        ensures SameScope(p) ==> (TreeSelects(p, o, cb) <==> SqlSelects(p, o, cb))
      {
        InquiryAgree(p, o, cb);
      }
      if !SameScope(p) { InquiryDiffer(p); }
    } else {
      forall o: Order, cb: Option<int>
        ensures SameScope(p) ==> (TreeSelects(p, o, cb) <==> SqlSelects(p, o, cb))
      {
        OtherTreeSelects(p, o, cb);
      }
      if !SameScope(p) { OtherDiffer(p); }
    }
  }

  lemma InquiryAgree(p: Params, o: Order, cb: Option<int>)
    requires LimitsNotEmpty(p.scope) && p.user.role == INQUIRY_EMPLOYEE
    ensures SameScope(p) ==> (TreeSelects(p, o, cb) <==> SqlSelects(p, o, cb))
  {
    InquiryTreeSelects(p, o, cb);
    InquiryBranches(p.user, p.scope, o, cb);
  }

  lemma InquiryDiffer(p: Params)
    requires LimitsNotEmpty(p.scope) && p.user.role == INQUIRY_EMPLOYEE && !SameScope(p)
    ensures var o := Sample(p); TreeSelects(p, o, o.branchId) != SqlSelects(p, o, o.branchId)
  {
    var o := Sample(p);
    InquiryTreeSelects(p, o, o.branchId);
    InquiryBranches(p.user, p.scope, o, o.branchId);
  }

  lemma OtherDiffer(p: Params)
    requires p.user.role != INQUIRY_EMPLOYEE && !SameScope(p)
    ensures var o := Sample(p); TreeSelects(p, o, o.branchId) != SqlSelects(p, o, o.branchId)
  {
    var o := Sample(p);
    OtherTreeSelects(p, o, o.branchId);
  }

  // ---------------------------------------------------------------- in the columns of the tables

  /** A stored limit counts when it is not empty, and an order type when it is not the empty text. */
  lemma ResolvedColumns(role: Role, stuff: Option<InquiryStuff>)
    ensures var s := ResolveInquiryScope(role, stuff);
            if role != INQUIRY_EMPLOYEE || stuff.None? then s == InquiryScope(None, None, None, None, None, None, None)
            else
              && s.orderType == (if stuff.value.orderType == Some(OTHER_TYPE("")) then None else stuff.value.orderType)
              && s.statuses == (if stuff.value.statuses == [] then None else Some(stuff.value.statuses))
              && s.governorates == (if stuff.value.governorates == [] then None else Some(stuff.value.governorates))
              && s.locations == (if stuff.value.locations == [] then None else Some(stuff.value.locations))
              && s.branches == (if stuff.value.branches == [] then None else Some(stuff.value.branches))
              && s.stores == (if stuff.value.stores == [] then None else Some(stuff.value.stores))
              && s.companies == (if stuff.value.companies == [] then None else Some(stuff.value.companies))
  {
  }

  /** A column is one of the listed ids; a missing column or list has none. */
  ghost predicate Among(column: Option<int>, ids: Option<seq<int>>) {
    column.Some? && ids.Some? && column.value in ids.value
  }

  ghost predicate Empty<T>(list: Option<seq<T>>) {
    list == None || list == Some([])
  }

  /** The branches an inquiry employee sees in the SQL: in the main repository, and with a branch list, the listed
      ones on the side the order type names, or on either side without one; otherwise the own branch on either side. */
  ghost predicate InquiryBranchColumns(u: User, s: InquiryScope, o: Order, cb: Option<int>) {
    if u.mainRepository && !Empty(s.branches) && s.orderType == None then
      Among(o.branchId, s.branches) || Among(cb, s.branches)
    else if u.mainRepository && !Empty(s.branches) && s.orderType == Some(RECEIVING) then Among(o.branchId, s.branches)
    else if u.mainRepository && !Empty(s.branches) && s.orderType == Some(FORWARDED) then Among(cb, s.branches)
    else u.branchId.Some? && (o.branchId == u.branchId || cb == u.branchId)
  }

  lemma BranchRowColumns(u: User, s: InquiryScope, o: Order, cb: Option<int>)
    ensures InquiryBranchRow(u, s, o, cb) <==> InquiryBranchColumns(u, s, o, cb)
  {
  }

  /** The orders the SQL selects for an inquiry employee. */
  lemma InquirySqlColumns(p: Params, o: Order, cb: Option<int>)
    requires p.user.role == INQUIRY_EMPLOYEE
    ensures var u, s := p.user, p.scope;
            SqlSelects(p, o, cb)
            <==> && (if p.status.Some? then o.status == p.status.value
                     else Empty(s.statuses) || o.status in s.statuses.value)
                 && (Empty(s.governorates) || o.governorate in s.governorates.value)
                 && InquiryBranchColumns(u, s, o, cb)
                 && (Empty(p.stores) || o.storeId in p.stores.value)
                 && (o.companyId == u.companyID || o.forwardedFromId == Some(u.companyID))
                 && (Empty(s.locations) || o.locationId in s.locations.value)
                 && !(p.includeStatusAndDeleted && o.deleted)
  {
    BranchRowColumns(p.user, p.scope, o, cb);
  }

  /** The orders the SQL selects for every other role. */
  lemma OtherSqlColumns(p: Params, o: Order, cb: Option<int>)
    requires p.user.role != INQUIRY_EMPLOYEE
    ensures var u := p.user;
            var assistant := u.role in {CLIENT_ASSISTANT, EMPLOYEE_CLIENT_ASSISTANT};
            var scoped := !assistant && !u.mainRepository
                          && u.role !in {COMPANY_MANAGER, DELIVERY_AGENT, BRANCH_MANAGER};
            var named := p.employee.Some? && p.employee.value.branchId.Some?;
            SqlSelects(p, o, cb)
            <==> && (p.includeStatusAndDeleted ==>
                       && !o.deleted
                       && (if p.status.Some? then o.status == p.status.value
                           else assistant && p.employee.Some? && p.employee.value.orderStatus != []
                                ==> o.status in p.employee.value.orderStatus))
                 && (u.role == CLIENT ==> o.clientId == u.id)
                 && (o.companyId == u.companyID || o.forwardedFromId == Some(u.companyID))
                 && (scoped && named ==> o.branchId == p.employee.value.branchId)
                 && (u.role == DELIVERY_AGENT ==> o.deliveryAgentId == Some(u.id))
                 && (assistant && !Empty(p.stores) ==> o.storeId in p.stores.value)
                 && (u.role == BRANCH_MANAGER && named
                     ==> o.branchId == p.employee.value.branchId || cb == p.employee.value.branchId)
  {
  }

  /** The orders the tree selects for an inquiry employee: lists that are there limit even when empty, a company list
      replaces the own company, and an own branch that is missing limits nothing. */
  lemma InquiryTreeColumns(p: Params, o: Order, cb: Option<int>)
    requires p.user.role == INQUIRY_EMPLOYEE
    ensures var u, s := p.user, p.scope;
            var listed := && u.mainRepository && !Empty(s.branches)
                          && s.orderType in {None, Some(RECEIVING), Some(FORWARDED)};
            TreeSelects(p, o, cb)
            <==> && (if p.status.Some? then o.status == p.status.value
                     else s.statuses.None? || o.status in s.statuses.value)
                 && (s.governorates.None? || o.governorate in s.governorates.value)
                 && (if listed then InquiryBranchColumns(u, s, o, cb)
                     else Empty(s.companies) && (u.branchId.None? || o.branchId == u.branchId || cb == u.branchId))
                 && (p.stores.None? || o.storeId in p.stores.value)
                 && (if s.companies.Some? then o.companyId == u.companyID && Among(o.forwardedFromId, s.companies)
                     else o.companyId == u.companyID || o.forwardedFromId == Some(u.companyID))
                 && (s.locations.None? || o.locationId in s.locations.value)
                 && !(p.includeStatusAndDeleted && o.deleted)
  {
    InquiryTreeSelects(p, o, cb);
    InquiryBranches(p.user, p.scope, o, cb);
    BranchRowColumns(p.user, p.scope, o, cb);
  }

  /** The orders the tree selects for every other role: an employee record without a branch asks for orders without
      one. */
  lemma OtherTreeColumns(p: Params, o: Order, cb: Option<int>)
    requires p.user.role != INQUIRY_EMPLOYEE
    ensures var u := p.user;
            var assistant := u.role in {CLIENT_ASSISTANT, EMPLOYEE_CLIENT_ASSISTANT};
            var scoped := !assistant && !u.mainRepository
                          && u.role !in {COMPANY_MANAGER, DELIVERY_AGENT, BRANCH_MANAGER};
            TreeSelects(p, o, cb)
            <==> && (p.includeStatusAndDeleted ==>
                       && !o.deleted
                       && (if p.status.Some? then o.status == p.status.value
                           else assistant && p.employee.Some? ==> o.status in p.employee.value.orderStatus))
                 && (u.role == CLIENT ==> o.clientId == u.id)
                 && (o.companyId == u.companyID || o.forwardedFromId == Some(u.companyID))
                 && (scoped && p.employee.Some? ==> o.branchId == p.employee.value.branchId)
                 && (u.role == DELIVERY_AGENT ==> o.deliveryAgentId == Some(u.id))
                 && (assistant && p.stores.Some? ==> o.storeId in p.stores.value)
                 && (u.role == BRANCH_MANAGER && p.employee.Some?
                     ==> o.branchId == p.employee.value.branchId || cb == p.employee.value.branchId)
  {
    OtherTreeSelects(p, o, cb);
  }
}
