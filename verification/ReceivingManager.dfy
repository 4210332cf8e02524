/** The receiving manager's dashboards (src/app/orders/receivingAgentManager.ts): totals per agent, the unassigned
    count, the drill-downs and the statistics tiles over a many-to-many relation of clients and agents. */
module ReceivingManager {
  import opened Schema
  import opened Sums

  datatype Scope = Scope(companyId: int, branchId: int)

  /** The company and branch of a client or an agent. */
  datatype Member = Member(companyId: int, branchId: Option<int>)

  datatype Assignment = Assignment(agentId: int, clientId: int)

  datatype SecondaryType = RETURNED_TYPE | DELIVERED_TYPE

  /** A client report with its saved counts and, once delivered, its receiving agent. */
  datatype ClientReport = ClientReport(companyId: int, deleted: bool, confirmed: bool, secondaryType: SecondaryType,
                                       clientId: int, agentId: Option<int>,
                                       baghdadOrdersCount: nat, governoratesOrdersCount: nat)

  /** (agentId, clientId) is the primary key of the assignments. */
  datatype Db = Db(orders: seq<Order>, clients: map<int, Member>, agents: map<int, Member>,
                   assignments: seq<Assignment>, reports: seq<ClientReport>)

  datatype User = User(role: Role, companyID: Option<int>, branchId: Option<int>)

  datatype Error = Forbidden | BadRequest

  datatype AgentFilter = Everyone | Unassigned | Agent(id: int)

  datatype ManagerStatus = READY | WITH_AGENT | RETURNED_REPORTS | DELIVERED_REPORTS

  // ---------------------------------------------------------------- the where builders

  function ScopeOf(user: User): Result<Scope, Error> {
    if user.role != RECEIVING_AGENTS_MANAGER || user.companyID.None? || user.companyID.value < 1
       || user.branchId.None? || user.branchId.value < 1
    then Err(Forbidden)
    else Ok(Scope(user.companyID.value, user.branchId.value))
  }

  predicate InScope(m: Member, s: Scope) {
    m == Member(s.companyId, Some(s.branchId))
  }

  predicate AgentInScope(db: Db, s: Scope, agent: int) {
    agent in db.agents && InScope(db.agents[agent], s)
  }

  predicate ClientInScope(db: Db, s: Scope, client: int) {
    client in db.clients && InScope(db.clients[client], s)
  }

  /** The client is assigned to some agent of the scope, or to the given one. */
  predicate AssignedInScope(db: Db, s: Scope, client: int, agent: Option<int>) {
    exists a | a in db.assignments ::
      a.clientId == client && AgentInScope(db, s, a.agentId) && (agent.Some? ==> a.agentId == agent.value)
  }

  predicate NeverAssigned(db: Db, client: int) {
    forall a | a in db.assignments :: a.clientId != client
  }

  /** `receivingManagerOrderWhere`, for the combinations it accepts. */
  predicate OrderWhere(db: Db, s: Scope, withAgent: bool, filter: AgentFilter, o: Order) {
    && o.companyId == s.companyId && !o.deleted
    && o.status == (if withAgent then WITH_RECEIVING_AGENT else READY_TO_SEND)
    && if withAgent then
         o.deliveryAgentId.Some? && AgentInScope(db, s, o.deliveryAgentId.value)
         && (filter.Agent? ==> o.deliveryAgentId.value == filter.id)
       else
         && ClientInScope(db, s, o.clientId)
         && match filter
            case Unassigned => NeverAssigned(db, o.clientId)
            case Everyone => AssignedInScope(db, s, o.clientId, None) || NeverAssigned(db, o.clientId)
            case Agent(id) => AssignedInScope(db, s, o.clientId, Some(id))
  }

  function FilteredOrders(db: Db, s: Scope, withAgent: bool, filter: AgentFilter): seq<Order> {
    Select(db.orders, (o: Order) => OrderWhere(db, s, withAgent, filter, o))
  }

  /** `receivingManagerReportWhere` */
  predicate ReportWhere(db: Db, s: Scope, secondaryType: SecondaryType, r: ClientReport) {
    && r.companyId == s.companyId && !r.deleted && !r.confirmed && r.secondaryType == secondaryType
    && ClientInScope(db, s, r.clientId) && r.agentId.Some? && AgentInScope(db, s, r.agentId.value)
  }

  function FilteredReports(db: Db, s: Scope, secondaryType: SecondaryType): seq<ClientReport> {
    Select(db.reports, (r: ClientReport) => ReportWhere(db, s, secondaryType, r))
  }

  // ---------------------------------------------------------------- grouped counts

  /** One entry of a keyed count: entries says how often the key was met. */
  datatype Group = Group(key: int, count: nat, entries: nat)

  /** `const g = groups.get(key) ?? new; g.count += n; groups.set(key, g)`, keeping insertion order. */
  function Bump(gs: seq<Group>, key: int, n: nat): seq<Group> {
    if gs == [] then [Group(key, n, 1)]
    else if gs[0].key == key then [Group(key, gs[0].count + n, gs[0].entries + 1)] + gs[1..]
    else [gs[0]] + Bump(gs[1..], key, n)
  }

  function GroupBy(keys: seq<int>): seq<Group> {
    if keys == [] then [] else Bump(GroupBy(keys[..|keys| - 1]), keys[|keys| - 1], 1)
  }

  function CountOf(gs: seq<Group>, key: int): nat {
    if gs == [] then 0 else if gs[0].key == key then gs[0].count else CountOf(gs[1..], key)
  }

  function TotalWhere(gs: seq<Group>, p: int -> bool): nat {
    if gs == [] then 0 else (if p(gs[0].key) then gs[0].count else 0) + TotalWhere(gs[1..], p)
  }

  function Total(gs: seq<Group>): nat {
    TotalWhere(gs, (k: int) => true)
  }

  predicate HasKey(gs: seq<Group>, key: int) {
    exists g | g in gs :: g.key == key
  }

  ghost predicate DistinctKeys(gs: seq<Group>) {
    forall i, j :: 0 <= i < j < |gs| ==> gs[i].key != gs[j].key
  }

  lemma {:induction false} BumpCounts(gs: seq<Group>, key: int, n: nat, p: int -> bool)
    ensures forall k :: CountOf(Bump(gs, key, n), k) == CountOf(gs, k) + if k == key then n else 0
    ensures TotalWhere(Bump(gs, key, n), p) == TotalWhere(gs, p) + if p(key) then n else 0
  {
    if gs != [] && gs[0].key != key { BumpCounts(gs[1..], key, n, p); }
  }

  lemma HasKeyCons(g: Group, rest: seq<Group>, key: int)
    ensures HasKey([g] + rest, key) <==> g.key == key || HasKey(rest, key)
  {
    var gs := [g] + rest;
    assert forall h :: h in gs <==> h == g || h in rest;
  }

  lemma HeadKeyOnce(gs: seq<Group>, k: int)
    requires gs != [] && DistinctKeys(gs) && HasKey(gs[1..], k)
    ensures k != gs[0].key
  {
    var h :| h in gs[1..] && h.key == k;
    var i :| 0 <= i < |gs| - 1 && gs[1..][i] == h;
    assert gs[i + 1] == h;
  }

  lemma {:induction false} BumpKeys(gs: seq<Group>, key: int, n: nat)
    ensures forall k :: HasKey(Bump(gs, key, n), k) <==> HasKey(gs, k) || k == key
    ensures DistinctKeys(gs) ==> DistinctKeys(Bump(gs, key, n))
  {
    if gs == [] {
      forall k ensures HasKey(Bump(gs, key, n), k) <==> k == key { HasKeyCons(Group(key, n, 1), [], k); }
    } else {
      var first, rest := gs[0], gs[1..];
      assert gs == [first] + rest;
      var next := if first.key == key then Group(key, first.count + n, first.entries + 1) else first;
      var tail := if first.key == key then rest else Bump(rest, key, n);
      assert Bump(gs, key, n) == [next] + tail;
      if first.key != key { BumpKeys(rest, key, n); }
      forall k ensures HasKey(Bump(gs, key, n), k) <==> HasKey(gs, k) || k == key {
        HasKeyCons(first, rest, k);
        HasKeyCons(next, tail, k);
      }
      if DistinctKeys(gs) {
        forall j | 0 <= j < |tail| ensures tail[j].key != next.key {
          assert HasKey(tail, tail[j].key);
          if HasKey(rest, tail[j].key) { HeadKeyOnce(gs, tail[j].key); }
        }
      }
    }
  }

  ghost function Occurs(keys: seq<int>, key: int): nat {
    |Select(keys, (x: int) => x == key)|
  }

  lemma {:induction false} GroupByCounts(keys: seq<int>, p: int -> bool)
    ensures TotalWhere(GroupBy(keys), p) == |Select(keys, p)|
    ensures forall k :: CountOf(GroupBy(keys), k) == Occurs(keys, k)
    ensures forall k :: HasKey(GroupBy(keys), k) <==> k in keys
    ensures DistinctKeys(GroupBy(keys))
  {
    if keys != [] {
      var init, last := keys[..|keys| - 1], keys[|keys| - 1];
      GroupByCounts(init, p);
      BumpCounts(GroupBy(init), last, 1, p);
      BumpKeys(GroupBy(init), last, 1);
      assert keys == init + [last];
      SelectAppend(init, [last], p);
      forall k ensures CountOf(GroupBy(keys), k) == Occurs(keys, k) {
        SelectAppend(init, [last], (x: int) => x == k);
      }
    }
  }

  // ---------------------------------------------------------------- sorting

  /** `b.count - a.count || a.agentId - b.agentId` is negative. */
  predicate Precedes(a: Group, b: Group) {
    a.count > b.count || (a.count == b.count && a.key < b.key)
  }

  function Insert(g: Group, gs: seq<Group>): seq<Group> {
    if gs == [] || Precedes(g, gs[0]) then [g] + gs else [gs[0]] + Insert(g, gs[1..])
  }

  function SortAgents(gs: seq<Group>): seq<Group> {
    if gs == [] then [] else Insert(gs[0], SortAgents(gs[1..]))
  }

  ghost predicate SortedAgents(gs: seq<Group>) {
    forall i, j | 0 <= i < j < |gs| ::
      gs[i].count > gs[j].count || (gs[i].count == gs[j].count && gs[i].key <= gs[j].key)
  }

  ghost predicate InOrder(gs: seq<Group>) {
    forall i, j :: 0 <= i < j < |gs| ==> !Precedes(gs[j], gs[i])
  }

  lemma InOrderCons(g: Group, rest: seq<Group>)
    requires InOrder(rest) && forall h | h in rest :: !Precedes(h, g)
    ensures InOrder([g] + rest)
  {
  }

  lemma {:induction false} InsertPermutes(g: Group, gs: seq<Group>)
    ensures multiset(Insert(g, gs)) == multiset(gs) + multiset{g}
  {
    if gs != [] {
      assert gs == [gs[0]] + gs[1..];
      if !Precedes(g, gs[0]) { InsertPermutes(g, gs[1..]); }
    }
  }

  lemma {:induction false} InsertInOrder(g: Group, gs: seq<Group>)
    requires InOrder(gs)
    ensures InOrder(Insert(g, gs))
  {
    if gs != [] && Precedes(g, gs[0]) {
      forall h | h in gs ensures !Precedes(h, g) {
        var k :| 0 <= k < |gs| && gs[k] == h;
        assert k > 0 ==> !Precedes(gs[k], gs[0]);
      }
      InOrderCons(g, gs);
    } else if gs != [] {
      var rest := Insert(g, gs[1..]);
      InsertInOrder(g, gs[1..]);
      InsertPermutes(g, gs[1..]);
      forall h | h in rest ensures !Precedes(h, gs[0]) {
        assert h in multiset(rest);
      }
      InOrderCons(gs[0], rest);
    }
  }

  lemma {:induction false} SortsInOrder(gs: seq<Group>)
    ensures InOrder(SortAgents(gs)) && multiset(SortAgents(gs)) == multiset(gs)
  {
    if gs != [] {
      SortsInOrder(gs[1..]);
      InsertInOrder(gs[0], SortAgents(gs[1..]));
      InsertPermutes(gs[0], SortAgents(gs[1..]));
      assert gs == [gs[0]] + gs[1..];
    }
  }

  /** Larger counts first, then smaller ids, and the same entries. */
  lemma SortAgentsSorts(gs: seq<Group>)
    ensures SortedAgents(SortAgents(gs)) && multiset(SortAgents(gs)) == multiset(gs)
  {
    SortsInOrder(gs);
    var sorted := SortAgents(gs);
    forall i, j | 0 <= i < j < |sorted|
      ensures sorted[i].count > sorted[j].count
              || (sorted[i].count == sorted[j].count && sorted[i].key <= sorted[j].key)
    {
      assert !Precedes(sorted[j], sorted[i]);
    }
  }

  lemma {:induction false} InsertTotals(g: Group, gs: seq<Group>, p: int -> bool)
    ensures TotalWhere(Insert(g, gs), p) == TotalWhere(gs, p) + if p(g.key) then g.count else 0
  {
    if gs != [] && !Precedes(g, gs[0]) { InsertTotals(g, gs[1..], p); }
  }

  /** Sorting changes no total over any choice of keys. */
  lemma {:induction false} SortTotals(gs: seq<Group>, p: int -> bool)
    ensures TotalWhere(SortAgents(gs), p) == TotalWhere(gs, p)
  {
    if gs != [] {
      SortTotals(gs[1..], p);
      InsertTotals(gs[0], SortAgents(gs[1..]), p);
    }
  }

  lemma {:induction false} EntryIsCount(gs: seq<Group>, g: Group)
    requires DistinctKeys(gs) && g in gs
    ensures CountOf(gs, g.key) == g.count
  {
    if gs[0] != g {
      var k :| 0 <= k < |gs| && gs[k] == g;
      assert gs[1..][k - 1] == g;
      EntryIsCount(gs[1..], g);
    }
  }

  /** The sorted list has the same entries and keys. */
  lemma SortedEntries(gs: seq<Group>)
    requires DistinctKeys(gs)
    ensures SortedAgents(SortAgents(gs)) && Total(SortAgents(gs)) == Total(gs)
    ensures forall g :: g in SortAgents(gs) <==> g in gs
    ensures forall k :: HasKey(SortAgents(gs), k) <==> HasKey(gs, k)
  {
    SortAgentsSorts(gs);
    SortTotals(gs, (k: int) => true);
    forall g ensures g in SortAgents(gs) <==> g in gs {
      assert g in SortAgents(gs) <==> g in multiset(SortAgents(gs));
      assert g in gs <==> g in multiset(gs);
    }
  }

  // ---------------------------------------------------------------- ready orders

  function ClientIds(os: seq<Order>): seq<int> {
    if os == [] then [] else [os[0].clientId] + ClientIds(os[1..])
  }

  lemma {:induction false} ClientIdsSelect(os: seq<Order>, p: int -> bool)
    ensures |ClientIds(os)| == |os|
    ensures |Select(ClientIds(os), p)| == |Select(os, (o: Order) => p(o.clientId))|
    ensures forall k :: k in ClientIds(os) <==> exists o :: o in os && o.clientId == k
  {
    if os != [] {
      ClientIdsSelect(os[1..], p);
      assert ClientIds(os)[1..] == ClientIds(os[1..]);
      assert forall o :: o in os <==> o == os[0] || o in os[1..];
    }
  }

  ghost predicate DistinctPairs(as_: seq<Assignment>) {
    forall i, j :: 0 <= i < j < |as_| ==> as_[i] != as_[j]
  }

  /** The assignments the dashboard loads: of counted clients, to agents of the scope. */
  function LoadedAssignments(db: Db, s: Scope, counts: seq<Group>): seq<Assignment> {
    Select(db.assignments, (a: Assignment) => HasKey(counts, a.clientId) && AgentInScope(db, s, a.agentId))
  }

  /** The groups map after the loop. */
  function AgentGroups(as_: seq<Assignment>, counts: seq<Group>): seq<Group> {
    if as_ == [] then []
    else
      var last := as_[|as_| - 1];
      Bump(AgentGroups(as_[..|as_| - 1], counts), last.agentId, CountOf(counts, last.clientId))
  }

  ghost predicate Repeats(as_: seq<Assignment>) {
    exists i, j :: 0 <= i < j < |as_| && as_[i].clientId == as_[j].clientId
  }

  function Degree(as_: seq<Assignment>, client: int): nat {
    |Select(as_, (a: Assignment) => a.clientId == client)|
  }

  ghost function DegreeSum(os: seq<Order>, as_: seq<Assignment>): nat {
    if os == [] then 0 else Degree(as_, os[0].clientId) + DegreeSum(os[1..], as_)
  }

  /** Every order of a client with d agents, counted d - 1 times. */
  ghost function Excess(os: seq<Order>, as_: seq<Assignment>): nat {
    if os == [] then 0
    else (if Degree(as_, os[0].clientId) > 0 then Degree(as_, os[0].clientId) - 1 else 0) + Excess(os[1..], as_)
  }

  lemma {:induction false} DegreeSumGrows(os: seq<Order>, as_: seq<Assignment>, a: Assignment)
    ensures DegreeSum(os, as_ + [a]) == DegreeSum(os, as_) + |Select(os, (o: Order) => o.clientId == a.clientId)|
  {
    if os != [] {
      DegreeSumGrows(os[1..], as_, a);
      SelectAppend(as_, [a], (b: Assignment) => b.clientId == os[0].clientId);
    }
  }

  lemma {:induction false} DegreeSumEmpty(os: seq<Order>)
    ensures DegreeSum(os, []) == 0
  {
    if os != [] { DegreeSumEmpty(os[1..]); }
  }

  lemma {:induction false} DegreesAreExcess(os: seq<Order>, as_: seq<Assignment>)
    ensures DegreeSum(os, as_) + |Select(os, (o: Order) => Degree(as_, o.clientId) == 0)| == |os| + Excess(os, as_)
  {
    if os != [] { DegreesAreExcess(os[1..], as_); }
  }

  lemma {:induction false} ExcessZeroIff(os: seq<Order>, as_: seq<Assignment>)
    ensures Excess(os, as_) == 0 <==> forall o | o in os :: Degree(as_, o.clientId) <= 1
  {
    if os != [] {
      ExcessZeroIff(os[1..], as_);
      assert forall o :: o in os <==> o == os[0] || o in os[1..];
    }
  }

  lemma {:induction false} DegreePositiveIff(as_: seq<Assignment>, client: int)
    ensures Degree(as_, client) > 0 <==> exists a :: a in as_ && a.clientId == client
  {
    if as_ != [] {
      DegreePositiveIff(as_[1..], client);
      assert forall a :: a in as_ <==> a == as_[0] || a in as_[1..];
    }
  }

  lemma {:induction false} DegreeTwoIff(as_: seq<Assignment>, client: int)
    ensures Degree(as_, client) > 1
            <==> exists i, j :: 0 <= i < j < |as_| && as_[i].clientId == client && as_[j].clientId == client
  {
    if as_ != [] {
      var rest := as_[1..];
      DegreeTwoIff(rest, client);
      DegreePositiveIff(rest, client);
      if i, j :| 0 <= i < j < |as_| && as_[i].clientId == client && as_[j].clientId == client {
        assert rest[j - 1] in rest && rest[j - 1].clientId == client;
        if i > 0 { assert rest[i - 1].clientId == client; }
      }
      if i, j :| 0 <= i < j < |rest| && rest[i].clientId == client && rest[j].clientId == client {
        assert as_[i + 1].clientId == client && as_[j + 1].clientId == client;
      }
      if as_[0].clientId == client && Degree(rest, client) > 0 {
        var a :| a in rest && a.clientId == client;
        var k :| 0 <= k < |rest| && rest[k] == a;
        assert as_[0].clientId == client && as_[k + 1].clientId == client;
      }
    }
  }

  ghost predicate Serves(as_: seq<Assignment>, agent: int, client: int) {
    Assignment(agent, client) in as_
  }

  ghost function ServedCount(os: seq<Order>, as_: seq<Assignment>, agent: int): nat {
    |Select(os, (o: Order) => Serves(as_, agent, o.clientId))|
  }

  lemma ServedCountGrows(os: seq<Order>, as_: seq<Assignment>, a: Assignment, agent: int)
    requires a !in as_
    ensures ServedCount(os, as_ + [a], agent)
            == ServedCount(os, as_, agent)
               + if agent == a.agentId then |Select(os, (o: Order) => o.clientId == a.clientId)| else 0
  {
    var before := (o: Order) => Serves(as_, agent, o.clientId);
    var after := (o: Order) => Serves(as_ + [a], agent, o.clientId);
    if agent == a.agentId {
      SelectSplits(os, before, (o: Order) => o.clientId == a.clientId, after);
    } else {
      SelectCongruent(os, before, after);
    }
  }

  lemma CountOfClient(os: seq<Order>, client: int)
    ensures CountOf(GroupBy(ClientIds(os)), client) == |Select(os, (o: Order) => o.clientId == client)|
  {
    var same := (x: int) => x == client;
    GroupByCounts(ClientIds(os), same);
    ClientIdsSelect(os, same);
    SelectCongruent(ClientIds(os), same, (x: int) => x == client);
    SelectCongruent(os, (o: Order) => same(o.clientId), (o: Order) => o.clientId == client);
  }

  /** An agent's entry counts the orders of the clients it serves. */
  lemma {:induction false} AgentGroupCount(os: seq<Order>, as_: seq<Assignment>, agent: int)
    requires DistinctPairs(as_)
    ensures CountOf(AgentGroups(as_, GroupBy(ClientIds(os))), agent) == ServedCount(os, as_, agent)
  {
    var counts := GroupBy(ClientIds(os));
    if as_ == [] {
      SelectNone(os, (o: Order) => Serves(as_, agent, o.clientId));
    } else {
      var init, last := as_[..|as_| - 1], as_[|as_| - 1];
      assert as_ == init + [last];
      AgentGroupCount(os, init, agent);
      BumpCounts(AgentGroups(init, counts), last.agentId, CountOf(counts, last.clientId), (k: int) => true);
      CountOfClient(os, last.clientId);
      ServedCountGrows(os, init, last, agent);
    }
  }

  /** All entries together count each order once per agent of its client. */
  lemma {:induction false} AgentGroupTotal(os: seq<Order>, as_: seq<Assignment>)
    ensures Total(AgentGroups(as_, GroupBy(ClientIds(os)))) == DegreeSum(os, as_)
  {
    var counts := GroupBy(ClientIds(os));
    if as_ == [] {
      DegreeSumEmpty(os);
    } else {
      var init, last := as_[..|as_| - 1], as_[|as_| - 1];
      assert as_ == init + [last];
      AgentGroupTotal(os, init);
      BumpCounts(AgentGroups(init, counts), last.agentId, CountOf(counts, last.clientId), (k: int) => true);
      CountOfClient(os, last.clientId);
      DegreeSumGrows(os, init, last);
    }
  }

  lemma {:induction false} AgentGroupKeys(as_: seq<Assignment>, counts: seq<Group>)
    ensures DistinctKeys(AgentGroups(as_, counts))
    ensures forall k :: HasKey(AgentGroups(as_, counts), k) <==> exists a :: a in as_ && a.agentId == k
  {
    if as_ != [] {
      var init, last := as_[..|as_| - 1], as_[|as_| - 1];
      AgentGroupKeys(init, counts);
      BumpKeys(AgentGroups(init, counts), last.agentId, CountOf(counts, last.clientId));
      assert forall a :: a in as_ <==> a in init || a == last;
    }
  }

  // ---------------------------------------------------------------- the dashboards

  datatype Dashboard = Dashboard(agents: seq<Group>, unassignedCount: Option<nat>, totalCount: nat,
                                 hasSharedClients: bool)

  ghost predicate SeenClients(seen: set<int>, assignments: seq<Assignment>) {
    forall c :: c in seen <==> exists a :: a in assignments && a.clientId == c
  }

  lemma SeenNext(seen: set<int>, as_: seq<Assignment>, a: Assignment)
    requires SeenClients(seen, as_)
    ensures SeenClients(seen + {a.clientId}, as_ + [a])
    ensures Repeats(as_ + [a]) <==> Repeats(as_) || a.clientId in seen
  {
    RepeatsGrow(as_, a);
    if a.clientId in seen {
      var b :| b in as_ && b.clientId == a.clientId;
      var j :| 0 <= j < |as_| && as_[j] == b;
    }
    forall c ensures c in seen + {a.clientId} <==> exists b :: b in as_ + [a] && b.clientId == c {
      if c in seen {
        var b :| b in as_ && b.clientId == c;
        assert b in as_ + [a];
      }
      if c == a.clientId { assert a in as_ + [a]; }
    }
  }

  lemma SeenIff(seen: set<int>, as_: seq<Assignment>, c: int)
    requires SeenClients(seen, as_)
    ensures c in seen <==> Degree(as_, c) > 0
  {
    DegreePositiveIff(as_, c);
  }

  /** The loop over the loaded assignments, and what is left over. */
  method ReadyAgents(counts: seq<Group>, assignments: seq<Assignment>) returns (d: Dashboard)
    ensures d.agents == SortAgents(AgentGroups(assignments, counts))
    ensures d.hasSharedClients <==> Repeats(assignments)
    ensures d.unassignedCount == Some(TotalWhere(counts, (c: int) => Degree(assignments, c) == 0))
    ensures d.totalCount == Total(counts)
  {
    var groups: seq<Group> := [];
    var seenClients: set<int> := {};
    var hasSharedClients := false;
    for i := 0 to |assignments|
      invariant groups == AgentGroups(assignments[..i], counts)
      invariant SeenClients(seenClients, assignments[..i])
      invariant hasSharedClients <==> Repeats(assignments[..i])
    {
      var assignment := assignments[i];
      assert assignments[..i + 1][..i] == assignments[..i];
      SeenNext(seenClients, assignments[..i], assignment);
      assert assignments[..i + 1] == assignments[..i] + [assignment];
      if assignment.clientId in seenClients {
        hasSharedClients := true;
      }
      seenClients := seenClients + {assignment.clientId};
      groups := Bump(groups, assignment.agentId, CountOf(counts, assignment.clientId));
    }
    assert assignments[..|assignments|] == assignments;
    var unassigned, total := CountUnassigned(counts, assignments, seenClients);
    d := Dashboard(SortAgents(groups), Some(unassigned), total, hasSharedClients);
  }

  method CountUnassigned(counts: seq<Group>, assignments: seq<Assignment>, seenClients: set<int>)
    returns (unassigned: nat, total: nat)
    requires SeenClients(seenClients, assignments)
    ensures unassigned == TotalWhere(counts, (c: int) => Degree(assignments, c) == 0)
    ensures total == Total(counts)
  {
    unassigned, total := 0, 0;
    for i := 0 to |counts|
      invariant total == Total(counts[..i])
      invariant unassigned == TotalWhere(counts[..i], (c: int) => Degree(assignments, c) == 0)
    {
      SeenIff(seenClients, assignments, counts[i].key);
      TotalWhereAppend(counts[..i], counts[i], (k: int) => true);
      TotalWhereAppend(counts[..i], counts[i], (c: int) => Degree(assignments, c) == 0);
      assert counts[..i + 1] == counts[..i] + [counts[i]];
      unassigned := unassigned + if counts[i].key in seenClients then 0 else counts[i].count;
      total := total + counts[i].count;
    }
    assert counts[..|counts|] == counts;
  }

  lemma RepeatsGrow(as_: seq<Assignment>, a: Assignment)
    ensures Repeats(as_ + [a]) <==> Repeats(as_) || exists j :: 0 <= j < |as_| && as_[j].clientId == a.clientId
  {
    var all := as_ + [a];
    if i, j :| 0 <= i < j < |as_| && as_[i].clientId == as_[j].clientId {
      assert all[i].clientId == all[j].clientId;
    }
    if j :| 0 <= j < |as_| && as_[j].clientId == a.clientId {
      assert all[j].clientId == all[|as_|].clientId;
    }
    if Repeats(all) {
      var i, j :| 0 <= i < j < |all| && all[i].clientId == all[j].clientId;
      if j < |as_| {
        assert as_[i].clientId == as_[j].clientId;
      }
    }
  }

  lemma {:induction false} TotalWhereAppend(gs: seq<Group>, g: Group, p: int -> bool)
    ensures TotalWhere(gs + [g], p) == TotalWhere(gs, p) + if p(g.key) then g.count else 0
  {
    if gs == [] {
      assert gs + [g] == [g];
    } else {
      assert (gs + [g])[1..] == gs[1..] + [g];
      TotalWhereAppend(gs[1..], g, p);
    }
  }

  /** What the ready dashboard shows. */
  ghost function ReadyDashboard(db: Db, s: Scope): Dashboard {
    var counts := GroupBy(ClientIds(FilteredOrders(db, s, false, Everyone)));
    var loaded := LoadedAssignments(db, s, counts);
    Dashboard(SortAgents(AgentGroups(loaded, counts)), Some(TotalWhere(counts, (c: int) => Degree(loaded, c) == 0)),
              Total(counts), Repeats(loaded))
  }

  lemma LoadedMember(db: Db, s: Scope, a: Assignment)
    ensures var counts := GroupBy(ClientIds(FilteredOrders(db, s, false, Everyone)));
            a in LoadedAssignments(db, s, counts)
            <==> && a in db.assignments && AgentInScope(db, s, a.agentId)
                 && exists o :: o in FilteredOrders(db, s, false, Everyone) && o.clientId == a.clientId
  {
    var os := FilteredOrders(db, s, false, Everyone);
    var counts := GroupBy(ClientIds(os));
    GroupByCounts(ClientIds(os), (k: int) => true);
    ClientIdsSelect(os, (k: int) => true);
    SelectMembers(db.assignments, (b: Assignment) => HasKey(counts, b.clientId) && AgentInScope(db, s, b.agentId), a);
  }

  lemma EveryoneMember(db: Db, s: Scope, o: Order)
    ensures o in FilteredOrders(db, s, false, Everyone) <==> o in db.orders && OrderWhere(db, s, false, Everyone, o)
  {
    SelectMembers(db.orders, (x: Order) => OrderWhere(db, s, false, Everyone, x), o);
  }

  /** An agent's drill-down selects exactly the orders its entry counts. */
  lemma AgentDrillDown(db: Db, s: Scope, agent: int)
    requires AgentInScope(db, s, agent)
    ensures var os := FilteredOrders(db, s, false, Everyone);
            |FilteredOrders(db, s, false, Agent(agent))|
            == ServedCount(os, LoadedAssignments(db, s, GroupBy(ClientIds(os))), agent)
  {
    var os := FilteredOrders(db, s, false, Everyone);
    var loaded := LoadedAssignments(db, s, GroupBy(ClientIds(os)));
    var everyone := (o: Order) => OrderWhere(db, s, false, Everyone, o);
    var served := (o: Order) => AssignedInScope(db, s, o.clientId, Some(agent));
    forall o ensures OrderWhere(db, s, false, Agent(agent), o) <==> everyone(o) && served(o) {
      if a :| a in db.assignments && a.clientId == o.clientId && AgentInScope(db, s, a.agentId) && a.agentId == agent {
        assert AssignedInScope(db, s, o.clientId, None);
      }
    }
    SelectTwice(db.orders, everyone, served, (o: Order) => OrderWhere(db, s, false, Agent(agent), o));
    forall o | o in os ensures served(o) == Serves(loaded, agent, o.clientId) {
      LoadedMember(db, s, Assignment(agent, o.clientId));
      if served(o) {
        var a :| a in db.assignments && a.clientId == o.clientId && AgentInScope(db, s, a.agentId)
                 && a.agentId == agent;
        assert a == Assignment(agent, o.clientId);
      }
    }
    SelectCongruent(os, served, (o: Order) => Serves(loaded, agent, o.clientId));
  }

  /** The unassigned drill-down selects exactly the orders the unassigned count counts. */
  lemma UnassignedDrillDown(db: Db, s: Scope)
    ensures ReadyDashboard(db, s).unassignedCount == Some(|FilteredOrders(db, s, false, Unassigned)|)
    ensures var os := FilteredOrders(db, s, false, Everyone);
            var loaded := LoadedAssignments(db, s, GroupBy(ClientIds(os)));
            |FilteredOrders(db, s, false, Unassigned)| == |Select(os, (o: Order) => Degree(loaded, o.clientId) == 0)|
  {
    var os := FilteredOrders(db, s, false, Everyone);
    var loaded := LoadedAssignments(db, s, GroupBy(ClientIds(os)));
    var everyone := (o: Order) => OrderWhere(db, s, false, Everyone, o);
    var free := (o: Order) => NeverAssigned(db, o.clientId);
    var unserved := (c: int) => Degree(loaded, c) == 0;
    SelectTwice(db.orders, everyone, free, (o: Order) => OrderWhere(db, s, false, Unassigned, o));
    forall o | o in os ensures free(o) == unserved(o.clientId) {
      EveryoneMember(db, s, o);
      DegreePositiveIff(loaded, o.clientId);
      forall a ensures a in loaded && a.clientId == o.clientId
          <==> a in db.assignments && AgentInScope(db, s, a.agentId) && a.clientId == o.clientId
      {
        LoadedMember(db, s, a);
      }
    }
    SelectCongruent(os, free, (o: Order) => unserved(o.clientId));
    GroupByCounts(ClientIds(os), unserved);
    ClientIdsSelect(os, unserved);
    SelectCongruent(os, (o: Order) => unserved(o.clientId), (o: Order) => Degree(loaded, o.clientId) == 0);
  }

  /** READY_TO_SEND: every number shown agrees with its drill-down, the agents' counts and the unassigned count
      exceed the total by one per extra agent of each order's client, and so equal it exactly when no client is
      shared. */
  lemma ReadyDashboardAdds(db: Db, s: Scope)
    requires DistinctPairs(db.assignments)
    ensures var d, os := ReadyDashboard(db, s), FilteredOrders(db, s, false, Everyone);
            var loaded := LoadedAssignments(db, s, GroupBy(ClientIds(os)));
            && SortedAgents(d.agents)
            && (forall g | g in d.agents :: g.count == |FilteredOrders(db, s, false, Agent(g.key))|)
            && d.unassignedCount == Some(|FilteredOrders(db, s, false, Unassigned)|)
            && d.totalCount == |os|
            && Total(d.agents) + d.unassignedCount.value == d.totalCount + Excess(os, loaded)
            && (Total(d.agents) + d.unassignedCount.value == d.totalCount <==> !d.hasSharedClients)
  {
    var os := FilteredOrders(db, s, false, Everyone);
    var counts := GroupBy(ClientIds(os));
    var loaded := LoadedAssignments(db, s, counts);
    var groups := AgentGroups(loaded, counts);
    SelectPairwise(db.assignments, (a: Assignment) => HasKey(counts, a.clientId) && AgentInScope(db, s, a.agentId),
                   (a: Assignment, b: Assignment) => a != b);
    AgentGroupKeys(loaded, counts);
    SortedEntries(groups);
    forall g | g in groups ensures g.count == |FilteredOrders(db, s, false, Agent(g.key))| {
      EntryIsCount(groups, g);
      AgentGroupCount(os, loaded, g.key);
      assert HasKey(groups, g.key);
      var a :| a in loaded && a.agentId == g.key;
      LoadedMember(db, s, a);
      AgentDrillDown(db, s, g.key);
    }
    UnassignedDrillDown(db, s);
    GroupByCounts(ClientIds(os), (k: int) => true);
    ClientIdsSelect(os, (k: int) => true);
    SelectAll(ClientIds(os));
    AgentGroupTotal(os, loaded);
    DegreesAreExcess(os, loaded);
    SharedIffExcess(db, s);
  }

  lemma {:induction false} SelectAll(ks: seq<int>)
    ensures Select(ks, (k: int) => true) == ks
  {
    if ks != [] { SelectAll(ks[1..]); }
  }

  lemma SharedIffExcess(db: Db, s: Scope)
    ensures var os := FilteredOrders(db, s, false, Everyone);
            var loaded := LoadedAssignments(db, s, GroupBy(ClientIds(os)));
            Repeats(loaded) <==> Excess(os, loaded) != 0
  {
    var os := FilteredOrders(db, s, false, Everyone);
    var loaded := LoadedAssignments(db, s, GroupBy(ClientIds(os)));
    ExcessZeroIff(os, loaded);
    if Repeats(loaded) {
      var i, j :| 0 <= i < j < |loaded| && loaded[i].clientId == loaded[j].clientId;
      LoadedMember(db, s, loaded[i]);
      var o :| o in os && o.clientId == loaded[i].clientId;
      DegreeTwoIff(loaded, o.clientId);
    }
    if o :| o in os && Degree(loaded, o.clientId) > 1 {
      DegreeTwoIff(loaded, o.clientId);
    }
  }

  // ---------------------------------------------------------------- orders with an agent, and reports

  function DeliveryAgentIds(os: seq<Order>): seq<int> {
    if os == [] then []
    else (if os[0].deliveryAgentId.Some? then [os[0].deliveryAgentId.value] else []) + DeliveryAgentIds(os[1..])
  }

  lemma {:induction false} DeliveryAgentIdsSelect(os: seq<Order>, p: int -> bool)
    requires forall o | o in os :: o.deliveryAgentId.Some?
    ensures |DeliveryAgentIds(os)| == |os|
    ensures |Select(DeliveryAgentIds(os), p)|
         == |Select(os, (o: Order) => o.deliveryAgentId.Some? && p(o.deliveryAgentId.value))|
  {
    if os != [] {
      DeliveryAgentIdsSelect(os[1..], p);
      assert DeliveryAgentIds(os) == [os[0].deliveryAgentId.value] + DeliveryAgentIds(os[1..]);
    }
  }

  ghost function WithAgentDashboard(db: Db, s: Scope): Dashboard {
    var groups := GroupBy(DeliveryAgentIds(FilteredOrders(db, s, true, Everyone)));
    Dashboard(SortAgents(groups), None, Total(groups), false)
  }

  /** WITH_RECEIVING_AGENT: entries agree with their drill-downs and add up to the total. */
  lemma WithAgentDashboardAdds(db: Db, s: Scope)
    ensures var d := WithAgentDashboard(db, s);
            && SortedAgents(d.agents)
            && (forall g | g in d.agents :: g.count == |FilteredOrders(db, s, true, Agent(g.key))|)
            && d.totalCount == |FilteredOrders(db, s, true, Everyone)| == Total(d.agents)
  {
    var os := FilteredOrders(db, s, true, Everyone);
    var ids := DeliveryAgentIds(os);
    var groups := GroupBy(ids);
    var everyone := (o: Order) => OrderWhere(db, s, true, Everyone, o);
    forall o | o in os ensures o.deliveryAgentId.Some? {
      SelectMembers(db.orders, everyone, o);
    }
    GroupByCounts(ids, (k: int) => true);
    SortedEntries(groups);
    SelectAll(ids);
    DeliveryAgentIdsSelect(os, (k: int) => true);
    forall g | g in groups ensures g.count == |FilteredOrders(db, s, true, Agent(g.key))| {
      var same := (x: int) => x == g.key;
      var mine := (o: Order) => o.deliveryAgentId.Some? && same(o.deliveryAgentId.value);
      EntryIsCount(groups, g);
      DeliveryAgentIdsSelect(os, same);
      SelectCongruent(ids, same, (x: int) => x == g.key);
      SelectTwice(db.orders, everyone, mine, (o: Order) => OrderWhere(db, s, true, Agent(g.key), o));
    }
  }

  function ReportOrders(r: ClientReport): nat {
    r.baghdadOrdersCount + r.governoratesOrdersCount
  }

  function ReportTotal(rs: seq<ClientReport>): nat {
    if rs == [] then 0 else ReportOrders(rs[0]) + ReportTotal(rs[1..])
  }

  function ReportGroups(rs: seq<ClientReport>): seq<Group> {
    if rs == [] then []
    else
      var last := rs[|rs| - 1];
      if last.agentId.Some? then Bump(ReportGroups(rs[..|rs| - 1]), last.agentId.value, ReportOrders(last))
      else ReportGroups(rs[..|rs| - 1])
  }

  lemma {:induction false} ReportTotalAppend(a: seq<ClientReport>, b: seq<ClientReport>)
    ensures ReportTotal(a + b) == ReportTotal(a) + ReportTotal(b)
  {
    if a == [] {
      assert a + b == b;
    } else {
      assert (a + b)[1..] == a[1..] + b;
      ReportTotalAppend(a[1..], b);
    }
  }

  lemma {:induction false} ReportGroupCount(rs: seq<ClientReport>, agent: int)
    requires forall r | r in rs :: r.agentId.Some?
    ensures CountOf(ReportGroups(rs), agent) == ReportTotal(Select(rs, (r: ClientReport) => r.agentId == Some(agent)))
    ensures Total(ReportGroups(rs)) == ReportTotal(rs)
    ensures DistinctKeys(ReportGroups(rs))
  {
    if rs != [] {
      var init, last := rs[..|rs| - 1], rs[|rs| - 1];
      var mine := (r: ClientReport) => r.agentId == Some(agent);
      assert rs == init + [last];
      ReportGroupCount(init, agent);
      SelectAppend(init, [last], mine);
      ReportTotalAppend(Select(init, mine), Select([last], mine));
      ReportTotalAppend(init, [last]);
      BumpCounts(ReportGroups(init), last.agentId.value, ReportOrders(last), (k: int) => true);
      BumpKeys(ReportGroups(init), last.agentId.value, ReportOrders(last));
      assert Select([last], mine) == if mine(last) then [last] else [];
    }
  }

  /** The loop over the reports; one without an agent is skipped. */
  method ReportAgents(reports: seq<ClientReport>) returns (d: Dashboard)
    ensures d.agents == SortAgents(ReportGroups(reports))
    ensures d.totalCount == Total(ReportGroups(reports))
    ensures d.unassignedCount == None && !d.hasSharedClients
  {
    var groups: seq<Group> := [];
    var totalCount := 0;
    for i := 0 to |reports|
      invariant groups == ReportGroups(reports[..i]) && totalCount == Total(groups)
    {
      var report := reports[i];
      assert reports[..i + 1][..i] == reports[..i];
      if report.agentId.Some? {
        BumpCounts(groups, report.agentId.value, ReportOrders(report), (k: int) => true);
        groups := Bump(groups, report.agentId.value, ReportOrders(report));
        totalCount := totalCount + ReportOrders(report);
      }
    }
    assert reports[..|reports|] == reports;
    d := Dashboard(SortAgents(groups), None, totalCount, false);
  }

  ghost function ReportDashboard(db: Db, s: Scope, t: SecondaryType): Dashboard {
    var groups := ReportGroups(FilteredReports(db, s, t));
    Dashboard(SortAgents(groups), None, Total(groups), false)
  }

  /** RETURNED and DELIVERED: an entry is the saved order counts of the agent's reports, and the entries add up to
      the total. */
  lemma ReportDashboardAdds(db: Db, s: Scope, t: SecondaryType)
    ensures var d, rs := ReportDashboard(db, s, t), FilteredReports(db, s, t);
            && SortedAgents(d.agents)
            && (forall g | g in d.agents ::
                  g.count == ReportTotal(Select(rs, (r: ClientReport) => r.agentId == Some(g.key))))
            && d.totalCount == ReportTotal(rs) == Total(d.agents)
  {
    var rs := FilteredReports(db, s, t);
    forall r | r in rs ensures r.agentId.Some? {
      SelectMembers(db.reports, (x: ClientReport) => ReportWhere(db, s, t, x), r);
    }
    ReportGroupCount(rs, 0);
    SortedEntries(ReportGroups(rs));
    forall g | g in ReportGroups(rs)
      ensures g.count == ReportTotal(Select(rs, (r: ClientReport) => r.agentId == Some(g.key)))
    {
      EntryIsCount(ReportGroups(rs), g);
      ReportGroupCount(rs, g.key);
    }
  }

  // ---------------------------------------------------------------- the endpoints

  ghost function DashboardOf(db: Db, s: Scope, status: ManagerStatus): Dashboard {
    match status
    case READY => ReadyDashboard(db, s)
    case WITH_AGENT => WithAgentDashboard(db, s)
    case RETURNED_REPORTS => ReportDashboard(db, s, RETURNED_TYPE)
    case DELIVERED_REPORTS => ReportDashboard(db, s, DELIVERED_TYPE)
  }

  method GetReceivingManagerAgents(db: Db, user: User, status: ManagerStatus) returns (r: Result<Dashboard, Error>)
    ensures match ScopeOf(user)
            case Err(e) => r == Err(e)
            case Ok(s) => r == Ok(DashboardOf(db, s, status))
    ensures r.Ok? <==> && user.role == RECEIVING_AGENTS_MANAGER
                       && user.companyID.Some? && user.companyID.value > 0
                       && user.branchId.Some? && user.branchId.value > 0
    ensures r.Ok? ==> r.value == DashboardOf(db, Scope(user.companyID.value, user.branchId.value), status)
  {
    var scope := ScopeOf(user);
    if scope.Err? { return Err(scope.error); }
    var s := scope.value;
    match status {
      case READY =>
        var counts := GroupBy(ClientIds(FilteredOrders(db, s, false, Everyone)));
        var d := ReadyAgents(counts, LoadedAssignments(db, s, counts));
        return Ok(d);
      case WITH_AGENT =>
        var groups := GroupBy(DeliveryAgentIds(FilteredOrders(db, s, true, Everyone)));
        return Ok(Dashboard(SortAgents(groups), None, Total(groups), false));
      case RETURNED_REPORTS =>
        var d := ReportAgents(FilteredReports(db, s, RETURNED_TYPE));
        return Ok(d);
      case DELIVERED_REPORTS =>
        var d := ReportAgents(FilteredReports(db, s, DELIVERED_TYPE));
        return Ok(d);
    }
  }

  /** `getReceivingManagerClients`: the drill-down, one entry per client. */
  function Clients(db: Db, user: User, withAgent: bool, filter: AgentFilter): Result<seq<Group>, Error> {
    match ScopeOf(user)
    case Err(e) => Err(e)
    case Ok(s) =>
      if filter.Unassigned? && withAgent then Err(BadRequest)
      else Ok(SortAgents(GroupBy(ClientIds(FilteredOrders(db, s, withAgent, filter)))))
  }

  function SumOrNull(rs: seq<ClientReport>, f: ClientReport -> nat): Option<nat> {
    if rs == [] then None else Some(SumCounts(rs, f))
  }

  function SumCounts(rs: seq<ClientReport>, f: ClientReport -> nat): nat {
    if rs == [] then 0 else f(rs[0]) + SumCounts(rs[1..], f)
  }

  function OrZero(v: Option<nat>): nat {
    match v case None => 0 case Some(n) => n
  }

  /** `getReceivingManagerStatistics`, one tile: aggregates over reports, counts over orders. */
  function Tile(db: Db, s: Scope, status: ManagerStatus): nat {
    match status
    case READY => |FilteredOrders(db, s, false, Everyone)|
    case WITH_AGENT => |FilteredOrders(db, s, true, Everyone)|
    case RETURNED_REPORTS =>
      var rs := FilteredReports(db, s, RETURNED_TYPE);
      OrZero(SumOrNull(rs, (r: ClientReport) => r.baghdadOrdersCount))
      + OrZero(SumOrNull(rs, (r: ClientReport) => r.governoratesOrdersCount))
    case DELIVERED_REPORTS =>
      var rs := FilteredReports(db, s, DELIVERED_TYPE);
      OrZero(SumOrNull(rs, (r: ClientReport) => r.baghdadOrdersCount))
      + OrZero(SumOrNull(rs, (r: ClientReport) => r.governoratesOrdersCount))
  }

  lemma {:induction false} ColumnsAddUp(rs: seq<ClientReport>)
    ensures ReportTotal(rs) == SumCounts(rs, (r: ClientReport) => r.baghdadOrdersCount)
                               + SumCounts(rs, (r: ClientReport) => r.governoratesOrdersCount)
  {
    if rs != [] { ColumnsAddUp(rs[1..]); }
  }

  /** The tile of every status shows the total of that status's agent list. */
  lemma TilesAgree(db: Db, s: Scope, status: ManagerStatus)
    requires DistinctPairs(db.assignments)
    ensures Tile(db, s, status) == DashboardOf(db, s, status).totalCount
  {
    match status
    case READY => ReadyDashboardAdds(db, s);
    case WITH_AGENT => WithAgentDashboardAdds(db, s);
    case RETURNED_REPORTS =>
      ReportDashboardAdds(db, s, RETURNED_TYPE);
      ColumnsAddUp(FilteredReports(db, s, RETURNED_TYPE));
    case DELIVERED_REPORTS =>
      ReportDashboardAdds(db, s, DELIVERED_TYPE);
      ColumnsAddUp(FilteredReports(db, s, DELIVERED_TYPE));
  }

  lemma UnlistedReady(db: Db, s: Scope, id: int, o: Order)
    requires o in db.orders && OrderWhere(db, s, false, Agent(id), o)
    ensures HasKey(ReadyDashboard(db, s).agents, id)
  {
    var counts := GroupBy(ClientIds(FilteredOrders(db, s, false, Everyone)));
    var loaded := LoadedAssignments(db, s, counts);
    var a :| a in db.assignments && a.clientId == o.clientId && AgentInScope(db, s, a.agentId) && a.agentId == id;
    assert AssignedInScope(db, s, o.clientId, None);
    EveryoneMember(db, s, o);
    LoadedMember(db, s, a);
    AgentGroupKeys(loaded, counts);
    SortedEntries(AgentGroups(loaded, counts));
  }

  lemma {:induction false} DeliveryAgentListed(os: seq<Order>, o: Order)
    requires o in os && o.deliveryAgentId.Some?
    ensures o.deliveryAgentId.value in DeliveryAgentIds(os)
  {
    if os[0] != o { DeliveryAgentListed(os[1..], o); }
  }

  lemma UnlistedWithAgent(db: Db, s: Scope, id: int, o: Order)
    requires o in db.orders && OrderWhere(db, s, true, Agent(id), o)
    ensures HasKey(WithAgentDashboard(db, s).agents, id)
  {
    var os := FilteredOrders(db, s, true, Everyone);
    SelectMembers(db.orders, (x: Order) => OrderWhere(db, s, true, Everyone, x), o);
    DeliveryAgentListed(os, o);
    GroupByCounts(DeliveryAgentIds(os), (k: int) => true);
    SortedEntries(GroupBy(DeliveryAgentIds(os)));
  }

  /** An agent the list does not show has nothing to drill down to. */
  lemma UnlistedHasNoOrders(db: Db, s: Scope, withAgent: bool, id: int)
    requires !HasKey(DashboardOf(db, s, if withAgent then WITH_AGENT else READY).agents, id)
    ensures FilteredOrders(db, s, withAgent, Agent(id)) == []
  {
    forall o | o in db.orders ensures !OrderWhere(db, s, withAgent, Agent(id), o) {
      if OrderWhere(db, s, withAgent, Agent(id), o) {
        if withAgent { UnlistedWithAgent(db, s, id, o); } else { UnlistedReady(db, s, id, o); }
      }
    }
    SelectNone(db.orders, (o: Order) => OrderWhere(db, s, withAgent, Agent(id), o));
  }

  /** The clients of a drill-down add up to the number the agent list shows for that agent, or for nobody. */
  lemma ClientsAddUpToEntry(db: Db, user: User, withAgent: bool, filter: AgentFilter)
    requires DistinctPairs(db.assignments)
    requires ScopeOf(user).Ok? && !(filter.Unassigned? && withAgent)
    ensures Clients(db, user, withAgent, filter).Ok?
    ensures var d := DashboardOf(db, ScopeOf(user).value, if withAgent then WITH_AGENT else READY);
            var shown := Total(Clients(db, user, withAgent, filter).value);
            match filter
            case Everyone => shown == d.totalCount
            case Unassigned => d.unassignedCount == Some(shown)
            case Agent(id) =>
              (forall g | g in d.agents && g.key == id :: shown == g.count) && (!HasKey(d.agents, id) ==> shown == 0)
  {
    var s := ScopeOf(user).value;
    var keys := ClientIds(FilteredOrders(db, s, withAgent, filter));
    var all := (k: int) => true;
    GroupByCounts(keys, all);
    SortTotals(GroupBy(keys), all);
    SelectAll(keys);
    ClientIdsSelect(FilteredOrders(db, s, withAgent, filter), all);
    if withAgent { WithAgentDashboardAdds(db, s); } else { ReadyDashboardAdds(db, s); }
    if filter.Agent? && !HasKey(DashboardOf(db, s, if withAgent then WITH_AGENT else READY).agents, filter.id) {
      UnlistedHasNoOrders(db, s, withAgent, filter.id);
    }
  }

  // ---------------------------------------------------------------- in the columns of the tables

  /** The client or agent is of this company and branch. */
  ghost predicate Sits(members: map<int, Member>, id: int, company: int, branch: int) {
    id in members && members[id].companyId == company && members[id].branchId == Some(branch)
  }

  /** A ready order of the company, not deleted, whose client sits in the branch: assigned to nobody at all, to the
      given agent of the branch, or to nobody or some agent of the branch. */
  ghost predicate ReadyFor(db: Db, s: Scope, filter: AgentFilter, o: Order) {
    && o.status == READY_TO_SEND && !o.deleted && o.companyId == s.companyId
    && Sits(db.clients, o.clientId, s.companyId, s.branchId)
    && match filter
       case Unassigned => forall a | a in db.assignments :: a.clientId != o.clientId
       case Agent(id) => Sits(db.agents, id, s.companyId, s.branchId) && Assignment(id, o.clientId) in db.assignments
       case Everyone =>
         || (forall a | a in db.assignments :: a.clientId != o.clientId)
         || exists a :: a in db.assignments && a.clientId == o.clientId
                      && Sits(db.agents, a.agentId, s.companyId, s.branchId)
  }

  /** An order of the company, not deleted, that is with an agent of the branch, or with the given one. */
  ghost predicate WithAgentFor(db: Db, s: Scope, filter: AgentFilter, o: Order) {
    && o.status == WITH_RECEIVING_AGENT && !o.deleted && o.companyId == s.companyId && o.deliveryAgentId.Some?
    && Sits(db.agents, o.deliveryAgentId.value, s.companyId, s.branchId)
    && (filter.Agent? ==> filter.id == o.deliveryAgentId.value)
  }

  /** A client report of the company and type, neither deleted nor confirmed, whose client and agent sit in the
      branch. */
  ghost predicate ReportFor(db: Db, s: Scope, t: SecondaryType, r: ClientReport) {
    && r.companyId == s.companyId && !r.deleted && !r.confirmed && r.secondaryType == t
    && Sits(db.clients, r.clientId, s.companyId, s.branchId)
    && r.agentId.Some? && Sits(db.agents, r.agentId.value, s.companyId, s.branchId)
  }

  ghost function Counted(db: Db, s: Scope, withAgent: bool, filter: AgentFilter): Order -> bool {
    (o: Order) => if withAgent then WithAgentFor(db, s, filter, o) else ReadyFor(db, s, filter, o)
  }

  ghost function CountedReport(db: Db, s: Scope, t: SecondaryType): ClientReport -> bool {
    (r: ClientReport) => ReportFor(db, s, t, r)
  }

  lemma SitsInScope(members: map<int, Member>, id: int, s: Scope)
    ensures Sits(members, id, s.companyId, s.branchId) <==> id in members && InScope(members[id], s)
  {
  }

  lemma ReadyColumns(db: Db, s: Scope, filter: AgentFilter, o: Order)
    ensures OrderWhere(db, s, false, filter, o) <==> ReadyFor(db, s, filter, o)
  {
    forall id ensures AgentInScope(db, s, id) <==> Sits(db.agents, id, s.companyId, s.branchId) {
      SitsInScope(db.agents, id, s);
    }
    SitsInScope(db.clients, o.clientId, s);
    if a :| a in db.assignments && a.clientId == o.clientId && filter.Agent? && a.agentId == filter.id {
      assert a == Assignment(filter.id, o.clientId);
    }
  }

  lemma WithAgentColumns(db: Db, s: Scope, filter: AgentFilter, o: Order)
    requires !filter.Unassigned?
    ensures OrderWhere(db, s, true, filter, o) <==> WithAgentFor(db, s, filter, o)
  {
    if o.deliveryAgentId.Some? { SitsInScope(db.agents, o.deliveryAgentId.value, s); }
  }

  lemma FilteredAreCounted(db: Db, s: Scope, withAgent: bool, filter: AgentFilter)
    requires !(withAgent && filter.Unassigned?)
    ensures FilteredOrders(db, s, withAgent, filter) == Select(db.orders, Counted(db, s, withAgent, filter))
  {
    forall o ensures OrderWhere(db, s, withAgent, filter, o) <==> Counted(db, s, withAgent, filter)(o) {
      if withAgent { WithAgentColumns(db, s, filter, o); } else { ReadyColumns(db, s, filter, o); }
    }
    SelectCongruent(db.orders, (o: Order) => OrderWhere(db, s, withAgent, filter, o),
                    Counted(db, s, withAgent, filter));
  }

  lemma ReportsAreCounted(db: Db, s: Scope, t: SecondaryType)
    ensures FilteredReports(db, s, t) == Select(db.reports, CountedReport(db, s, t))
  {
    forall r ensures ReportWhere(db, s, t, r) <==> CountedReport(db, s, t)(r) {
      SitsInScope(db.clients, r.clientId, s);
      if r.agentId.Some? { SitsInScope(db.agents, r.agentId.value, s); }
    }
    SelectCongruent(db.reports, (r: ClientReport) => ReportWhere(db, s, t, r), CountedReport(db, s, t));
  }

  /** Every number of the two order dashboards counts exactly the orders of its status, company, branch and agent. */
  lemma OrderDashboardCounts(db: Db, s: Scope, withAgent: bool)
    requires DistinctPairs(db.assignments)
    ensures var status := if withAgent then WITH_AGENT else READY;
            var d := DashboardOf(db, s, status);
            && d.totalCount == Tile(db, s, status) == |Select(db.orders, Counted(db, s, withAgent, Everyone))|
            && (forall g | g in d.agents :: g.count == |Select(db.orders, Counted(db, s, withAgent, Agent(g.key)))|)
            && (forall id :: !HasKey(d.agents, id) ==> Select(db.orders, Counted(db, s, withAgent, Agent(id))) == [])
            && d.unassignedCount == if withAgent then None
                                    else Some(|Select(db.orders, Counted(db, s, false, Unassigned))|)
  {
    var d := DashboardOf(db, s, if withAgent then WITH_AGENT else READY);
    FilteredAreCounted(db, s, withAgent, Everyone);
    if withAgent {
      WithAgentDashboardAdds(db, s);
    } else {
      ReadyDashboardAdds(db, s);
      FilteredAreCounted(db, s, false, Unassigned);
    }
    forall id
      ensures FilteredOrders(db, s, withAgent, Agent(id)) == Select(db.orders, Counted(db, s, withAgent, Agent(id)))
      ensures !HasKey(d.agents, id) ==> FilteredOrders(db, s, withAgent, Agent(id)) == []
    {
      FilteredAreCounted(db, s, withAgent, Agent(id));
      if !HasKey(d.agents, id) { UnlistedHasNoOrders(db, s, withAgent, id); }
    }
  }

  /** Every number of the two report dashboards adds up the saved counts of exactly the reports of its type, company,
      branch and agent, and every entry says how many reports these are. */
  lemma ReportDashboardCounts(db: Db, s: Scope, t: SecondaryType)
    ensures var status := match t case RETURNED_TYPE => RETURNED_REPORTS case DELIVERED_TYPE => DELIVERED_REPORTS;
            var d, rs := DashboardOf(db, s, status), Select(db.reports, CountedReport(db, s, t));
            && d.totalCount == Tile(db, s, status) == SavedOrders(rs) && d.unassignedCount == None
            && (forall g | g in d.agents ::
                  && g.count == SavedOrders(Select(rs, (r: ClientReport) => r.agentId == Some(g.key)))
                  && g.entries == |Select(rs, (r: ClientReport) => r.agentId == Some(g.key))| > 0)
            && !d.hasSharedClients && SortedAgents(d.agents)
  {
    ReportsAreCounted(db, s, t);
    ReportDashboardAdds(db, s, t);
    var rs := FilteredReports(db, s, t);
    SavedAreTotals(rs);
    ColumnsAddUp(rs);
    ReportEntries(db, s, t);
    forall g | g in ReportDashboard(db, s, t).agents {
      SavedAreTotals(Select(rs, (r: ClientReport) => r.agentId == Some(g.key)));
    }
  }

  function EntriesOf(gs: seq<Group>, key: int): nat {
    if gs == [] then 0 else if gs[0].key == key then gs[0].entries else EntriesOf(gs[1..], key)
  }

  lemma {:induction false} BumpEntries(gs: seq<Group>, key: int, n: nat)
    requires forall g | g in gs :: g.entries > 0
    ensures forall k :: EntriesOf(Bump(gs, key, n), k) == EntriesOf(gs, k) + if k == key then 1 else 0
    ensures forall g | g in Bump(gs, key, n) :: g.entries > 0
  {
    if gs != [] && gs[0].key != key { BumpEntries(gs[1..], key, n); }
  }

  lemma {:induction false} ReportGroupEntries(rs: seq<ClientReport>, agent: int)
    requires forall r | r in rs :: r.agentId.Some?
    ensures EntriesOf(ReportGroups(rs), agent) == |Select(rs, (r: ClientReport) => r.agentId == Some(agent))|
    ensures forall g | g in ReportGroups(rs) :: g.entries > 0
  {
    if rs != [] {
      var init, last := rs[..|rs| - 1], rs[|rs| - 1];
      var mine := (r: ClientReport) => r.agentId == Some(agent);
      assert rs == init + [last];
      ReportGroupEntries(init, agent);
      SelectAppend(init, [last], mine);
      BumpEntries(ReportGroups(init), last.agentId.value, ReportOrders(last));
      assert Select([last], mine) == if mine(last) then [last] else [];
    }
  }

  lemma {:induction false} EntryIsEntries(gs: seq<Group>, g: Group)
    requires DistinctKeys(gs) && g in gs
    ensures EntriesOf(gs, g.key) == g.entries
  {
    if gs[0] != g {
      var k :| 0 <= k < |gs| && gs[k] == g;
      assert gs[1..][k - 1] == g;
      EntryIsEntries(gs[1..], g);
    }
  }

  /** An entry of a report dashboard says from how many reports its number comes. */
  lemma ReportEntries(db: Db, s: Scope, t: SecondaryType)
    ensures var d, rs := ReportDashboard(db, s, t), FilteredReports(db, s, t);
            forall g | g in d.agents :: g.entries == |Select(rs, (r: ClientReport) => r.agentId == Some(g.key))| > 0
  {
    var rs := FilteredReports(db, s, t);
    forall r | r in rs ensures r.agentId.Some? {
      SelectMembers(db.reports, (x: ClientReport) => ReportWhere(db, s, t, x), r);
    }
    ReportGroupCount(rs, 0);
    SortedEntries(ReportGroups(rs));
    forall g | g in ReportGroups(rs)
      ensures g.entries == |Select(rs, (r: ClientReport) => r.agentId == Some(g.key))| > 0
    {
      EntryIsEntries(ReportGroups(rs), g);
      ReportGroupEntries(rs, g.key);
    }
  }

  /** The orders the reports saved, Baghdad's and the provinces'. */
  function SavedOrders(rs: seq<ClientReport>): nat {
    if rs == [] then 0 else rs[0].baghdadOrdersCount + rs[0].governoratesOrdersCount + SavedOrders(rs[1..])
  }

  lemma {:induction false} SavedAreTotals(rs: seq<ClientReport>)
    ensures SavedOrders(rs) == ReportTotal(rs)
  {
    if rs != [] { SavedAreTotals(rs[1..]); }
  }

  /** A drill-down lists exactly the clients with orders of its status, company, branch and agent, each with their
      number, larger numbers first, then smaller ids. */
  lemma ClientsColumns(db: Db, user: User, withAgent: bool, filter: AgentFilter)
    requires ScopeOf(user).Ok? && !(filter.Unassigned? && withAgent)
    ensures Clients(db, user, withAgent, filter).Ok?
    ensures var gs, counted := Clients(db, user, withAgent, filter).value,
                               Select(db.orders, Counted(db, ScopeOf(user).value, withAgent, filter));
            && (forall g | g in gs :: g.count == |Select(counted, (o: Order) => o.clientId == g.key)|)
            && (forall c :: HasKey(gs, c) <==> exists o :: o in counted && o.clientId == c)
            && SortedAgents(gs)
  {
    var os := FilteredOrders(db, ScopeOf(user).value, withAgent, filter);
    var groups := GroupBy(ClientIds(os));
    FilteredAreCounted(db, ScopeOf(user).value, withAgent, filter);
    GroupByCounts(ClientIds(os), (k: int) => true);
    ClientIdsSelect(os, (k: int) => true);
    SortedEntries(groups);
    forall g | g in groups ensures g.count == |Select(os, (o: Order) => o.clientId == g.key)| {
      EntryIsCount(groups, g);
      CountOfClient(os, g.key);
    }
  }

  lemma ClientsRefusedIff(db: Db, user: User, withAgent: bool, filter: AgentFilter)
    ensures Clients(db, user, withAgent, filter).Err?
            <==> || user.role != RECEIVING_AGENTS_MANAGER
                 || user.companyID.None? || user.companyID.value <= 0 || user.branchId.None? || user.branchId.value <= 0
                 || (filter.Unassigned? && withAgent)
  {
  }
}
