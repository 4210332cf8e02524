/** The cached location list (src/app/locations/locations.repository.ts). Redis is a map whose keys can also expire; a
    location list is stored under the JSON text of its filters. */
module LocationCache {
  import opened Schema
  import opened JsonText
  import opened Sums

  // ---------------------------------------------------------------- rows

  datatype Location = Location(id: int, name: string, governorate: string, remote: bool, branchId: int,
                               companyId: Option<int>)

  /** One row per agent and location, whatever the company. */
  datatype Assignment = Assignment(agentId: int, locationId: int, companyId: int)

  datatype Contact = Contact(name: string, phone: string)

  /** Locations are kept in id order. */
  datatype Db = Db(locations: seq<Location>, nextLocation: int, assignments: seq<Assignment>,
                   agents: map<int, Contact>, branches: set<int>)

  datatype Filters = Filters(page: nat, size: nat, search: Option<string>, branchID: Option<int>,
                             governorate: Option<string>, deliveryAgentID: Option<int>, companyID: Option<int>,
                             minified: Option<bool>)

  // ---------------------------------------------------------------- the key

  function NumberOrNull(x: Option<int>): Json {
    match x
    case None => JNull
    case Some(n) => JNumber(n)
  }

  function StringOrNull(x: Option<string>): Json {
    match x
    case None => JNull
    case Some(s) => JString(s)
  }

  const KEY_NAMES: seq<string> :=
    ["page", "size", "search", "branchID", "governorate", "deliveryAgentID", "companyID", "minified"]

  function KeyValues(f: Filters): seq<Json> {
    [JNumber(f.page), JNumber(f.size), StringOrNull(f.search), NumberOrNull(f.branchID), StringOrNull(f.governorate),
     NumberOrNull(f.deliveryAgentID), NumberOrNull(f.companyID), JBool(f.minified == Some(true))]
  }

  const PREFIX: string := "locations:"

  function LocationsCacheKey(f: Filters): string {
    PREFIX + ObjectText(KEY_NAMES, KeyValues(f))
  }

  predicate OfLocations(key: string) {
    PREFIX <= key
  }

  /** The key leaves nothing out but the difference between an absent and a false `minified`. */
  lemma EqualKeysIff(f: Filters, g: Filters)
    ensures LocationsCacheKey(f) == LocationsCacheKey(g) <==>
            f.(minified := None) == g.(minified := None) && (f.minified == Some(true) <==> g.minified == Some(true))
  {
    if LocationsCacheKey(f) == LocationsCacheKey(g) {
      Cancel(PREFIX, ObjectText(KEY_NAMES, KeyValues(f)), ObjectText(KEY_NAMES, KeyValues(g)));
      Cancel("{", Members(KEY_NAMES, KeyValues(f)), Members(KEY_NAMES, KeyValues(g)));
      MembersInjective(KEY_NAMES, KeyValues(f), KeyValues(g));
      SameValues(f, g);
    }
  }

  lemma SameValues(f: Filters, g: Filters)
    requires KeyValues(f) == KeyValues(g)
    ensures f.(minified := None) == g.(minified := None) && (f.minified == Some(true) <==> g.minified == Some(true))
  {
    var v, w := KeyValues(f), KeyValues(g);
    assert v[0] == w[0] && v[1] == w[1] && v[2] == w[2] && v[3] == w[3];
    assert v[4] == w[4] && v[5] == w[5] && v[6] == w[6] && v[7] == w[7];
  }

  // ---------------------------------------------------------------- the query

  predicate IsAt(text: string, part: string, i: nat)
    requires i + |part| <= |text|
  {
    text[i..i + |part|] == part
  }

  predicate Contains(text: string, part: string) {
    exists i | 0 <= i <= |text| - |part| :: IsAt(text, part, i)
  }

  predicate Same<T(==)>(filter: Option<T>, value: T) {
    filter.Some? ==> filter.value == value
  }

  predicate AgentServes(db: Db, agent: int, location: int) {
    exists a | a in db.assignments :: a.agentId == agent && a.locationId == location
  }

  /** `where`: an undefined member constrains nothing, and a minified list ignores the branch. */
  predicate Listed(db: Db, f: Filters, l: Location) {
    && (f.search.Some? ==> Contains(l.name, f.search.value))
    && (f.minified == Some(true) || Same(f.branchID, l.branchId))
    && Same(f.governorate, l.governorate)
    && (Truthy(f.deliveryAgentID) ==> AgentServes(db, f.deliveryAgentID.value, l.id))
    && (f.companyID.Some? ==> l.companyId == f.companyID)
  }

  datatype Agent = Agent(id: int, contact: Contact)

  datatype Shown =
    | Full(location: Location, deliveryAgents: seq<Agent>)
    | Minified(id: int, name: string, governorate: string, branchId: int)

  /** The assignments shown beside a location: those the asking company made. */
  function AgentRows(db: Db, f: Filters, location: int): seq<Assignment> {
    Select(db.assignments, (a: Assignment) => a.locationId == location && Same(f.companyID, a.companyId))
  }

  function Contacts(agents: map<int, Contact>, rows: seq<Assignment>): seq<Agent> {
    if rows == [] then []
    else (if rows[0].agentId in agents then [Agent(rows[0].agentId, agents[rows[0].agentId])] else [])
         + Contacts(agents, rows[1..])
  }

  function Show(db: Db, f: Filters, l: Location): Shown {
    if f.minified == Some(true) then Minified(l.id, l.name, l.governorate, l.branchId)
    else Full(l, Contacts(db.agents, AgentRows(db, f, l.id)))
  }

  /** What one location adds to a list. */
  function RowView(db: Db, f: Filters, l: Location): seq<Shown> {
    if Listed(db, f, l) then [Show(db, f, l)] else []
  }

  /** The whole list, in id order. */
  function View(db: Db, f: Filters, rows: seq<Location>): seq<Shown> {
    if rows == [] then [] else RowView(db, f, rows[0]) + View(db, f, rows[1..])
  }

  /** `Infinity` is what dividing a positive count by the size 0 gives; JSON has no such number and writes null. */
  datatype Count = Absent | Null | Infinity | Pages(n: nat)

  function PagesCount(total: nat, size: nat): Count {
    if total == 0 then Pages(1)
    else if size == 0 then Infinity
    else Pages((total + size - 1) / size)
  }

  datatype Page = Page(locations: seq<Shown>, pagesCount: Count)

  /** Pages count from 1. */
  function Skip(page: nat, size: nat): nat {
    if page == 0 then 0 else (page - 1) * size
  }

  /** What is returned of a list: minified, always its first 10000; otherwise a page of it, latest id first. */
  function PageOf(f: Filters, list: seq<Shown>): Page {
    if f.minified == Some(true) then Page(Slice(list, 0, 10000), Absent)
    else Page(Slice(Reversed(list), Skip(f.page, f.size), f.size), PagesCount(|list|, f.size))
  }

  function Query(db: Db, f: Filters): Page {
    PageOf(f, View(db, f, db.locations))
  }

  /** What `JSON.parse(JSON.stringify(page))` gives back. */
  function Stored(p: Page): Page {
    if p.pagesCount == Infinity then p.(pagesCount := Null) else p
  }

  /** Filters with the same key ask the same question of every database. */
  lemma EqualKeysEqualQueries(db: Db, f: Filters, g: Filters)
    requires LocationsCacheKey(f) == LocationsCacheKey(g)
    ensures Query(db, f) == Query(db, g)
  {
    EqualKeysIff(f, g);
    SameView(db, f, g, db.locations);
  }

  ghost predicate SameFilters(f: Filters, g: Filters) {
    f.(minified := None) == g.(minified := None) && (f.minified == Some(true) <==> g.minified == Some(true))
  }

  lemma SameRowView(db: Db, f: Filters, g: Filters, l: Location)
    requires SameFilters(f, g)
    ensures RowView(db, f, l) == RowView(db, g, l)
  {
    assert Listed(db, f, l) == Listed(db, g, l);
    SelectCongruent(db.assignments, (a: Assignment) => a.locationId == l.id && Same(f.companyID, a.companyId),
                    (a: Assignment) => a.locationId == l.id && Same(g.companyID, a.companyId));
  }

  lemma {:induction false} SameView(db: Db, f: Filters, g: Filters, rows: seq<Location>)
    requires SameFilters(f, g)
    ensures View(db, f, rows) == View(db, g, rows)
  {
    if rows != [] {
      SameRowView(db, f, g, rows[0]);
      SameView(db, f, g, rows[1..]);
    }
  }

  /** A hit is the query's own answer except for a full list asked for with size 0 that is not empty. */
  lemma HitIsExactIff(db: Db, f: Filters)
    ensures Stored(Query(db, f)) == Query(db, f) <==>
            f.minified == Some(true) || f.size > 0 || View(db, f, db.locations) == []
  {
  }

  // ---------------------------------------------------------------- mutations

  datatype Error = NotFound | Conflict | Invalid

  datatype NewLocation = NewLocation(name: string, governorate: string, remote: bool, branchID: int,
                                     agents: Option<seq<int>>)

  datatype Patch = Patch(name: Option<string>, governorate: Option<string>, remote: Option<bool>,
                         branchID: Option<int>, agents: Option<seq<int>>)

  function Assigned(agents: seq<int>, location: int, company: int): (r: seq<Assignment>)
    ensures |r| == |agents| && forall i | 0 <= i < |r| :: r[i] == Assignment(agents[i], location, company)
  {
    if agents == [] then [] else [Assignment(agents[0], location, company)] + Assigned(agents[1..], location, company)
  }

  /** Creating assignment rows fails for an unknown agent, for a company-less user and for a taken (agent, location). */
  function Assign(db: Db, agents: seq<int>, location: int, company: Option<int>): Result<Db, Error> {
    if agents != [] && company.None? then Err(Invalid)
    else if exists a | a in agents :: a !in db.agents then Err(NotFound)
    else if (exists a | a in agents :: AgentServes(db, a, location))
         || (exists i, j | 0 <= i < j < |agents| :: agents[i] == agents[j]) then Err(Conflict)
    else if agents == [] then Ok(db)
    else Ok(db.(assignments := db.assignments + Assigned(agents, location, company.value)))
  }

  function Create(db: Db, company: Option<int>, data: NewLocation): Result<Db, Error> {
    if data.branchID !in db.branches then Err(NotFound)
    else
      var id := db.nextLocation;
      var owner := if Truthy(company) then company else None;
      var row := Location(id, data.name, data.governorate, data.remote, data.branchID, owner);
      Assign(db.(locations := db.locations + [row], nextLocation := id + 1), Or(data.agents, []), id, company)
  }

  function Patched(l: Location, p: Patch): Location {
    l.(name := Or(p.name, l.name), governorate := Or(p.governorate, l.governorate), remote := Or(p.remote, l.remote),
       branchId := if Truthy(p.branchID) then p.branchID.value else l.branchId)
  }

  function PatchedRows(rows: seq<Location>, id: int, p: Patch): seq<Location> {
    if rows == [] then []
    else [if rows[0].id == id then Patched(rows[0], p) else rows[0]] + PatchedRows(rows[1..], id, p)
  }

  /** deleteMany with an undefined company removes every company's rows. */
  predicate Removes(a: Assignment, location: int, company: Option<int>) {
    a.locationId == location && Same(company, a.companyId)
  }

  function WithoutAssignments(rows: seq<Assignment>, location: int, company: Option<int>): seq<Assignment> {
    Select(rows, (a: Assignment) => !Removes(a, location, company))
  }

  predicate HasLocation(db: Db, id: int) {
    exists l | l in db.locations :: l.id == id
  }

  function Update(db: Db, company: Option<int>, id: int, p: Patch): Result<Db, Error> {
    if !HasLocation(db, id) || (Truthy(p.branchID) && p.branchID.value !in db.branches) then Err(NotFound)
    else
      var patched := db.(locations := PatchedRows(db.locations, id, p));
      match p.agents
      case None => Ok(patched)
      case Some(agents) =>
        Assign(patched.(assignments := WithoutAssignments(db.assignments, id, company)), agents, id, company)
  }

  function WithoutLocation(rows: seq<Location>, id: int): seq<Location> {
    Select(rows, (l: Location) => l.id != id)
  }

  /** The assignments of a deleted location go with it. */
  function Delete(db: Db, id: int): Result<Db, Error> {
    if !HasLocation(db, id) then Err(NotFound)
    else Ok(db.(locations := WithoutLocation(db.locations, id),
                assignments := WithoutAssignments(db.assignments, id, None)))
  }

  /** Replacing a location's agents gives the caller's company exactly the given agents there, and leaves the other
      companies' agents and the other locations alone. */
  lemma UpdateReplacesOwnAgents(db: Db, company: int, id: int, p: Patch, a: Assignment)
    requires p.agents.Some? && Update(db, Some(company), id, p).Ok?
    ensures var after := Update(db, Some(company), id, p).value.assignments;
            a in after <==> if a.locationId == id && a.companyId == company then a.agentId in p.agents.value
                            else a in db.assignments
  {
    var kept := WithoutAssignments(db.assignments, id, Some(company));
    var added := Assigned(p.agents.value, id, company);
    SelectMembers(db.assignments, (b: Assignment) => !Removes(b, id, Some(company)), a);
    assert a in added <==> a.locationId == id && a.companyId == company && a.agentId in p.agents.value by {
      if a.locationId == id && a.companyId == company && a.agentId in p.agents.value {
        var i :| 0 <= i < |p.agents.value| && p.agents.value[i] == a.agentId;
        assert added[i] == a;
      }
    }
    var after := Update(db, Some(company), id, p).value.assignments;
    assert p.agents.value == [] ==> added == [] && after == kept + added;
    assert after == kept + added;
  }

  // ---------------------------------------------------------------- cache

  datatype State = State(db: Db, redis: map<string, Page>)

  function Cleared(redis: map<string, Page>): map<string, Page> {
    map k | k in redis && !OfLocations(k) :: redis[k]
  }

  /** An error leaves both the rows and the cache as they were. */
  function Mutated(s: State, r: Result<Db, Error>): State {
    match r
    case Ok(db) => State(db, Cleared(s.redis))
    case Err(_) => s
  }

  function ReadAnswer(s: State, f: Filters): Page {
    var key := LocationsCacheKey(f);
    if key in s.redis then s.redis[key] else Query(s.db, f)
  }

  function AfterRead(s: State, f: Filters): State {
    var key := LocationsCacheKey(f);
    if key in s.redis then s else s.(redis := s.redis[key := Stored(Query(s.db, f))])
  }

  datatype Event =
    | Read(f: Filters)
    | Creation(company: Option<int>, data: NewLocation)
    | Change(company: Option<int>, id: int, patch: Patch)
    | Deletion(id: int)
    | Expiry(key: string)

  function Step(s: State, e: Event): State {
    match e
    case Read(f) => AfterRead(s, f)
    case Creation(company, data) => Mutated(s, Create(s.db, company, data))
    case Change(company, id, patch) => Mutated(s, Update(s.db, company, id, patch))
    case Deletion(id) => Mutated(s, Delete(s.db, id))
    case Expiry(key) => s.(redis := s.redis - {key})
  }

  function Run(s: State, events: seq<Event>): State
    decreases |events|
  {
    if events == [] then s else Run(Step(s, events[0]), events[1..])
  }

  ghost predicate Holds(redis: map<string, Page>, key: string, page: Page) {
    key in redis ==> redis[key] == page
  }

  ghost predicate HitsCurrent(s: State, f: Filters) {
    Holds(s.redis, LocationsCacheKey(f), Stored(Query(s.db, f)))
  }

  ghost predicate Fresh(s: State) {
    forall f: Filters :: HitsCurrent(s, f)
  }

  lemma KeyIsOfLocations(f: Filters)
    ensures OfLocations(LocationsCacheKey(f))
  {
  }

  lemma ClearedIsFresh(db: Db, redis: map<string, Page>)
    ensures Fresh(State(db, Cleared(redis)))
  {
    forall f: Filters ensures HitsCurrent(State(db, Cleared(redis)), f) {
      KeyIsOfLocations(f);
    }
  }

  /** A page may only be stored because every filter that shares its key has the same answer. */
  lemma StoringKeepsFresh(s: State, f: Filters)
    requires Fresh(s)
    ensures Fresh(s.(redis := s.redis[LocationsCacheKey(f) := Stored(Query(s.db, f))]))
  {
    var key, page := LocationsCacheKey(f), Stored(Query(s.db, f));
    var after := s.(redis := s.redis[key := page]);
    forall g: Filters ensures HitsCurrent(after, g) {
      assert HitsCurrent(s, g);
      var other := LocationsCacheKey(g);
      if other == key {
        EqualKeysEqualQueries(s.db, f, g);
      } else {
        StoredBeside(s.redis, key, page, other, Stored(Query(s.db, g)));
      }
    }
  }

  lemma StoredBeside(redis: map<string, Page>, key: string, page: Page, other: string, otherPage: Page)
    requires Holds(redis, other, otherPage) && other != key
    ensures Holds(redis[key := page], other, otherPage)
  {
  }

  lemma ExpiryKeepsFresh(s: State, key: string)
    requires Fresh(s)
    ensures Fresh(s.(redis := s.redis - {key}))
  {
    forall g: Filters ensures HitsCurrent(s.(redis := s.redis - {key}), g) {
      assert HitsCurrent(s, g);
      ExpiryKeeps(s.redis, key, LocationsCacheKey(g), Stored(Query(s.db, g)));
    }
  }

  lemma ExpiryKeeps(redis: map<string, Page>, key: string, other: string, otherPage: Page)
    requires Holds(redis, other, otherPage)
    ensures Holds(redis - {key}, other, otherPage)
  {
  }

  lemma MutationKeepsFresh(s: State, r: Result<Db, Error>)
    requires Fresh(s)
    ensures Fresh(Mutated(s, r))
  {
    match r
    case Ok(db) => ClearedIsFresh(db, s.redis);
    case Err(_) =>
  }

  lemma ReadKeepsFresh(s: State, f: Filters)
    requires Fresh(s)
    ensures Fresh(AfterRead(s, f))
  {
    if LocationsCacheKey(f) !in s.redis { StoringKeepsFresh(s, f); }
  }

  lemma StepKeepsFresh(s: State, e: Event)
    requires Fresh(s)
    ensures Fresh(Step(s, e))
  {
    match e
    case Read(f) => ReadKeepsFresh(s, f);
    case Creation(company, data) => MutationKeepsFresh(s, Create(s.db, company, data));
    case Change(company, id, patch) => MutationKeepsFresh(s, Update(s.db, company, id, patch));
    case Deletion(id) => MutationKeepsFresh(s, Delete(s.db, id));
    case Expiry(key) => ExpiryKeepsFresh(s, key);
  }

  /** After any run of reads, mutations (failed ones too) and expiries, every read answers from the current rows. */
  lemma {:induction false} RunReadsCurrentRows(s: State, events: seq<Event>, f: Filters)
    requires Fresh(s)
    ensures var last := Run(s, events);
            && Fresh(last)
            && (ReadAnswer(last, f) == Query(last.db, f) || ReadAnswer(last, f) == Stored(Query(last.db, f)))
            && ((f.minified == Some(true) || f.size > 0) ==> ReadAnswer(last, f) == Query(last.db, f))
    decreases |events|
  {
    if events == [] {
      assert HitsCurrent(s, f);
      HitIsExactIff(s.db, f);
    } else {
      StepKeepsFresh(s, events[0]);
      RunReadsCurrentRows(Step(s, events[0]), events[1..], f);
    }
  }

  // ---------------------------------------------------------------- an agent is deleted

  ghost predicate HasAgent(x: Shown, agent: int) {
    x.Full? && exists a :: a in x.deliveryAgents && a.id == agent
  }

  ghost predicate ShowsAgent(p: Page, agent: int) {
    exists x :: x in p.locations && HasAgent(x, agent)
  }

  /** Deleting an employee removes that agent's assignments by cascade, and clears no location key. */
  function AgentDeleted(s: State, agent: int): State {
    s.(db := s.db.(agents := s.db.agents - {agent},
                   assignments := Select(s.db.assignments, (a: Assignment) => a.agentId != agent)))
  }

  function Dropped(x: Shown, agent: int): Shown {
    match x
    case Full(l, agents) => Full(l, Select(agents, (a: Agent) => a.id != agent))
    case Minified(_, _, _, _) => x
  }

  function DropAll(xs: seq<Shown>, agent: int): (r: seq<Shown>)
    ensures |r| == |xs| && forall i | 0 <= i < |xs| :: r[i] == Dropped(xs[i], agent)
  {
    if xs == [] then [] else [Dropped(xs[0], agent)] + DropAll(xs[1..], agent)
  }

  lemma {:induction false} SelectKeepsAll<T>(s: seq<T>, p: T -> bool)
    ensures |Select(s, p)| <= |s|
    ensures Select(s, p) == s <==> forall x | x in s :: p(x)
  {
    if s != [] {
      SelectKeepsAll(s[1..], p);
      assert forall x :: x in s <==> x == s[0] || x in s[1..];
    }
  }

  lemma DroppedSameIff(x: Shown, agent: int)
    ensures Dropped(x, agent) == x <==> !HasAgent(x, agent)
  {
    if x.Full? { SelectKeepsAll(x.deliveryAgents, (a: Agent) => a.id != agent); }
  }

  lemma DropAllSameIff(xs: seq<Shown>, agent: int)
    ensures DropAll(xs, agent) == xs <==> forall x | x in xs :: !HasAgent(x, agent)
  {
    forall i | 0 <= i < |xs| ensures DropAll(xs, agent)[i] == xs[i] <==> !HasAgent(xs[i], agent) {
      DroppedSameIff(xs[i], agent);
    }
  }

  lemma {:induction false} ContactsDropped(agents: map<int, Contact>, rows: seq<Assignment>, agent: int)
    ensures Contacts(agents - {agent}, Select(rows, (a: Assignment) => a.agentId != agent))
         == Select(Contacts(agents, rows), (a: Agent) => a.id != agent)
  {
    if rows != [] {
      ContactsDropped(agents, rows[1..], agent);
      var first := if rows[0].agentId in agents then [Agent(rows[0].agentId, agents[rows[0].agentId])] else [];
      SelectAppend(first, Contacts(agents, rows[1..]), (a: Agent) => a.id != agent);
    }
  }

  lemma ShowDropped(s: State, f: Filters, l: Location, agent: int)
    ensures Show(AgentDeleted(s, agent).db, f, l) == Dropped(Show(s.db, f, l), agent)
  {
    var db, after := s.db, AgentDeleted(s, agent).db;
    var here := (a: Assignment) => a.locationId == l.id && Same(f.companyID, a.companyId);
    var other := (a: Assignment) => a.agentId != agent;
    var both := (a: Assignment) => here(a) && other(a);
    SelectTwice(db.assignments, other, here, both);
    SelectTwice(db.assignments, here, other, both);
    ContactsDropped(db.agents, AgentRows(db, f, l.id), agent);
  }

  lemma ListedAfterDeletion(s: State, f: Filters, l: Location, agent: int)
    ensures var after := AgentDeleted(s, agent).db;
            Listed(after, f, l)
            <==> Listed(s.db, f, l) && !(Truthy(f.deliveryAgentID) && f.deliveryAgentID.value == agent)
  {
    var after := AgentDeleted(s, agent).db;
    forall a ensures a in after.assignments <==> a in s.db.assignments && a.agentId != agent {
      SelectMembers(s.db.assignments, (b: Assignment) => b.agentId != agent, a);
    }
  }

  lemma {:induction false} ViewAfterDeletion(s: State, f: Filters, rows: seq<Location>, agent: int)
    ensures View(AgentDeleted(s, agent).db, f, rows)
         == if Truthy(f.deliveryAgentID) && f.deliveryAgentID.value == agent then []
            else DropAll(View(s.db, f, rows), agent)
  {
    if rows != [] {
      ViewAfterDeletion(s, f, rows[1..], agent);
      ListedAfterDeletion(s, f, rows[0], agent);
      ShowDropped(s, f, rows[0], agent);
    }
  }

  lemma DropAllAppend(a: seq<Shown>, x: Shown, agent: int)
    ensures DropAll(a + [x], agent) == DropAll(a, agent) + [Dropped(x, agent)]
  {
  }

  lemma {:induction false} ReversedDropped(list: seq<Shown>, agent: int)
    ensures Reversed(DropAll(list, agent)) == DropAll(Reversed(list), agent)
  {
    if list != [] {
      ReversedDropped(list[1..], agent);
      DropAllAppend(Reversed(list[1..]), list[0], agent);
      assert DropAll(list, agent)[1..] == DropAll(list[1..], agent);
    }
  }

  lemma SliceDropped(list: seq<Shown>, skip: nat, take: nat, agent: int)
    ensures Slice(DropAll(list, agent), skip, take) == DropAll(Slice(list, skip, take), agent)
  {
  }

  lemma PageDropped(f: Filters, list: seq<Shown>, agent: int)
    ensures PageOf(f, DropAll(list, agent))
         == PageOf(f, list).(locations := DropAll(PageOf(f, list).locations, agent))
  {
    ReversedMembers(list);
    ReversedDropped(list, agent);
    SliceDropped(list, 0, 10000, agent);
    SliceDropped(Reversed(list), Skip(f.page, f.size), f.size, agent);
  }

  /** What a list that nothing matches looks like. */
  function EmptyAnswer(f: Filters): Page {
    Page([], if f.minified == Some(true) then Absent else Pages(1))
  }

  /** The cached page shows no such agent and, where it was asked for that agent's locations, is already empty. */
  ghost predicate Untouched(p: Page, f: Filters, agent: int) {
    !ShowsAgent(p, agent) && (Truthy(f.deliveryAgentID) && f.deliveryAgentID.value == agent ==> p == EmptyAnswer(f))
  }

  lemma DeletionHitIff(s: State, f: Filters, agent: int)
    ensures Stored(Query(AgentDeleted(s, agent).db, f)) == Stored(Query(s.db, f))
            <==> Untouched(Stored(Query(s.db, f)), f, agent)
  {
    var list := View(s.db, f, s.db.locations);
    ViewAfterDeletion(s, f, s.db.locations, agent);
    PageDropped(f, list, agent);
    DropAllSameIff(PageOf(f, list).locations, agent);
  }

  /** Deleting an agent leaves the cache right exactly when no cached page shows the agent, and those asked for the
      agent's locations are empty. The others are wrong until their key expires or a location is written. */
  lemma AgentDeletionFreshIff(s: State, agent: int)
    requires Fresh(s)
    ensures Fresh(AgentDeleted(s, agent))
            <==> forall f | LocationsCacheKey(f) in s.redis :: Untouched(s.redis[LocationsCacheKey(f)], f, agent)
  {
    var after := AgentDeleted(s, agent);
    forall f ensures HitsCurrent(after, f)
                     <==> (LocationsCacheKey(f) in s.redis ==> Untouched(s.redis[LocationsCacheKey(f)], f, agent))
    {
      assert HitsCurrent(s, f);
      DeletionHitIff(s, f, agent);
    }
  }

  // ---------------------------------------------------------------- a reader is late

  /** Ids are a key, the next one is unused, and assignments name existing locations. */
  ghost predicate WellFormed(db: Db) {
    && (forall i, j | 0 <= i < j < |db.locations| :: db.locations[i].id != db.locations[j].id)
    && (forall l | l in db.locations :: l.id < db.nextLocation)
    && (forall a | a in db.assignments :: a.locationId < db.nextLocation)
  }

  /** What a list shows of the location with this id. */
  function Seen(db: Db, f: Filters, rows: seq<Location>, id: int): seq<Shown> {
    if rows == [] then []
    else (if rows[0].id == id then RowView(db, f, rows[0]) else []) + Seen(db, f, rows[1..], id)
  }

  function ShownId(x: Shown): int {
    match x
    case Full(location, _) => location.id
    case Minified(id, _, _, _) => id
  }

  ghost predicate Elsewhere(db: Db, after: Db, id: int) {
    && after.agents == db.agents
    && forall location | location != id :: At(after.assignments, location) == At(db.assignments, location)
  }

  function At(rows: seq<Assignment>, location: int): seq<Assignment> {
    Select(rows, (a: Assignment) => a.locationId == location)
  }

  lemma AgentRowsAt(db: Db, f: Filters, location: int)
    ensures AgentRows(db, f, location)
         == Select(At(db.assignments, location), (a: Assignment) => Same(f.companyID, a.companyId))
  {
    SelectTwice(db.assignments, (a: Assignment) => a.locationId == location,
                (a: Assignment) => Same(f.companyID, a.companyId),
                (a: Assignment) => a.locationId == location && Same(f.companyID, a.companyId));
  }

  lemma AgentServesAt(db: Db, agent: int, location: int)
    ensures AgentServes(db, agent, location) <==> exists a :: a in At(db.assignments, location) && a.agentId == agent
  {
    forall a ensures a in At(db.assignments, location) <==> a in db.assignments && a.locationId == location {
      SelectMembers(db.assignments, (b: Assignment) => b.locationId == location, a);
    }
  }

  lemma OtherRowView(db: Db, after: Db, f: Filters, id: int, l: Location)
    requires Elsewhere(db, after, id) && l.id != id
    ensures RowView(after, f, l) == RowView(db, f, l)
  {
    AgentRowsAt(db, f, l.id);
    AgentRowsAt(after, f, l.id);
    if f.deliveryAgentID.Some? {
      AgentServesAt(db, f.deliveryAgentID.value, l.id);
      AgentServesAt(after, f.deliveryAgentID.value, l.id);
    }
  }

  lemma {:induction false} OtherRowsView(db: Db, after: Db, f: Filters, rows: seq<Location>, id: int)
    requires Elsewhere(db, after, id) && forall l | l in rows :: l.id != id
    ensures View(after, f, rows) == View(db, f, rows) && Seen(db, f, rows, id) == [] == Seen(after, f, rows, id)
  {
    if rows != [] {
      OtherRowView(db, after, f, id, rows[0]);
      OtherRowsView(db, after, f, rows[1..], id);
    }
  }

  lemma AssignElsewhere(db: Db, agents: seq<int>, id: int, company: Option<int>)
    requires Assign(db, agents, id, company).Ok?
    ensures var after := Assign(db, agents, id, company).value;
            Elsewhere(db, after, id) && after.locations == db.locations
  {
    var after := Assign(db, agents, id, company).value;
    if agents != [] {
      forall location | location != id ensures At(after.assignments, location) == At(db.assignments, location) {
        var here := (a: Assignment) => a.locationId == location;
        SelectAppend(db.assignments, Assigned(agents, id, company.value), here);
        SelectNone(Assigned(agents, id, company.value), here);
      }
    }
  }

  lemma RemovalElsewhere(db: Db, id: int, company: Option<int>)
    ensures Elsewhere(db, db.(assignments := WithoutAssignments(db.assignments, id, company)), id)
  {
    forall location | location != id
      ensures At(WithoutAssignments(db.assignments, id, company), location) == At(db.assignments, location)
    {
      var here := (a: Assignment) => a.locationId == location;
      SelectTwice(db.assignments, (a: Assignment) => !Removes(a, id, company), here, here);
    }
  }

  /** What surrounds the location in a list. */
  ghost predicate Around(db: Db, f: Filters, rows: seq<Location>, id: int, x: seq<Shown>, y: seq<Shown>) {
    View(db, f, rows) == x + Seen(db, f, rows, id) + y
  }

  lemma AroundFirst(db: Db, f: Filters, rows: seq<Location>, id: int, x: seq<Shown>, y: seq<Shown>)
    requires rows != [] && rows[0].id != id && Around(db, f, rows[1..], id, x, y)
    ensures Around(db, f, rows, id, RowView(db, f, rows[0]) + x, y)
  {
    var head, c := RowView(db, f, rows[0]), Seen(db, f, rows[1..], id);
    assert Seen(db, f, rows, id) == c;
    assert head + (x + c + y) == (head + x) + c + y;
  }

  lemma AroundHere(db: Db, f: Filters, rows: seq<Location>, id: int)
    requires rows != [] && rows[0].id == id && Seen(db, f, rows[1..], id) == []
    ensures Around(db, f, rows, id, [], View(db, f, rows[1..]))
  {
    assert Seen(db, f, rows, id) == RowView(db, f, rows[0]);
  }

  lemma OthersAfter(rows: seq<Location>, id: int)
    requires rows != [] && rows[0].id == id && forall i, j | 0 <= i < j < |rows| :: rows[i].id != rows[j].id
    ensures forall l | l in rows[1..] :: l.id != id
  {
    forall l | l in rows[1..] ensures l.id != id {
      var k :| 0 <= k < |rows| - 1 && rows[1..][k] == l;
      assert rows[k + 1] == l;
    }
  }

  lemma {:induction false} PatchedAround(db: Db, after: Db, f: Filters, rows: seq<Location>, id: int, p: Patch)
    returns (x: seq<Shown>, y: seq<Shown>)
    requires Elsewhere(db, after, id)
    requires forall i, j | 0 <= i < j < |rows| :: rows[i].id != rows[j].id
    ensures Around(db, f, rows, id, x, y) && Around(after, f, PatchedRows(rows, id, p), id, x, y)
  {
    x, y := [], [];
    if rows != [] {
      var rest, patched := rows[1..], PatchedRows(rows, id, p);
      assert patched[1..] == PatchedRows(rest, id, p) && patched[0].id == rows[0].id;
      if rows[0].id == id {
        OthersAfter(rows, id);
        OtherRowsView(db, after, f, rest, id);
        NothingToPatch(rest, id, p);
        y := View(db, f, rest);
        AroundHere(db, f, rows, id);
        AroundHere(after, f, patched, id);
      } else {
        OtherRowView(db, after, f, id, rows[0]);
        x, y := PatchedAround(db, after, f, rest, id, p);
        AroundFirst(db, f, rows, id, x, y);
        AroundFirst(after, f, patched, id, x, y);
        x := RowView(db, f, rows[0]) + x;
      }
    }
  }

  lemma {:induction false} NothingToPatch(rows: seq<Location>, id: int, p: Patch)
    requires forall l | l in rows :: l.id != id
    ensures PatchedRows(rows, id, p) == rows
  {
    if rows != [] { NothingToPatch(rows[1..], id, p); }
  }

  lemma {:induction false} RemovedAround(db: Db, after: Db, f: Filters, rows: seq<Location>, id: int)
    returns (x: seq<Shown>, y: seq<Shown>)
    requires Elsewhere(db, after, id)
    requires forall i, j | 0 <= i < j < |rows| :: rows[i].id != rows[j].id
    ensures Around(db, f, rows, id, x, y) && View(after, f, WithoutLocation(rows, id)) == x + y
  {
    x, y := [], [];
    if rows != [] {
      var rest := rows[1..];
      if rows[0].id == id {
        OthersAfter(rows, id);
        OtherRowsView(db, after, f, rest, id);
        SelectKeepsAll(rest, (l: Location) => l.id != id);
        y := View(db, f, rest);
        AroundHere(db, f, rows, id);
      } else {
        OtherRowView(db, after, f, id, rows[0]);
        x, y := RemovedAround(db, after, f, rest, id);
        AroundFirst(db, f, rows, id, x, y);
        assert RowView(db, f, rows[0]) + (x + y) == (RowView(db, f, rows[0]) + x) + y;
        x := RowView(db, f, rows[0]) + x;
      }
    }
  }

  lemma {:induction false} ViewAppend(db: Db, f: Filters, a: seq<Location>, b: seq<Location>)
    ensures View(db, f, a + b) == View(db, f, a) + View(db, f, b)
    ensures forall id :: Seen(db, f, a + b, id) == Seen(db, f, a, id) + Seen(db, f, b, id)
  {
    if a == [] {
      assert a + b == b;
    } else {
      assert (a + b)[1..] == a[1..] + b;
      ViewAppend(db, f, a[1..], b);
    }
  }

  /** The location an event writes. */
  function Target(db: Db, e: Event): int {
    match e
    case Change(_, id, _) => id
    case Deletion(id) => id
    case _ => db.nextLocation
  }

  function Attempt(db: Db, e: Event): Result<Db, Error> {
    match e
    case Creation(company, data) => Create(db, company, data)
    case Change(company, id, patch) => Update(db, company, id, patch)
    case Deletion(id) => Delete(db, id)
    case _ => Err(Invalid)
  }

  /** A write leaves what surrounds its location in a list. */
  ghost predicate Splits(db: Db, after: Db, f: Filters, id: int, x: seq<Shown>, y: seq<Shown>) {
    Around(db, f, db.locations, id, x, y) && Around(after, f, after.locations, id, x, y)
  }

  /** The row an accepted creation adds, and that it leaves other locations' assignments alone. */
  lemma CreatedRow(db: Db, company: Option<int>, data: NewLocation) returns (row: Location)
    requires Create(db, company, data).Ok?
    ensures var after := Create(db, company, data).value;
            && after.locations == db.locations + [row] && row.id == db.nextLocation
            && Elsewhere(db, after, db.nextLocation)
  {
    var id := db.nextLocation;
    row := Location(id, data.name, data.governorate, data.remote, data.branchID,
                    if Truthy(company) then company else None);
    AssignElsewhere(db.(locations := db.locations + [row], nextLocation := id + 1), Or(data.agents, []), id, company);
  }

  lemma CreatedSplits(db: Db, company: Option<int>, data: NewLocation, f: Filters)
    returns (x: seq<Shown>, y: seq<Shown>)
    requires WellFormed(db) && Create(db, company, data).Ok?
    ensures Splits(db, Create(db, company, data).value, f, db.nextLocation, x, y)
  {
    var row := CreatedRow(db, company, data);
    AppendedSplits(db, Create(db, company, data).value, row, f);
    x, y := View(db, f, db.locations), [];
  }

  lemma AppendedSplits(db: Db, after: Db, row: Location, f: Filters)
    requires WellFormed(db) && after.locations == db.locations + [row]
    requires row.id == db.nextLocation && Elsewhere(db, after, row.id)
    ensures Splits(db, after, f, row.id, View(db, f, db.locations), [])
  {
    OtherRowsView(db, after, f, db.locations, row.id);
    ViewAppend(after, f, db.locations, [row]);
    assert View(after, f, [row]) == Seen(after, f, [row], row.id) by {
      assert [row][1..] == [];
    }
  }

  lemma ChangedSplits(db: Db, company: Option<int>, id: int, p: Patch, f: Filters)
    returns (x: seq<Shown>, y: seq<Shown>)
    requires WellFormed(db) && Update(db, company, id, p).Ok?
    ensures Splits(db, Update(db, company, id, p).value, f, id, x, y)
  {
    var after := Update(db, company, id, p).value;
    if p.agents.Some? {
      var patched := db.(locations := PatchedRows(db.locations, id, p),
                         assignments := WithoutAssignments(db.assignments, id, company));
      RemovalElsewhere(db, id, company);
      AssignElsewhere(patched, p.agents.value, id, company);
    }
    assert Elsewhere(db, after, id);
    x, y := PatchedAround(db, after, f, db.locations, id, p);
  }

  lemma DeletedSplits(db: Db, id: int, f: Filters) returns (x: seq<Shown>, y: seq<Shown>)
    requires WellFormed(db) && Delete(db, id).Ok?
    ensures Splits(db, Delete(db, id).value, f, id, x, y)
  {
    var after := Delete(db, id).value;
    RemovalElsewhere(db, id, None);
    GoneAfterDelete(db.locations, id);
    OtherRowsView(after, after, f, after.locations, id);
    x, y := RemovedAround(db, after, f, db.locations, id);
    assert x + [] + y == x + y;
  }

  /** A write changes a list only in what the list shows of the written location. */
  lemma MutatedSplits(db: Db, e: Event, f: Filters) returns (x: seq<Shown>, y: seq<Shown>)
    requires WellFormed(db) && Attempt(db, e).Ok?
    ensures Splits(db, Attempt(db, e).value, f, Target(db, e), x, y)
  {
    match e
    case Creation(company, data) => x, y := CreatedSplits(db, company, data, f);
    case Change(company, id, patch) => x, y := ChangedSplits(db, company, id, patch, f);
    case Deletion(id) => x, y := DeletedSplits(db, id, f);
  }

  // ---------------------------------------------------------------- on which page it shows

  ghost predicate DistinctRows(rows: seq<Location>) {
    forall i, j | 0 <= i < j < |rows| :: rows[i].id != rows[j].id
  }

  lemma {:induction false} ViewIds(db: Db, f: Filters, rows: seq<Location>)
    requires DistinctRows(rows)
    ensures forall x | x in View(db, f, rows) :: exists l :: l in rows && l.id == ShownId(x)
    ensures Pairwise(View(db, f, rows), (x: Shown, y: Shown) => ShownId(x) != ShownId(y))
    ensures forall id :: |Seen(db, f, rows, id)| <= 1 && forall x | x in Seen(db, f, rows, id) :: ShownId(x) == id
  {
    if rows != [] {
      var rest := rows[1..];
      ViewIds(db, f, rest);
      OthersAfter(rows, rows[0].id);
      OtherRowsView(db, db, f, rest, rows[0].id);
      assert forall l :: l in rows <==> l == rows[0] || l in rest;
    }
  }

  /** Where the list shows the location: its place among the rows as they are displayed. */
  function Place(f: Filters, list: seq<Shown>, id: int): nat {
    var i := IndexOf(list, id);
    if f.minified == Some(true) || i >= |list| then i else |list| - 1 - i
  }

  function IndexOf(list: seq<Shown>, id: int): nat {
    if list == [] || ShownId(list[0]) == id then 0 else 1 + IndexOf(list[1..], id)
  }

  function FirstRow(f: Filters): nat {
    if f.minified == Some(true) then 0 else Skip(f.page, f.size)
  }

  function RowsTaken(f: Filters): nat {
    if f.minified == Some(true) then 10000 else f.size
  }

  /** One row less than n makes no difference to the page count, as it is stored. */
  predicate CountStays(n: nat, size: nat) {
    if size == 0 then n > 1 else n == 1 || (n - 1) % size != 0
  }

  /** A list of n rows has the same page without the one at place k: the page is empty or ends before it. */
  predicate OutOfSight(f: Filters, n: nat, k: nat) {
    && (RowsTaken(f) == 0 || FirstRow(f) >= n || FirstRow(f) + RowsTaken(f) <= k)
    && (f.minified == Some(true) || CountStays(n, f.size))
  }

  /** What a write made of its location's row in a list is not to be seen on the page. */
  predicate PageUndisturbed(f: Filters, before: seq<Shown>, was: seq<Shown>, after: seq<Shown>, becomes: seq<Shown>,
                            id: int)
  {
    || was == becomes
    || (if was == [] then OutOfSight(f, |after|, Place(f, after, id))
        else if becomes == [] then OutOfSight(f, |before|, Place(f, before, id))
        else !(FirstRow(f) <= Place(f, before, id) < FirstRow(f) + RowsTaken(f)))
  }

  function Displayed(f: Filters, list: seq<Shown>): seq<Shown> {
    if f.minified == Some(true) then list else Reversed(list)
  }

  lemma PageWindow(f: Filters, list: seq<Shown>)
    ensures PageOf(f, list).locations == Slice(Displayed(f, list), FirstRow(f), RowsTaken(f))
  {
  }

  lemma {:induction false} IndexAround(x: seq<Shown>, c: Shown, y: seq<Shown>)
    requires forall z | z in x :: ShownId(z) != ShownId(c)
    ensures IndexOf(x + [c] + y, ShownId(c)) == |x|
  {
    if x != [] {
      assert (x + [c] + y)[1..] == x[1..] + [c] + y;
      assert forall z | z in x[1..] :: z in x;
      IndexAround(x[1..], c, y);
    }
  }

  /** A list around one row as it is displayed. */
  lemma DisplayAround(f: Filters, x: seq<Shown>, c: seq<Shown>, y: seq<Shown>) returns (u: seq<Shown>, v: seq<Shown>)
    requires |c| <= 1
    ensures (u, v) == if f.minified == Some(true) then (x, y) else (Reversed(y), Reversed(x))
    ensures Displayed(f, x + c + y) == u + c + v && |u| + |v| == |x| + |y|
    ensures |u| == if f.minified == Some(true) then |x| else |y|
  {
    ReversedAround(x, c, y);
    ReversedMembers(x);
    ReversedMembers(y);
    u, v := x, y;
    if f.minified != Some(true) { u, v := Reversed(y), Reversed(x); }
  }

  lemma PlaceAround(f: Filters, x: seq<Shown>, c: Shown, y: seq<Shown>)
    requires forall z | z in x :: ShownId(z) != ShownId(c)
    ensures Place(f, x + [c] + y, ShownId(c)) == if f.minified == Some(true) then |x| else |y|
  {
    IndexAround(x, c, y);
  }

  lemma DivideAt(x: nat, d: nat, q: nat)
    requires q * d <= x < q * d + d
    ensures x / d == q
  {
    assert x == x / d * d + x % d;
    TimesGrows(x / d, q, d);
    TimesGrows(q, x / d, d);
  }

  lemma {:induction false} TimesGrows(a: nat, b: nat, d: nat)
    ensures a < b ==> a * d + d <= b * d
    decreases b
  {
    if a < b {
      TimesGrows(a, b - 1, d);
      assert b * d == (b - 1) * d + d;
    }
  }

  /** The quotient rounded up of m + 1 and of m differ exactly when m is divisible. */
  lemma CeilingIff(m: nat, d: nat)
    requires d > 0
    ensures (m + d) / d == (m + d - 1) / d <==> m % d != 0
  {
    var q, r := m / d, m % d;
    assert m == q * d + r;
    DivideAt(m + d, d, q + 1);
    DivideAt(m + d - 1, d, if r == 0 then q else q + 1);
  }

  lemma CountStaysIff(n: nat, size: nat)
    requires n > 0
    ensures Stored(Page([], PagesCount(n, size))) == Stored(Page([], PagesCount(n - 1, size))) <==> CountStays(n, size)
  {
    if size > 0 {
      CeilingIff(n - 1, size);
      DivideAt(size, size, 1);
    }
  }

  /** Taking the row c out of a list. */
  lemma RemovalShowsIff(f: Filters, x: seq<Shown>, c: Shown, y: seq<Shown>)
    requires Pairwise(x + [c] + y, (a: Shown, b: Shown) => ShownId(a) != ShownId(b))
    ensures var longer := x + [c] + y;
            Stored(PageOf(f, longer)) == Stored(PageOf(f, x + y))
            <==> OutOfSight(f, |longer|, Place(f, longer, ShownId(c)))
  {
    var longer := x + [c] + y;
    OtherIds(x, c, y);
    PlaceAround(f, x, c, y);
    var u, v := DisplayAround(f, x, [c], y);
    var u', v' := DisplayAround(f, x, [], y);
    assert x + [] + y == x + y && u + [] + v == u + v;
    DisplayDistinct(f, longer);
    SliceWithoutIff(u, c, v, FirstRow(f), RowsTaken(f));
    PageWindow(f, longer);
    PageWindow(f, x + y);
    CountStaysIff(|longer|, f.size);
  }

  lemma OtherIds(x: seq<Shown>, c: Shown, y: seq<Shown>)
    requires Pairwise(x + [c] + y, (a: Shown, b: Shown) => ShownId(a) != ShownId(b))
    ensures forall z | z in x :: ShownId(z) != ShownId(c)
  {
    var list := x + [c] + y;
    forall z | z in x ensures ShownId(z) != ShownId(c) {
      var i :| 0 <= i < |x| && x[i] == z;
      assert list[i] == z && list[|x|] == c;
    }
  }

  lemma DisplayDistinct(f: Filters, list: seq<Shown>)
    requires Pairwise(list, (a: Shown, b: Shown) => ShownId(a) != ShownId(b))
    ensures Distinct(Displayed(f, list))
  {
    ReversedMembers(list);
  }

  /** Replacing the row c of a list by d. */
  lemma ReplacementShowsIff(f: Filters, x: seq<Shown>, c: Shown, d: Shown, y: seq<Shown>)
    requires Pairwise(x + [c] + y, (a: Shown, b: Shown) => ShownId(a) != ShownId(b)) && c != d
    ensures var before := x + [c] + y;
            Stored(PageOf(f, before)) == Stored(PageOf(f, x + [d] + y))
            <==> !(FirstRow(f) <= Place(f, before, ShownId(c)) < FirstRow(f) + RowsTaken(f))
  {
    OtherIds(x, c, y);
    PlaceAround(f, x, c, y);
    var u, v := DisplayAround(f, x, [c], y);
    var u', v' := DisplayAround(f, x, [d], y);
    SliceReplacedIff(u, c, d, v, FirstRow(f), RowsTaken(f));
    PageWindow(f, x + [c] + y);
    PageWindow(f, x + [d] + y);
  }

  /** A reader asked the query before a mutation and stores its page after the mutation has cleared the keys. */
  function LateSet(s: State, e: Event, f: Filters): State {
    var after := Step(s, e);
    after.(redis := after.redis[LocationsCacheKey(f) := Stored(Query(s.db, f))])
  }

  lemma MutationStep(s: State, e: Event)
    requires Fresh(s) && Attempt(s.db, e).Ok?
    ensures Step(s, e) == State(Attempt(s.db, e).value, Cleared(s.redis)) && Fresh(Step(s, e))
  {
    ClearedIsFresh(Attempt(s.db, e).value, s.redis);
  }

  lemma LateSetHitIff(s: State, f: Filters, page: Page)
    requires Fresh(s)
    ensures Fresh(s.(redis := s.redis[LocationsCacheKey(f) := page])) <==> page == Stored(Query(s.db, f))
  {
    if page == Stored(Query(s.db, f)) {
      StoringKeepsFresh(s, f);
    } else {
      assert !HitsCurrent(s.(redis := s.redis[LocationsCacheKey(f) := page]), f);
    }
  }

  lemma PatchKeepsIds(rows: seq<Location>, id: int, p: Patch)
    requires DistinctRows(rows)
    ensures |PatchedRows(rows, id, p)| == |rows|
    ensures forall i | 0 <= i < |rows| :: PatchedRows(rows, id, p)[i].id == rows[i].id
  {
    if rows != [] {
      PatchKeepsIds(rows[1..], id, p);
    }
  }

  lemma StillDistinct(db: Db, e: Event)
    requires WellFormed(db) && Attempt(db, e).Ok?
    ensures DistinctRows(Attempt(db, e).value.locations)
  {
    match e
    case Creation(company, data) =>
      var row := CreatedRow(db, company, data);
      assert DistinctRows(db.locations + [row]);
    case Change(company, id, patch) => PatchKeepsIds(db.locations, id, patch);
    case Deletion(id) =>
      SelectPairwise(db.locations, (l: Location) => l.id != id, (l: Location, m: Location) => l.id != m.id);
  }

  lemma PageUndisturbedIff(f: Filters, x: seq<Shown>, was: seq<Shown>, becomes: seq<Shown>, y: seq<Shown>, id: int)
    requires |was| <= 1 && |becomes| <= 1
    requires (forall c | c in was :: ShownId(c) == id) && (forall c | c in becomes :: ShownId(c) == id)
    requires Pairwise(x + was + y, (a: Shown, b: Shown) => ShownId(a) != ShownId(b))
    requires Pairwise(x + becomes + y, (a: Shown, b: Shown) => ShownId(a) != ShownId(b))
    ensures Stored(PageOf(f, x + was + y)) == Stored(PageOf(f, x + becomes + y))
            <==> PageUndisturbed(f, x + was + y, was, x + becomes + y, becomes, id)
  {
    assert x + [] + y == x + y;
    if was != becomes {
      if was == [] {
        assert becomes == [becomes[0]];
        RemovalShowsIff(f, x, becomes[0], y);
      } else if becomes == [] {
        assert was == [was[0]];
        RemovalShowsIff(f, x, was[0], y);
      } else {
        assert was == [was[0]] && becomes == [becomes[0]];
        ReplacementShowsIff(f, x, was[0], becomes[0], y);
      }
    }
  }

  /** The late page does no harm exactly when what the write made of its location is not to be seen on it: the list
      shows the location as before or not at all, or the page shows neither the row nor a row that moved, nor another
      page count. Reader and writer can both check this. */
  lemma LateSetFreshIff(s: State, e: Event, f: Filters)
    requires Fresh(s) && WellFormed(s.db) && Attempt(s.db, e).Ok?
    ensures var db, after, id := s.db, Step(s, e).db, Target(s.db, e);
            Fresh(LateSet(s, e, f))
            <==> PageUndisturbed(f, View(db, f, db.locations), Seen(db, f, db.locations, id),
                                 View(after, f, after.locations), Seen(after, f, after.locations, id), id)
  {
    var after, id := Attempt(s.db, e).value, Target(s.db, e);
    MutationStep(s, e);
    LateSetHitIff(Step(s, e), f, Stored(Query(s.db, f)));
    var x, y := MutatedSplits(s.db, e, f);
    StillDistinct(s.db, e);
    ViewIds(s.db, f, s.db.locations);
    ViewIds(after, f, after.locations);
    PageUndisturbedIff(f, x, Seen(s.db, f, s.db.locations, id), Seen(after, f, after.locations, id), y, id);
  }

  /** On any page: a deleted location that a late page shows is listed by every hit that follows. */
  lemma LateSetAfterDeletion(s: State, f: Filters, id: int)
    requires HasLocation(s.db, id) && exists x | x in Query(s.db, f).locations :: ShownId(x) == id
    ensures var late := LateSet(s, Deletion(id), f);
            && (exists x | x in ReadAnswer(late, f).locations :: ShownId(x) == id)
            && forall l | l in late.db.locations :: l.id != id
  {
    LateSetReads(s, Deletion(id), f);
    assert Stored(Query(s.db, f)).locations == Query(s.db, f).locations;
    DeletionRemoves(s, id);
  }

  lemma LateSetReads(s: State, e: Event, f: Filters)
    ensures ReadAnswer(LateSet(s, e, f), f) == Stored(Query(s.db, f)) && LateSet(s, e, f).db == Step(s, e).db
  {
  }

  lemma DeletionRemoves(s: State, id: int)
    requires HasLocation(s.db, id)
    ensures forall l | l in Step(s, Deletion(id)).db.locations :: l.id != id
  {
    GoneAfterDelete(s.db.locations, id);
  }

  // ---------------------------------------------------------------- the repository

  class LocationsRepository {
    var db: Db
    var redis: map<string, Page>

    function Snapshot(): State reads this {
      State(db, redis)
    }

    constructor (rows: Db)
      ensures db == rows && Fresh(Snapshot())
    {
      db, redis := rows, map[];
    }

    method GetAllLocationsPaginated(f: Filters) returns (result: Page)
      requires Fresh(Snapshot())
      modifies this`redis
      ensures Snapshot() == AfterRead(old(Snapshot()), f) && Fresh(Snapshot())
      ensures result == Query(db, f) || (LocationsCacheKey(f) in old(redis) && result == Stored(Query(db, f)))
      ensures redis == if LocationsCacheKey(f) in old(redis) then old(redis)
                       else old(redis)[LocationsCacheKey(f) := Stored(Query(db, f))]
    {
      var cacheKey := LocationsCacheKey(f);
      StepKeepsFresh(Snapshot(), Read(f));
      assert HitsCurrent(Snapshot(), f);
      if cacheKey in redis {
        return redis[cacheKey];
      }
      result := Query(db, f);
      redis := redis[cacheKey := Stored(result)];
    }

    method ClearKeys()
      modifies this`redis
      ensures redis == Cleared(old(redis)) && Fresh(Snapshot())
    {
      ClearedIsFresh(db, redis);
      var keys := set k | k in redis && OfLocations(k);
      redis := redis - keys;
      assert redis == Cleared(old(redis));
    }

    method CreateLocation(company: Option<int>, data: NewLocation) returns (outcome: Result<int, Error>)
      requires Fresh(Snapshot())
      modifies this
      ensures Snapshot() == Step(old(Snapshot()), Creation(company, data)) && Fresh(Snapshot())
      ensures outcome.Ok? <==> Create(old(db), company, data).Ok?
      ensures outcome.Ok? ==> outcome.value == old(db).nextLocation && HasLocation(db, outcome.value)
    {
      var written := Create(db, company, data);
      if written.Err? {
        return Err(written.error);
      }
      var id := db.nextLocation;
      assert written.value.locations[|db.locations|].id == id;
      db := written.value;
      ClearKeys();
      outcome := Ok(id);
    }

    method UpdateLocation(company: Option<int>, id: int, patch: Patch) returns (outcome: Result<int, Error>)
      requires Fresh(Snapshot())
      modifies this
      ensures Snapshot() == Step(old(Snapshot()), Change(company, id, patch)) && Fresh(Snapshot())
      ensures outcome.Ok? <==> Update(old(db), company, id, patch).Ok?
    {
      var written := Update(db, company, id, patch);
      if written.Err? {
        return Err(written.error);
      }
      db := written.value;
      ClearKeys();
      outcome := Ok(id);
    }

    method DeleteLocation(id: int) returns (outcome: Result<bool, Error>)
      requires Fresh(Snapshot())
      modifies this
      ensures Snapshot() == Step(old(Snapshot()), Deletion(id)) && Fresh(Snapshot())
      ensures outcome.Ok? <==> HasLocation(old(db), id)
      ensures outcome.Ok? ==> !HasLocation(db, id)
    {
      var written := Delete(db, id);
      if written.Err? {
        return Err(written.error);
      }
      GoneAfterDelete(db.locations, id);
      db := written.value;
      ClearKeys();
      outcome := Ok(true);
    }
  }

  lemma GoneAfterDelete(rows: seq<Location>, id: int)
    ensures forall l | l in WithoutLocation(rows, id) :: l.id != id
  {
    forall l | l in WithoutLocation(rows, id) ensures l.id != id {
      SelectMembers(rows, (x: Location) => x.id != id, l);
    }
  }

  // ---------------------------------------------------------------- in the columns of the tables

  /** Which locations a list holds: the search text occurs in the name, branch, governorate and company are as asked, a
      minified list asking for no branch, and a named agent is assigned to the location. */
  lemma ListedColumns(db: Db, f: Filters, l: Location)
    ensures Listed(db, f, l)
            <==> && (f.search.Some? ==> exists before, behind :: l.name == before + f.search.value + behind)
                 && (f.minified == Some(true) || f.branchID.None? || f.branchID.value == l.branchId)
                 && (f.governorate.None? || f.governorate.value == l.governorate)
                 && (f.deliveryAgentID.None? || f.deliveryAgentID.value == 0
                     || exists a :: a in db.assignments && a.agentId == f.deliveryAgentID.value && a.locationId == l.id)
                 && (f.companyID.None? || l.companyId == f.companyID)
  {
    if f.search.Some? { ContainsColumns(l.name, f.search.value); }
    if f.deliveryAgentID.Some? {
      if a :| a in db.assignments && a.agentId == f.deliveryAgentID.value && a.locationId == l.id {
        assert AgentServes(db, f.deliveryAgentID.value, l.id);
      }
    }
  }

  lemma ContainsColumns(text: string, part: string)
    ensures Contains(text, part) <==> exists before, behind :: text == before + part + behind
  {
    if Contains(text, part) {
      var i :| 0 <= i <= |text| - |part| && IsAt(text, part, i);
      assert text == text[..i] + part + text[i + |part|..];
    }
    if before, behind :| text == before + part + behind {
      assert IsAt(text, part, |before|);
    }
  }

  /** What a list shows of a location: a minified row, or the whole location with the agents the asking company, or any
      company when none asks, has assigned to it. */
  lemma ShownColumns(db: Db, f: Filters, l: Location)
    ensures f.minified == Some(true) ==> Show(db, f, l) == Minified(l.id, l.name, l.governorate, l.branchId)
    ensures f.minified != Some(true) ==>
              && Show(db, f, l).Full? && Show(db, f, l).location == l
              && forall x :: x in Show(db, f, l).deliveryAgents
                   <==> exists a :: && a in db.assignments && a.locationId == l.id
                                    && (f.companyID.None? || a.companyId == f.companyID.value)
                                    && a.agentId in db.agents && x == Agent(a.agentId, db.agents[a.agentId])
  {
    var rows := AgentRows(db, f, l.id);
    forall x ensures x in Contacts(db.agents, rows)
                     <==> exists a :: && a in db.assignments && a.locationId == l.id
                                      && (f.companyID.None? || a.companyId == f.companyID.value)
                                      && a.agentId in db.agents && x == Agent(a.agentId, db.agents[a.agentId])
    {
      ContactsMembers(db.agents, rows, x);
      forall a ensures a in rows <==> && a in db.assignments && a.locationId == l.id
                                      && (f.companyID.None? || a.companyId == f.companyID.value)
      {
        SelectMembers(db.assignments, (b: Assignment) => b.locationId == l.id && Same(f.companyID, b.companyId), a);
      }
    }
  }

  lemma {:induction false} ContactsMembers(agents: map<int, Contact>, rows: seq<Assignment>, x: Agent)
    ensures x in Contacts(agents, rows)
            <==> exists a :: a in rows && a.agentId in agents && x == Agent(a.agentId, agents[a.agentId])
  {
    if rows != [] {
      ContactsMembers(agents, rows[1..], x);
      assert forall a :: a in rows <==> a == rows[0] || a in rows[1..];
    }
  }

  lemma {:induction false} ViewMembers(db: Db, f: Filters, rows: seq<Location>, x: Shown)
    ensures x in View(db, f, rows) <==> exists l :: l in rows && Listed(db, f, l) && x == Show(db, f, l)
  {
    if rows != [] {
      ViewMembers(db, f, rows[1..], x);
      assert forall l :: l in rows <==> l == rows[0] || l in rows[1..];
    }
  }

  ghost predicate IdsAscend(rows: seq<Location>) {
    forall i, j | 0 <= i < j < |rows| :: rows[i].id < rows[j].id
  }

  lemma {:induction false} ViewAscends(db: Db, f: Filters, rows: seq<Location>)
    requires IdsAscend(rows)
    ensures Pairwise(View(db, f, rows), (x: Shown, y: Shown) => ShownId(x) < ShownId(y))
    ensures forall x | x in View(db, f, rows) :: exists l :: l in rows && l.id == ShownId(x)
  {
    if rows != [] {
      var rest := rows[1..];
      ViewAscends(db, f, rest);
      assert forall l :: l in rows <==> l == rows[0] || l in rest;
      forall l | l in rest ensures rows[0].id < l.id {
        var k :| 0 <= k < |rest| && rest[k] == l;
        assert rows[k + 1] == l;
      }
    }
  }

  /** Exactly the listed locations, shown. */
  ghost predicate ListsAll(db: Db, f: Filters, list: seq<Shown>) {
    forall x :: x in list <==> exists l :: l in db.locations && Listed(db, f, l) && x == Show(db, f, l)
  }

  /** Latest id first; a minified list in table order. */
  ghost predicate ListOrder(f: Filters, list: seq<Shown>) {
    forall i, j | 0 <= i < j < |list| ::
      if f.minified == Some(true) then ShownId(list[i]) < ShownId(list[j]) else ShownId(list[i]) > ShownId(list[j])
  }

  /** The page-th stretch of `size` of the list, and how many such stretches there are; a minified list's first
      10000, and no count. */
  ghost predicate IsPage(f: Filters, list: seq<Shown>, page: Page) {
    if f.minified == Some(true) then
      page.locations == (if |list| <= 10000 then list else list[..10000]) && page.pagesCount == Absent
    else PageStretch(list, f.page, f.size, page.locations) && CountsPages(|list|, f.size, page.pagesCount)
  }

  lemma DisplayedLists(db: Db, f: Filters)
    requires IdsAscend(db.locations)
    ensures var list := Displayed(f, View(db, f, db.locations)); ListsAll(db, f, list) && ListOrder(f, list)
  {
    var view := View(db, f, db.locations);
    var list := Displayed(f, view);
    ViewAscends(db, f, db.locations);
    ReversedMembers(view);
    forall x ensures x in list <==> exists l :: l in db.locations && Listed(db, f, l) && x == Show(db, f, l) {
      ViewMembers(db, f, db.locations, x);
      if x in view && f.minified != Some(true) {
        var i :| 0 <= i < |view| && view[i] == x;
        assert list[|view| - 1 - i] == x;
      }
    }
  }

  lemma DisplayedPage(f: Filters, view: seq<Shown>)
    ensures IsPage(f, Displayed(f, view), PageOf(f, view))
  {
    ReversedMembers(view);
    PagesCounted(|view|, f.size);
  }

  /** What the query returns is a page of all the listed locations in list order. */
  lemma QueryColumns(db: Db, f: Filters)
    requires IdsAscend(db.locations)
    ensures exists list :: ListsAll(db, f, list) && ListOrder(f, list) && IsPage(f, list, Query(db, f))
  {
    DisplayedLists(db, f);
    DisplayedPage(f, View(db, f, db.locations));
  }

  /** The rows at the places of the page, counting pages from 1. */
  ghost predicate PageStretch(list: seq<Shown>, page: nat, size: nat, rows: seq<Shown>) {
    var first := if page > 0 then (page - 1) * size else 0;
    && |rows| == (if first >= |list| then 0 else if |list| - first < size then |list| - first else size)
    && forall i | 0 <= i < |rows| :: first + i < |list| && rows[i] == list[first + i]
  }

  /** One page for an empty list, infinitely many of size 0, else as many as it takes to hold the rows. */
  ghost predicate CountsPages(total: nat, size: nat, count: Count) {
    if total == 0 then count == Pages(1)
    else if size == 0 then count == Infinity
    else count.Pages? && count.n > 0 && (count.n - 1) * size < total <= count.n * size
  }

  lemma PagesCounted(total: nat, size: nat)
    ensures CountsPages(total, size, PagesCount(total, size))
  {
    if total > 0 && size > 0 {
      var q, r := total / size, total % size;
      assert total == q * size + r;
      assert (q + 1) * size == q * size + size;
      DivideAt(total + size - 1, size, if r == 0 then q else q + 1);
      if r == 0 && q > 0 { assert q * size == (q - 1) * size + size; }
    }
  }

  /** A location is created for a known branch under the next id, with the caller's company unless that is 0, and the
      given agents assigned to it by that company. */
  lemma CreationColumns(db: Db, company: Option<int>, data: NewLocation)
    requires Create(db, company, data).Ok?
    ensures var after, id := Create(db, company, data).value, db.nextLocation;
            && data.branchID in db.branches && after.nextLocation == id + 1
            && after.agents == db.agents && after.branches == db.branches
            && after.locations == db.locations + [Location(id, data.name, data.governorate, data.remote, data.branchID,
                                                           if company == Some(0) then None else company)]
            && forall a :: a in after.assignments
                 <==> || a in db.assignments
                      || (data.agents.Some? && company.Some? && a.locationId == id && a.companyId == company.value
                          && a.agentId in data.agents.value)
  {
    var id := db.nextLocation;
    if data.agents.Some? && data.agents.value != [] { AssignedMembers(data.agents.value, id, company.value); }
  }

  lemma AssignedMembers(agents: seq<int>, location: int, company: int)
    ensures forall a :: a in Assigned(agents, location, company)
              <==> a.locationId == location && a.companyId == company && a.agentId in agents
  {
    forall a ensures a in Assigned(agents, location, company)
                     <==> a.locationId == location && a.companyId == company && a.agentId in agents
    {
      if a.locationId == location && a.companyId == company && a.agentId in agents {
        var i :| 0 <= i < |agents| && agents[i] == a.agentId;
        assert Assigned(agents, location, company)[i] == a;
      }
    }
  }

  /** What an update makes of the location's row; every other row stays. */
  lemma {:induction false} PatchColumns(rows: seq<Location>, id: int, p: Patch, i: nat)
    requires i < |rows|
    ensures |PatchedRows(rows, id, p)| == |rows|
    ensures var l, m := rows[i], PatchedRows(rows, id, p)[i];
            if l.id != id then m == l
            else
              && m.id == id && m.companyId == l.companyId
              && m.name == (if p.name.Some? then p.name.value else l.name)
              && m.governorate == (if p.governorate.Some? then p.governorate.value else l.governorate)
              && m.remote == (if p.remote.Some? then p.remote.value else l.remote)
              && m.branchId == (if p.branchID.Some? && p.branchID.value != 0 then p.branchID.value else l.branchId)
  {
    if i > 0 {
      PatchColumns(rows[1..], id, p, i - 1);
    } else if |rows| > 1 {
      PatchColumns(rows[1..], id, p, 0);
    }
  }

  /** An update needs the location and the branch it names, and writes patched rows and nothing else but the location's
      assignments. */
  lemma UpdateColumns(db: Db, company: Option<int>, id: int, p: Patch)
    ensures Update(db, company, id, p).Ok? ==>
              && (exists l :: l in db.locations && l.id == id)
              && (p.branchID.None? || p.branchID.value == 0 || p.branchID.value in db.branches)
              && var after := Update(db, company, id, p).value;
                 && after == db.(locations := PatchedRows(db.locations, id, p), assignments := after.assignments)
                 && (p.agents.None? ==> after.assignments == db.assignments)
    ensures p.agents.None? && (exists l :: l in db.locations && l.id == id)
            && (p.branchID.None? || p.branchID.value == 0 || p.branchID.value in db.branches)
            ==> Update(db, company, id, p).Ok?
  {
    if l :| l in db.locations && l.id == id {
      assert HasLocation(db, id);
    }
  }

  /** Agents are assigned only if all are known, none is there already or named twice, and the caller has a company. */
  lemma AssignOkIff(db: Db, agents: seq<int>, location: int, company: Option<int>)
    ensures Assign(db, agents, location, company).Ok?
            <==> && (agents == [] || company.Some?)
                 && (forall a | a in agents :: a in db.agents)
                 && (forall x | x in db.assignments && x.locationId == location :: x.agentId !in agents)
                 && Distinct(agents)
  {
    forall a ensures AgentServes(db, a, location)
                     <==> exists x :: x in db.assignments && x.agentId == a && x.locationId == location
    {
      if x :| x in db.assignments && x.agentId == a && x.locationId == location {
        assert AgentServes(db, a, location);
      }
    }
    if x :| x in db.assignments && x.locationId == location && x.agentId in agents {
      assert AgentServes(db, x.agentId, location);
    }
  }

  /** A deletion takes the location and everything assigned to it. */
  lemma DeletionColumns(db: Db, id: int)
    ensures Delete(db, id).Ok? <==> exists l :: l in db.locations && l.id == id
    ensures Delete(db, id).Ok? ==>
              var after := Delete(db, id).value;
              && after == db.(locations := after.locations, assignments := after.assignments)
              && (forall l :: l in after.locations <==> l in db.locations && l.id != id)
              && (forall a :: a in after.assignments <==> a in db.assignments && a.locationId != id)
  {
    forall l ensures l in WithoutLocation(db.locations, id) <==> l in db.locations && l.id != id {
      SelectMembers(db.locations, (m: Location) => m.id != id, l);
    }
    forall a ensures a in WithoutAssignments(db.assignments, id, None) <==> a in db.assignments && a.locationId != id {
      SelectMembers(db.assignments, (b: Assignment) => !Removes(b, id, None), a);
    }
  }

  /** A miss stores the answer under its key, an infinite page count as null; a hit stores nothing, and an expiry takes
      the one key. */
  lemma ReadColumns(s: State, f: Filters)
    ensures forall key :: Step(s, Expiry(key)).db == s.db && Step(s, Expiry(key)).redis == s.redis - {key}
    ensures var after, key, answer := Step(s, Read(f)), LocationsCacheKey(f), Query(s.db, f);
            && after.db == s.db && after.redis.Keys == s.redis.Keys + {key}
            && (forall k | k in s.redis :: after.redis[k] == s.redis[k])
            && (key !in s.redis
                ==> after.redis[key] == Page(answer.locations, if answer.pagesCount == Infinity then Null
                                                               else answer.pagesCount))
  {
  }

  /** Clearing takes exactly the keys that begin with "locations:". */
  lemma ClearedColumns(redis: map<string, Page>, key: string)
    ensures key in Cleared(redis) <==> key in redis && !("locations:" <= key)
    ensures key in Cleared(redis) ==> Cleared(redis)[key] == redis[key]
  {
  }
}
