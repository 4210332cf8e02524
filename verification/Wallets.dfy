/** Employee wallets (src/app/employeeWallets/employeeWallets.repository.ts). Managers read a wallet and later
    write it under a guard on `updatedAt` and on having no transactions; owners add transactions in between.
    Each query is one step, and the steps of any number of requests interleave. */
module Wallets {
  import opened Schema
  import opened Sums

  datatype Wallet = Wallet(companyId: int, branchId: int, employeeId: Option<int>, createdById: int, updatedAt: nat)

  datatype TransactionType = DEPOSIT | WITHDRAW | FROM_BRANCH | TO_BRANCH | FROM_CLIENT | TO_CLIENT

  datatype Transaction = Transaction(
    id: int, walletId: int, companyId: int, branchId: int, employeeId: Option<int>, createdById: int,
    kind: TransactionType, paidAmount: Money, targetBranchId: Option<int>, targetClientId: Option<int>,
    approved: bool, deleted: bool, createdAt: int, reportId: Option<int>)

  datatype Employee = Employee(companyId: int, branchId: Option<int>, deleted: bool)

  datatype Customer = Customer(companyId: int, deleted: bool)

  /** Transactions are kept in id order; clock is the last updatedAt handed out, so each update gets a new one. */
  datatype Db = Db(wallets: map<int, Wallet>, nextWallet: int, clock: nat,
                   transactions: seq<Transaction>, nextTransaction: int,
                   employees: map<int, Employee>, branchCompany: map<int, int>, clients: map<int, Customer>,
                   reports: set<int>)

  datatype User = User(id: int, role: Role, companyID: Option<int>, branchId: Option<int>, showTreatury: bool)

  datatype Error = Forbidden | NotFound | BadRequest | Conflict

  // ---------------------------------------------------------------- scopes

  datatype Scope = Scope(companyId: int, branchId: Option<int>)

  /** Company managers with the treasury right see their company, branch managers their branch, nobody else anything. */
  function ScopeOf(user: User, branchID: Option<int>): Result<Scope, Error> {
    if !Truthy(user.companyID) || !(user.role == COMPANY_MANAGER || user.role == BRANCH_MANAGER)
       || (user.role == COMPANY_MANAGER && !user.showTreatury) then Err(Forbidden)
    else if user.role == BRANCH_MANAGER then
      if !Truthy(user.branchId) || (branchID.Some? && branchID != user.branchId) then Err(Forbidden)
      else Ok(Scope(user.companyID.value, user.branchId))
    else Ok(Scope(user.companyID.value, branchID))
  }

  predicate InScope(w: Wallet, s: Scope) {
    w.companyId == s.companyId && (s.branchId.Some? ==> w.branchId == s.branchId.value)
  }

  /** An owner is a live employee of the wallet's company to whom the wallet is assigned. */
  function OwnedWallet(db: Db, user: User, id: int): Result<Wallet, Error> {
    if !Truthy(user.companyID) || user.id <= 0
       || user.role == ADMIN || user.role == ADMIN_ASSISTANT || user.role == CLIENT
    then Err(Forbidden)
    else if && id in db.wallets && db.wallets[id].companyId == user.companyID.value
            && db.wallets[id].employeeId == Some(user.id)
            && user.id in db.employees && db.employees[user.id].companyId == user.companyID.value
            && !db.employees[user.id].deleted
    then Ok(db.wallets[id])
    else Err(NotFound)
  }

  predicate HasTransactions(db: Db, wallet: int) {
    exists t | t in db.transactions :: t.walletId == wallet
  }

  // ---------------------------------------------------------------- the queries

  function WalletRead(db: Db, user: User, id: int): Result<Wallet, Error> {
    match ScopeOf(user, None)
    case Err(e) => Err(e)
    case Ok(s) => if id in db.wallets && InScope(db.wallets[id], s) then Ok(db.wallets[id]) else Err(NotFound)
  }

  predicate Assignable(db: Db, company: int, branch: int, employee: Option<int>) {
    && branch in db.branchCompany && db.branchCompany[branch] == company
    && (employee.Some? ==> employee.value in db.employees
                           && db.employees[employee.value] == Employee(company, Some(branch), false))
  }

  /** The guarded UPDATE. The branch written is the one that was read. */
  function WalletWritten(db: Db, user: User, id: int, seen: Wallet, employee: Option<int>): Result<Db, Error> {
    match ScopeOf(user, None)
    case Err(e) => Err(e)
    case Ok(s) =>
      if && id in db.wallets && InScope(db.wallets[id], s) && db.wallets[id].updatedAt == seen.updatedAt
         && (employee != seen.employeeId ==> !HasTransactions(db, id))
      then Ok(db.(wallets := db.wallets[id := db.wallets[id].(branchId := seen.branchId, employeeId := employee,
                                                              updatedAt := db.clock + 1)],
                  clock := db.clock + 1))
      else Err(Conflict)
  }

  /** The guarded DELETE. */
  function WalletDeleted(db: Db, user: User, id: int, seen: Wallet): Result<Db, Error> {
    match ScopeOf(user, None)
    case Err(e) => Err(e)
    case Ok(s) =>
      if && id in db.wallets && InScope(db.wallets[id], s) && db.wallets[id].updatedAt == seen.updatedAt
         && !HasTransactions(db, id)
      then Ok(db.(wallets := db.wallets - {id}))
      else Err(Conflict)
  }

  function WalletCreated(db: Db, company: int, branch: int, employee: Option<int>, creator: int): Db {
    db.(wallets := db.wallets[db.nextWallet := Wallet(company, branch, employee, creator, db.clock + 1)],
        nextWallet := db.nextWallet + 1, clock := db.clock + 1)
  }

  datatype NewTransaction = NewTransaction(kind: TransactionType, paidAmount: Money,
                                           targetBranchId: Option<int>, targetClientId: Option<int>)

  /** One serializable transaction: find the owner's wallet, check the targets, insert. */
  function TransactionCreated(db: Db, user: User, id: int, data: NewTransaction, now: int): Result<Db, Error> {
    match OwnedWallet(db, user, id)
    case Err(e) => Err(e)
    case Ok(w) =>
      if Truthy(data.targetBranchId)
         && !(data.targetBranchId.value in db.branchCompany
              && db.branchCompany[data.targetBranchId.value] == w.companyId)
      then Err(BadRequest)
      else if Truthy(data.targetClientId)
              && !(data.targetClientId.value in db.clients
                   && db.clients[data.targetClientId.value] == Customer(w.companyId, false))
      then Err(BadRequest)
      else
        var t := Transaction(db.nextTransaction, id, w.companyId, w.branchId, Some(user.id), user.id, data.kind,
                             data.paidAmount, data.targetBranchId, data.targetClientId, false, false, now, None);
        Ok(db.(transactions := db.transactions + [t], nextTransaction := db.nextTransaction + 1))
  }

  // ---------------------------------------------------------------- the repository, query by query

  /** What an update or a delete carries from its read to its write. */
  datatype Pending = Pending(user: User, walletId: int, seen: Wallet, employee: Option<int>)

  /** Company managers with the treasury right manage their company's wallets, branch managers those of their branch. */
  ghost predicate Manages(user: User, w: Wallet) {
    && user.companyID == Some(w.companyId) && w.companyId != 0
    && match user.role
       case COMPANY_MANAGER => user.showTreatury
       case BRANCH_MANAGER => user.branchId == Some(w.branchId) && w.branchId != 0
       case _ => false
  }

  /** A live employee who is neither administrator nor client owns the wallet of the own company assigned to them. */
  ghost predicate Owns(db: Db, user: User, w: Wallet) {
    && user.role !in {ADMIN, ADMIN_ASSISTANT, CLIENT} && user.id > 0
    && user.companyID == Some(w.companyId) && w.companyId != 0 && w.employeeId == Some(user.id)
    && exists e :: user.id in db.employees && db.employees[user.id] == e && e.companyId == w.companyId && !e.deleted
  }

  /** Absent, 0, or a branch of the company. */
  ghost predicate BranchAllowed(db: Db, company: int, target: Option<int>) {
    || target in {None, Some(0)}
    || exists b :: target == Some(b) && b in db.branchCompany && db.branchCompany[b] == company
  }

  /** Absent, 0, or a live client of the company. */
  ghost predicate ClientAllowed(db: Db, company: int, target: Option<int>) {
    || target in {None, Some(0)}
    || exists c :: target == Some(c) && c in db.clients && db.clients[c].companyId == company && !db.clients[c].deleted
  }

  class WalletsRepository {
    var db: Db

    /** The stored row, for exactly the wallets the user manages. */
    method GetWallet(user: User, id: int) returns (r: Result<Wallet, Error>)
      ensures r.Ok? <==> id in db.wallets && Manages(user, db.wallets[id])
      ensures r.Ok? ==> r.value == db.wallets[id]
      ensures r == WalletRead(db, user, id)
    {
      var s := ScopeOf(user, None);
      if s.Err? { return Err(s.error); }
      if id in db.wallets && InScope(db.wallets[id], s.value) {
        return Ok(db.wallets[id]);
      }
      return Err(NotFound);
    }

    /** The first half of updateWallet: read, and refuse to reassign a wallet that has transactions. */
    method UpdateWalletRead(user: User, id: int, employeeID: Option<Option<int>>) returns (r: Result<Pending, Error>)
      ensures r.Ok? <==> && id in db.wallets && Manages(user, db.wallets[id])
                         && (employeeID.Some? && employeeID.value != db.wallets[id].employeeId
                             ==> forall t | t in db.transactions :: t.walletId != id)
      ensures r.Ok? ==> && r.value.seen == db.wallets[id] && r.value.walletId == id && r.value.user == user
                        && r.value.employee == if employeeID.Some? then employeeID.value else db.wallets[id].employeeId
      ensures r == UpdateStarted(db, user, id, employeeID)
    {
      var w := GetWallet(user, id);
      if w.Err? { return Err(w.error); }
      var wallet := w.value;
      var employee := Or(employeeID, wallet.employeeId);
      var scope := ScopeOf(user, Some(wallet.branchId));
      assert scope.Ok?;  // a manager of the wallet is never refused its branch
      var reassigning := employee != wallet.employeeId;
      if reassigning && HasTransactions(db, id) {
        return Err(Conflict);
      }
      return Ok(Pending(user, id, wallet, employee));
    }

    /** The second half of updateWallet. */
    method UpdateWalletWrite(p: Pending) returns (r: Result<Wallet, Error>)
      modifies this
      ensures match WalletWritten(old(db), p.user, p.walletId, p.seen, p.employee)
              case Err(e) => r == Err(e) && db == old(db)
              case Ok(next) => db == next && r == Ok(db.wallets[p.walletId])
      ensures r.Ok? <==> && p.walletId in old(db).wallets && Manages(p.user, old(db).wallets[p.walletId])
                         && old(db).wallets[p.walletId].updatedAt == p.seen.updatedAt
                         && (p.employee == p.seen.employeeId
                             || forall t | t in old(db).transactions :: t.walletId != p.walletId)
      ensures r.Ok? ==> var w := old(db).wallets[p.walletId];
                        var next := Wallet(w.companyId, p.seen.branchId, p.employee, w.createdById, old(db).clock + 1);
                        r.value == next && db == old(db).(wallets := old(db).wallets[p.walletId := next],
                                                          clock := old(db).clock + 1)
    {
      var s := ScopeOf(p.user, None);
      if s.Err? { return Err(s.error); }
      if p.walletId !in db.wallets { return Err(Conflict); }
      var w := db.wallets[p.walletId];
      var reassigning := p.employee != p.seen.employeeId;
      if !InScope(w, s.value) || w.updatedAt != p.seen.updatedAt || (reassigning && HasTransactions(db, p.walletId)) {
        return Err(Conflict);
      }
      w := w.(branchId := p.seen.branchId, employeeId := p.employee, updatedAt := db.clock + 1);
      db := db.(wallets := db.wallets[p.walletId := w], clock := db.clock + 1);
      return Ok(w);
    }

    method DeleteWalletWrite(p: Pending) returns (r: Result<(), Error>)
      modifies this
      ensures match WalletDeleted(old(db), p.user, p.walletId, p.seen)
              case Err(e) => r == Err(e) && db == old(db)
              case Ok(next) => db == next && r == Ok(())
      ensures r.Ok? <==> && p.walletId in old(db).wallets && Manages(p.user, old(db).wallets[p.walletId])
                         && old(db).wallets[p.walletId].updatedAt == p.seen.updatedAt
                         && forall t | t in old(db).transactions :: t.walletId != p.walletId
      ensures r.Ok? ==> db == old(db).(wallets := old(db).wallets - {p.walletId})
    {
      var s := ScopeOf(p.user, None);
      if s.Err? { return Err(s.error); }
      if p.walletId !in db.wallets { return Err(Conflict); }
      var w := db.wallets[p.walletId];
      if !InScope(w, s.value) || w.updatedAt != p.seen.updatedAt || HasTransactions(db, p.walletId) {
        return Err(Conflict);
      }
      db := db.(wallets := db.wallets - {p.walletId});
      return Ok(());
    }

    method CreateOwnTransaction(user: User, id: int, data: NewTransaction, now: int)
      returns (r: Result<Transaction, Error>)
      modifies this
      ensures match TransactionCreated(old(db), user, id, data, now)
              case Err(e) => r == Err(e) && db == old(db)
              case Ok(next) => db == next && r == Ok(db.transactions[|db.transactions| - 1])
      ensures r.Ok? <==> && id in old(db).wallets && Owns(old(db), user, old(db).wallets[id])
                         && BranchAllowed(old(db), old(db).wallets[id].companyId, data.targetBranchId)
                         && ClientAllowed(old(db), old(db).wallets[id].companyId, data.targetClientId)
      ensures r.Ok? ==> && r.value.kind == data.kind && r.value.paidAmount == data.paidAmount
                        && r.value.targetBranchId == data.targetBranchId
                        && r.value.targetClientId == data.targetClientId
                        && r.value.walletId == id && r.value.companyId == old(db).wallets[id].companyId
                        && r.value.branchId == old(db).wallets[id].branchId
                        && r.value.employeeId == Some(user.id) && r.value.createdById == user.id
                        && !r.value.approved && !r.value.deleted && r.value.createdAt == now && r.value.reportId == None
                        && r.value.id == old(db).nextTransaction
      ensures db == if r.Ok? then old(db).(transactions := old(db).transactions + [r.value],
                                           nextTransaction := old(db).nextTransaction + 1)
                    else old(db)
    {
      var w := OwnedWallet(db, user, id);
      if w.Err? { return Err(w.error); }
      if Truthy(data.targetBranchId) {
        var b := data.targetBranchId.value;
        if b !in db.branchCompany || db.branchCompany[b] != w.value.companyId { return Err(BadRequest); }
      }
      if Truthy(data.targetClientId) {
        var c := data.targetClientId.value;
        if c !in db.clients || db.clients[c] != Customer(w.value.companyId, false) { return Err(BadRequest); }
      }
      var t := Transaction(db.nextTransaction, id, w.value.companyId, w.value.branchId, Some(user.id), user.id,
                           data.kind, data.paidAmount, data.targetBranchId, data.targetClientId,
                           false, false, now, None);
      db := db.(transactions := db.transactions + [t], nextTransaction := db.nextTransaction + 1);
      return Ok(t);
    }
  }

  /** A branch of the company and, if an employee is named, a live employee of that branch. */
  lemma AssignableColumns(db: Db, company: int, branch: int, employee: Option<int>)
    ensures Assignable(db, company, branch, employee)
            <==> && branch in db.branchCompany && db.branchCompany[branch] == company
                 && match employee
                    case None => true
                    case Some(id) => && id in db.employees && db.employees[id].companyId == company
                                     && db.employees[id].branchId == Some(branch) && !db.employees[id].deleted
  {
  }

  /** What the first half of an update finds. */
  function UpdateStarted(db: Db, user: User, id: int, employeeID: Option<Option<int>>): Result<Pending, Error> {
    match WalletRead(db, user, id)
    case Err(e) => Err(e)
    case Ok(w) =>
      var employee := Or(employeeID, w.employeeId);
      match ScopeOf(user, Some(w.branchId))
      case Err(e) => Err(e)
      case Ok(_) =>
        if employee != w.employeeId && HasTransactions(db, id) then Err(Conflict)
        else Ok(Pending(user, id, w, employee))
  }

  /** What the first half of a delete finds. */
  function DeleteStarted(db: Db, user: User, id: int): Result<Pending, Error> {
    match WalletRead(db, user, id)
    case Err(e) => Err(e)
    case Ok(w) => if HasTransactions(db, id) then Err(Conflict) else Ok(Pending(user, id, w, w.employeeId))
  }

  // ---------------------------------------------------------------- interleaved requests

  /** Where a request stands between two of its queries. */
  datatype Session =
    | Updating(p: Pending, checked: bool)
    | Deleting(p: Pending)
    | Creating(company: int, branch: int, employee: Option<int>, creator: int)

  datatype State = State(db: Db, sessions: map<int, Session>)

  datatype Event =
    | BeginUpdate(session: int, user: User, walletId: int, employeeID: Option<Option<int>>)
    | CheckUpdate(session: int)
    | CommitUpdate(session: int)
    | BeginDelete(session: int, user: User, walletId: int)
    | CommitDelete(session: int)
    | BeginCreate(session: int, user: User, newEmployee: Option<int>)
    | CommitCreate(session: int)
    | AddTransaction(user: User, walletId: int, data: NewTransaction, now: int)
    | ChangeTransaction(transactionId: int, change: Change)
    | ChangeReport(report: int, reportChange: ReportChange)
    | SetEmployee(id: int, employee: Employee)

  function Open(st: State, session: int, s: Session): State {
    st.(sessions := st.sessions[session := s])
  }

  /** A request that fails or finishes leaves no session behind. */
  function Close(st: State, session: int): State {
    st.(sessions := st.sessions - {session})
  }

  function Finish(st: State, session: int, r: Result<Db, Error>): State {
    if r.Ok? then Close(st.(db := r.value), session) else Close(st, session)
  }

  /** The members of a general transaction update; None is an absent member. */
  datatype Patch = Patch(kind: Option<TransactionType>, paidAmount: Option<Money>, approved: Option<bool>,
                         employeeID: Option<int>, reportID: Option<int>, branchID: Option<int>)

  /** What the general transaction endpoints do to one row: delete it softly, approve it, or edit it. */
  datatype Change = Remove | Approve | Edit(patch: Patch)

  /** What happens to a report: it is created, deactivated, reactivated or deleted for good, or a transaction outside
      the wallets takes it. */
  datatype ReportChange = Created | Deactivated | Reactivated | Erased | TakenOver

  /** Employee, report and branch are connected only when their ids are truthy. */
  function Changed(t: Transaction, c: Change): Transaction {
    match c
    case Remove => t.(deleted := true)
    case Approve => t.(approved := true)
    case Edit(p) =>
      t.(kind := Or(p.kind, t.kind), paidAmount := Or(p.paidAmount, t.paidAmount),
         approved := Or(p.approved, t.approved),
         employeeId := if Truthy(p.employeeID) then p.employeeID else t.employeeId,
         reportId := if Truthy(p.reportID) then p.reportID else t.reportId,
         branchId := if Truthy(p.branchID) then p.branchID.value else t.branchId)
  }

  /** One UPDATE over the transactions. */
  function Mapped(ts: seq<Transaction>, m: Transaction -> Transaction): seq<Transaction> {
    seq(|ts|, (i: nat) requires i < |ts| => m(ts[i]))
  }

  /** A report has at most one transaction: connecting it to one takes it from the other. */
  function ChangeOf(id: int, c: Change): Transaction -> Transaction {
    (t: Transaction) =>
      if t.id == id then Changed(t, c)
      else if c.Edit? && Truthy(c.patch.reportID) && t.reportId == c.patch.reportID then t.(reportId := None)
      else t
  }

  /** What the change of a report does to the transaction that has it. */
  function ReportChangeOf(report: int, c: ReportChange): Transaction -> Transaction {
    (t: Transaction) =>
      if t.reportId != Some(report) then t
      else match c
        case Created => t
        case Deactivated => t.(deleted := true)
        case Reactivated => t.(deleted := false)
        case Erased => t.(reportId := None)
        case TakenOver => t.(reportId := None)
  }

  /** `prisma.transaction.update`: the row, and what it is connected to, must exist. */
  function TransactionChanged(db: Db, id: int, c: Change): Result<Db, Error> {
    if !(exists t | t in db.transactions :: t.id == id) then Err(NotFound)
    else if c.Edit? && ((Truthy(c.patch.employeeID) && c.patch.employeeID.value !in db.employees)
                        || (Truthy(c.patch.reportID) && c.patch.reportID.value !in db.reports)
                        || (Truthy(c.patch.branchID) && c.patch.branchID.value !in db.branchCompany)) then Err(NotFound)
    else Ok(db.(transactions := Mapped(db.transactions, ChangeOf(id, c))))
  }

  function ReportChanged(db: Db, report: int, c: ReportChange): Result<Db, Error> {
    if c.Created? then
      if report in db.reports then Err(Conflict) else Ok(db.(reports := db.reports + {report}))
    else if report !in db.reports then Err(NotFound)
    else Ok(db.(reports := if c.Erased? then db.reports - {report} else db.reports,
                transactions := Mapped(db.transactions, ReportChangeOf(report, c))))
  }

  function Next(st: State, e: Event): State {
    match e
    case BeginUpdate(s, user, id, employeeID) =>
      (match UpdateStarted(st.db, user, id, employeeID)
       case Err(_) => Close(st, s)
       case Ok(p) => Open(st, s, Updating(p, false)))
    case CheckUpdate(s) =>
      if s in st.sessions && st.sessions[s].Updating? then
        var p := st.sessions[s].p;
        if p.employee == p.seen.employeeId || Assignable(st.db, p.seen.companyId, p.seen.branchId, p.employee)
        then Open(st, s, Updating(p, true)) else Close(st, s)
      else st
    case CommitUpdate(s) =>
      if s in st.sessions && st.sessions[s].Updating? && st.sessions[s].checked then
        var p := st.sessions[s].p;
        Finish(st, s, WalletWritten(st.db, p.user, p.walletId, p.seen, p.employee))
      else st
    case BeginDelete(s, user, id) =>
      (match DeleteStarted(st.db, user, id)
       case Err(_) => Close(st, s)
       case Ok(p) => Open(st, s, Deleting(p)))
    case CommitDelete(s) =>
      if s in st.sessions && st.sessions[s].Deleting? then
        var p := st.sessions[s].p;
        Finish(st, s, WalletDeleted(st.db, p.user, p.walletId, p.seen))
      else st
    case BeginCreate(s, user, employee) =>
      (match ScopeOf(user, user.branchId)
       case Err(_) => Close(st, s)
       case Ok(scope) =>
         if Truthy(user.branchId) && Assignable(st.db, scope.companyId, user.branchId.value, employee)
         then Open(st, s, Creating(scope.companyId, user.branchId.value, employee, user.id)) else Close(st, s))
    case CommitCreate(s) =>
      if s in st.sessions && st.sessions[s].Creating? then
        var c := st.sessions[s];
        Finish(st, s, Ok(WalletCreated(st.db, c.company, c.branch, c.employee, c.creator)))
      else st
    case AddTransaction(user, id, data, now) =>
      (match TransactionCreated(st.db, user, id, data, now)
       case Err(_) => st
       case Ok(db) => st.(db := db))
    case ChangeTransaction(id, c) =>
      (match TransactionChanged(st.db, id, c)
       case Err(_) => st
       case Ok(db) => st.(db := db))
    case ChangeReport(report, c) =>
      (match ReportChanged(st.db, report, c)
       case Err(_) => st
       case Ok(db) => st.(db := db))
    case SetEmployee(id, employee) => st.(db := st.db.(employees := st.db.employees[id := employee]))
  }

  /** Who may create a wallet, for whom, and the row that is created: in the creator's own branch. */
  lemma CreationColumns(st: State, s: int, user: User, employee: Option<int>)
    ensures var begun := Next(st, BeginCreate(s, user, employee));
            var allowed := && user.companyID.Some? && user.companyID.value != 0
                           && user.branchId.Some? && user.branchId.value != 0
                           && (user.role == BRANCH_MANAGER || (user.role == COMPANY_MANAGER && user.showTreatury))
                           && Assignable(st.db, user.companyID.value, user.branchId.value, employee);
            && begun.db == st.db && (s in begun.sessions <==> allowed)
            && (allowed ==> var done := Next(begun, CommitCreate(s)).db;
                            done == st.db.(wallets := st.db.wallets[st.db.nextWallet :=
                                             Wallet(user.companyID.value, user.branchId.value, employee, user.id,
                                                    st.db.clock + 1)],
                                           nextWallet := st.db.nextWallet + 1, clock := st.db.clock + 1))
  {
  }

  /** What the two reads keep for their writes, and whom they turn away. */
  lemma BeginColumns(st: State, s: int, user: User, id: int, employeeID: Option<Option<int>>)
    ensures var begun := Next(st, BeginUpdate(s, user, id, employeeID));
            && begun.db == st.db
            && (s in begun.sessions
                <==> && id in st.db.wallets && Manages(user, st.db.wallets[id])
                     && (employeeID.None? || employeeID.value == st.db.wallets[id].employeeId
                         || forall t | t in st.db.transactions :: t.walletId != id))
            && (s in begun.sessions
                ==> var w := st.db.wallets[id];
                    var employee := if employeeID.Some? then employeeID.value else w.employeeId;
                    begun.sessions[s] == Updating(Pending(user, id, w, employee), false))
    ensures var begun := Next(st, BeginDelete(s, user, id));
            && begun.db == st.db
            && (s in begun.sessions
                <==> && id in st.db.wallets && Manages(user, st.db.wallets[id])
                     && forall t | t in st.db.transactions :: t.walletId != id)
            && (s in begun.sessions
                ==> begun.sessions[s] == Deleting(Pending(user, id, st.db.wallets[id], st.db.wallets[id].employeeId)))
  {
  }

  /** What the guarded writes leave behind, whatever was read before. */
  lemma CommitColumns(st: State, s: int, p: Pending)
    requires s in st.sessions && (st.sessions[s] == Updating(p, true) || st.sessions[s] == Deleting(p))
    ensures st.sessions[s] == Updating(p, true)
            ==> var next := Next(st, CommitUpdate(s));
                && s !in next.sessions
                && if && p.walletId in st.db.wallets && Manages(p.user, st.db.wallets[p.walletId])
                      && st.db.wallets[p.walletId].updatedAt == p.seen.updatedAt
                      && (p.employee == p.seen.employeeId
                          || forall t | t in st.db.transactions :: t.walletId != p.walletId)
                   then var w := st.db.wallets[p.walletId];
                        next.db == st.db.(wallets := st.db.wallets[p.walletId := Wallet(
                                            w.companyId, p.seen.branchId, p.employee, w.createdById, st.db.clock + 1)],
                                          clock := st.db.clock + 1)
                   else next.db == st.db
    ensures st.sessions[s] == Deleting(p)
            ==> var next := Next(st, CommitDelete(s));
                && s !in next.sessions
                && next.db == if && p.walletId in st.db.wallets && Manages(p.user, st.db.wallets[p.walletId])
                                 && st.db.wallets[p.walletId].updatedAt == p.seen.updatedAt
                                 && forall t | t in st.db.transactions :: t.walletId != p.walletId
                              then st.db.(wallets := st.db.wallets - {p.walletId}) else st.db
  {
  }

  /** The row an owner's transaction appends, or nothing. */
  lemma TransactionColumns(st: State, user: User, id: int, data: NewTransaction, now: int)
    ensures Next(st, AddTransaction(user, id, data, now)).db
         == if && id in st.db.wallets && Owns(st.db, user, st.db.wallets[id])
               && BranchAllowed(st.db, st.db.wallets[id].companyId, data.targetBranchId)
               && ClientAllowed(st.db, st.db.wallets[id].companyId, data.targetClientId)
            then var w := st.db.wallets[id];
                 st.db.(transactions := st.db.transactions
                          + [Transaction(st.db.nextTransaction, id, w.companyId, w.branchId, Some(user.id), user.id,
                                         data.kind, data.paidAmount, data.targetBranchId, data.targetClientId,
                                         false, false, now, None)],
                        nextTransaction := st.db.nextTransaction + 1)
            else st.db
  {
    if id in st.db.wallets {
      var w := st.db.wallets[id];
      assert OwnedWallet(st.db, user, id).Ok? <==> Owns(st.db, user, w);
      assert BranchAllowed(st.db, w.companyId, data.targetBranchId)
        <==> !Truthy(data.targetBranchId) || (data.targetBranchId.value in st.db.branchCompany
                                              && st.db.branchCompany[data.targetBranchId.value] == w.companyId);
      assert ClientAllowed(st.db, w.companyId, data.targetClientId)
        <==> !Truthy(data.targetClientId) || (data.targetClientId.value in st.db.clients
              && st.db.clients[data.targetClientId.value] == Customer(w.companyId, false));
    }
  }

  /** The employee is checked before the write, and only a checked update is written. */
  lemma CheckColumns(st: State, s: int)
    requires s in st.sessions && st.sessions[s].Updating?
    ensures var p, checked := st.sessions[s].p, Next(st, CheckUpdate(s));
            && checked.db == st.db
            && (s in checked.sessions
                <==> p.employee == p.seen.employeeId
                     || Assignable(st.db, p.seen.companyId, p.seen.branchId, p.employee))
            && (s in checked.sessions ==> checked.sessions[s] == Updating(p, true))
    ensures !st.sessions[s].checked ==> Next(st, CommitUpdate(s)) == st
  {
  }

  /** An employee may move or go between any two queries; nothing else changes with it. */
  lemma EmployeeColumns(st: State, id: int, employee: Employee)
    ensures var after := Next(st, SetEmployee(id, employee));
            && after == st.(db := st.db.(employees := after.db.employees))
            && after.db.employees.Keys == st.db.employees.Keys + {id}
            && forall k | k in after.db.employees ::
                 after.db.employees[k] == if k == id then employee else st.db.employees[k]
  {
  }

  /** What an edit makes of a row, column by column. */
  lemma EditColumns(t: Transaction, p: Patch)
    ensures var u := Changed(t, Edit(p));
            && u.kind == (if p.kind.Some? then p.kind.value else t.kind)
            && u.paidAmount == (if p.paidAmount.Some? then p.paidAmount.value else t.paidAmount)
            && u.approved == (if p.approved.Some? then p.approved.value else t.approved)
            && u.employeeId == (if p.employeeID in {None, Some(0)} then t.employeeId else p.employeeID)
            && u.reportId == (if p.reportID in {None, Some(0)} then t.reportId else p.reportID)
            && (if p.branchID in {None, Some(0)} then u.branchId == t.branchId else Some(u.branchId) == p.branchID)
            && u.deleted == t.deleted && Fixed(u) == Fixed(t)
    ensures Changed(t, Remove) == t.(deleted := true) && Changed(t, Approve) == t.(approved := true)
  {
  }

  /** An update finds its row and what it connects it to. */
  ghost predicate Found(db: Db, id: int, c: Change) {
    && (exists u :: u in db.transactions && u.id == id)
    && (c.Edit? ==> && (c.patch.employeeID in {None, Some(0)} || c.patch.employeeID.value in db.employees)
                    && (c.patch.reportID in {None, Some(0)} || c.patch.reportID.value in db.reports)
                    && (c.patch.branchID in {None, Some(0)} || c.patch.branchID.value in db.branchCompany))
  }

  lemma FoundIff(db: Db, id: int, c: Change)
    ensures TransactionChanged(db, id, c).Ok? <==> Found(db, id, c)
  {
    if u :| u in db.transactions && u.id == id {
    }
  }

  /** A transaction update reaches exactly the row of that id, and the row that had the report. */
  lemma ChangeColumns(st: State, id: int, c: Change, i: nat)
    requires i < |st.db.transactions|
    ensures var t, next := st.db.transactions[i], Next(st, ChangeTransaction(id, c)).db;
            && |next.transactions| == |st.db.transactions|
            && next.transactions[i]
               == if !Found(st.db, id, c) then t
                  else if t.id == id then Changed(t, c)
                  else if c.Edit? && c.patch.reportID !in {None, Some(0)} && t.reportId == c.patch.reportID
                  then t.(reportId := None)
                  else t
  {
    FoundIff(st.db, id, c);
  }

  /** A change of a report reaches exactly the row that has the report. */
  lemma ReportRowColumns(t: Transaction, report: int, c: ReportChange)
    ensures var u := ReportChangeOf(report, c)(t);
            && (t.reportId != Some(report) || c == Created ==> u == t)
            && (t.reportId == Some(report)
                ==> && (c == Deactivated ==> u == t.(deleted := true))
                    && (c == Reactivated ==> u == t.(deleted := false))
                    && (c == Erased || c == TakenOver ==> u == t.(reportId := None)))
  {
  }

  lemma ReportChangeColumns(st: State, report: int, c: ReportChange, i: nat)
    requires i < |st.db.transactions|
    ensures var t, next := st.db.transactions[i], Next(st, ChangeReport(report, c)).db.transactions;
            && |next| == |st.db.transactions|
            && next[i] == if report in st.db.reports && c != Created then ReportChangeOf(report, c)(t) else t
  {
  }

  lemma ReportsAfter(st: State, report: int, c: ReportChange)
    ensures Next(st, ChangeReport(report, c)).db.reports
         == match c
            case Created => st.db.reports + {report}
            case Erased => st.db.reports - {report}
            case _ => st.db.reports
  {
  }

  // ---------------------------------------------------------------- the invariant

  /** A version number stands for one row content: what was read is still there as long as updatedAt is. */
  ghost predicate Fresh(db: Db, p: Pending) {
    && p.walletId < db.nextWallet && p.seen.updatedAt <= db.clock
    && (p.walletId in db.wallets && db.wallets[p.walletId].updatedAt == p.seen.updatedAt
        ==> db.wallets[p.walletId] == p.seen)
  }

  /** Every transaction's wallet exists and is of the transaction's company. */
  ghost predicate TransactionsOwned(db: Db) {
    forall t | t in db.transactions :: t.walletId in db.wallets && t.companyId == db.wallets[t.walletId].companyId
  }

  ghost predicate IdsAscend(db: Db) {
    && (forall i, j :: 0 <= i < j < |db.transactions| ==> db.transactions[i].id < db.transactions[j].id)
    && (forall t | t in db.transactions :: t.id < db.nextTransaction)
  }

  ghost predicate VersionsBounded(db: Db) {
    forall id | id in db.wallets :: id < db.nextWallet && db.wallets[id].updatedAt <= db.clock
  }

  ghost predicate SessionsFresh(st: State) {
    forall s | s in st.sessions && !st.sessions[s].Creating? :: Fresh(st.db, st.sessions[s].p)
  }

  ghost predicate Inv(st: State) {
    TransactionsOwned(st.db) && IdsAscend(st.db) && VersionsBounded(st.db) && SessionsFresh(st)
  }

  ghost predicate SameAssignment(v: Wallet, w: Wallet) {
    v.companyId == w.companyId && v.branchId == w.branchId && v.employeeId == w.employeeId
  }

  /** A wallet with transactions in the first state is still there, with the same company, branch and employee. */
  ghost predicate Settled(a: Db, b: Db) {
    forall t | t in a.transactions ::
      t.walletId in a.wallets && t.walletId in b.wallets && SameAssignment(a.wallets[t.walletId], b.wallets[t.walletId])
  }

  /** What nothing changes of a transaction: all but branch, employee, report, type, amount and marks. */
  function Fixed(t: Transaction): Transaction {
    t.(branchId := 0, employeeId := None, reportId := None, kind := DEPOSIT, paidAmount := 0.0, approved := true,
       deleted := true)
  }

  /** Stored transactions stay, in order, in their wallets. */
  ghost predicate Kept(a: Db, b: Db) {
    && |a.transactions| <= |b.transactions|
    && forall i | 0 <= i < |a.transactions| :: Fixed(a.transactions[i]) == Fixed(b.transactions[i])
  }

  /** A step is safe when it keeps the invariant, settles wallets that have transactions and keeps the transactions. */
  ghost predicate Safe(st: State, next: State) {
    Inv(next) && Settled(st.db, next.db) && Kept(st.db, next.db)
  }

  /** A write that passes its guard acts on exactly the row that was read. */
  lemma GuardedWriteActsOnReadRow(db: Db, p: Pending)
    requires Fresh(db, p)
    ensures WalletWritten(db, p.user, p.walletId, p.seen, p.employee).Ok? ==>
              && p.walletId in db.wallets && db.wallets[p.walletId] == p.seen
              && var after := WalletWritten(db, p.user, p.walletId, p.seen, p.employee).value;
                 after.wallets == db.wallets[p.walletId := p.seen.(employeeId := p.employee, updatedAt := db.clock + 1)]
    ensures WalletDeleted(db, p.user, p.walletId, p.seen).Ok? ==>
              p.walletId in db.wallets && db.wallets[p.walletId] == p.seen
  {
  }

  lemma UpdateCommitSafe(st: State, s: int)
    requires Inv(st) && s in st.sessions && st.sessions[s].Updating?
    ensures var p := st.sessions[s].p;
            var r := WalletWritten(st.db, p.user, p.walletId, p.seen, p.employee);
            r.Ok? ==> Safe(st, Close(st.(db := r.value), s))
  {
    var p := st.sessions[s].p;
    var r := WalletWritten(st.db, p.user, p.walletId, p.seen, p.employee);
    if r.Ok? {
      GuardedWriteActsOnReadRow(st.db, p);
      forall q | q in st.sessions && !st.sessions[q].Creating? ensures Fresh(r.value, st.sessions[q].p) {
        assert Fresh(st.db, st.sessions[q].p);
      }
      forall t | t in st.db.transactions
        ensures t.walletId in r.value.wallets
        ensures SameAssignment(st.db.wallets[t.walletId], r.value.wallets[t.walletId])
      {
        if t.walletId == p.walletId && p.employee != p.seen.employeeId {
          assert HasTransactions(st.db, p.walletId);
        }
      }
    }
  }

  lemma DeleteCommitSafe(st: State, s: int)
    requires Inv(st) && s in st.sessions && st.sessions[s].Deleting?
    ensures var p := st.sessions[s].p;
            var r := WalletDeleted(st.db, p.user, p.walletId, p.seen);
            r.Ok? ==> Safe(st, Close(st.(db := r.value), s))
  {
    var p := st.sessions[s].p;
    var r := WalletDeleted(st.db, p.user, p.walletId, p.seen);
    if r.Ok? {
      forall q | q in st.sessions && !st.sessions[q].Creating? ensures Fresh(r.value, st.sessions[q].p) {
        assert Fresh(st.db, st.sessions[q].p);
      }
      forall t | t in st.db.transactions ensures t.walletId != p.walletId {
      }
    }
  }

  lemma CreateCommitSafe(st: State, s: int)
    requires Inv(st) && s in st.sessions && st.sessions[s].Creating?
    ensures var c := st.sessions[s];
            Safe(st, Close(st.(db := WalletCreated(st.db, c.company, c.branch, c.employee, c.creator)), s))
  {
    var c := st.sessions[s];
    var db := WalletCreated(st.db, c.company, c.branch, c.employee, c.creator);
    forall q | q in st.sessions && !st.sessions[q].Creating? ensures Fresh(db, st.sessions[q].p) {
      assert Fresh(st.db, st.sessions[q].p);
    }
  }

  /** A change that leaves the wallets alone keeps what sessions read fresh. */
  lemma SameWalletsFresh(st: State, db: Db)
    requires Inv(st)
    requires db.wallets == st.db.wallets && db.nextWallet == st.db.nextWallet && db.clock == st.db.clock
    ensures SessionsFresh(st.(db := db)) && VersionsBounded(db)
  {
    forall q | q in st.sessions && !st.sessions[q].Creating? ensures Fresh(db, st.sessions[q].p) {
      assert Fresh(st.db, st.sessions[q].p);
    }
  }

  lemma TransactionSafe(st: State, user: User, id: int, data: NewTransaction, now: int)
    requires Inv(st)
    ensures var r := TransactionCreated(st.db, user, id, data, now); r.Ok? ==> Safe(st, st.(db := r.value))
  {
    var r := TransactionCreated(st.db, user, id, data, now);
    if r.Ok? { SameWalletsFresh(st, r.value); }
  }

  lemma SameFixed(t: Transaction, u: Transaction)
    requires Fixed(t) == Fixed(u)
    ensures t.id == u.id && t.walletId == u.walletId && t.companyId == u.companyId
  {
    assert t.id == Fixed(t).id && u.id == Fixed(u).id;
    assert t.walletId == Fixed(t).walletId && u.walletId == Fixed(u).walletId;
    assert t.companyId == Fixed(t).companyId && u.companyId == Fixed(u).companyId;
  }

  lemma MappedKept(db: Db, m: Transaction -> Transaction, reports: set<int>)
    requires TransactionsOwned(db) && IdsAscend(db)
    requires forall t | t in db.transactions :: Fixed(m(t)) == Fixed(t)
    ensures var after := db.(transactions := Mapped(db.transactions, m), reports := reports);
            TransactionsOwned(after) && IdsAscend(after) && Kept(db, after)
  {
    var ts, rows := db.transactions, Mapped(db.transactions, m);
    forall i | 0 <= i < |ts| ensures rows[i].id == ts[i].id && Fixed(rows[i]) == Fixed(ts[i]) {
      assert ts[i] in ts;
      SameFixed(rows[i], ts[i]);
    }
    forall t | t in rows
      ensures t.walletId in db.wallets && t.companyId == db.wallets[t.walletId].companyId && t.id < db.nextTransaction
    {
      var i :| 0 <= i < |rows| && rows[i] == t;
      assert ts[i] in ts;
      SameFixed(rows[i], ts[i]);
    }
  }

  lemma ChangeSafe(st: State, id: int, c: Change)
    requires Inv(st)
    ensures var r := TransactionChanged(st.db, id, c); r.Ok? ==> Safe(st, st.(db := r.value))
  {
    var r := TransactionChanged(st.db, id, c);
    if r.Ok? {
      MappedKept(st.db, ChangeOf(id, c), st.db.reports);
      SameWalletsFresh(st, r.value);
    }
  }

  lemma ReportChangeSafe(st: State, report: int, c: ReportChange)
    requires Inv(st)
    ensures var r := ReportChanged(st.db, report, c); r.Ok? ==> Safe(st, st.(db := r.value))
  {
    var r := ReportChanged(st.db, report, c);
    if r.Ok? {
      MappedKept(st.db, ReportChangeOf(report, c), r.value.reports);
      SameWalletsFresh(st, r.value);
    }
  }

  lemma OpenSafe(st: State, s: int, session: Session)
    requires Inv(st) && (session.Creating? || Fresh(st.db, session.p))
    ensures Safe(st, Open(st, s, session))
  {
  }

  lemma CloseSafe(st: State, s: int)
    requires Inv(st)
    ensures Safe(st, Close(st, s))
  {
  }

  lemma BeginUpdateSafe(st: State, s: int, user: User, id: int, employeeID: Option<Option<int>>)
    requires Inv(st)
    ensures Safe(st, Next(st, BeginUpdate(s, user, id, employeeID)))
  {
    match UpdateStarted(st.db, user, id, employeeID)
    case Err(_) => CloseSafe(st, s);
    case Ok(p) => OpenSafe(st, s, Updating(p, false));
  }

  lemma CheckUpdateSafe(st: State, s: int)
    requires Inv(st)
    ensures Safe(st, Next(st, CheckUpdate(s)))
  {
    if s in st.sessions && st.sessions[s].Updating? {
      OpenSafe(st, s, Updating(st.sessions[s].p, true));
      CloseSafe(st, s);
    }
  }

  lemma CommitUpdateSafe(st: State, s: int)
    requires Inv(st)
    ensures Safe(st, Next(st, CommitUpdate(s)))
  {
    if s in st.sessions && st.sessions[s].Updating? {
      UpdateCommitSafe(st, s);
      CloseSafe(st, s);
    }
  }

  lemma BeginDeleteSafe(st: State, s: int, user: User, id: int)
    requires Inv(st)
    ensures Safe(st, Next(st, BeginDelete(s, user, id)))
  {
    match DeleteStarted(st.db, user, id)
    case Err(_) => CloseSafe(st, s);
    case Ok(p) => OpenSafe(st, s, Deleting(p));
  }

  lemma CommitDeleteSafe(st: State, s: int)
    requires Inv(st)
    ensures Safe(st, Next(st, CommitDelete(s)))
  {
    if s in st.sessions && st.sessions[s].Deleting? {
      DeleteCommitSafe(st, s);
      CloseSafe(st, s);
    }
  }

  lemma BeginCreateSafe(st: State, s: int, user: User, employee: Option<int>)
    requires Inv(st)
    ensures Safe(st, Next(st, BeginCreate(s, user, employee)))
  {
    CloseSafe(st, s);
    match ScopeOf(user, user.branchId)
    case Err(_) =>
    case Ok(scope) =>
      if Truthy(user.branchId) { OpenSafe(st, s, Creating(scope.companyId, user.branchId.value, employee, user.id)); }
  }

  lemma EmployeeSafe(st: State, id: int, employee: Employee)
    requires Inv(st)
    ensures Safe(st, Next(st, SetEmployee(id, employee)))
  {
    SameWalletsFresh(st, Next(st, SetEmployee(id, employee)).db);
  }

  lemma StepSafe(st: State, e: Event)
    requires Inv(st)
    ensures Safe(st, Next(st, e))
  {
    match e
    case BeginUpdate(s, user, id, employeeID) => BeginUpdateSafe(st, s, user, id, employeeID);
    case CheckUpdate(s) => CheckUpdateSafe(st, s);
    case CommitUpdate(s) => CommitUpdateSafe(st, s);
    case BeginDelete(s, user, id) => BeginDeleteSafe(st, s, user, id);
    case CommitDelete(s) => CommitDeleteSafe(st, s);
    case BeginCreate(s, user, employee) => BeginCreateSafe(st, s, user, employee);
    case CommitCreate(s) => if s in st.sessions && st.sessions[s].Creating? { CreateCommitSafe(st, s); }
    case AddTransaction(user, id, data, now) => TransactionSafe(st, user, id, data, now);
    case ChangeTransaction(id, c) => ChangeSafe(st, id, c);
    case ChangeReport(report, c) => ReportChangeSafe(st, report, c);
    case SetEmployee(id, employee) => EmployeeSafe(st, id, employee);
  }

  function Run(st: State, events: seq<Event>): State
    decreases |events|
  {
    if events == [] then st else Run(Next(st, events[0]), events[1..])
  }

  lemma SafeTwice(a: State, b: State, c: State)
    requires Safe(a, b) && Safe(b, c)
    ensures Safe(a, c)
  {
    forall t | t in a.db.transactions
      ensures t.walletId in a.db.wallets && t.walletId in c.db.wallets
      ensures SameAssignment(a.db.wallets[t.walletId], c.db.wallets[t.walletId])
    {
      var i :| 0 <= i < |a.db.transactions| && a.db.transactions[i] == t;
      var u := b.db.transactions[i];
      assert u in b.db.transactions && Fixed(u) == Fixed(t);
      assert Fixed(u).walletId == u.walletId && Fixed(t).walletId == t.walletId;
    }
  }

  /** In every interleaving, edits and reports of transactions included, a wallet that ever has a transaction is from
      then on never deleted and never changes company, branch or employee, and no transaction is lost or leaves its
      wallet. */
  lemma {:induction false} RunSafe(st: State, events: seq<Event>)
    requires Inv(st)
    ensures Safe(st, Run(st, events))
    decreases |events|
  {
    if events != [] {
      StepSafe(st, events[0]);
      RunSafe(Next(st, events[0]), events[1..]);
      SafeTwice(st, Next(st, events[0]), Run(st, events));
    }
  }

  /** An empty wallet table with no request under way satisfies the invariant. */
  lemma InitSafe(db: Db)
    requires db.wallets == map[] && db.transactions == []
    ensures Inv(State(db, map[]))
  {
  }

  // ---------------------------------------------------------------- removed transactions

  ghost predicate RemovedStay(a: Db, b: Db) {
    && |a.transactions| <= |b.transactions|
    && forall i | 0 <= i < |a.transactions| :: a.transactions[i].deleted ==> b.transactions[i].deleted
  }

  /** The event restores the transaction: it reactivates the report the transaction has. */
  ghost predicate Restores(db: Db, e: Event, t: Transaction) {
    e.ChangeReport? && e.reportChange.Reactivated? && e.report in db.reports && t.reportId == Some(e.report)
  }

  lemma ReportKeepsRemovedIff(db: Db, report: int, c: ReportChange)
    requires ReportChanged(db, report, c).Ok?
    ensures RemovedStay(db, ReportChanged(db, report, c).value)
            <==> !(c.Reactivated? && exists t :: t in db.transactions && t.deleted && t.reportId == Some(report))
  {
    var ts := db.transactions;
    if c.Reactivated? {
      if t :| t in ts && t.deleted && t.reportId == Some(report) {
        var i :| 0 <= i < |ts| && ts[i] == t;
        assert !Mapped(ts, ReportChangeOf(report, c))[i].deleted;
      }
    }
  }

  lemma ChangeKeepsRemoved(st: State, id: int, c: Change)
    ensures RemovedStay(st.db, Next(st, ChangeTransaction(id, c)).db)
  {
  }

  lemma OtherStepKeepsRows(st: State, e: Event)
    requires !e.ChangeTransaction? && !e.ChangeReport? && !e.AddTransaction?
    ensures Next(st, e).db.transactions == st.db.transactions
  {
  }

  /** A step keeps every removed transaction removed exactly when it is not the reactivation of a report that some
      removed transaction has. */
  lemma StepKeepsRemovedIff(st: State, e: Event)
    ensures RemovedStay(st.db, Next(st, e).db)
            <==> !exists t :: t in st.db.transactions && t.deleted && Restores(st.db, e, t)
  {
    match e
    case ChangeReport(report, c) =>
      if ReportChanged(st.db, report, c).Ok? { ReportKeepsRemovedIff(st.db, report, c); }
    case ChangeTransaction(id, c) => ChangeKeepsRemoved(st, id, c);
    case AddTransaction(user, id, data, now) =>
    case _ => OtherStepKeepsRows(st, e);
  }

  lemma RunFirst(st: State, e: Event, events: seq<Event>)
    ensures Run(st, [e] + events) == Run(Next(st, e), events)
  {
    assert ([e] + events)[1..] == events;
  }

  lemma RunThree(st: State, a: Event, b: Event, c: Event)
    ensures Run(st, [a, b, c]) == Next(Next(Next(st, a), b), c)
  {
    RunFirst(st, a, [b] + ([c] + []));
    RunFirst(Next(st, a), b, [c] + []);
    RunFirst(Next(Next(st, a), b), c, []);
    assert [a, b, c] == [a] + ([b] + ([c] + []));
  }

  lemma ChangedRow(st: State, c: Change, i: nat)
    requires i < |st.db.transactions| && TransactionChanged(st.db, st.db.transactions[i].id, c).Ok?
    ensures var next := Next(st, ChangeTransaction(st.db.transactions[i].id, c)).db;
            && |next.transactions| == |st.db.transactions| && next.reports == st.db.reports
            && next.transactions[i] == Changed(st.db.transactions[i], c)
  {
    assert st.db.transactions[i] in st.db.transactions;
    assert ChangeOf(st.db.transactions[i].id, c)(st.db.transactions[i]) == Changed(st.db.transactions[i], c);
  }

  lemma ReportChangedRow(st: State, report: int, i: nat)
    requires i < |st.db.transactions| && report in st.db.reports && st.db.transactions[i].reportId == Some(report)
    ensures var next := Next(st, ChangeReport(report, Reactivated)).db;
            && |next.transactions| == |st.db.transactions|
            && next.transactions[i] == st.db.transactions[i].(deleted := false)
  {
  }

  /** Edited onto a report, removed, and the report reactivated: the transaction is back. */
  lemma RemovedComesBack(st: State, report: int, i: nat)
    requires i < |st.db.transactions| && report in st.db.reports && report != 0
    ensures var t, onto := st.db.transactions[i], Edit(Patch(None, None, None, None, Some(report), None));
            var end := Run(st, [ChangeTransaction(t.id, onto), ChangeTransaction(t.id, Remove),
                                ChangeReport(report, Reactivated)]).db;
            && |end.transactions| == |st.db.transactions|
            && end.transactions[i] == t.(reportId := Some(report), deleted := false)
  {
    var t, onto := st.db.transactions[i], Edit(Patch(None, None, None, None, Some(report), None));
    var one := Next(st, ChangeTransaction(t.id, onto));
    var two := Next(one, ChangeTransaction(t.id, Remove));
    assert t in st.db.transactions;
    ChangedRow(st, onto, i);
    assert one.db.transactions[i] in one.db.transactions;
    ChangedRow(one, Remove, i);
    ReportChangedRow(two, report, i);
    RunThree(st, ChangeTransaction(t.id, onto), ChangeTransaction(t.id, Remove), ChangeReport(report, Reactivated));
  }

  // ---------------------------------------------------------------- one write per version

  /** The version v of the wallet is gone for good. */
  ghost predicate Outdated(db: Db, id: int, v: nat) {
    id < db.nextWallet && v <= db.clock && (id in db.wallets ==> db.wallets[id].updatedAt > v)
  }

  lemma StepKeepsOutdated(st: State, e: Event, id: int, v: nat)
    requires Outdated(st.db, id, v)
    ensures Outdated(Next(st, e).db, id, v)
  {
  }

  lemma {:induction false} RunKeepsOutdated(st: State, events: seq<Event>, id: int, v: nat)
    requires Outdated(st.db, id, v)
    ensures Outdated(Run(st, events).db, id, v)
    decreases |events|
  {
    if events != [] {
      StepKeepsOutdated(st, events[0], id, v);
      RunKeepsOutdated(Next(st, events[0]), events[1..], id, v);
    }
  }

  /** Of the updates and deletes that read the same version of a wallet at most one gets through, whatever any number of
      requests do in between. */
  lemma StaleWriteFails(db: Db, p: Pending, q: Pending, after: Db, sessions: map<int, Session>, events: seq<Event>)
    requires Fresh(db, p) && p.walletId == q.walletId && p.seen.updatedAt == q.seen.updatedAt
    requires WalletWritten(db, p.user, p.walletId, p.seen, p.employee) == Ok(after)
             || WalletDeleted(db, p.user, p.walletId, p.seen) == Ok(after)
    ensures var later := Run(State(after, sessions), events).db;
            WalletWritten(later, q.user, q.walletId, q.seen, q.employee).Err?
            && WalletDeleted(later, q.user, q.walletId, q.seen).Err?
  {
    assert Outdated(after, p.walletId, p.seen.updatedAt);
    RunKeepsOutdated(State(after, sessions), events, p.walletId, p.seen.updatedAt);
  }

  // ---------------------------------------------------------------- listing a wallet's transactions

  const BAGHDAD: int := 10_800_000

  /** Calendar days count from 1970-01-01; createdAt is in milliseconds. */
  datatype Filters = Filters(kind: Option<TransactionType>, approved: Option<bool>, startDay: Option<int>,
                             endDay: Option<int>,
                             targetBranchId: Option<int>, targetClientId: Option<int>)

  /** Midnight of a calendar day in Baghdad. */
  function DayStart(day: int): int {
    day * DAY - BAGHDAD
  }

  predicate PassesFilters(f: Filters, t: Transaction) {
    && !t.deleted
    && (f.kind.Some? ==> t.kind == f.kind.value)
    && (f.approved.Some? ==> t.approved == f.approved.value)
    && (f.targetBranchId.Some? ==> t.targetBranchId == f.targetBranchId)
    && (f.targetClientId.Some? ==> t.targetClientId == f.targetClientId)
    && (f.startDay.Some? ==> DayStart(f.startDay.value) <= t.createdAt)
    && (f.endDay.Some? ==> t.createdAt < DayStart(f.endDay.value + 1))
  }

  /** `transactionWhere`: also pins the company and branch the wallet has now. */
  predicate TransactionWhere(id: int, w: Wallet, f: Filters, t: Transaction) {
    t.walletId == id && t.companyId == w.companyId && t.branchId == w.branchId && PassesFilters(f, t)
  }

  function Matching(ts: seq<Transaction>, id: int, w: Wallet, f: Filters): seq<Transaction> {
    Select(ts, (t: Transaction) => TransactionWhere(id, w, f, t))
  }

  /** `getTransactionsExport`: every match, newest id first. */
  function Export(db: Db, id: int, w: Wallet, f: Filters): seq<Transaction> {
    Reversed(Matching(db.transactions, id, w, f))
  }

  datatype Page = Page(data: seq<Transaction>, count: nat, pagesCount: nat)

  /** `getTransactions`: page and size are at least 1. */
  function TransactionsPage(db: Db, id: int, w: Wallet, f: Filters, page: nat, size: nat): Page
    requires page > 0 && size > 0
  {
    var rows := Export(db, id, w, f);
    Page(Slice(rows, (page - 1) * size, size), |rows|, (|rows| + size - 1) / size)
  }

  ghost function Pages(db: Db, id: int, w: Wallet, f: Filters, size: nat, n: nat): seq<Transaction>
    requires size > 0
  {
    if n == 0 then [] else Pages(db, id, w, f, size, n - 1) + TransactionsPage(db, id, w, f, n, size).data
  }

  function Upto<T>(s: seq<T>, k: nat): seq<T> {
    if k <= |s| then s[..k] else s
  }

  lemma SliceExtends<T>(s: seq<T>, skip: nat, take: nat)
    ensures Upto(s, skip) + Slice(s, skip, take) == Upto(s, skip + take)
  {
  }

  ghost function Slices<T>(s: seq<T>, size: nat, n: nat): seq<T> {
    if n == 0 then [] else Slices(s, size, n - 1) + Slice(s, Times(n - 1, size), size)
  }

  function Times(n: nat, size: nat): nat {
    n * size
  }

  lemma TimesNext(n: nat, size: nat)
    requires n > 0
    ensures Times(n, size) == Times(n - 1, size) + size
  {
  }

  lemma {:induction false} SlicesAreAPrefix<T>(s: seq<T>, size: nat, n: nat)
    ensures Slices(s, size, n) == Upto(s, Times(n, size))
  {
    if n > 0 {
      SlicesAreAPrefix(s, size, n - 1);
      TimesNext(n, size);
      SliceExtends(s, Times(n - 1, size), size);
    }
  }

  lemma {:induction false} PagesAreSlices(db: Db, id: int, w: Wallet, f: Filters, size: nat, n: nat)
    requires size > 0
    ensures Pages(db, id, w, f, size, n) == Slices(Export(db, id, w, f), size, n)
  {
    if n > 0 { PagesAreSlices(db, id, w, f, size, n - 1); }
  }

  lemma LastPageCovers(count: nat, size: nat, page: nat)
    requires size > 0
    ensures var n := (count + size - 1) / size; n * size >= count && (page > n ==> (page - 1) * size >= count)
  {
    var n := (count + size - 1) / size;
    assert count + size - 1 == n * size + (count + size - 1) % size;
    if page > n {
      assert (page - 1) * size >= n * size by {
        MulMonotone(n, page - 1, size);
      }
    }
  }

  lemma MulMonotone(a: nat, b: nat, c: nat)
    requires a <= b
    ensures a * c <= b * c
  {
    assert b * c == a * c + (b - a) * c;
  }

  lemma LastPrefix(db: Db, id: int, w: Wallet, f: Filters, size: nat, n: nat)
    requires size > 0 && n * size >= |Export(db, id, w, f)|
    ensures Pages(db, id, w, f, size, n) == Export(db, id, w, f)
  {
    var rows := Export(db, id, w, f);
    PagesAreSlices(db, id, w, f, size, n);
    SlicesAreAPrefix(rows, size, n);
    assert rows[..|rows|] == rows;
  }

  lemma LastPageIsNeeded(db: Db, id: int, w: Wallet, f: Filters, size: nat)
    requires size > 0
    ensures var page := TransactionsPage(db, id, w, f, 1, size);
            && page.count == |Export(db, id, w, f)|
            && (page.pagesCount > 0 ==> TransactionsPage(db, id, w, f, page.pagesCount, size).data != [])
  {
    var count := |Export(db, id, w, f)|;
    LastSkip(count, size);
  }

  lemma LastSkip(count: nat, size: nat)
    requires size > 0
    ensures var n := (count + size - 1) / size; n > 0 ==> (n - 1) * size < count
  {
    var n := (count + size - 1) / size;
    assert count + size - 1 == n * size + (count + size - 1) % size;
    if n > 0 { assert n * size == (n - 1) * size + size; }
  }

  /** For every wallet, filters and size, pages 1 to pagesCount are the export list cut in order, and later pages are
      empty. */
  lemma PagesPartitionExport(db: Db, id: int, w: Wallet, f: Filters, size: nat, later: nat)
    requires size > 0
    ensures var n := TransactionsPage(db, id, w, f, 1, size).pagesCount;
            && Pages(db, id, w, f, size, n) == Export(db, id, w, f)
            && (later > n ==> TransactionsPage(db, id, w, f, later, size).data == [])
  {
    var count := |Export(db, id, w, f)|;
    LastPageCovers(count, size, later);
    LastPrefix(db, id, w, f, size, (count + size - 1) / size);
  }

  ghost predicate Descending(ts: seq<Transaction>) {
    forall i, j | 0 <= i < j < |ts| :: ts[i].id > ts[j].id
  }

  /** The listing is in strictly descending id order, so it repeats nothing, and holds what the condition selects. */
  lemma ExportSelects(db: Db, id: int, w: Wallet, f: Filters)
    requires IdsAscend(db)
    ensures var rows := Export(db, id, w, f);
            Descending(rows) && forall t :: t in rows <==> t in db.transactions && TransactionWhere(id, w, f, t)
  {
    var p := (t: Transaction) => TransactionWhere(id, w, f, t);
    var found := Matching(db.transactions, id, w, f);
    SelectPairwise(db.transactions, p, (t: Transaction, u: Transaction) => t.id < u.id);
    ReversedMembers(found);
    forall t ensures t in Export(db, id, w, f) <==> t in db.transactions && TransactionWhere(id, w, f, t) {
      SelectMembers(db.transactions, p, t);
      if t in found {
        var k :| 0 <= k < |found| && found[k] == t;
        assert Export(db, id, w, f)[|found| - 1 - k] == t;
      }
    }
  }

  /** Which transactions a wallet's list holds, column by column; whole days are days in Baghdad, three hours ahead. */
  lemma ExportColumns(db: Db, id: int, w: Wallet, f: Filters, t: Transaction)
    requires IdsAscend(db)
    ensures t in Export(db, id, w, f)
            <==> && t in db.transactions && t.walletId == id && t.companyId == w.companyId && t.branchId == w.branchId
                 && !t.deleted
                 && (f.kind.None? || f.kind.value == t.kind) && (f.approved.None? || f.approved.value == t.approved)
                 && (f.targetBranchId.None? || t.targetBranchId == f.targetBranchId)
                 && (f.targetClientId.None? || t.targetClientId == f.targetClientId)
                 && (f.startDay.None? || t.createdAt + 10_800_000 >= f.startDay.value * 86_400_000)
                 && (f.endDay.None? || t.createdAt + 10_800_000 < (f.endDay.value + 1) * 86_400_000)
  {
    ExportSelects(db, id, w, f);
    assert t in Export(db, id, w, f) <==> t in db.transactions && TransactionWhere(id, w, f, t);
    assert f.startDay.Some? ==> DayStart(f.startDay.value) == f.startDay.value * 86_400_000 - 10_800_000;
    assert f.endDay.Some? ==> DayStart(f.endDay.value + 1) == (f.endDay.value + 1) * 86_400_000 - 10_800_000;
  }

  /** Pinning company and branch hides none of the wallet's transactions that pass the filters. */
  ghost predicate HidesNothing(db: Db, id: int, f: Filters)
    requires id in db.wallets
  {
    forall t :: t in Export(db, id, db.wallets[id], f)
                <==> t in db.transactions && t.walletId == id && PassesFilters(f, t)
  }

  // ---------------------------------------------------------------- what edits do to the listing

  /** The branches and employees that edits gave to transactions, the latest one per transaction. */
  datatype Ledger = Ledger(branches: map<int, int>, employees: map<int, int>)

  ghost function NextLedger(st: State, l: Ledger, e: Event): Ledger {
    if !(e.ChangeTransaction? && e.change.Edit? && TransactionChanged(st.db, e.transactionId, e.change).Ok?) then l
    else
      var p := e.change.patch;
      Ledger(if Truthy(p.branchID) then l.branches[e.transactionId := p.branchID.value] else l.branches,
             if Truthy(p.employeeID) then l.employees[e.transactionId := p.employeeID.value] else l.employees)
  }

  ghost function RunLedger(st: State, l: Ledger, events: seq<Event>): Ledger
    decreases |events|
  {
    if events == [] then l else RunLedger(Next(st, events[0]), NextLedger(st, l, events[0]), events[1..])
  }

  /** A transaction has its wallet's branch and employee unless an edit gave it another. */
  ghost predicate Accounted(t: Transaction, w: Wallet, l: Ledger) {
    && t.branchId == (if t.id in l.branches then l.branches[t.id] else w.branchId)
    && t.employeeId == (if t.id in l.employees then Some(l.employees[t.id]) else w.employeeId)
  }

  ghost predicate AllAccounted(db: Db, l: Ledger) {
    && (forall t | t in db.transactions :: t.walletId in db.wallets && Accounted(t, db.wallets[t.walletId], l))
    && (forall id | id in l.branches :: id < db.nextTransaction)
    && (forall id | id in l.employees :: id < db.nextTransaction)
  }

  lemma MappedAccounted(db: Db, m: Transaction -> Transaction, reports: set<int>, l: Ledger, next: Ledger)
    requires AllAccounted(db, l)
    requires next.branches.Keys + next.employees.Keys
             <= l.branches.Keys + l.employees.Keys + (set t | t in db.transactions :: t.id)
    requires forall t | t in db.transactions :: t.id < db.nextTransaction
    requires forall t, w | t in db.transactions && Accounted(t, w, l) ::
      m(t).walletId == t.walletId && Accounted(m(t), w, next)
    ensures AllAccounted(db.(transactions := Mapped(db.transactions, m), reports := reports), next)
  {
    var ts, rows := db.transactions, Mapped(db.transactions, m);
    forall t | t in rows ensures t.walletId in db.wallets && Accounted(t, db.wallets[t.walletId], next) {
      var i :| 0 <= i < |rows| && rows[i] == t;
      assert ts[i] in ts && Accounted(ts[i], db.wallets[ts[i].walletId], l);
    }
    forall id | id in next.branches || id in next.employees ensures id < db.nextTransaction {
      assert id in next.branches.Keys + next.employees.Keys;
    }
  }

  lemma RowAccounted(st: State, l: Ledger, id: int, c: Change, t: Transaction, w: Wallet)
    requires Accounted(t, w, l) && TransactionChanged(st.db, id, c).Ok?
    ensures ChangeOf(id, c)(t).walletId == t.walletId
    ensures Accounted(ChangeOf(id, c)(t), w, NextLedger(st, l, ChangeTransaction(id, c)))
  {
  }

  lemma ChangeAccounted(st: State, l: Ledger, id: int, c: Change)
    requires Inv(st) && AllAccounted(st.db, l) && TransactionChanged(st.db, id, c).Ok?
    ensures AllAccounted(TransactionChanged(st.db, id, c).value, NextLedger(st, l, ChangeTransaction(id, c)))
  {
    var next := NextLedger(st, l, ChangeTransaction(id, c));
    forall t, w | t in st.db.transactions && Accounted(t, w, l)
      ensures ChangeOf(id, c)(t).walletId == t.walletId && Accounted(ChangeOf(id, c)(t), w, next)
    {
      RowAccounted(st, l, id, c, t, w);
    }
    var changed :| changed in st.db.transactions && changed.id == id;
    MappedAccounted(st.db, ChangeOf(id, c), st.db.reports, l, next);
  }

  lemma ReportChangeAccounted(st: State, l: Ledger, report: int, c: ReportChange)
    requires Inv(st) && AllAccounted(st.db, l) && ReportChanged(st.db, report, c).Ok?
    ensures AllAccounted(ReportChanged(st.db, report, c).value, l)
  {
    MappedAccounted(st.db, ReportChangeOf(report, c), ReportChanged(st.db, report, c).value.reports, l, l);
  }

  lemma OtherStepAccounted(st: State, l: Ledger, e: Event)
    requires Inv(st) && AllAccounted(st.db, l) && !e.ChangeTransaction? && !e.ChangeReport? && !e.AddTransaction?
    ensures AllAccounted(Next(st, e).db, l)
  {
    StepSafe(st, e);
    OtherStepKeepsRows(st, e);
  }

  lemma StepAccounted(st: State, l: Ledger, e: Event)
    requires Inv(st) && AllAccounted(st.db, l)
    ensures AllAccounted(Next(st, e).db, NextLedger(st, l, e))
  {
    match e
    case ChangeTransaction(id, c) => if TransactionChanged(st.db, id, c).Ok? { ChangeAccounted(st, l, id, c); }
    case ChangeReport(report, c) => if ReportChanged(st.db, report, c).Ok? { ReportChangeAccounted(st, l, report, c); }
    case AddTransaction(user, id, data, now) =>
    case _ => OtherStepAccounted(st, l, e);
  }

  lemma {:induction false} RunAccounted(st: State, l: Ledger, events: seq<Event>)
    requires Inv(st) && AllAccounted(st.db, l)
    ensures Inv(Run(st, events)) && AllAccounted(Run(st, events).db, RunLedger(st, l, events))
    decreases |events|
  {
    if events != [] {
      StepSafe(st, events[0]);
      StepAccounted(st, l, events[0]);
      RunAccounted(Next(st, events[0]), NextLedger(st, l, events[0]), events[1..]);
    }
  }

  const NO_FILTERS := Filters(None, None, None, None, None, None)

  /** Every transaction of the wallet that is not removed was last edited into the wallet's own branch, if into any. */
  ghost predicate EditsStayHome(db: Db, id: int, l: Ledger)
    requires id in db.wallets
  {
    forall t | t in db.transactions && t.walletId == id && !t.deleted ::
      t.id in l.branches ==> l.branches[t.id] == db.wallets[id].branchId
  }

  lemma HidesNothingIff(st: State, l: Ledger, id: int)
    requires Inv(st) && AllAccounted(st.db, l) && id in st.db.wallets
    ensures (forall f :: HidesNothing(st.db, id, f)) <==> EditsStayHome(st.db, id, l)
  {
    var w := st.db.wallets[id];
    if EditsStayHome(st.db, id, l) {
      forall f ensures HidesNothing(st.db, id, f) {
        ExportSelects(st.db, id, w, f);
      }
    } else {
      var t :| t in st.db.transactions && t.walletId == id && !t.deleted && t.id in l.branches
               && l.branches[t.id] != w.branchId;
      ExportSelects(st.db, id, w, NO_FILTERS);
      assert t !in Export(st.db, id, w, NO_FILTERS) && PassesFilters(NO_FILTERS, t);
      assert !HidesNothing(st.db, id, NO_FILTERS);
    }
  }

  /** After any run from the empty table, or from any state without edits, a wallet's listings are descending, and they
      hide nothing, whatever the filters, exactly when the edits of the run kept its transactions in its branch. */
  lemma ExportHidesNothingIff(st: State, events: seq<Event>, id: int)
    requires Inv(st) && AllAccounted(st.db, Ledger(map[], map[])) && id in Run(st, events).db.wallets
    ensures var end := Run(st, events).db;
            && (forall f :: Descending(Export(end, id, end.wallets[id], f)))
            && ((forall f :: HidesNothing(end, id, f))
                <==> EditsStayHome(end, id, RunLedger(st, Ledger(map[], map[]), events)))
  {
    var end := Run(st, events);
    RunAccounted(st, Ledger(map[], map[]), events);
    HidesNothingIff(end, RunLedger(st, Ledger(map[], map[]), events), id);
    forall f ensures Descending(Export(end.db, id, end.db.wallets[id], f)) {
      ExportSelects(end.db, id, end.db.wallets[id], f);
    }
  }

  /** An edited transaction of the wallet is listed exactly when it still passes the filters and was not given another
      branch than the wallet's. */
  lemma EditedTransactionListedIff(w: Wallet, id: int, f: Filters, t: Transaction, p: Patch)
    requires t.walletId == id && t.companyId == w.companyId && t.branchId == w.branchId
    ensures TransactionWhere(id, w, f, Changed(t, Edit(p)))
            <==> PassesFilters(f, Changed(t, Edit(p))) && (Truthy(p.branchID) ==> p.branchID.value == w.branchId)
  {
  }

  /** Two adjacent date ranges share no transaction and together list those of the range that spans them. */
  lemma DateRangesSplit(db: Db, id: int, w: Wallet, f: Filters, mid: int)
    requires f.startDay.Some? && f.endDay.Some? && f.startDay.value <= mid < f.endDay.value
    ensures var first, second := f.(endDay := Some(mid)), f.(startDay := Some(mid + 1));
            && (forall t :: TransactionWhere(id, w, f, t)
                  <==> TransactionWhere(id, w, first, t) || TransactionWhere(id, w, second, t))
            && (forall t :: !(TransactionWhere(id, w, first, t) && TransactionWhere(id, w, second, t)))
            && |Matching(db.transactions, id, w, f)|
               == |Matching(db.transactions, id, w, first)| + |Matching(db.transactions, id, w, second)|
  {
    var first, second := f.(endDay := Some(mid)), f.(startDay := Some(mid + 1));
    SelectSplits(db.transactions, (t: Transaction) => TransactionWhere(id, w, first, t),
               (t: Transaction) => TransactionWhere(id, w, second, t),
               (t: Transaction) => TransactionWhere(id, w, f, t));
  }
}
