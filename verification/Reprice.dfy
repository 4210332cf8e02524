/** The batch re-pricer (src/lib/recomputeOrderProfits.ts): one keyset pass that recomputes the three
    branch nets from preloaded price lists, and exactly when it agrees with the per-order lookup. */
module Reprice {
  import opened Schema
  import opened Sums
  import opened Keyset
  import Pricing

  const BATCH_SIZE: nat := 500

  datatype Nets = Nets(inside: Money, forwarded: Money, receiving: Money)

  /** Here a missing order branch and a missing client branch are both null, hence equal. */
  function RepricedNets(t: Pricing.Tables, o: Order): Nets {
    var cb := ClientBranch(t.clients, o);
    var orderBranch := if Truthy(o.branchId) then o.branchId else None;
    if o.branchId == cb then Nets(o.deliveryCost - Pricing.AgentCost(t, o), 0.0, 0.0)
    else if o.forwarded && Truthy(o.forwardedFromId) then
      Nets(0.0, FindCost(Pricing.CompanyList(t, o.forwardedFromId), o.governorate),
           FindCost(Pricing.ForwardedList(t, orderBranch), o.governorate))
    else
      Nets(0.0, FindCost(Pricing.ReceivingList(t, if Truthy(cb) then cb else None), o.governorate),
           FindCost(Pricing.ForwardedList(t, orderBranch), o.governorate))
  }

  function Repriced(t: Pricing.Tables, o: Order): Order {
    var n := RepricedNets(t, o);
    o.(insideBranchNet := n.inside, forwardedBranchNet := n.forwarded, receivingBranchNet := n.receiving)
  }

  /** The script's WHERE clause. */
  predicate Matches(t: Pricing.Tables, from: int, o: Order) {
    && !o.deleted && o.deliveriedAt.Some? && o.deliveriedAt.value >= from
    && (ClientBranch(t.clients, o) == Some(209) || ClientBranch(t.clients, o) == Some(156))
    && o.companyId == 16
  }

  function MatchingIds(t: Pricing.Tables, from: int, index: seq<string>, rows: map<string, Order>): seq<string> {
    if index == [] then []
    else if index[0] in rows && Matches(t, from, rows[index[0]])
    then [index[0]] + MatchingIds(t, from, index[1..], rows)
    else MatchingIds(t, from, index[1..], rows)
  }

  lemma {:induction false} MatchingMembers(t: Pricing.Tables, from: int, index: seq<string>, rows: map<string, Order>,
                                           id: string)
    ensures id in MatchingIds(t, from, index, rows) <==> id in index && id in rows && Matches(t, from, rows[id])
  {
    if index != [] {
      MatchingMembers(t, from, index[1..], rows, id);
      assert id in index <==> id == index[0] || id in index[1..];
    }
  }

  lemma {:induction false} MatchingAscends(lt: (string, string) -> bool, t: Pricing.Tables, from: int,
                                           index: seq<string>, rows: map<string, Order>)
    requires Ascending(lt, index)
    ensures Ascending(lt, MatchingIds(t, from, index, rows))
  {
    if index != [] {
      var rest := index[1..];
      MatchingAscends(lt, t, from, rest, rows);
      forall id | id in MatchingIds(t, from, rest, rows) ensures lt(index[0], id) {
        MatchingMembers(t, from, rest, rows, id);
        var k :| 0 <= k < |rest| && rest[k] == id;
        assert index[k + 1] == id;
      }
    }
  }

  lemma {:induction false} MatchingUnchanged(t: Pricing.Tables, from: int, index: seq<string>, a: map<string, Order>,
                                             b: map<string, Order>)
    requires a.Keys == b.Keys
    requires forall id | id in a :: Matches(t, from, a[id]) == Matches(t, from, b[id])
    ensures MatchingIds(t, from, index, a) == MatchingIds(t, from, index, b)
  {
    if index != [] { MatchingUnchanged(t, from, index[1..], a, b); }
  }

  /** The stored orders and the ascending listing of their ids that the database keeps. */
  class OrderTable {
    var index: seq<string>
    var rows: map<string, Order>

    ghost predicate Valid(lt: (string, string) -> bool)
      reads this
    {
      Ascending(lt, index) && forall id :: id in rows <==> id in index
    }
  }

  ghost predicate RepricedUpTo(t: Pricing.Tables, before: map<string, Order>, after: map<string, Order>,
                               done: seq<string>) {
    && after.Keys == before.Keys
    && forall id | id in before :: after[id] == if id in done then Repriced(t, before[id]) else before[id]
  }

  /** The inner loop: the orders of one page, one after the other. */
  method RepricePage(t: Pricing.Tables, table: OrderTable, page: seq<string>, dryRun: bool)
    requires Distinct(page) && forall id | id in page :: id in table.rows
    modifies table`rows
    ensures RepricedUpTo(t, old(table.rows), table.rows, if dryRun then [] else page)
  {
    for i := 0 to |page|
      invariant RepricedUpTo(t, old(table.rows), table.rows, if dryRun then [] else page[..i])
    {
      var id := page[i];
      if !dryRun {
        assert id !in page[..i];
        table.rows := table.rows[id := Repriced(t, table.rows[id])];
      }
      assert page[..i + 1] == page[..i] + [id];
    }
    assert page[..|page|] == page;
  }

  /** A page on top of the pages already written. */
  method RepriceNextPage(t: Pricing.Tables, table: OrderTable, page: seq<string>, dryRun: bool,
                         ghost before: map<string, Order>, ghost visited: seq<string>)
    requires Distinct(page) && forall id | id in page :: id in before && id !in visited
    requires RepricedUpTo(t, before, table.rows, if dryRun then [] else visited)
    modifies table`rows
    ensures RepricedUpTo(t, before, table.rows, if dryRun then [] else visited + page)
  {
    ghost var mid := table.rows;
    RepricePage(t, table, page, dryRun);
    RepricedInSteps(t, before, mid, table.rows, if dryRun then [] else visited, if dryRun then [] else page);
  }

  lemma RepricedInSteps(t: Pricing.Tables, a: map<string, Order>, b: map<string, Order>, c: map<string, Order>,
                        done: seq<string>, page: seq<string>)
    requires RepricedUpTo(t, a, b, done) && RepricedUpTo(t, b, c, page)
    requires forall id | id in page :: id !in done
    ensures RepricedUpTo(t, a, c, done + page)
  {
  }

  lemma AscendingIsDistinct(lt: (string, string) -> bool, ids: seq<string>)
    requires TextOrder(lt) && Ascending(lt, ids)
    ensures Distinct(ids)
  {
    forall i, j | 0 <= i < j < |ids| ensures ids[i] != ids[j] {
      assert lt(ids[i], ids[j]);
    }
  }

  /** Repricing does not change which orders match. */
  lemma StillMatching(t: Pricing.Tables, from: int, index: seq<string>, a: map<string, Order>, b: map<string, Order>,
                      done: seq<string>)
    requires RepricedUpTo(t, a, b, done)
    ensures MatchingIds(t, from, index, b) == MatchingIds(t, from, index, a)
  {
    MatchingUnchanged(t, from, index, a, b);
  }

  /** The outer loop, over rows on which keyset paging resumes properly. */
  method RepriceLoop(lt: (string, string) -> bool, t: Pricing.Tables, table: OrderTable, from: int, dryRun: bool)
    returns (visited: seq<string>, scanned: nat, changed: nat)
    requires Pages(lt, MatchingIds(t, from, table.index, table.rows), BATCH_SIZE)
    requires Distinct(MatchingIds(t, from, table.index, table.rows))
    modifies table`rows
    ensures visited == MatchingIds(t, from, table.index, old(table.rows))
    ensures scanned == |visited| && changed == |visited|
    ensures RepricedUpTo(t, old(table.rows), table.rows, if dryRun then [] else visited)
  {
    ghost var before := table.rows;
    ghost var ids := MatchingIds(t, from, table.index, before);
    var cursor: Option<string> := None;
    visited, scanned, changed := [], 0, 0;
    while true
      invariant scanned == changed <= |ids| && visited == ids[..scanned]
      invariant After(lt, ids, cursor) == ids[scanned..]
      invariant RepricedUpTo(t, before, table.rows, if dryRun then [] else visited)
      decreases |ids| - scanned
    {
      StillMatching(t, from, table.index, before, table.rows, if dryRun then [] else visited);
      var page := Fetch(lt, MatchingIds(t, from, table.index, table.rows), cursor, BATCH_SIZE);
      if |page| == 0 { break; }
      ghost var end := PageEnd(ids, scanned, BATCH_SIZE);
      assert page == ids[scanned..end] && After(lt, ids, Some(ids[end - 1])) == ids[end..] by {
        assert Resumes(lt, ids, cursor, scanned, BATCH_SIZE);
      }
      PageOf(t, from, table.index, before, scanned, end);
      RepriceNextPage(t, table, page, dryRun, before, visited);
      visited := visited + page;
      cursor := Some(page[|page| - 1]);
      scanned := scanned + |page|;
      changed := changed + |page|;
    }
  }

  /** Every matching order is repriced exactly once, in id order, and nothing else changes; a dry run writes nothing.
      The excluded table is the one on which the script never ends (Keyset.TerminatesIff). */
  method Recompute(lt: (string, string) -> bool, t: Pricing.Tables, table: OrderTable, from: int, dryRun: bool)
    returns (visited: seq<string>, scanned: nat, changed: nat)
    requires TextOrder(lt) && table.Valid(lt)
    requires MatchingIds(t, from, table.index, table.rows) != [""]
    modifies table`rows
    ensures table.Valid(lt)
    ensures visited == MatchingIds(t, from, table.index, old(table.rows)) && Distinct(visited)
    ensures scanned == |visited| && changed == |visited|
    ensures RepricedUpTo(t, old(table.rows), table.rows, if dryRun then [] else visited)
  {
    ghost var ids := MatchingIds(t, from, table.index, table.rows);
    MatchingAscends(lt, t, from, table.index, table.rows);
    AscendingIsDistinct(lt, ids);
    KeysetPages(lt, ids, BATCH_SIZE);
    visited, scanned, changed := RepriceLoop(lt, t, table, from, dryRun);
  }

  /** A page is made of stored ids none of which was visited before. */
  lemma PageOf(t: Pricing.Tables, from: int, index: seq<string>, rows: map<string, Order>, lo: nat, hi: nat)
    requires lo <= hi <= |MatchingIds(t, from, index, rows)|
    requires Distinct(MatchingIds(t, from, index, rows))
    ensures var ids := MatchingIds(t, from, index, rows);
            && Distinct(ids[lo..hi])
            && (forall id | id in ids[lo..hi] :: id in rows && id !in ids[..lo])
            && ids[..lo] + ids[lo..hi] == ids[..hi]
  {
    var ids := MatchingIds(t, from, index, rows);
    forall id | id in ids[lo..hi] ensures id in rows {
      MatchingMembers(t, from, index, rows, id);
    }
  }

  // ---------------------------------------------------------------- agreement with getProfits

  ghost predicate Agree(t: Pricing.Tables, o: Order) {
    var p := Pricing.ProfitsOf(t, o);
    p.Ok? && RepricedNets(t, o) == Nets(p.value.insideProfit, p.value.forwardedProfit, p.value.receivingBranchNet)
  }

  /** Price tables in which the order's client sits in branch cb and has, or has not, an active row for the order. */
  ghost predicate Fits(t: Pricing.Tables, o: Order, cb: int, activeRow: bool) {
    && o.clientId in t.clients && t.clients[o.clientId].branchId == Some(cb)
    && Pricing.ProfitRow(t, o).Some? == activeRow
  }

  /** The shapes on which no price list can make the two disagree. */
  predicate SameRule(o: Order, cb: int, activeRow: bool) {
    || o.branchId == Some(cb)
    || (if Pricing.ForwardedByOther(o) then o.branchId.Some?
        else !activeRow && !(o.forwarded && Truthy(o.forwardedFromId)))
  }

  /** Price tables that tell the two apart wherever their rules differ. */
  ghost function Separating(o: Order, cb: int, activeRow: bool): Pricing.Tables {
    var row := BranchCost(if o.branchId.Some? then o.branchId.value else cb, 1.0, 0.0, 0.0, 0.0);
    Pricing.Tables(
      map[o.clientId := Client(Some(cb), activeRow, [], if activeRow then [row] else [])],
      map[],
      if o.forwardedFromId.Some? then map[o.forwardedFromId.value := [CostEntry(o.governorate, 2.0)]] else map[],
      map[])
  }

  /** The batch and the per-order lookup give the same three nets under every price list exactly on the shapes
      of SameRule: the order has a branch when another company forwarded it, and otherwise was not forwarded and has
      no active row. */
  lemma RepricerAgreesIff(o: Order, cb: int, activeRow: bool)
    requires cb > 0 && (o.branchId.Some? ==> o.branchId.value > 0)
    ensures (forall t: Pricing.Tables | Fits(t, o, cb, activeRow) :: Agree(t, o)) <==> SameRule(o, cb, activeRow)
  {
    if !SameRule(o, cb, activeRow) {
      var t := Separating(o, cb, activeRow);
      assert Fits(t, o, cb, activeRow);
      assert !Agree(t, o);
    }
  }

  // ---------------------------------------------------------------- in the columns of the tables

  /** Which orders the script reprices: live ones of company 16, delivered since `from`, of clients of branch 209 or
      156. */
  lemma MatchesColumns(t: Pricing.Tables, from: int, o: Order)
    ensures Matches(t, from, o)
            <==> && !o.deleted && o.companyId == 16 && o.deliveriedAt.Some? && o.deliveriedAt.value >= from
                 && o.clientId in t.clients && t.clients[o.clientId].branchId in {Some(209), Some(156)}
  {
  }

  /** The nets the script writes. Two missing branches are equal here, and the forwarding company may be the order's
      own. */
  lemma RepricedColumns(t: Pricing.Tables, o: Order)
    ensures var row := Repriced(t, o);
            var home := if o.clientId in t.clients then t.clients[o.clientId].branchId else None;
            var branch := if Truthy(o.branchId) then o.branchId else None;
            && row == o.(insideBranchNet := row.insideBranchNet, forwardedBranchNet := row.forwardedBranchNet,
                         receivingBranchNet := row.receivingBranchNet)
            && if o.branchId == home then
                 && row.forwardedBranchNet == 0.0 && row.receivingBranchNet == 0.0
                 && Pricing.AgentPrice(t, o.deliveryAgentId, o.deliveryCost - row.insideBranchNet)
               else
                 && row.insideBranchNet == 0.0
                 && Pricing.ForwardedPrice(t, branch, o.governorate, row.receivingBranchNet)
                 && if o.forwarded && Truthy(o.forwardedFromId) then
                      PricedAt(if o.forwardedFromId.value in t.companyCosts then t.companyCosts[o.forwardedFromId.value]
                               else [], o.governorate, row.forwardedBranchNet)
                    else
                      Pricing.ReceivingPrice(t, if Truthy(home) then home else None, o.governorate,
                                              row.forwardedBranchNet)
  {
    var home, branch := ClientBranch(t.clients, o), if Truthy(o.branchId) then o.branchId else None;
    FindCostIsFirst(Pricing.ForwardedList(t, branch), o.governorate);
    FindCostIsFirst(Pricing.ReceivingList(t, if Truthy(home) then home else None), o.governorate);
    FindCostIsFirst(Pricing.CompanyList(t, o.forwardedFromId), o.governorate);
  }
}
