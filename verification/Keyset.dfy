/** Keyset paging by order id, as the two maintenance scripts do it (src/lib/backfillReportFlags.ts,
    src/lib/recomputeOrderProfits.ts): fetch the next ids after the cursor in id order, until a fetch is empty. */
module Keyset {
  import opened Schema

  /** The database's ordering of text ids: any strict order that puts the empty string first. */
  ghost predicate TextOrder(lt: (string, string) -> bool) {
    && (forall x: string :: !lt(x, x))
    && (forall x: string, y: string, z: string :: lt(x, y) && lt(y, z) ==> lt(x, z))
    && (forall x: string :: x != "" ==> lt("", x))
  }

  ghost predicate Ascending(lt: (string, string) -> bool, ids: seq<string>) {
    forall i, j :: 0 <= i < j < |ids| ==> lt(ids[i], ids[j])
  }

  function Above(lt: (string, string) -> bool, ids: seq<string>, c: string): seq<string> {
    if ids == [] then []
    else if lt(c, ids[0]) then [ids[0]] + Above(lt, ids[1..], c)
    else Above(lt, ids[1..], c)
  }

  /** The rows of one fetch before its limit: the cursor only counts when it is truthy, so "" does not. */
  function After(lt: (string, string) -> bool, ids: seq<string>, cursor: Option<string>): seq<string> {
    if cursor.Some? && cursor.value != "" then Above(lt, ids, cursor.value) else ids
  }

  function Fetch(lt: (string, string) -> bool, ids: seq<string>, cursor: Option<string>, size: nat): seq<string> {
    var rows := After(lt, ids, cursor);
    if |rows| <= size then rows else rows[..size]
  }

  lemma {:induction false} AboveNone(lt: (string, string) -> bool, ids: seq<string>, c: string)
    requires forall i | 0 <= i < |ids| :: !lt(c, ids[i])
    ensures Above(lt, ids, c) == []
  {
    if ids != [] { AboveNone(lt, ids[1..], c); }
  }

  lemma {:induction false} AboveAll(lt: (string, string) -> bool, ids: seq<string>, c: string)
    requires forall i | 0 <= i < |ids| :: lt(c, ids[i])
    ensures Above(lt, ids, c) == ids
  {
    if ids != [] { AboveAll(lt, ids[1..], c); }
  }

  lemma {:induction false} AboveSplit(lt: (string, string) -> bool, a: seq<string>, b: seq<string>, c: string)
    ensures Above(lt, a + b, c) == Above(lt, a, c) + Above(lt, b, c)
  {
    if a == [] {
      assert a + b == b;
    } else {
      assert (a + b)[1..] == a[1..] + b;
      AboveSplit(lt, a[1..], b, c);
    }
  }

  /** A truthy cursor resumes right behind the row it names. */
  lemma AfterRow(lt: (string, string) -> bool, ids: seq<string>, k: nat)
    requires TextOrder(lt) && Ascending(lt, ids)
    requires k < |ids| && ids[k] != ""
    ensures After(lt, ids, Some(ids[k])) == ids[k + 1..]
  {
    var c := ids[k];
    assert ids == ids[..k + 1] + ids[k + 1..];
    AboveSplit(lt, ids[..k + 1], ids[k + 1..], c);
    forall i | 0 <= i <= k ensures !lt(c, ids[i]) {
      if i < k { assert lt(ids[i], c); }
    }
    AboveNone(lt, ids[..k + 1], c);
    AboveAll(lt, ids[k + 1..], c);
  }

  /** Only the first row can have the empty id. */
  lemma EmptyIdIsFirst(lt: (string, string) -> bool, ids: seq<string>, k: nat)
    requires TextOrder(lt) && Ascending(lt, ids) && 0 < k < |ids|
    ensures ids[k] != ""
  {
    assert lt(ids[0], ids[k]);
    assert ids[0] == "" || lt("", ids[0]);
  }

  function PageEnd(ids: seq<string>, done: nat, size: nat): nat {
    if done + size <= |ids| then done + size else |ids|
  }

  /** The fetch behind the first `done` rows returns the next page, and its last id resumes right after it. */
  ghost predicate Resumes(lt: (string, string) -> bool, ids: seq<string>, cursor: Option<string>, done: nat, size: nat)
    requires done < |ids| && size > 0
  {
    var end := PageEnd(ids, done, size);
    && Fetch(lt, ids, cursor, size) == ids[done..end]
    && After(lt, ids, Some(ids[end - 1])) == ids[end..]
  }

  /** A script over pages of at least two rows goes on from any page end, unless "" is the only row. */
  lemma PageResumes(lt: (string, string) -> bool, ids: seq<string>, cursor: Option<string>, done: nat, size: nat)
    requires TextOrder(lt) && Ascending(lt, ids) && ids != [""]
    requires done < |ids| && size >= 2 && After(lt, ids, cursor) == ids[done..]
    ensures Resumes(lt, ids, cursor, done, size)
  {
    var end := PageEnd(ids, done, size);
    if end > 1 {
      EmptyIdIsFirst(lt, ids, end - 1);
    } else {
      assert ids == [ids[0]];
    }
    AfterRow(lt, ids, end - 1);
  }

  /** Every fetch of a script over these rows resumes where the last one ended. */
  ghost predicate Pages(lt: (string, string) -> bool, ids: seq<string>, size: nat) {
    size > 0 && forall cursor, d: nat {:trigger Resumes(lt, ids, cursor, d, size)} |
                  d < |ids| && After(lt, ids, cursor) == ids[d..] :: Resumes(lt, ids, cursor, d, size)
  }

  /** One turn of such a script. */
  lemma NextPage(lt: (string, string) -> bool, ids: seq<string>, cursor: Option<string>, done: nat, size: nat)
    requires Pages(lt, ids, size) && done <= |ids| && After(lt, ids, cursor) == ids[done..]
    ensures var page := Fetch(lt, ids, cursor, size);
            && (page == [] ==> done == |ids|)
            && (page != [] ==>
                  && done + |page| <= |ids| && ids[..done] + page == ids[..done + |page|]
                  && After(lt, ids, Some(page[|page| - 1])) == ids[done + |page|..])
  {
    if done < |ids| {
      assert Resumes(lt, ids, cursor, done, size);
    }
  }

  lemma KeysetPages(lt: (string, string) -> bool, ids: seq<string>, size: nat)
    requires TextOrder(lt) && Ascending(lt, ids) && ids != [""] && size >= 2
    ensures Pages(lt, ids, size)
  {
    forall cursor, d: nat | d < |ids| && After(lt, ids, cursor) == ids[d..] ensures Resumes(lt, ids, cursor, d, size) {
      PageResumes(lt, ids, cursor, d, size);
    }
  }

  /** The cursor after n fetches, or None once a fetch came back empty. */
  ghost function CursorAfter(lt: (string, string) -> bool, ids: seq<string>, size: nat,
                             n: nat): Option<Option<string>> {
    if n == 0 then Some(None)
    else match CursorAfter(lt, ids, size, n - 1)
      case None => None
      case Some(cursor) =>
        var page := Fetch(lt, ids, cursor, size);
        if page == [] then None else Some(Some(page[|page| - 1]))
  }

  ghost predicate Terminates(lt: (string, string) -> bool, ids: seq<string>, size: nat) {
    exists n: nat :: CursorAfter(lt, ids, size, n).None?
  }

  lemma {:induction false} ProgressAfter(lt: (string, string) -> bool, ids: seq<string>, size: nat,
                                         n: nat) returns (done: nat)
    requires Pages(lt, ids, size)
    ensures var c := CursorAfter(lt, ids, size, n);
            c.Some? ==> n <= done <= |ids| && After(lt, ids, c.value) == ids[done..]
  {
    done := 0;
    if n > 0 {
      done := ProgressAfter(lt, ids, size, n - 1);
      var before := CursorAfter(lt, ids, size, n - 1);
      if before.Some? && done < |ids| {
        assert Resumes(lt, ids, before.value, done, size);
        done := PageEnd(ids, done, size);
      }
    }
  }

  lemma {:induction false} StuckOnEmptyId(lt: (string, string) -> bool, size: nat, n: nat)
    requires size >= 1
    ensures var c := CursorAfter(lt, [""], size, n);
            c.Some? && Fetch(lt, [""], c.value, size) == [""]
  {
    if n > 0 { StuckOnEmptyId(lt, size, n - 1); }
  }

  /** A keyset script ends exactly when the selected rows are not the one row with the empty id:
      there the falsy cursor makes every fetch return that row again. */
  lemma TerminatesIff(lt: (string, string) -> bool, ids: seq<string>, size: nat)
    requires TextOrder(lt) && Ascending(lt, ids) && size >= 2
    ensures Terminates(lt, ids, size) <==> ids != [""]
  {
    if ids == [""] {
      forall n: nat ensures CursorAfter(lt, ids, size, n).Some? {
        StuckOnEmptyId(lt, size, n);
      }
    } else {
      KeysetPages(lt, ids, size);
      var _ := ProgressAfter(lt, ids, size, |ids| + 1);
      assert CursorAfter(lt, ids, size, |ids| + 1).None?;
    }
  }
}
