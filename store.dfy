/** The `customer_requests` table as the routes use it: a map from record id
    to stored row. Its write methods are the route's SQL statements; each may
    be refused by the database (`fault`), and the table itself refuses a
    duplicate id and a status its CHECK constraint does not admit. */
module Store {
  import opened Wrappers
  import opened Strings
  import opened CustomerRequests

  /** The messages the database reports for the two constraint violations;
      their exact wording comes from the database service. */
  const DuplicateIdMessage := "UNIQUE constraint failed: customer_requests.id"
  const CheckFailedMessage := "CHECK constraint failed: status"

  /** The column assignments of the route's four UPDATE statements. */
  datatype Patch =
    | StatusChange(status: Status, metadata: Metadata, response: Option<string>, updatedAt: string)
    | Link(linearIssueId: string, updatedAt: string)
    | SoftDelete(deletedAt: string)
    | CommentCapture(metadata: Metadata, updatedAt: string)

  function Apply(row: CustomerRequest, p: Patch): (r: CustomerRequest)
    ensures r.id == row.id && r.createdAt == row.createdAt && r.content == row.content
    ensures r.externalUserId == row.externalUserId && r.projectId == row.projectId
  {
    match p
    case StatusChange(s, m, resp, at) => row.(status := s, metadata := Some(m), response := resp, updatedAt := at)
    case Link(ticket, at) => row.(linearIssueId := Some(ticket), updatedAt := at)
    case SoftDelete(at) => row.(deletedAt := Some(at), updatedAt := at)
    case CommentCapture(m, at) => row.(metadata := Some(m), updatedAt := at)
  }

  /** The status a row has after the patch. */
  function PatchedStatus(row: CustomerRequest, p: Patch): Status {
    if p.StatusChange? then p.status else row.status
  }

  /** `deleted_at IS NULL` */
  predicate Live(row: CustomerRequest) {
    row.deletedAt.None?
  }

  /** `linear_issue_id = ? AND deleted_at IS NULL` */
  predicate LinkedTo(row: CustomerRequest, ticket: string) {
    Live(row) && row.linearIssueId == Some(ticket)
  }

  /** The list query's WHERE clause: live rows, the optional equality
      filters, and ids after the cursor in the table's text order. */
  datatype Filter = Filter(status: Option<Status>, externalUserId: Option<string>, after: Option<string>)

  predicate Above(bound: Option<string>, id: string) {
    bound.None? || StrLt(bound.value, id)
  }

  predicate Matches(row: CustomerRequest, f: Filter) {
    && Live(row)
    && (f.status.Some? ==> row.status == f.status.value)
    && (f.externalUserId.Some? ==> row.externalUserId == f.externalUserId.value)
    && Above(f.after, row.id)
  }

  ghost function Matching(rows: map<string, CustomerRequest>, f: Filter): set<string> {
    set id | id in rows && Matches(rows[id], f)
  }

  predicate Ascending(ids: seq<string>) {
    forall i, j :: 0 <= i < j < |ids| ==> StrLt(ids[i], ids[j])
  }

  /** `ids` are the smallest members of `m`, in ascending order: every
      member left out comes after every member taken. */
  predicate SmallestOf(ids: seq<string>, m: set<string>) {
    && Ascending(ids)
    && (forall i :: 0 <= i < |ids| ==> ids[i] in m)
    && (forall x :: x in m && x !in ids ==> forall i :: 0 <= i < |ids| ==> StrLt(ids[i], x))
  }

  /** `ids` are the first (at most) `n` members of `m` in ascending order;
      fewer than `n` are taken only when all are. */
  predicate IsFirst(ids: seq<string>, m: set<string>, n: nat) {
    && SmallestOf(ids, m)
    && |ids| <= n
    && (|ids| < n ==> forall x :: x in m ==> x in ids)
  }

  function Last(ids: seq<string>): Option<string> {
    if ids == [] then None else Some(ids[|ids| - 1])
  }

  /** Taking the smallest member above the last one taken keeps the prefix
      the smallest. */
  lemma Extend(ids: seq<string>, m: set<string>, k: string)
    requires SmallestOf(ids, m)
    requires k in m && Above(Last(ids), k)
    requires forall x :: x in m && Above(Last(ids), x) ==> x == k || StrLt(k, x)
    ensures SmallestOf(ids + [k], m)
  {
    forall i | 0 <= i < |ids| ensures StrLt(ids[i], k) {
      if i < |ids| - 1 { StrLtTransitive(ids[i], ids[|ids| - 1], k); }
    }
    forall x | x in m && x !in ids + [k] ensures StrLt(k, x) {
      assert x !in ids;
      assert ids != [] ==> StrLt(ids[|ids| - 1], x);
      assert Above(Last(ids), x);
    }
  }

  /** Every member left out lies above the last one taken. */
  lemma LeftOutAboveLast(ids: seq<string>, m: set<string>)
    requires SmallestOf(ids, m)
    ensures forall x :: x in m && x !in ids ==> Above(Last(ids), x)
  {
    forall x | x in m && x !in ids ensures Above(Last(ids), x) {
      if ids != [] {
        assert StrLt(ids[|ids| - 1], x);
      }
    }
  }

  /** Two smallest-first prefixes of one set agree on the positions both have. */
  lemma {:induction false} SmallestAgree(a: seq<string>, b: seq<string>, m: set<string>, i: nat)
    requires SmallestOf(a, m) && SmallestOf(b, m)
    requires i < |a| && i < |b|
    ensures forall j :: 0 <= j <= i ==> a[j] == b[j]
    decreases i
  {
    if i > 0 { SmallestAgree(a, b, m, i - 1); }
    NotBelow(a, b, m, i);
    NotBelow(b, a, m, i);
    StrLtTotal(a[i], b[i]);
  }

  lemma NotBelow(a: seq<string>, b: seq<string>, m: set<string>, i: nat)
    requires SmallestOf(a, m) && SmallestOf(b, m)
    requires i < |a| && i < |b|
    requires forall j :: 0 <= j < i ==> a[j] == b[j]
    ensures !StrLt(a[i], b[i])
  {
    StrLtIrreflexive(a[i]);
    if a[i] in b {
      var j :| 0 <= j < |b| && b[j] == a[i];
      if j > i {
        StrLtAsymmetric(b[i], b[j]);
      }
    } else {
      StrLtAsymmetric(b[i], a[i]);
    }
  }

  /** The first `n` members of a set are determined by the set: a page is a
      function of the rows and the query. */
  lemma IsFirstUnique(a: seq<string>, b: seq<string>, m: set<string>, n: nat)
    requires IsFirst(a, m, n) && IsFirst(b, m, n)
    ensures a == b
  {
    if 0 < |a| && 0 < |b| {
      var k := if |a| < |b| then |a| else |b|;
      SmallestAgree(a, b, m, k - 1);
    }
    if |a| < |b| {
      StrLtIrreflexive(b[|a|]);
    } else if |b| < |a| {
      StrLtIrreflexive(a[|b|]);
    }
  }

  /** The members of `m` above `c`. */
  ghost function After(m: set<string>, c: string): set<string> {
    set x | x in m && StrLt(c, x)
  }

  /** Following a full first page by the first members above its last one
      yields the first members of the whole set: nothing is skipped and
      nothing repeated. */
  lemma FirstThenRest(ids1: seq<string>, ids2: seq<string>, m: set<string>, n1: nat, n2: nat)
    requires IsFirst(ids1, m, n1) && |ids1| == n1 && n1 > 0
    requires IsFirst(ids2, After(m, ids1[n1 - 1]), n2)
    ensures IsFirst(ids1 + ids2, m, n1 + n2)
  {
    var last := ids1[n1 - 1];
    var ids := ids1 + ids2;
    forall i, j | 0 <= i < j < |ids| ensures StrLt(ids[i], ids[j]) {
      if i < n1 && j >= n1 {
        assert ids[j] == ids2[j - n1] && StrLt(last, ids[j]);
        if i < n1 - 1 { StrLtTransitive(ids[i], last, ids[j]); }
      }
    }
    forall x | x in m && x !in ids ensures forall i :: 0 <= i < |ids| ==> StrLt(ids[i], x) {
      assert StrLt(last, x);
      assert x in After(m, last);
    }
    if |ids| < n1 + n2 {
      forall x | x in m ensures x in ids {
        if x !in ids1 {
          assert StrLt(last, x);
          assert x in After(m, last);
        }
      }
    }
  }

  /** On well-formed rows, the rows matching a query whose cursor is a
      matching id are the matching rows above that id. */
  lemma MatchingAfterCursor(rows: map<string, CustomerRequest>, f: Filter, c: string)
    requires WellFormed(rows)
    requires c in Matching(rows, f)
    ensures Matching(rows, f.(after := Some(c))) == After(Matching(rows, f), c)
  {
    forall x | x in Matching(rows, f.(after := Some(c))) ensures x in Matching(rows, f) {
      if f.after.Some? { StrLtTransitive(f.after.value, c, x); }
    }
  }

  function IdsOf(rows: seq<CustomerRequest>): (ids: seq<string>)
    ensures |ids| == |rows| && forall i :: 0 <= i < |rows| ==> ids[i] == rows[i].id
  {
    seq(|rows|, i requires 0 <= i < |rows| => rows[i].id)
  }

  lemma IdsOfAppend(a: seq<CustomerRequest>, b: seq<CustomerRequest>)
    ensures IdsOf(a + b) == IdsOf(a) + IdsOf(b)
  {
    assert forall i :: 0 <= i < |a + b| ==> IdsOf(a + b)[i] == (IdsOf(a) + IdsOf(b))[i];
  }

  /** The table's invariant: each row is filed under its own id and holds
      a status the CHECK constraint admits. */
  ghost predicate WellFormed(rows: map<string, CustomerRequest>) {
    forall id :: id in rows ==> rows[id].id == id && Storable(rows[id].status)
  }

  /** What the INSERT does to the table and reports. */
  function Inserted(rows: map<string, CustomerRequest>, row: CustomerRequest, fault: Option<string>)
    : (r: (map<string, CustomerRequest>, Result<(), string>))
    ensures r.1.Err? ==> r.0 == rows
    ensures r.1.Ok? <==> fault.None? && row.id !in rows && Storable(row.status)
    ensures r.1.Ok? ==> r.0 == rows[row.id := row]
  {
    if fault.Some? then (rows, Err(fault.value))
    else if row.id in rows then (rows, Err(DuplicateIdMessage))
    else if !Storable(row.status) then (rows, Err(CheckFailedMessage))
    else (rows[row.id := row], Ok(()))
  }

  /** What `DELETE ... WHERE id = ?` does to the table and reports. */
  function Deleted(rows: map<string, CustomerRequest>, id: string, fault: Option<string>)
    : (r: (map<string, CustomerRequest>, Result<(), string>))
    ensures r.1.Ok? <==> fault.None?
    ensures r.1.Err? ==> r.0 == rows
    ensures r.1.Ok? ==> r.0 == rows - {id} && id !in r.0
  {
    if fault.Some? then (rows, Err(fault.value)) else (rows - {id}, Ok(()))
  }

  /** What `UPDATE ... WHERE id = ?` does to the table and reports. */
  function Updated(rows: map<string, CustomerRequest>, id: string, p: Patch, fault: Option<string>)
    : (r: (map<string, CustomerRequest>, Result<(), string>))
    ensures r.1.Err? ==> r.0 == rows
    ensures r.1.Ok? ==> r.0.Keys == rows.Keys && forall other :: other in rows && other != id ==> r.0[other] == rows[other]
    ensures r.1.Ok? && id in rows ==> r.0[id] == Apply(rows[id], p) && Storable(PatchedStatus(rows[id], p))
  {
    if fault.Some? then (rows, Err(fault.value))
    else if id !in rows then (rows, Ok(()))
    else if !Storable(PatchedStatus(rows[id], p)) then (rows, Err(CheckFailedMessage))
    else (rows[id := Apply(rows[id], p)], Ok(()))
  }

  /** An update keeps the table well formed. */
  lemma UpdatedWellFormed(rows: map<string, CustomerRequest>, id: string, p: Patch, fault: Option<string>)
    requires WellFormed(rows)
    ensures WellFormed(Updated(rows, id, p, fault).0)
  {
  }

  class RecordStore {
    var rows: map<string, CustomerRequest>

    ghost predicate Valid()
      reads this
    {
      WellFormed(rows)
    }

    constructor ()
      ensures rows == map[] && Valid()
    {
      rows := map[];
    }

    /** `INSERT INTO customer_requests (...) VALUES (...)`. The last
        ensures ties the method to `Inserted`; the ones before it are that
        function's cases spelled out, for callers that reason by case. */
    method Insert(row: CustomerRequest, fault: Option<string>) returns (r: Result<(), string>)
      requires Valid()
      modifies this
      ensures Valid()
      ensures fault.Some? ==> r == Err(fault.value) && rows == old(rows)
      ensures fault.None? && row.id in old(rows) ==> r == Err(DuplicateIdMessage) && rows == old(rows)
      ensures fault.None? && row.id !in old(rows) && !Storable(row.status) ==>
                r == Err(CheckFailedMessage) && rows == old(rows)
      ensures fault.None? && row.id !in old(rows) && Storable(row.status) ==>
                r == Ok(()) && rows == old(rows)[row.id := row]
      ensures (rows, r) == Inserted(old(rows), row, fault)
    {
      if fault.Some? {
        r := Err(fault.value);
      } else if row.id in rows {
        r := Err(DuplicateIdMessage);
      } else if !Storable(row.status) {
        r := Err(CheckFailedMessage);
      } else {
        rows := rows[row.id := row];
        r := Ok(());
      }
    }

    /** `UPDATE customer_requests SET ... WHERE id = ?`: no row with that id
        is no error and changes nothing. The last ensures ties the method
        to `Updated`; the ones before it are its cases spelled out. */
    method Update(id: string, p: Patch, fault: Option<string>) returns (r: Result<(), string>)
      requires Valid()
      modifies this
      ensures Valid()
      ensures fault.Some? ==> r == Err(fault.value) && rows == old(rows)
      ensures fault.None? && id !in old(rows) ==> r == Ok(()) && rows == old(rows)
      ensures fault.None? && id in old(rows) && !Storable(PatchedStatus(old(rows)[id], p)) ==>
                r == Err(CheckFailedMessage) && rows == old(rows)
      ensures fault.None? && id in old(rows) && Storable(PatchedStatus(old(rows)[id], p)) ==>
                r == Ok(()) && rows == old(rows)[id := Apply(old(rows)[id], p)]
      ensures (rows, r) == Updated(old(rows), id, p, fault)
    {
      if fault.Some? {
        r := Err(fault.value);
      } else if id !in rows {
        r := Ok(());
      } else if !Storable(PatchedStatus(rows[id], p)) {
        r := Err(CheckFailedMessage);
      } else {
        rows := rows[id := Apply(rows[id], p)];
        r := Ok(());
      }
    }

    /** `DELETE FROM customer_requests WHERE id = ?`. The last ensures ties
        the method to `Deleted`; the ones before it are its cases spelled out. */
    method Delete(id: string, fault: Option<string>) returns (r: Result<(), string>)
      requires Valid()
      modifies this
      ensures Valid()
      ensures fault.Some? ==> r == Err(fault.value) && rows == old(rows)
      ensures fault.None? ==> r == Ok(()) && rows == old(rows) - {id}
      ensures (rows, r) == Deleted(old(rows), id, fault)
    {
      if fault.Some? {
        r := Err(fault.value);
      } else {
        rows := rows - {id};
        r := Ok(());
      }
    }

    /** `SELECT * FROM customer_requests WHERE id = ?` */
    method Get(id: string) returns (r: Option<CustomerRequest>)
      ensures r.Some? <==> id in rows
      ensures r.Some? ==> r.value == rows[id]
    {
      r := if id in rows then Some(rows[id]) else None;
    }

    /** The webhook lookup: some live row linked to the ticket, or none. When
        several live rows carry the same ticket, any of them may be found. */
    method FindLinked(ticket: string) returns (found: Option<string>)
      ensures found.Some? ==> found.value in rows && LinkedTo(rows[found.value], ticket)
      ensures found.None? ==> forall id :: id in rows ==> !LinkedTo(rows[id], ticket)
    {
      if exists id :: id in rows && LinkedTo(rows[id], ticket) {
        var id :| id in rows && LinkedTo(rows[id], ticket);
        found := Some(id);
      } else {
        found := None;
      }
    }

    /** The smallest matching id above `bound`, if any. */
    method NextMatching(f: Filter, bound: Option<string>) returns (r: Option<string>)
      requires Valid()
      ensures r.Some? ==> r.value in Matching(rows, f) && Above(bound, r.value)
      ensures r.Some? ==> forall x :: x in Matching(rows, f) && Above(bound, x) ==> x == r.value || StrLt(r.value, x)
      ensures r.None? ==> forall x :: x in Matching(rows, f) ==> !Above(bound, x)
    {
      var keys := rows.Keys;
      r := None;
      while keys != {}
        invariant keys <= rows.Keys
        invariant r.Some? ==> r.value in Matching(rows, f) && Above(bound, r.value)
        invariant forall x :: x in Matching(rows, f) && Above(bound, x) && x !in keys ==>
                    r.Some? && (x == r.value || StrLt(r.value, x))
        decreases |keys|
      {
        var k :| k in keys;
        keys := keys - {k};
        if Matches(rows[k], f) && Above(bound, k) {
          assert k in Matching(rows, f);
          if r.None? {
            r := Some(k);
          } else if StrLt(k, r.value) {
            var prev := r.value;
            forall x | x in Matching(rows, f) && Above(bound, x) && x !in keys && x != k
              ensures StrLt(k, x)
            {
              if x != prev { StrLtTransitive(k, prev, x); }
            }
            r := Some(k);
          } else {
            StrLtTotal(k, r.value);
          }
        }
      }
    }

    /** `SELECT * ... WHERE <filter> ORDER BY id ASC LIMIT n`. */
    method SelectFirst(f: Filter, n: nat) returns (page: seq<CustomerRequest>)
      requires Valid()
      ensures IsFirst(IdsOf(page), Matching(rows, f), n)
      ensures forall i :: 0 <= i < |page| ==> page[i].id in rows && rows[page[i].id] == page[i]
    {
      var ids: seq<string> := [];
      page := [];
      var done := false;
      ghost var m := Matching(rows, f);
      while |ids| < n && !done
        invariant |page| == |ids| && ids == IdsOf(page)
        invariant forall i :: 0 <= i < |page| ==> page[i].id in rows && rows[page[i].id] == page[i]
        invariant SmallestOf(ids, m) && |ids| <= n
        invariant done ==> forall x :: x in m ==> x in ids
        decreases n - |ids|, !done
      {
        var next := NextMatching(f, Last(ids));
        if next.None? {
          LeftOutAboveLast(ids, m);
          done := true;
        } else {
          Extend(ids, m, next.value);
          ids := ids + [next.value];
          page := page + [rows[next.value]];
        }
      }
    }
  }
}
