/**
 * The single statements the handlers send to the database, over the two tables
 * held as sequences in table order: filtered reads (`.filter(...).all()`,
 * `.first()`) and bulk writes (`.filter(...).update(dict)`).
 */
module Tables {
  import opened Schema

  // ---------------------------------------------------------------- request table

  predicate IdsUnique(rs: seq<Request>)
  {
    forall i, j :: 0 <= i < j < |rs| ==> rs[i].id != rs[j].id
  }

  predicate IdsBelow(rs: seq<Request>, bound: int)
  {
    forall i :: 0 <= i < |rs| ==> rs[i].id < bound
  }

  predicate HasId(rs: seq<Request>, id: int)
  {
    exists i :: 0 <= i < |rs| && rs[i].id == id
  }

  /** Every link names an existing request. */
  predicate Anchored(ls: seq<Link>, rs: seq<Request>)
  {
    forall k :: 0 <= k < |ls| ==> HasId(rs, ls[k].requestId)
  }

  /** `db.query(Request).filter(Request.id == id).all()` */
  function WithId(rs: seq<Request>, id: int): seq<Request>
  {
    if rs == [] then []
    else if rs[0].id == id then [rs[0]] + WithId(rs[1..], id)
    else WithId(rs[1..], id)
  }

  lemma {:induction false} WithIdMembers(rs: seq<Request>, id: int, r: Request)
    ensures r in WithId(rs, id) <==> r in rs && r.id == id
  {
    if rs != [] {
      WithIdMembers(rs[1..], id, r);
      assert rs == [rs[0]] + rs[1..];
    }
  }

  /** The rows with a given id are found exactly when one exists. */
  lemma {:induction false} WithIdEmpty(rs: seq<Request>, id: int)
    ensures WithId(rs, id) == [] <==> !HasId(rs, id)
  {
    if rs != [] {
      WithIdEmpty(rs[1..], id);
      if HasId(rs[1..], id) {
        var i :| 0 <= i < |rs[1..]| && rs[1..][i].id == id;
        assert rs[i + 1].id == id;
      }
      if HasId(rs, id) && rs[0].id != id {
        var i :| 0 <= i < |rs| && rs[i].id == id;
        assert rs[1..][i - 1].id == id;
      }
    }
  }

  /** With unique ids, the query by id returns the one row that carries it. */
  lemma {:induction false} WithIdUnique(rs: seq<Request>, i: int)
    requires IdsUnique(rs) && 0 <= i < |rs|
    ensures WithId(rs, rs[i].id) == [rs[i]]
  {
    if i == 0 {
      forall j | 0 <= j < |rs[1..]| ensures rs[1..][j].id != rs[0].id {
        assert rs[1..][j] == rs[j + 1];
      }
      WithIdEmpty(rs[1..], rs[0].id);
    } else {
      assert rs[0].id != rs[i].id;
      assert IdsUnique(rs[1..]) by {
        forall a, b | 0 <= a < b < |rs[1..]| ensures rs[1..][a].id != rs[1..][b].id {
          assert rs[1..][a] == rs[a + 1] && rs[1..][b] == rs[b + 1];
        }
      }
      assert rs[1..][i - 1] == rs[i];
      WithIdUnique(rs[1..], i - 1);
    }
  }

  /** Row `i` has the id and no earlier row has it. */
  predicate IsFirstWithId(rs: seq<Request>, id: int, i: int)
  {
    0 <= i < |rs| && rs[i].id == id && forall j :: 0 <= j < i ==> rs[j].id != id
  }

  /** The query by id lists the first row with the id first. */
  lemma {:induction false} WithIdHead(rs: seq<Request>, id: int)
    requires WithId(rs, id) != []
    ensures exists i :: IsFirstWithId(rs, id, i) && rs[i] == WithId(rs, id)[0]
  {
    if rs[0].id == id {
      assert IsFirstWithId(rs, id, 0);
    } else {
      WithIdHead(rs[1..], id);
      var i :| IsFirstWithId(rs[1..], id, i) && rs[1..][i] == WithId(rs[1..], id)[0];
      assert IsFirstWithId(rs, id, i + 1);
    }
  }

  /** `db.query(Request).filter(Request.id == id).first()` */
  function FirstWithId(rs: seq<Request>, id: int): (r: Option<Request>)
    ensures r.Some? <==> HasId(rs, id)
    ensures r.Some? ==> exists i :: IsFirstWithId(rs, id, i) && rs[i] == r.value
  {
    WithIdEmpty(rs, id);
    var m := WithId(rs, id);
    if m == [] then None
    else
      WithIdHead(rs, id);
      Some(m[0])
  }

  /** The part of an update body that may be written to a request row; None leaves a column as it is. */
  datatype RequestPatch = RequestPatch(
    attendantName: Option<string>,
    applicantName: Option<string>,
    applicantPhone: Option<string>,
    place: Option<string>,
    description: Option<string>,
    createdAt: Option<Timestamp>,
    workstationId: Option<int>)

  function Overwrite<T>(current: T, v: Option<T>): T
  {
    if v.Some? then v.value else current
  }

  /** Nullable columns: a supplied value replaces the column, None leaves it. */
  function OverwriteOptional<T>(current: Option<T>, v: Option<T>): Option<T>
  {
    if v.Some? then v else current
  }

  function ApplyRequestPatch(r: Request, p: RequestPatch): Request
  {
    Request(
      r.id,
      Overwrite(r.attendantName, p.attendantName),
      Overwrite(r.applicantName, p.applicantName),
      Overwrite(r.applicantPhone, p.applicantPhone),
      Overwrite(r.place, p.place),
      OverwriteOptional(r.description, p.description),
      OverwriteOptional(r.createdAt, p.createdAt),
      Overwrite(r.workstationId, p.workstationId))
  }

  /** `db.query(Request).filter(Request.id == id).update(patch)` */
  function MergeWhere(rs: seq<Request>, id: int, p: RequestPatch): (r: seq<Request>)
    ensures |r| == |rs|
  {
    if rs == [] then []
    else [if rs[0].id == id then ApplyRequestPatch(rs[0], p) else rs[0]] + MergeWhere(rs[1..], id, p)
  }

  /** The merge rewrites the rows with the id and leaves every other row as it was. */
  lemma {:induction false} MergeWhereAt(rs: seq<Request>, id: int, p: RequestPatch, i: int)
    requires 0 <= i < |rs|
    ensures MergeWhere(rs, id, p)[i] == if rs[i].id == id then ApplyRequestPatch(rs[i], p) else rs[i]
  {
    if i > 0 {
      MergeWhereAt(rs[1..], id, p, i - 1);
    }
  }

  /** A merge by an id no row has changes nothing. */
  lemma {:induction false} MergeWhereMissing(rs: seq<Request>, id: int, p: RequestPatch)
    ensures !HasId(rs, id) ==> MergeWhere(rs, id, p) == rs
  {
    if !HasId(rs, id) {
      forall i | 0 <= i < |rs| ensures MergeWhere(rs, id, p)[i] == rs[i] {
        MergeWhereAt(rs, id, p, i);
      }
    }
  }

  /** A merge never changes an id, so the table keeps its keys. */
  lemma {:induction false} MergeWhereKeepsIds(rs: seq<Request>, id: int, p: RequestPatch)
    ensures forall i :: 0 <= i < |rs| ==> MergeWhere(rs, id, p)[i].id == rs[i].id
  {
    forall i | 0 <= i < |rs| ensures MergeWhere(rs, id, p)[i].id == rs[i].id {
      MergeWhereAt(rs, id, p, i);
    }
  }

  // ---------------------------------------------------------------- link table

  /** The WHERE clauses the handlers put on the link table. */
  datatype LinkFilter =
    | ForRequest(requestId: int)
    | ForKey(requestId: int, problemId: int)
    | ForProblem(problemId: int)
    | Unsolved
    | EventsFrom(start: Timestamp)
    | EventsBetween(start: Timestamp, end: Timestamp)

  /** SQL comparisons against a NULL event date are not true, so such rows never pass a window. */
  predicate Admits(f: LinkFilter, l: Link)
  {
    match f
    case ForRequest(rid) => l.requestId == rid
    case ForKey(rid, pid) => l.requestId == rid && l.problemId == pid
    case ForProblem(pid) => l.problemId == pid
    case Unsolved => l.requestStatus != Solved
    case EventsFrom(s) => l.isEvent && l.eventDate.Some? && s <= l.eventDate.value
    case EventsBetween(s, e) => l.isEvent && l.eventDate.Some? && s <= l.eventDate.value <= e
  }

  /** `db.query(has).filter(f).all()`, in table order. */
  function Select(ls: seq<Link>, f: LinkFilter): (r: seq<Link>)
    ensures |r| <= |ls|
  {
    if ls == [] then []
    else if Admits(f, ls[0]) then [ls[0]] + Select(ls[1..], f)
    else Select(ls[1..], f)
  }

  /** A row comes back exactly when it is in the table and passes the filter. */
  lemma {:induction false} SelectMembers(ls: seq<Link>, f: LinkFilter, x: Link)
    ensures x in Select(ls, f) <==> x in ls && Admits(f, x)
  {
    if ls != [] {
      SelectMembers(ls[1..], f, x);
      assert ls == [ls[0]] + ls[1..];
    }
  }

  /** Every passing row comes back as often as it is stored, and no other row does. */
  lemma {:induction false} SelectCounts(ls: seq<Link>, f: LinkFilter, x: Link)
    ensures multiset(Select(ls, f))[x] == if Admits(f, x) then multiset(ls)[x] else 0
  {
    if ls != [] {
      SelectCounts(ls[1..], f, x);
      assert ls == [ls[0]] + ls[1..];
      assert multiset(ls) == multiset([ls[0]]) + multiset(ls[1..]);
    }
  }

  /** Selection keeps table order: selecting from two parts is selecting from each in turn. */
  lemma {:induction false} SelectAppend(a: seq<Link>, b: seq<Link>, f: LinkFilter)
    ensures Select(a + b, f) == Select(a, f) + Select(b, f)
  {
    if a == [] {
      assert a + b == b;
    } else {
      assert (a + b)[0] == a[0];
      assert (a + b)[1..] == a[1..] + b;
      SelectAppend(a[1..], b, f);
    }
  }

  lemma {:induction false} SelectAnchored(ls: seq<Link>, f: LinkFilter, rs: seq<Request>)
    requires Anchored(ls, rs)
    ensures Anchored(Select(ls, f), rs)
  {
    forall k | 0 <= k < |Select(ls, f)| ensures HasId(rs, Select(ls, f)[k].requestId) {
      var x := Select(ls, f)[k];
      SelectMembers(ls, f, x);
      var j :| 0 <= j < |ls| && ls[j] == x;
    }
  }

  /** The dict handed to `.update(...)` on link rows; None leaves a column as it is. */
  datatype LinkPatch = LinkPatch(
    requestId: Option<int>,
    problemId: Option<int>,
    categoryId: Option<int>,
    isEvent: Option<bool>,
    eventDate: Option<Timestamp>,
    requestStatus: Option<string>,
    priority: Option<string>)

  /** `{"request_status": "solved"}` */
  const ResolvePatch: LinkPatch := LinkPatch(None, None, None, None, None, Some(Solved), None)

  function ApplyLinkPatch(l: Link, p: LinkPatch): Link
  {
    Link(
      Overwrite(l.requestId, p.requestId),
      Overwrite(l.problemId, p.problemId),
      Overwrite(l.categoryId, p.categoryId),
      Overwrite(l.isEvent, p.isEvent),
      OverwriteOptional(l.eventDate, p.eventDate),
      Overwrite(l.requestStatus, p.requestStatus),
      Overwrite(l.priority, p.priority))
  }

  /** A patch that writes nothing into the key columns other than the key itself. */
  predicate KeepsKey(p: LinkPatch, rid: int, pid: int)
  {
    (p.requestId.None? || p.requestId.value == rid) && (p.problemId.None? || p.problemId.value == pid)
  }

  /** `db.query(has).filter(request_id == rid).filter(problem_id == pid).update(patch)` */
  function PatchWhere(ls: seq<Link>, rid: int, pid: int, p: LinkPatch): (r: seq<Link>)
    ensures |r| == |ls|
  {
    if ls == [] then []
    else [if Admits(ForKey(rid, pid), ls[0]) then ApplyLinkPatch(ls[0], p) else ls[0]]
         + PatchWhere(ls[1..], rid, pid, p)
  }

  /** The patch rewrites the rows under the key, leaves every other row, and adds none. */
  lemma {:induction false} PatchWhereAt(ls: seq<Link>, rid: int, pid: int, p: LinkPatch, i: int)
    requires 0 <= i < |ls|
    ensures PatchWhere(ls, rid, pid, p)[i] == if Admits(ForKey(rid, pid), ls[i]) then ApplyLinkPatch(ls[i], p) else ls[i]
  {
    if i > 0 {
      PatchWhereAt(ls[1..], rid, pid, p, i - 1);
    }
  }

  /** A key-keeping patch leaves every row's (request_id, problem_id). */
  lemma {:induction false} PatchWhereKeepsKeys(ls: seq<Link>, rid: int, pid: int, p: LinkPatch)
    requires KeepsKey(p, rid, pid)
    ensures forall i :: 0 <= i < |ls| ==>
      PatchWhere(ls, rid, pid, p)[i].requestId == ls[i].requestId &&
      PatchWhere(ls, rid, pid, p)[i].problemId == ls[i].problemId
  {
    forall i | 0 <= i < |ls|
      ensures PatchWhere(ls, rid, pid, p)[i].requestId == ls[i].requestId
      ensures PatchWhere(ls, rid, pid, p)[i].problemId == ls[i].problemId
    {
      PatchWhereAt(ls, rid, pid, p, i);
    }
  }

  /** Patching the same key twice with the same patch is patching it once. */
  lemma {:induction false} PatchWhereIdempotent(ls: seq<Link>, rid: int, pid: int, p: LinkPatch)
    requires KeepsKey(p, rid, pid)
    ensures PatchWhere(PatchWhere(ls, rid, pid, p), rid, pid, p) == PatchWhere(ls, rid, pid, p)
  {
    if ls != [] {
      var once := PatchWhere(ls, rid, pid, p);
      assert once[1..] == PatchWhere(ls[1..], rid, pid, p);
      PatchWhereIdempotent(ls[1..], rid, pid, p);
    }
  }

  /** The rows under the key after a key-keeping patch are the patched rows under the key before it. */
  lemma {:induction false} SelectAfterPatch(ls: seq<Link>, rid: int, pid: int, p: LinkPatch)
    requires KeepsKey(p, rid, pid)
    ensures |Select(PatchWhere(ls, rid, pid, p), ForKey(rid, pid))| == |Select(ls, ForKey(rid, pid))|
    ensures Select(ls, ForKey(rid, pid)) != [] ==>
      Select(PatchWhere(ls, rid, pid, p), ForKey(rid, pid))[0] == ApplyLinkPatch(Select(ls, ForKey(rid, pid))[0], p)
  {
    if ls != [] {
      var after := PatchWhere(ls, rid, pid, p);
      assert after[1..] == PatchWhere(ls[1..], rid, pid, p);
      SelectAfterPatch(ls[1..], rid, pid, p);
    }
  }

  lemma {:induction false} PatchWhereAnchored(ls: seq<Link>, rs: seq<Request>, rid: int, pid: int, p: LinkPatch)
    requires KeepsKey(p, rid, pid) && Anchored(ls, rs)
    ensures Anchored(PatchWhere(ls, rid, pid, p), rs)
  {
    PatchWhereKeepsKeys(ls, rid, pid, p);
  }
}
