/** What the handlers promise, stated over the tables they read and write. */
module Properties {
  import opened Schema
  import opened Tables
  import opened Router

  // ---------------------------------------------------------------- queries

  /**
   * The event query returns exactly the stored event links dated from `now` on, and no
   * later than `days` days after it when a nonzero count is given; status plays no part.
   */
  lemma {:induction false} EventQueryExact(ls: seq<Link>, now: Timestamp, days: Option<int>, x: Link)
    ensures x in Select(ls, EventFilter(now, days)) <==>
      x in ls && x.isEvent && x.eventDate.Some? && now <= x.eventDate.value &&
      (days.Some? && days.value != 0 ==> x.eventDate.value <= now + days.value * SecondsPerDay)
  {
    SelectMembers(ls, EventFilter(now, days), x);
  }

  /** The listing returns exactly the links of a nonzero problem_id, or else exactly the unsolved links. */
  lemma {:induction false} ListQueryExact(ls: seq<Link>, problemId: Option<int>, x: Link)
    ensures x in Select(ls, ListFilter(problemId)) <==>
      x in ls && if problemId.Some? && problemId.value != 0 then x.problemId == problemId.value
                 else x.requestStatus != Solved
  {
    SelectMembers(ls, ListFilter(problemId), x);
  }

  /** `get_has_data` attaches to a request exactly the links that name it. */
  lemma {:induction false} AggregateExact(ls: seq<Link>, r: Request, x: Link)
    ensures x in Select(ls, ForRequest(r.id)) <==> x in ls && x.requestId == r.id
  {
    SelectMembers(ls, ForRequest(r.id), x);
  }

  // ---------------------------------------------------------------- create

  /** After a create, listing by any nonzero problem_id of the new request finds its new link. */
  lemma {:induction false} CreatedLinkListed(ls: seq<Link>, id: int, ps: seq<HasModel>, k: int)
    requires 0 <= k < |ps| && ps[k].problemId != 0
    ensures NewLink(id, ps[k]) in Select(ls + NewLinks(id, ps), ListFilter(Some(ps[k].problemId)))
  {
    var all := ls + NewLinks(id, ps);
    assert all[|ls| + k] == NewLink(id, ps[k]);
    SelectMembers(all, ListFilter(Some(ps[k].problemId)), NewLink(id, ps[k]));
  }

  // ---------------------------------------------------------------- resolve

  /** Resolving sets the status of the rows under the key to "solved" and changes nothing else. */
  lemma {:induction false} ResolveAt(ls: seq<Link>, rid: int, pid: int, i: int)
    requires 0 <= i < |ls|
    ensures |PatchWhere(ls, rid, pid, ResolvePatch)| == |ls|
    ensures PatchWhere(ls, rid, pid, ResolvePatch)[i] ==
      if ls[i].requestId == rid && ls[i].problemId == pid then ls[i].(requestStatus := Solved) else ls[i]
  {
    PatchWhereAt(ls, rid, pid, ResolvePatch, i);
  }

  /** Resolving twice leaves the table as resolving once, and the second call still finds its rows. */
  lemma {:induction false} ResolveIdempotent(ls: seq<Link>, rid: int, pid: int)
    ensures var once := PatchWhere(ls, rid, pid, ResolvePatch);
      PatchWhere(once, rid, pid, ResolvePatch) == once &&
      |Select(once, ForKey(rid, pid))| == |Select(ls, ForKey(rid, pid))|
  {
    PatchWhereIdempotent(ls, rid, pid, ResolvePatch);
    SelectAfterPatch(ls, rid, pid, ResolvePatch);
  }

  /** A resolved link leaves the default listing. */
  lemma {:induction false} ResolvedLeavesOpenList(ls: seq<Link>, rid: int, pid: int, x: Link)
    requires x in Select(PatchWhere(ls, rid, pid, ResolvePatch), Unsolved)
    ensures !(x.requestId == rid && x.problemId == pid)
  {
    var after := PatchWhere(ls, rid, pid, ResolvePatch);
    SelectMembers(after, Unsolved, x);
    var i :| 0 <= i < |after| && after[i] == x;
    ResolveAt(ls, rid, pid, i);
  }

  /** The event query ignores status: a resolved event stays listed. */
  lemma {:induction false} ResolvedEventStaysListed(ls: seq<Link>, rid: int, pid: int, now: Timestamp, days: Option<int>, i: int)
    requires 0 <= i < |ls| && Admits(EventFilter(now, days), ls[i])
    ensures PatchWhere(ls, rid, pid, ResolvePatch)[i] in Select(PatchWhere(ls, rid, pid, ResolvePatch), EventFilter(now, days))
  {
    var after := PatchWhere(ls, rid, pid, ResolvePatch);
    ResolveAt(ls, rid, pid, i);
    SelectMembers(after, EventFilter(now, days), after[i]);
  }

  // ---------------------------------------------------------------- update

  /**
   * The merge of an update call leaves the attendant name unless an empty one is supplied:
   * a truthy name is dropped by the check on the attendant and an empty string passes it.
   */
  lemma {:induction false} MergeAttendantName(rs: seq<Request>, id: int, u: UpdateRequestModel, i: int)
    requires 0 <= i < |rs|
    ensures MergeWhere(rs, id, RequestPatchOf(u))[i].attendantName ==
      if rs[i].id == id && u.attendantName == Some("") then "" else rs[i].attendantName
  {
    MergeWhereAt(rs, id, RequestPatchOf(u), i);
  }

  /**
   * The merge of an update call writes every supplied field other than a truthy attendant
   * name into the row with the id, keeps every field given as None, and leaves the other rows.
   */
  lemma {:induction false} MergeWritesSuppliedFields(rs: seq<Request>, id: int, u: UpdateRequestModel, i: int)
    requires 0 <= i < |rs|
    ensures var r := MergeWhere(rs, id, RequestPatchOf(u))[i];
      (rs[i].id != id ==> r == rs[i]) &&
      (rs[i].id == id ==>
        r.id == rs[i].id &&
        r.applicantName == (if u.applicantName.Some? then u.applicantName.value else rs[i].applicantName) &&
        r.applicantPhone == (if u.applicantPhone.Some? then u.applicantPhone.value else rs[i].applicantPhone) &&
        r.place == (if u.place.Some? then u.place.value else rs[i].place) &&
        r.description == (if u.description.Some? then u.description else rs[i].description) &&
        r.createdAt == (if u.createdAt.Some? then u.createdAt else rs[i].createdAt) &&
        r.workstationId == (if u.workstationId.Some? then u.workstationId.value else rs[i].workstationId))
  {
    MergeWhereAt(rs, id, RequestPatchOf(u), i);
  }

  /** The link updates touch only rows of the request whose problem_id one of the problems names. */
  lemma {:induction false} PatchAllUntouched(ls: seq<Link>, rid: int, ps: seq<UpdateHasModel>, i: int)
    requires AllKeyed(ps) && 0 <= i < |ls|
    requires ls[i].requestId != rid || forall k :: 0 <= k < |ps| ==> ps[k].problemId != Some(ls[i].problemId)
    ensures PatchAll(ls, rid, ps)[i] == ls[i]
  {
    if ps != [] {
      var init := InitOf(ps);
      var last := ps[|ps| - 1];
      PatchAllUntouched(ls, rid, init, i);
      PatchWhereAt(PatchAll(ls, rid, init), rid, last.problemId.value, LinkPatchOf(last, rid), i);
    }
  }

  /**
   * A row under the key of the last problem that names it carries every non-None field of
   * that problem afterwards.
   */
  lemma {:induction false} PatchAllWritesLast(ls: seq<Link>, rid: int, ps: seq<UpdateHasModel>, i: int, k: int)
    requires AllKeyed(ps) && 0 <= i < |ls| && 0 <= k < |ps|
    requires ls[i].requestId == rid && ps[k].problemId == Some(ls[i].problemId)
    requires forall j :: k < j < |ps| ==> ps[j].problemId != Some(ls[i].problemId)
    ensures var l := PatchAll(ls, rid, ps)[i];
      l.requestId == rid && l.problemId == ls[i].problemId &&
      (ps[k].categoryId.Some? ==> l.categoryId == ps[k].categoryId.value) &&
      (ps[k].isEvent.Some? ==> l.isEvent == ps[k].isEvent.value) &&
      (ps[k].eventDate.Some? ==> l.eventDate == ps[k].eventDate) &&
      (ps[k].requestStatus.Some? ==> l.requestStatus == ps[k].requestStatus.value) &&
      (ps[k].priority.Some? ==> l.priority == ps[k].priority.value)
  {
    var init := InitOf(ps);
    var last := ps[|ps| - 1];
    var before := PatchAll(ls, rid, init);
    PatchAllKeepsKeys(ls, rid, init);
    PatchWhereAt(before, rid, last.problemId.value, LinkPatchOf(last, rid), i);
    if k < |ps| - 1 {
      assert init[k] == ps[k];
      PatchAllWritesLast(ls, rid, init, i, k);
    }
  }

  /**
   * The last problem naming a row applies its update to the row as the earlier problems
   * left it: its non-None fields are written and its None fields keep their values.
   */
  lemma {:induction false} PatchAllLastWins(ls: seq<Link>, rid: int, ps: seq<UpdateHasModel>, i: int, k: int)
    requires AllKeyed(ps) && 0 <= i < |ls| && 0 <= k < |ps|
    requires ls[i].requestId == rid && ps[k].problemId == Some(ls[i].problemId)
    requires forall j :: k < j < |ps| ==> ps[j].problemId != Some(ls[i].problemId)
    ensures AllKeyed(ps[..k])
    ensures PatchAll(ls, rid, ps)[i] == ApplyLinkPatch(PatchAll(ls, rid, ps[..k])[i], LinkPatchOf(ps[k], rid))
  {
    assert AllKeyed(ps[..k]) by {
      forall j | 0 <= j < k ensures ps[..k][j].problemId.Some? {
        assert ps[..k][j] == ps[j];
      }
    }
    var init := InitOf(ps);
    var last := ps[|ps| - 1];
    var before := PatchAll(ls, rid, init);
    PatchAllKeepsKeys(ls, rid, init);
    PatchWhereAt(before, rid, last.problemId.value, LinkPatchOf(last, rid), i);
    if k < |ps| - 1 {
      assert init[k] == ps[k];
      assert init[..k] == ps[..k];
      PatchAllLastWins(ls, rid, init, i, k);
    }
  }

  /**
   * A row of the request named by exactly one problem ends as that problem's update of the
   * stored row: every field the problem supplies is written, every field it leaves None
   * (left out by `exclude_none`) keeps the stored value.
   */
  lemma {:induction false} PatchAllSingleWrite(ls: seq<Link>, rid: int, ps: seq<UpdateHasModel>, i: int, k: int)
    requires AllKeyed(ps) && 0 <= i < |ls| && 0 <= k < |ps|
    requires ls[i].requestId == rid && ps[k].problemId == Some(ls[i].problemId)
    requires forall j :: 0 <= j < |ps| && j != k ==> ps[j].problemId != Some(ls[i].problemId)
    ensures PatchAll(ls, rid, ps)[i] == ApplyLinkPatch(ls[i], LinkPatchOf(ps[k], rid))
    ensures var l := PatchAll(ls, rid, ps)[i];
      l.requestId == rid && l.problemId == ls[i].problemId &&
      l.categoryId == (if ps[k].categoryId.Some? then ps[k].categoryId.value else ls[i].categoryId) &&
      l.isEvent == (if ps[k].isEvent.Some? then ps[k].isEvent.value else ls[i].isEvent) &&
      l.eventDate == (if ps[k].eventDate.Some? then ps[k].eventDate else ls[i].eventDate) &&
      l.requestStatus == (if ps[k].requestStatus.Some? then ps[k].requestStatus.value else ls[i].requestStatus) &&
      l.priority == (if ps[k].priority.Some? then ps[k].priority.value else ls[i].priority)
  {
    PatchAllLastWins(ls, rid, ps, i, k);
    var init := ps[..k];
    forall j | 0 <= j < |init| ensures init[j].problemId != Some(ls[i].problemId) {
      assert init[j] == ps[j];
    }
    PatchAllUntouched(ls, rid, init, i);
  }

  /**
   * Fields left out of a problem's body are written anyway: a row updated last by such a
   * problem ends with is_event false, status "pending" and priority "normal".
   */
  lemma {:induction false} OmittedDefaultsWritten(ls: seq<Link>, rid: int, ps: seq<UpdateHasModel>, b: UpdateHasBody, i: int, k: int)
    requires AllKeyed(ps) && 0 <= i < |ls| && 0 <= k < |ps|
    requires ps[k] == UpdateHasModelOf(b)
    requires b.isEvent.Omitted? && b.requestStatus.Omitted? && b.priority.Omitted?
    requires ls[i].requestId == rid && b.problemId == Some(ls[i].problemId)
    requires forall j :: k < j < |ps| ==> ps[j].problemId != Some(ls[i].problemId)
    ensures PatchAll(ls, rid, ps)[i].isEvent == DefaultIsEvent
    ensures PatchAll(ls, rid, ps)[i].requestStatus == DefaultStatus
    ensures PatchAll(ls, rid, ps)[i].priority == DefaultPriority
  {
    PatchAllWritesLast(ls, rid, ps, i, k);
  }
}
