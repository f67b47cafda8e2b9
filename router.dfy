/**
 * The request router: a store holding the request table, the `has` link table and
 * the request table's id counter, with one method per handler.
 */
module Router {
  import opened Schema
  import opened Envelope
  import opened Tables

  /** The new request row built from `data.dict()` without "problems", under the generated id. */
  function NewRequest(id: int, data: RequestModel): (r: Request)
    ensures r.id == id
    ensures r.attendantName == data.attendantName && r.applicantName == data.applicantName &&
      r.applicantPhone == data.applicantPhone && r.place == data.place &&
      r.description == data.description && r.createdAt == data.createdAt &&
      r.workstationId == data.workstationId
  {
    Request(id, data.attendantName, data.applicantName, data.applicantPhone, data.place,
            data.description, data.createdAt, data.workstationId)
  }

  /** The link inserted for one problem of a new request. */
  function NewLink(id: int, p: HasModel): Link
  {
    Link(id, p.problemId, p.categoryId, p.isEvent, p.eventDate, p.requestStatus, p.priority)
  }

  /** The links inserted for the problems of a new request, in the order given. */
  function NewLinks(id: int, ps: seq<HasModel>): (r: seq<Link>)
    ensures |r| == |ps|
    ensures forall k :: 0 <= k < |ps| ==>
      r[k] == Link(id, ps[k].problemId, ps[k].categoryId, ps[k].isEvent, ps[k].eventDate, ps[k].requestStatus, ps[k].priority)
  {
    seq(|ps|, k requires 0 <= k < |ps| => NewLink(id, ps[k]))
  }

  /**
   * `data.dict(exclude_none=True)` without "problems": None fields are left out, and the
   * attendant name is dropped only when it is truthy, so an empty one is kept.
   */
  function RequestPatchOf(u: UpdateRequestModel): (r: RequestPatch)
    ensures r.attendantName.None? <==> u.attendantName.None? || u.attendantName.value != ""
    ensures r.attendantName.Some? ==> r.attendantName.value == ""
    ensures r.applicantName == u.applicantName && r.applicantPhone == u.applicantPhone &&
      r.place == u.place && r.description == u.description && r.createdAt == u.createdAt &&
      r.workstationId == u.workstationId
  {
    RequestPatch(
      if u.attendantName.Some? && u.attendantName.value != "" then None else u.attendantName,
      u.applicantName, u.applicantPhone, u.place, u.description, u.createdAt, u.workstationId)
  }

  /** One problem's `exclude_none` dict once `request_id` has been put into it. */
  function LinkPatchOf(u: UpdateHasModel, rid: int): (r: LinkPatch)
    ensures r.requestId == Some(rid)
    ensures u.problemId.Some? ==> KeepsKey(r, rid, u.problemId.value)
    ensures r.problemId == u.problemId && r.categoryId == u.categoryId && r.isEvent == u.isEvent &&
      r.eventDate == u.eventDate && r.requestStatus == u.requestStatus && r.priority == u.priority
  {
    LinkPatch(Some(rid), u.problemId, u.categoryId, u.isEvent, u.eventDate, u.requestStatus, u.priority)
  }

  /** Every problem of an update carries the problem_id that addresses its link. */
  predicate AllKeyed(ps: seq<UpdateHasModel>)
  {
    forall k :: 0 <= k < |ps| ==> ps[k].problemId.Some?
  }

  /** All problems but the last; a prefix of a keyed list is keyed. */
  function InitOf(ps: seq<UpdateHasModel>): (r: seq<UpdateHasModel>)
    requires ps != [] && AllKeyed(ps)
    ensures r == ps[..|ps| - 1] && AllKeyed(r)
  {
    var init := ps[..|ps| - 1];
    assert forall k :: 0 <= k < |init| ==> init[k] == ps[k];
    init
  }

  /** The link updates of one update call, one problem after the other. */
  function PatchAll(ls: seq<Link>, rid: int, ps: seq<UpdateHasModel>): (r: seq<Link>)
    requires AllKeyed(ps)
    ensures |r| == |ls|
  {
    if ps == [] then ls
    else
      var last := ps[|ps| - 1];
      PatchWhere(PatchAll(ls, rid, InitOf(ps)), rid, last.problemId.value, LinkPatchOf(last, rid))
  }

  /** The window of the event query; `if days_to_event:` counts both None and 0 as absent. */
  function EventFilter(now: Timestamp, daysToEvent: Option<int>): (f: LinkFilter)
    ensures forall l :: Admits(f, l) <==>
      l.isEvent && l.eventDate.Some? && now <= l.eventDate.value &&
      (daysToEvent.Some? && daysToEvent.value != 0 ==> l.eventDate.value <= now + daysToEvent.value * SecondsPerDay)
  {
    if daysToEvent.Some? && daysToEvent.value != 0 then EventsBetween(now, now + daysToEvent.value * SecondsPerDay)
    else EventsFrom(now)
  }

  /** The filter of the listing; `if problem_id:` counts both None and 0 as absent. */
  function ListFilter(problemId: Option<int>): (f: LinkFilter)
    ensures forall l :: Admits(f, l) <==>
      if problemId.Some? && problemId.value != 0 then l.problemId == problemId.value else l.requestStatus != Solved
  {
    if problemId.Some? && problemId.value != 0 then ForProblem(problemId.value) else Unsolved
  }

  /** The largest day count a `timedelta` accepts. */
  const MaxDeltaDays: int := 999999999
  /** The range of a C `int`, into which `timedelta` first converts its day count. */
  const CIntMin: int := -0x8000_0000
  const CIntMax: int := 0x7fff_ffff
  /** 0001-01-01T00:00:00 and 9999-12-31T23:59:59, in seconds from 1970-01-01T00:00:00. */
  const MinDatetime: Timestamp := -62135596800
  const MaxDatetime: Timestamp := 253402300799

  /**
   * The OverflowError that `datetime.today() + timedelta(days=days_to_event)` raises, if
   * any: first the conversion of the day count to a C int, then its magnitude, then the sum
   * leaving years 1..9999. The expression is evaluated only for a truthy day count.
   */
  function WindowFailure(now: Timestamp, daysToEvent: Option<int>): (f: Option<Failure>)
    ensures f.None? <==>
      daysToEvent.None? || daysToEvent.value == 0 ||
      (-MaxDeltaDays <= daysToEvent.value <= MaxDeltaDays &&
       MinDatetime <= now + daysToEvent.value * SecondsPerDay <= MaxDatetime)
    ensures f.Some? ==> f.value.IntTooLarge? || f.value == DaysTooLarge(daysToEvent.value) || f.value.DateOutOfRange?
    ensures f == Some(IntTooLarge) <==>
      daysToEvent.Some? && daysToEvent.value != 0 && (daysToEvent.value < CIntMin || CIntMax < daysToEvent.value)
    ensures f.Some? && f.value.DaysTooLarge? <==>
      daysToEvent.Some? && CIntMin <= daysToEvent.value <= CIntMax &&
      (daysToEvent.value < -MaxDeltaDays || MaxDeltaDays < daysToEvent.value)
  {
    if daysToEvent.None? || daysToEvent.value == 0 then None
    else
      var d := daysToEvent.value;
      if d < CIntMin || CIntMax < d then Some(IntTooLarge)
      else if d < -MaxDeltaDays || MaxDeltaDays < d then Some(DaysTooLarge(d))
      else if now + d * SecondsPerDay < MinDatetime || MaxDatetime < now + d * SecondsPerDay then Some(DateOutOfRange)
      else None
  }

  /** Entry k holds the k-th selected link and the request row whose id it names. */
  predicate ParentsAttached(es: seq<LinkEntry>, sel: seq<Link>, rs: seq<Request>)
  {
    |es| == |sel| &&
    forall k :: 0 <= k < |es| ==>
      es[k].problem == sel[k] && es[k].request in rs && es[k].request.id == sel[k].requestId
  }

  class Store {
    var requests: seq<Request>
    var links: seq<Link>
    var nextId: int

    /** Ids are unique and below the counter, and every link belongs to a stored request. */
    ghost predicate Valid()
      reads this
    {
      IdsUnique(requests) && IdsBelow(requests, nextId) && Anchored(links, requests)
    }

    constructor ()
      ensures Valid() && requests == [] && links == [] && nextId == 1
    {
      requests, links, nextId := [], [], 1;
    }

    /** `post_request`: insert the request under a fresh id, then one link per problem. */
    method PostRequest(data: RequestModel) returns (resp: Response)
      requires Valid()
      modifies this
      ensures Valid()
      ensures forall r :: r in old(requests) ==> r.id != old(nextId)
      ensures requests == old(requests) + [NewRequest(old(nextId), data)]
      ensures links == old(links) + NewLinks(old(nextId), data.problems)
      ensures nextId == old(nextId) + 1
      ensures resp == Response(StatusCreated, Body(CreatedMessage, None, OneRequest(NewRequest(old(nextId), data))))
    {
      var created := NewRequest(nextId, data);
      AddRequestKeepsValid(requests, links, created);
      requests := requests + [created];
      nextId := nextId + 1;
      var ps := data.problems;
      for i := 0 to |ps|
        invariant requests == old(requests) + [created] && nextId == old(nextId) + 1
        invariant links == old(links) + NewLinks(created.id, ps[..i])
      {
        assert NewLinks(created.id, ps[..i + 1]) == NewLinks(created.id, ps[..i]) + [NewLink(created.id, ps[i])];
        links := links + [NewLink(created.id, ps[i])];
      }
      assert ps[..|ps|] == ps;
      assert requests[|requests| - 1].id == created.id;
      NewLinksAnchored(old(links), requests, created.id, ps);
      resp := Response(StatusCreated, Body(CreatedMessage, None, OneRequest(created)));
    }

    /** `get_has_data`: each given request with every link that names it. */
    method GetHasData(query: seq<Request>) returns (result: seq<RequestEntry>)
      ensures |result| == |query|
      ensures forall k :: 0 <= k < |query| ==>
        result[k].request == query[k] && result[k].problems == Select(links, ForRequest(query[k].id))
    {
      result := [];
      for i := 0 to |query|
        invariant |result| == i
        invariant forall k :: 0 <= k < i ==>
          result[k].request == query[k] && result[k].problems == Select(links, ForRequest(query[k].id))
      {
        result := result + [RequestEntry(query[i], Select(links, ForRequest(query[i].id)))];
      }
    }

    /** The loop shared by `get_event` and `get_chamado`: pair each link with its request. */
    method AttachParents(sel: seq<Link>) returns (entries: seq<LinkEntry>)
      requires Anchored(sel, requests)
      ensures ParentsAttached(entries, sel, requests)
    {
      entries := [];
      for i := 0 to |sel|
        invariant |entries| == i
        invariant forall k :: 0 <= k < i ==>
          entries[k].problem == sel[k] && entries[k].request in requests && entries[k].request.id == sel[k].requestId
      {
        var parent := FirstWithId(requests, sel[i].requestId);
        entries := entries + [LinkEntry(parent.value, sel[i])];
      }
    }

    /** `get_event`: the event links inside the window, each with its request. */
    method GetEvent(now: Timestamp, daysToEvent: Option<int>) returns (resp: Response)
      requires Valid()
      ensures WindowFailure(now, daysToEvent).Some? ==> resp == ServerError(WindowFailure(now, daysToEvent).value)
      ensures WindowFailure(now, daysToEvent).None? ==>
        resp.status == StatusOk && resp.body.message == RetrievedMessage && resp.body.error == None &&
        resp.body.data.Links? &&
        ParentsAttached(resp.body.data.entries, Select(links, EventFilter(now, daysToEvent)), requests)
    {
      var failure := WindowFailure(now, daysToEvent);
      if failure.Some? {
        resp := ServerError(failure.value);
        return;
      }
      var events := Select(links, EventFilter(now, daysToEvent));
      SelectAnchored(links, EventFilter(now, daysToEvent), requests);
      var finalList := AttachParents(events);
      resp := Response(StatusOk, Body(RetrievedMessage, None, Links(finalList)));
    }

    /** `get_chamado`: the links of one problem, or else the unsolved links, each with its request. */
    method GetChamado(problemId: Option<int>) returns (resp: Response)
      requires Valid()
      ensures resp.status == StatusOk && resp.body.message == RetrievedMessage && resp.body.error == None
      ensures resp.body.data.Links?
      ensures ParentsAttached(resp.body.data.entries, Select(links, ListFilter(problemId)), requests)
    {
      var found := Select(links, ListFilter(problemId));
      SelectAnchored(links, ListFilter(problemId), requests);
      var finalList := AttachParents(found);
      resp := Response(StatusOk, Body(RetrievedMessage, None, Links(finalList)));
    }

    /** `delete_chamado`: mark the links under (request_id, problem_id) as solved. */
    method DeleteChamado(requestId: int, problemId: int) returns (resp: Response)
      requires Valid()
      modifies this
      ensures Valid()
      ensures requests == old(requests) && nextId == old(nextId)
      ensures links == PatchWhere(old(links), requestId, problemId, ResolvePatch)
      ensures |links| == |old(links)|
      ensures forall i :: 0 <= i < |links| ==>
        links[i] == if Admits(ForKey(requestId, problemId), old(links)[i])
                    then old(links)[i].(requestStatus := Solved) else old(links)[i]
      ensures var matched := Select(old(links), ForKey(requestId, problemId));
        resp == if matched == [] then Response(StatusOk, Body(NotFoundMessage, None, NoData))
                else Response(StatusOk, Body(ResolvedMessage, None, OneLink(matched[0].(requestStatus := Solved))))
    {
      var key := ForKey(requestId, problemId);
      var affected := |Select(links, key)|;
      SelectAfterPatch(links, requestId, problemId, ResolvePatch);
      PatchWhereAnchored(links, requests, requestId, problemId, ResolvePatch);
      forall i | 0 <= i < |links| {
        PatchWhereAt(links, requestId, problemId, ResolvePatch, i);
      }
      links := PatchWhere(links, requestId, problemId, ResolvePatch);
      if affected > 0 {
        var row := Select(links, key)[0];
        resp := Response(StatusOk, Body(ResolvedMessage, None, OneLink(row)));
      } else {
        resp := Response(StatusOk, Body(NotFoundMessage, None, NoData));
      }
    }

    /**
     * `update_chamado`. The request merge is committed before the link loop, so a
     * problem without problem_id fails after it and only the link updates are lost.
     * When no request has the id, `response_data` is read unassigned and the call fails.
     */
    method UpdateChamado(data: UpdateRequestModel, requestId: int) returns (resp: Response)
      requires Valid()
      modifies this
      ensures Valid() && nextId == old(nextId)
      ensures data.problems.None? ==>
        requests == old(requests) && links == old(links) && resp == ServerError(MissingKey("problems"))
      ensures data.problems.Some? ==> requests == MergeWhere(old(requests), requestId, RequestPatchOf(data))
      ensures data.problems.Some? && !HasId(old(requests), requestId) ==>
        requests == old(requests) && links == old(links) && resp == ServerError(UnboundLocal("response_data"))
      ensures data.problems.Some? && HasId(old(requests), requestId) && !AllKeyed(data.problems.value) ==>
        links == old(links) && resp == ServerError(MissingKey("problem_id"))
      ensures data.problems.Some? && HasId(old(requests), requestId) && AllKeyed(data.problems.value) ==>
        links == PatchAll(old(links), requestId, data.problems.value) &&
        resp.status == StatusOk && resp.body.message == UpdatedMessage && resp.body.error == None &&
        resp.body.data.Requests? && |resp.body.data.items| == 1 &&
        resp.body.data.items[0].request in requests && resp.body.data.items[0].request.id == requestId &&
        resp.body.data.items[0].problems == Select(links, ForRequest(requestId))
    {
      if data.problems.None? {
        resp := ServerError(MissingKey("problems"));
        return;
      }
      var problems := data.problems.value;
      var toUpdate := |WithId(requests, requestId)|;
      WithIdEmpty(requests, requestId);
      MergeWhereMissing(requests, requestId, RequestPatchOf(data));
      MergeKeepsValid(requests, links, requestId, RequestPatchOf(data), nextId);
      requests := MergeWhere(requests, requestId, RequestPatchOf(data));
      if toUpdate > 0 {
        var keyed, staged := StageLinkUpdates(links, requestId, problems);
        if !keyed {
          resp := ServerError(MissingKey("problem_id"));
          return;
        }
        PatchAllAnchored(links, requests, requestId, problems);
        links := staged;
        var i :| 0 <= i < |requests| && requests[i].id == requestId;
        WithIdUnique(requests, i);
        var query := WithId(requests, requestId);
        var finalList := GetHasData(query);
        resp := Response(StatusOk, Body(UpdatedMessage, None, Requests(finalList)));
      } else {
        resp := ServerError(UnboundLocal("response_data"));
      }
    }
  }

  /**
   * The loop over the problems of an update call, run on a working copy of the link
   * table: the copy is kept only when every problem names its problem_id, since a
   * KeyError ends the call before the link updates are committed.
   */
  method StageLinkUpdates(ls: seq<Link>, rid: int, ps: seq<UpdateHasModel>) returns (keyed: bool, staged: seq<Link>)
    ensures keyed == AllKeyed(ps)
    ensures keyed ==> staged == PatchAll(ls, rid, ps)
  {
    staged := ls;
    for i := 0 to |ps|
      invariant AllKeyed(ps[..i])
      invariant staged == PatchAll(ls, rid, ps[..i])
    {
      if ps[i].problemId.None? {
        return false, ls;
      }
      assert ps[..i + 1][..i] == ps[..i];
      staged := PatchWhere(staged, rid, ps[i].problemId.value, LinkPatchOf(ps[i], rid));
    }
    assert ps[..|ps|] == ps;
    keyed := true;
  }

  // ---------------------------------------------------------------- invariant upkeep

  lemma {:induction false} AddRequestKeepsValid(rs: seq<Request>, ls: seq<Link>, r: Request)
    requires IdsUnique(rs) && IdsBelow(rs, r.id) && Anchored(ls, rs)
    ensures IdsUnique(rs + [r]) && IdsBelow(rs + [r], r.id + 1) && Anchored(ls, rs + [r])
    ensures forall q :: q in rs ==> q.id != r.id
  {
    forall k | 0 <= k < |ls| ensures HasId(rs + [r], ls[k].requestId) {
      assert HasId(rs, ls[k].requestId);
      var i :| 0 <= i < |rs| && rs[i].id == ls[k].requestId;
      assert (rs + [r])[i] == rs[i];
    }
  }

  lemma {:induction false} NewLinksAnchored(ls: seq<Link>, rs: seq<Request>, id: int, ps: seq<HasModel>)
    requires Anchored(ls, rs) && HasId(rs, id)
    ensures Anchored(ls + NewLinks(id, ps), rs)
  {
    var all := ls + NewLinks(id, ps);
    forall k | 0 <= k < |all| ensures HasId(rs, all[k].requestId) {
      if k < |ls| {
        assert all[k] == ls[k];
      } else {
        assert all[k] == NewLinks(id, ps)[k - |ls|];
      }
    }
  }

  lemma {:induction false} MergeKeepsValid(rs: seq<Request>, ls: seq<Link>, id: int, p: RequestPatch, bound: int)
    requires IdsUnique(rs) && IdsBelow(rs, bound) && Anchored(ls, rs)
    ensures var rs' := MergeWhere(rs, id, p);
      IdsUnique(rs') && IdsBelow(rs', bound) && Anchored(ls, rs') &&
      (HasId(rs', id) <==> HasId(rs, id))
  {
    var rs' := MergeWhere(rs, id, p);
    MergeWhereKeepsIds(rs, id, p);
    forall x | HasId(rs, x) ensures HasId(rs', x) {
      var i :| 0 <= i < |rs| && rs[i].id == x;
      assert rs'[i].id == x;
    }
    if HasId(rs', id) {
      var i :| 0 <= i < |rs'| && rs'[i].id == id;
      assert rs[i].id == id;
    }
  }

  /** The link updates of an update call never rewrite a row's (request_id, problem_id). */
  lemma {:induction false} PatchAllKeepsKeys(ls: seq<Link>, rid: int, ps: seq<UpdateHasModel>)
    requires AllKeyed(ps)
    ensures forall i :: 0 <= i < |ls| ==>
      PatchAll(ls, rid, ps)[i].requestId == ls[i].requestId && PatchAll(ls, rid, ps)[i].problemId == ls[i].problemId
  {
    if ps != [] {
      var init := InitOf(ps);
      var last := ps[|ps| - 1];
      PatchAllKeepsKeys(ls, rid, init);
      PatchWhereKeepsKeys(PatchAll(ls, rid, init), rid, last.problemId.value, LinkPatchOf(last, rid));
    }
  }

  lemma {:induction false} PatchAllAnchored(ls: seq<Link>, rs: seq<Request>, rid: int, ps: seq<UpdateHasModel>)
    requires AllKeyed(ps) && Anchored(ls, rs)
    ensures Anchored(PatchAll(ls, rid, ps), rs)
  {
    PatchAllKeepsKeys(ls, rid, ps);
  }
}
