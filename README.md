# Ticket router model

A Dafny model of the ticket ("chamado") router of a help-desk API. The router keeps two
tables: the request table, one row per ticket, and the `has` table, one row per problem
attached to a ticket. Each `has` row carries its own event flag and date, status and
priority. Six handlers run over the two tables:

- `post_request` opens a ticket together with its problems.
- `get_has_data` attaches to each given ticket all of its problem links.
- `get_event` lists the event links inside a time window.
- `get_chamado` lists the links of one problem, or else the links not yet solved.
- `delete_chamado` marks the links under a (request_id, problem_id) key as solved.
- `update_chamado` merges a partial body into a ticket and its links.

Each response is an envelope `{message, error, data}` with an HTTP status.

Files:

- `schema.dfy` (module `Schema`): the two row types and the bodies the handlers receive.
  It also models the defaults that pydantic fills into omitted fields.
- `envelope.dfy` (module `Envelope`): the response envelope, `get_error_response`, and the
  text of each exception a handler can raise on the modelled paths.
- `tables.dfy` (module `Tables`): the database statements, as functions over the tables in
  table order. They are a filtered read (`Select`, `WithId`, `FirstWithId`), a bulk
  link update (`PatchWhere`) and a bulk request update (`MergeWhere`).
- `router.dfy` (module `Router`): class `Store`, which holds both tables and the ids'
  counter, with one method per handler and the invariant `Valid()`. `Valid()` says that ids
  are unique and below the counter and that every link names a stored request.
- `properties.dfy` (module `Properties`): lemmas relating the handlers' effects to the
  tables.

Modelling choices:

- Timestamps are integer seconds. The current instant is the parameter `now` of
  `GetEvent`; `datetime.now()` and `datetime.today()` both stand for it.
- A day is 86400 seconds.
- Python's `None` is `Option.None`. For the three `UpdateHasModel` fields that carry a
  default, a body field can be left out, sent as null, or sent with a value (`Supplied`).
- List results are in table order. `.first()` is the first matching row in table order.
- The row count that `.update(...)` returns is the number of rows its filter matches.
- Failures are the exceptions the handlers' own code raises:
  - `KeyError` from `data_dict.pop("problems")` and from `problem["problem_id"]`;
  - `UnboundLocalError` from reading `response_data` when it was never assigned;
  - `OverflowError` from `datetime.today() + timedelta(days=days_to_event)` in `get_event`.
    The day count must fit a C `int`, its magnitude must be at most 999999999, and the sum
    must stay within years 1 to 9999 (`MinDatetime` and `MaxDatetime`, in seconds from
    1970-01-01).
- `str(e)` uses the wording of Python 3.11, for `UnboundLocalError` and for the three
  `OverflowError` texts.

Where the code and the design of the system disagree, the model follows the code:

- The design says `update_chamado` answers "not found" with a success status. The code
  never assigns `response_data` on that branch, so the call ends as the 500 error envelope.
- The design makes `attendant_name` immutable. The code drops it only when it is truthy, so
  an empty string is written.
- The design filters events from the start of today. The code compares with the current
  instant.
- The design lists unfiltered requests with all their problems. The code lists unsolved
  links, each under `problems` as a single object.
- Defaults of `UpdateHasModel` (`is_event=False`, `request_status="pending"`,
  `priority="normal"`) survive `exclude_none`, so every link update writes them unless the
  caller sends an explicit null.
- `update_chamado` commits the request merge before the link loop. A problem without
  `problem_id` then fails the call after the merge, and the merge stays.

## Model

| member | source | states |
|---|---|---|
| `Schema.UpdateHasModelOf` | src/routers/request.py:17-23 | omitted is_event, request_status and priority become False, "pending" and "normal"; an explicit null gives None, and only then; a given value is kept; the other fields are passed through |
| `Envelope.Describe` | src/routers/request.py:121 | `str(e)` of each failure is at least two characters long; its first character, and for the two texts starting with 'd' its fourth, tell the kinds apart (with `ErrorBodyKeepsCause`, the text determines the failure) |
| `Envelope.DecimalInjective` | src/routers/request.py:121 | the day count printed into the `timedelta` overflow text determines the count |
| `Envelope.ErrorBody` | src/routers/request.py:118-123 | the error envelope has the fixed message "Erro ao processar dados", null data and exactly `str(e)` as error |
| `Envelope.ServerError` | src/routers/request.py:220-224 | every handler's `except` branch answers status 500 with the error envelope of the cause |
| `Envelope.ErrorBodyKeepsCause` | src/routers/request.py:118-123 | the cause's text goes into the envelope without loss: two failures give the same envelope only if they are the same failure |
| `Router.Store.PostRequest` | src/routers/request.py:127-160 | the new request gets the counter's id, which no stored request has; it is appended; one link per problem, with that request_id, is appended in order; prior rows are unchanged; the result is 201 with the new request and no problems; the invariant is kept |
| `Router.NewRequest` | src/routers/request.py:129-133 | the new request row carries the generated id and every field of the body except the problems |
| `Router.NewLinks` | src/routers/request.py:139-141 | the inserted links are one per problem, in order; each carries the new request's id and the problem's own problem_id, category_id, is_event, event_date, request_status and priority |
| `Router.Store.GetHasData` | src/routers/request.py:163-172 | one entry per given request, in the given order; each entry holds the request and the links with its id, in table order |
| `Router.Store.AttachParents` | src/routers/request.py:197-207 | entry k pairs the k-th selected link with a stored request whose id is that link's request_id |
| `Router.WindowFailure` | src/routers/request.py:180-188 | the window's end raises no OverflowError exactly when the day count is absent or 0, or is of magnitude at most 999999999 with the end inside years 1..9999; a day count outside a C int gives the "Python int too large to convert to C int" failure, exactly; a count inside it of magnitude above 999999999 gives the "days=…" failure carrying that count, exactly; any other failure is "date value out of range" |
| `Router.EventFilter` | src/routers/request.py:180-196 | a link passes the event filter exactly when it is an event dated from now on, and, for a nonzero day count d, no later than now + d days |
| `Router.Store.GetEvent` | src/routers/request.py:175-224 | when the window's end overflows, the 500 envelope of that OverflowError; otherwise status 200 and the retrieval message, with the links the event window admits, in table order, each with its parent request |
| `Router.ListFilter` | src/routers/request.py:232-248 | a link passes the listing filter exactly when it has the given nonzero problem_id, or, with problem_id absent or 0, when its status is not "solved" |
| `Router.Store.GetChamado` | src/routers/request.py:227-276 | status 200 and the retrieval message; the entries are the links of a nonzero problem_id, or else the unsolved links, in table order, each with its parent request |
| `Router.Store.DeleteChamado` | src/routers/request.py:279-315 | every link under (request_id, problem_id) gets status "solved"; no other field or row changes and no row is added; the answer is the first such link, or null data with "Chamado não encontrado", both with status 200 |
| `Router.Store.UpdateChamado` | src/routers/request.py:318-358 | an omitted problems list fails with the KeyError envelope before any write; otherwise the request merge is applied; an unknown id leaves both tables and ends as the 500 envelope; a problem without problem_id keeps the merge, leaves the links and fails; otherwise the links get every problem's update and the answer is the request with all its links |
| `Router.RequestPatchOf` | src/routers/request.py:323-325 | the attendant name is left out exactly when it is None or a non-empty string, so only an empty one is written; every other request field is passed as given, None meaning "leave as it is" |
| `Router.LinkPatchOf` | src/routers/request.py:336-339 | a problem's update writes request_id = the path's id and keeps the (request_id, problem_id) key it is filtered on; its other fields are the problem's own |
| `Router.PatchAll` | src/routers/request.py:335-339 | the link updates of one call, problem after problem, keep the table's length; `PatchAllUntouched`, `PatchAllLastWins`, `PatchAllSingleWrite`, `PatchAllWritesLast` and `PatchAllKeepsKeys` state their effect row by row |
| `Router.StageLinkUpdates` | src/routers/request.py:335-340 | the staged table is kept exactly when every problem names its problem_id, and it is then the problems' updates applied in order |
| `Router.PatchAllKeepsKeys` | src/routers/request.py:336-339 | link updates never rewrite a row's (request_id, problem_id) |
| `Tables.WithIdEmpty` | src/routers/request.py:328-333 | the query by id finds nothing exactly when no row has the id |
| `Tables.WithIdUnique` | src/routers/request.py:341 | with unique ids the query by id returns exactly the one row that has it |
| `Tables.WithIdMembers` | src/routers/request.py:341 | the query by id returns the stored rows with that id and no others |
| `Tables.FirstWithId` | src/routers/request.py:200-204 | a row is found exactly when one has the id, and it is the row at the first index with that id |
| `Tables.SelectMembers` | src/routers/request.py:167-169 | a link is returned exactly when it is stored and passes the filter |
| `Tables.SelectCounts` | src/routers/request.py:167-169 | every passing link is returned as many times as it is stored, and no other link is returned |
| `Tables.SelectAppend` | src/routers/request.py:167-169 | the result keeps table order: selecting from two parts is selecting from the first and then the second |
| `Tables.MergeWhereAt` | src/routers/request.py:328-332 | the request update rewrites the row with the id and leaves every other row as it was |
| `Tables.PatchWhereAt` | src/routers/request.py:284-289 | a link update rewrites the rows under the key, leaves the others and adds none |
| `Tables.PatchWhereIdempotent` | src/routers/request.py:284-289 | a key-keeping link update applied twice gives the table it gives once |
| `Tables.SelectAfterPatch` | src/routers/request.py:291-298 | after a key-keeping update the key matches as many rows as before, and the first of them is the updated first match |
| `Properties.EventQueryExact` | src/routers/request.py:180-196 | with a nonzero day count d the event query returns exactly the stored event links dated in [now, now + d days]; with d absent or 0 it returns exactly those dated from now on; status is never tested |
| `Properties.ListQueryExact` | src/routers/request.py:232-248 | with a nonzero problem_id the listing returns exactly the links of that problem; otherwise it returns exactly the links whose status is not "solved" |
| `Properties.AggregateExact` | src/routers/request.py:167-170 | a request's problems are exactly the stored links that name it |
| `Properties.CreatedLinkListed` | src/routers/request.py:139-141 | after a create, listing by any nonzero problem_id of the new request returns the new link |
| `Properties.ResolveAt` | src/routers/request.py:284-289 | resolving turns exactly the rows under the key into the same rows with status "solved" |
| `Properties.ResolveIdempotent` | src/routers/request.py:284-291 | resolving twice yields the tables of resolving once, and the second call still finds as many rows |
| `Properties.ResolvedLeavesOpenList` | src/routers/request.py:246-248 | after resolving a key, the default listing holds no link under it |
| `Properties.ResolvedEventStaysListed` | src/routers/request.py:180-196 | an event link in the window stays in the event listing after it is resolved |
| `Properties.MergeAttendantName` | src/routers/request.py:323-325 | the merge keeps the attendant name, except that a supplied empty string replaces it |
| `Properties.MergeWritesSuppliedFields` | src/routers/request.py:323-332 | on the row with the id every supplied field is written and every None field is kept; the other rows do not change |
| `Properties.PatchAllUntouched` | src/routers/request.py:335-339 | a row is left alone unless it belongs to the request and one of the problems names its problem_id |
| `Properties.PatchAllWritesLast` | src/routers/request.py:335-339 | a row updated last by a problem carries every non-None field of that problem and keeps its key |
| `Properties.PatchAllLastWins` | src/routers/request.py:323-339 | the last problem naming a row applies its update to the row as the earlier problems left it: its non-None fields are written, its None fields (left out by `exclude_none`) keep their values |
| `Properties.PatchAllSingleWrite` | src/routers/request.py:323-339 | a row named by exactly one problem ends as that problem's update of the stored row: each supplied field is written and each None field keeps the stored value; the key is kept |
| `Tables.MergeWhereMissing` | src/routers/request.py:328-333 | a request update by an id no row has changes no row |
| `Properties.OmittedDefaultsWritten` | src/routers/request.py:17-23 | a row updated last by a problem whose body left out is_event, request_status and priority ends with False, "pending" and "normal" |

## Left out

- HTTP routing, dependency injection, `JSONResponse` and `jsonable_encoder`: the status and
  the envelope are a datatype.
- Pydantic validation and the schema examples: inputs are taken as validated. A null sent
  for a non-nullable field never reaches a handler.
- The database session, `commit`, `refresh` and schema creation at import: the tables are
  sequences in a class. The `database` and `models` modules are not part of this model, so
  column defaults and database constraints are not modelled.
- Failures of the database itself, such as lost connections or constraint violations, are
  not modelled. Only the exceptions listed under the modelling choices end as the error
  envelope.
- Partial-failure atomicity of `post_request`, whose first commit comes before the link
  inserts: no store failure is modelled, so the gap never shows.
- A link whose request is missing would make the listing loops fail on `None["problems"]`.
  `Valid()` keeps every link tied to a stored request, so that branch is unreachable and
  is not modelled.
- An update body with no request field gives `.update({})`. The model treats it as
  matching the row with the id and changing nothing. What the database library does with
  an empty dict is not modelled.
- Rolling back the link updates when a problem without `problem_id` fails the update call:
  `StageLinkUpdates` works on a copy that is dropped, on the assumption that `get_db` closes
  the session without committing. The `database` module is not part of this model.
- The text "Python int too large to convert to C int" is taken as what the `timedelta`
  conversion of a day count outside a C `int` reports; `long` and `int` widths other than
  32 bits are not modelled.
- Wall clock, time zones and ISO-8601 parsing: `now` and timestamps are integers.
- Concurrency and isolation between simultaneous calls.
