/** Rows of the two tables and the shapes of the bodies the handlers receive. */
module Schema {

  datatype Option<+T> = None | Some(value: T)

  /** A field of an incoming JSON body: left out, sent as null, or sent with a value. */
  datatype Supplied<+T> = Omitted | Null | Given(value: T)

  /** Timestamps are whole seconds; the date strings of the wire format are not modelled. */
  type Timestamp = int

  const SecondsPerDay: int := 86400

  const Solved: string := "solved"
  const DefaultIsEvent: bool := false
  const DefaultStatus: string := "pending"
  const DefaultPriority: string := "normal"

  /** A row of the request table. */
  datatype Request = Request(
    id: int,
    attendantName: string,
    applicantName: string,
    applicantPhone: string,
    place: string,
    description: Option<string>,
    createdAt: Option<Timestamp>,
    workstationId: int)

  /** A row of the `has` table: one problem attached to one request. */
  datatype Link = Link(
    requestId: int,
    problemId: int,
    categoryId: int,
    isEvent: bool,
    eventDate: Option<Timestamp>,
    requestStatus: string,
    priority: string)

  /** `hasModel` after validation: omitted fields already hold their defaults. */
  datatype HasModel = HasModel(
    problemId: int,
    categoryId: int,
    isEvent: bool,
    eventDate: Option<Timestamp>,
    requestStatus: string,
    priority: string)

  /** `RequestModel`: the body of a create call. */
  datatype RequestModel = RequestModel(
    attendantName: string,
    applicantName: string,
    applicantPhone: string,
    place: string,
    description: Option<string>,
    createdAt: Option<Timestamp>,
    workstationId: int,
    problems: seq<HasModel>)

  /** The JSON body of one problem of an update call, before defaults are filled in. */
  datatype UpdateHasBody = UpdateHasBody(
    problemId: Option<int>,
    categoryId: Option<int>,
    isEvent: Supplied<bool>,
    eventDate: Option<Timestamp>,
    requestStatus: Supplied<string>,
    priority: Supplied<string>)

  /** `UpdateHasModel` after validation; None is Python's None. */
  datatype UpdateHasModel = UpdateHasModel(
    problemId: Option<int>,
    categoryId: Option<int>,
    isEvent: Option<bool>,
    eventDate: Option<Timestamp>,
    requestStatus: Option<string>,
    priority: Option<string>)

  /** `UpdateRequestModel`: every field defaults to None, so omitted and null coincide. */
  datatype UpdateRequestModel = UpdateRequestModel(
    attendantName: Option<string>,
    applicantName: Option<string>,
    applicantPhone: Option<string>,
    place: Option<string>,
    description: Option<string>,
    createdAt: Option<Timestamp>,
    workstationId: Option<int>,
    problems: Option<seq<UpdateHasModel>>)

  /** An omitted field takes the declared default; an explicit null stays None. */
  function WithDefault<T>(f: Supplied<T>, default: T): Option<T>
  {
    match f
    case Omitted => Some(default)
    case Null => None
    case Given(v) => Some(v)
  }

  /** Pydantic's construction of an `UpdateHasModel` from its body. */
  function UpdateHasModelOf(b: UpdateHasBody): (m: UpdateHasModel)
    ensures m.problemId == b.problemId && m.categoryId == b.categoryId && m.eventDate == b.eventDate
    ensures b.isEvent.Omitted? ==> m.isEvent == Some(DefaultIsEvent)
    ensures b.requestStatus.Omitted? ==> m.requestStatus == Some(DefaultStatus)
    ensures b.priority.Omitted? ==> m.priority == Some(DefaultPriority)
    ensures m.isEvent.None? <==> b.isEvent.Null?
    ensures m.requestStatus.None? <==> b.requestStatus.Null?
    ensures m.priority.None? <==> b.priority.Null?
    ensures b.isEvent.Given? ==> m.isEvent == Some(b.isEvent.value)
    ensures b.requestStatus.Given? ==> m.requestStatus == Some(b.requestStatus.value)
    ensures b.priority.Given? ==> m.priority == Some(b.priority.value)
  {
    UpdateHasModel(
      b.problemId,
      b.categoryId,
      WithDefault(b.isEvent, DefaultIsEvent),
      b.eventDate,
      WithDefault(b.requestStatus, DefaultStatus),
      WithDefault(b.priority, DefaultPriority))
  }
}
