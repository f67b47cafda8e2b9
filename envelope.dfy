/** The uniform {message, error, data} response and its HTTP status. */
module Envelope {
  import opened Schema

  const StatusOk: int := 200
  const StatusCreated: int := 201
  const StatusServerError: int := 500

  const ErrorMessage: string := "Erro ao processar dados"
  const CreatedMessage: string := "Dado cadastrado com sucesso"
  const RetrievedMessage: string := "Dados recuperados com sucesso"
  const ResolvedMessage: string := "Chamado marcado como resolvido"
  const NotFoundMessage: string := "Chamado não encontrado"
  const UpdatedMessage: string := "Dados atualizados com sucesso"

  /** The exceptions the handlers can raise on the paths the model covers. */
  datatype Failure =
    | MissingKey(key: string)      // KeyError from `dict.pop` or `dict[...]`
    | UnboundLocal(name: string)   // UnboundLocalError from reading an unassigned local
    | DaysTooLarge(days: int)      // OverflowError: `timedelta` day count of magnitude above 999999999
    | IntTooLarge                  // OverflowError: `timedelta` day count outside a C int
    | DateOutOfRange               // OverflowError: `datetime` arithmetic leaving years 1..9999

  /** The decimal digits of a natural number, most significant first. */
  function Digits(n: nat): (s: string)
    ensures |s| >= 1 && (|s| == 1 <==> n < 10)
    ensures forall k :: 0 <= k < |s| ==> '0' <= s[k] <= '9'
  {
    if n < 10 then ["0123456789"[n]] else Digits(n / 10) + ["0123456789"[n % 10]]
  }

  /** Different numbers have different digits. */
  lemma {:induction false} DigitsInjective(a: nat, b: nat)
    ensures Digits(a) == Digits(b) ==> a == b
  {
    if Digits(a) == Digits(b) && a >= 10 && b >= 10 {
      var s := Digits(a);
      assert s[..|s| - 1] == Digits(a / 10);
      assert s[..|s| - 1] == Digits(b / 10);
      DigitsInjective(a / 10, b / 10);
    }
  }

  /** Python's `%d` of an integer: a minus sign, when negative, before its magnitude's digits. */
  function Decimal(n: int): (s: string)
    ensures |s| >= 1
    ensures s[0] == '-' <==> n < 0
  {
    if n < 0 then "-" + Digits(-n) else Digits(n)
  }

  /** Different integers print differently. */
  lemma {:induction false} DecimalInjective(a: int, b: int)
    ensures Decimal(a) == Decimal(b) ==> a == b
  {
    if Decimal(a) == Decimal(b) {
      if a < 0 {
        assert Decimal(a)[1..] == Digits(-a);
        assert Decimal(b)[1..] == Digits(-b);
        DigitsInjective(-a, -b);
      } else {
        DigitsInjective(a, b);
      }
    }
  }

  const DaysPrefix: string := "days="
  const DaysSuffix: string := "; must have magnitude <= 999999999"

  /**
   * `str(e)` for each failure (Python 3.11 wording). The first character tells the kinds
   * apart, except that the two overflow texts starting with 'd' differ at their fourth.
   */
  function Describe(e: Failure): (s: string)
    ensures |s| >= 2
    ensures s[0] == match e
      case MissingKey(_) => '\''
      case UnboundLocal(_) => 'c'
      case DaysTooLarge(_) => 'd'
      case IntTooLarge => 'P'
      case DateOutOfRange => 'd'
    ensures e.DaysTooLarge? || e.DateOutOfRange? ==> |s| >= 4 && s[3] == (if e.DaysTooLarge? then 's' else 'e')
  {
    match e
    case MissingKey(k) => "'" + k + "'"
    case UnboundLocal(n) => "cannot access local variable '" + n + "' where it is not associated with a value"
    case DaysTooLarge(d) => DaysPrefix + Decimal(d) + DaysSuffix
    case IntTooLarge => "Python int too large to convert to C int"
    case DateOutOfRange => "date value out of range"
  }

  /** A request together with all of its links (`get_has_data`). */
  datatype RequestEntry = RequestEntry(request: Request, problems: seq<Link>)

  /** A request together with ONE of its links, stored under "problems" as a single object. */
  datatype LinkEntry = LinkEntry(request: Request, problem: Link)

  datatype Data =
    | NoData
    | OneRequest(request: Request)
    | OneLink(link: Link)
    | Requests(items: seq<RequestEntry>)
    | Links(entries: seq<LinkEntry>)

  datatype Body = Body(message: string, error: Option<string>, data: Data)

  datatype Response = Response(status: int, body: Body)

  /** `get_error_response`: the generic message, the cause's text, no data. */
  function ErrorBody(e: Failure): (b: Body)
    ensures b.message == ErrorMessage && b.data == NoData
    ensures b.error == Some(Describe(e))
  {
    Body(ErrorMessage, Some(Describe(e)), NoData)
  }

  /** The `except` branch of every handler: the error envelope with status 500. */
  function ServerError(e: Failure): (r: Response)
    ensures r.status == StatusServerError && r.body == ErrorBody(e)
  {
    Response(StatusServerError, ErrorBody(e))
  }

  /** The envelope passes its cause through without loss: two failures give the same envelope only if they are the same. */
  lemma {:induction false} ErrorBodyKeepsCause(e1: Failure, e2: Failure)
    ensures ErrorBody(e1) == ErrorBody(e2) ==> e1 == e2
  {
    if ErrorBody(e1) == ErrorBody(e2) {
      var s := Describe(e1);
      assert s == Describe(e2);
      assert e1.MissingKey? == e2.MissingKey? && e1.UnboundLocal? == e2.UnboundLocal?;
      assert e1.IntTooLarge? == e2.IntTooLarge?;
      assert e1.DaysTooLarge? == e2.DaysTooLarge?;
      if e1.MissingKey? {
        assert s == "'" + e1.key + "'" && s == "'" + e2.key + "'";
        assert s[1..|s| - 1] == e1.key;
        assert s[1..|s| - 1] == e2.key;
      } else if e1.UnboundLocal? {
        var prefix := "cannot access local variable '";
        var suffix := "' where it is not associated with a value";
        assert s == prefix + e1.name + suffix && s == prefix + e2.name + suffix;
        assert s[|prefix|..|s| - |suffix|] == e1.name;
        assert s[|prefix|..|s| - |suffix|] == e2.name;
      } else if e1.DaysTooLarge? {
        assert s == DaysPrefix + Decimal(e1.days) + DaysSuffix;
        assert s == DaysPrefix + Decimal(e2.days) + DaysSuffix;
        assert s[|DaysPrefix|..|s| - |DaysSuffix|] == Decimal(e1.days);
        assert s[|DaysPrefix|..|s| - |DaysSuffix|] == Decimal(e2.days);
        DecimalInjective(e1.days, e2.days);
      }
    }
  }
}
