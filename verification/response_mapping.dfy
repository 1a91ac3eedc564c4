/**
 * The package-level table from API code to description
 * (`code2Description`), its lookup and the registration of custom codes.
 */
module ResponseMapping {
  import opened Wrappers
  import opened GoInt

  datatype Description = Description(status: string, message: string)

  const OkMessage := "The request was successfully processed by AfterShip."
  const CreatedMessage := "The request has been fulfilled and a new resource has been created."
  const AcceptedMessage :=
    "The request has been accepted for processing, but the processing has not been completed."
  const BadRequestMessage :=
    "The request was not understood by the server, "
    + "generally due to bad syntax or because the Content-Type header was not correctly set to application/json."
  const UnauthorizedMessage :=
    "The necessary authentication credentials are not present in the request or are incorrect."
  const PaymentRequiredMessage := "Payment Required"
  const ForbiddenMessage :=
    "The server is refusing to respond to the request. "
    + "This is generally because you have not requested the appropriate scope for this action."
  const NotFoundMessage := "The requested resource was not found but could be available again in the future."
  const MethodNotAllowedMessage :=
    "The method received in the request-line is known by the server but not supported by the target resource."
  const ConflictMessage := "The request conflicts with another request (perhaps due to using the same idempotent key)."
  const UnprocessableEntityMessage :=
    "The request body was well-formed but contains semantical errors. "
    + "The response body will provide more details in the errors or error parameters."
  const TooManyRequestsMessage :=
    "The request was not accepted because the application has exceeded the rate limit. "
    + "The default API call limit is 10 requests per second."
  const InternalErrorMessage :=
    "Something went wrong on AfterShip's end. Also, some error that cannot be retried "
    + "happened on an external system that this call relies on."

  /** The table the package starts with. */
  function BuiltinTable(): map<int, Description> {
    map[
      20000 := Description("OK", OkMessage),
      20100 := Description("Created", CreatedMessage),
      20200 := Description("Accepted", AcceptedMessage),
      40000 := Description("BadRequest", BadRequestMessage),
      40100 := Description("Unauthorized", UnauthorizedMessage),
      40101 := Description("Unauthorized", UnauthorizedMessage),
      40102 := Description("Unauthorized", UnauthorizedMessage),
      40103 := Description("Unauthorized", UnauthorizedMessage),
      40200 := Description("PaymentRequired", PaymentRequiredMessage),
      40300 := Description("Forbidden", ForbiddenMessage),
      40400 := Description("NotFound", NotFoundMessage),
      40500 := Description("MethodNotAllowed", MethodNotAllowedMessage),
      40900 := Description("Conflict", ConflictMessage),
      42200 := Description("UnprocessableEntity", UnprocessableEntityMessage),
      42900 := Description("TooManyRequests", TooManyRequestsMessage),
      50000 := Description("InternalError", InternalErrorMessage)
    ]
  }

  /** `HttpCodeDescription`: the entry for `code`, or the zero description (both strings empty). */
  function Describe(table: map<int, Description>, code: int): Description {
    if code in table then table[code] else Description("", "")
  }

  /** `code/100*100` with Go's truncating division: the code with its sub-code cleared. */
  function BaseCode(code: int): int {
    Quot(code, 100) * 100
  }

  const EmptyStatusError := "status shouldn't be empty"
  const EmptyMessageError := "message shouldn't be empty"

  /**
   * `RegisterCustomCode` on a given table: the new table, or the error text.
   * An empty status is taken from the entry of the base code; the status
   * check comes before the message check.
   */
  function Register(table: map<int, Description>, code: int, status: string, message: string)
    : (r: Result<map<int, Description>, string>)
    ensures r.Err? <==> (status == "" && BaseCode(code) !in table) || message == ""
    ensures r.Err? && status == "" && BaseCode(code) !in table ==> r.error == EmptyStatusError
    ensures r.Err? && (status != "" || BaseCode(code) in table) ==> r.error == EmptyMessageError
    ensures r.Ok? ==> r.value.Keys == table.Keys + {code}
    ensures r.Ok? ==> forall c :: c in table && c != code ==> r.value[c] == table[c]
  {
    if status == "" && BaseCode(code) !in table then Err(EmptyStatusError)
    else
      var status' := if status == "" then table[BaseCode(code)].status else status;
      if message == "" then Err(EmptyMessageError)
      else Ok(table[code := Description(status', message)])
  }

  /**
   * After a successful registration the lookup of `code` gives the new
   * entry (status inherited from the base code when it was empty), and the
   * lookup of every other code is unchanged.
   */
  lemma DescribeAfterRegister(table: map<int, Description>, code: int, status: string, message: string)
    requires Register(table, code, status, message).Ok?
    ensures var t := Register(table, code, status, message).value;
            && Describe(t, code).message == message
            && Describe(t, code).status == (if status == "" then Describe(table, BaseCode(code)).status else status)
            && forall c :: c != code ==> Describe(t, c) == Describe(table, c)
  {
    var t := Register(table, code, status, message).value;
    forall c | c != code ensures Describe(t, c) == Describe(table, c) {
      assert c in t <==> c in table;
    }
  }

  /**
   * Every built-in key is a status times 100 plus a sub-code below 100,
   * the status is an HTTP status, and the entry of its base code exists.
   */
  lemma BuiltinKeys(code: int)
    requires code in BuiltinTable()
    ensures 200 <= Quot(code, 100) <= 599 && 0 <= Rem(code, 100) <= 3
    ensures BaseCode(code) in BuiltinTable()
  {
  }

  /** A custom sub-code under any built-in status inherits that status when its own status is empty. */
  lemma RegisterSubCodeInherits(code: int, message: string)
    requires code in BuiltinTable() && message != ""
    ensures Register(BuiltinTable(), code, "", message).Ok?
    ensures Describe(Register(BuiltinTable(), code, "", message).value, code)
         == Description(BuiltinTable()[BaseCode(code)].status, message)
  {
    BuiltinKeys(code);
  }

  /**
   * The registry: the package-level `code2Description` map, which
   * `RegisterCustomCode` updates in place.
   */
  class CodeRegistry {
    var table: map<int, Description>

    constructor ()
      ensures table == BuiltinTable()
    {
      table := BuiltinTable();
    }

    function HttpCodeDescription(code: int): Description
      reads this
    {
      Describe(table, code)
    }

    /** Returns the error text, or `None` after storing the entry. */
    method RegisterCustomCode(code: int, status: string, message: string) returns (err: Option<string>)
      modifies this
      ensures match Register(old(table), code, status, message)
              case Ok(t) => err == None && table == t
              case Err(e) => err == Some(e) && table == old(table)
    {
      var status' := status;
      if status' == "" {
        var base := BaseCode(code);
        if base !in table {
          return Some(EmptyStatusError);
        }
        status' := table[base].status;
      }
      if message == "" {
        return Some(EmptyMessageError);
      }
      table := table[code := Description(status', message)];
      err := None;
    }
  }
}
