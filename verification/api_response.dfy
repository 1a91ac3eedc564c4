/**
 * API codes and response bodies: the five-digit code built from an HTTP
 * status and a sub-code (`buildAPICode`), its decomposition by `Meta`, and
 * the bodies the success and error helpers send.
 */
module ApiResponse {
  import opened Wrappers
  import opened GoInt
  import opened ResponseMapping

  /** `fmt.Sprintf("%0*d", 2, sub)`: the decimal text of `sub`, zero-padded to two characters. */
  function Pad2(sub: int): string {
    if 0 <= sub < 10 then "0" + FormatInt(sub) else FormatInt(sub)
  }

  /** `buildAPICode`: the status and the padded sub-code written side by side and read back, errors dropped. */
  function BuildAPICode(status: int, sub: int): int {
    AtoiIgnoringError(FormatInt(status) + Pad2(sub))
  }

  lemma {:induction false} Pad2Digits(sub: int)
    requires 0 <= sub <= 99
    ensures |Pad2(sub)| == 2 && AllDigits(Pad2(sub)) && DigitsValue(Pad2(sub)) == sub
  {
    var p := Pad2(sub);
    if sub < 10 {
      assert p == ['0', DigitChar(sub)];
      assert p[..1] == ['0'] && ['0'][..0] == [];
    } else {
      assert p == NatDigits(sub / 10) + [DigitChar(sub % 10)];
      assert p[..1] == NatDigits(sub / 10);
      DigitsValueOfNatDigits(sub);
    }
  }

  /** Digit text with a digit first and a value in the int64 range reads back as that value. */
  lemma AtoiOfDigits(s: string)
    requires s != [] && AllDigits(s) && DigitsValue(s) <= Int64Max
    ensures AtoiIgnoringError(s) == DigitsValue(s)
  {
    AtoiOfDigitsParsed(s);
  }

  /** Digit text with a value above the int64 range reads back as the largest int64. */
  lemma AtoiOfLongDigits(s: string)
    requires s != [] && AllDigits(s) && DigitsValue(s) > Int64Max
    ensures AtoiIgnoringError(s) == Int64Max
  {
    AtoiOfDigitsParsed(s);
  }

  /** Text made of digits only is read whole: unsigned, with no syntax error. */
  lemma AtoiOfDigitsParsed(s: string)
    requires s != [] && AllDigits(s)
    ensures Atoi(s) == if DigitsValue(s) > Int64Max then RangeError(Int64Max) else Number(DigitsValue(s))
  {
    if DigitsValue(s) <= Uint64Max {
      ParseUintDigits(s);
    } else {
      ParseUintOverflow(s, []);
      assert s + [] == s;
    }
    AtoiSigned("", s, []);
    assert "" + s + [] == s;
  }

  /** For a status `s` and a sub-code below 100 the code is `s * 100 + sub`. */
  lemma BuildAPICodeSmall(s: int, sub: int)
    requires 0 <= s && 0 <= sub <= 99 && s * 100 + sub <= Int64Max
    ensures BuildAPICode(s, sub) == s * 100 + sub
  {
    Pad2Digits(sub);
    DigitsValueAppend(NatDigits(s), Pad2(sub));
    DigitsValueOfNatDigits(s);
    AtoiOfDigits(FormatInt(s) + Pad2(sub));
  }

  /**
   * A sub-code of three or more digits is not cut to two: the code is the
   * two numbers written side by side, clamped to the int64 range.
   */
  lemma BuildAPICodeWide(s: int, sub: int)
    requires 0 <= s && 100 <= sub
    ensures var v := s * Pow10(|FormatInt(sub)|) + sub;
            BuildAPICode(s, sub) == if v <= Int64Max then v else Int64Max
  {
    DigitsValueAppend(NatDigits(s), NatDigits(sub));
    DigitsValueOfNatDigits(s);
    DigitsValueOfNatDigits(sub);
    var t := FormatInt(s) + Pad2(sub);
    if DigitsValue(t) <= Int64Max {
      AtoiOfDigits(t);
    } else {
      AtoiOfLongDigits(t);
    }
  }

  /** A negative sub-code puts a `-` inside the text, which does not parse: the code is 0. */
  lemma BuildAPICodeNegativeSub(s: int, sub: int)
    requires IsInt64(s) && sub < 0
    ensures BuildAPICode(s, sub) == 0
  {
    var n: nat := if s < 0 then -s else s;
    var sign := if s < 0 then "-" else "";
    DigitsValueOfNatDigits(n);
    assert FormatInt(s) == sign + NatDigits(n);
    AtoiTrailingJunk(sign, NatDigits(n), Pad2(sub));
  }

  /** The `meta` object of a response; `Errors` holds the error values the caller passed. */
  datatype Meta = Meta(code: int, typeName: string, message: string, errors: seq<string>)

  /** A response body: the meta object and the data (`None` where Go leaves it nil). */
  datatype Response<D> = Response(meta: Meta, data: Option<D>)

  /** `Meta.StatusCode`: the code divided by 100, truncating. */
  function StatusCode(m: Meta): int {
    Quot(m.code, 100)
  }

  /** `Meta.SubCode`: the remainder of the code by 100, with the sign of the code. */
  function SubCode(m: Meta): int {
    Rem(m.code, 100)
  }

  /** `Meta.IsError`: the HTTP status part is 400 or more. */
  predicate IsError(m: Meta) {
    StatusCode(m) >= 400
  }

  /** Decomposition undoes `BuildAPICode` for sub-codes below 100. */
  lemma StatusAndSubCodeRoundTrip(s: int, sub: int, m: Meta)
    requires 0 <= s && 0 <= sub <= 99 && s * 100 + sub <= Int64Max
    requires m.code == BuildAPICode(s, sub)
    ensures StatusCode(m) == s && SubCode(m) == sub
  {
    BuildAPICodeSmall(s, sub);
  }

  /** A meta object is an error exactly when its code is 40000 or more. */
  lemma IsErrorIffCode(m: Meta)
    ensures IsError(m) <==> m.code >= 40000
  {
  }

  /** What a handler sends: the HTTP status of the reply and the JSON body. */
  datatype Reply<D> = Reply(httpStatus: int, body: Response<D>)

  /** `ResponseWithErrors`: the code from status and sub-code, its description, the errors, no data. */
  function ResponseWithErrors<D>(table: map<int, Description>, status: int, sub: int, errors: seq<string>)
    : Reply<D>
  {
    var code := BuildAPICode(status, sub);
    var desc := Describe(table, code);
    Reply(status, Response(Meta(code, desc.status, desc.message, errors), None))
  }

  /** `ResponseError`: sub-code 0 and the error's text as the only error. */
  function ResponseError<D>(table: map<int, Description>, status: int, err: string): Reply<D> {
    ResponseWithErrors(table, status, 0, [err])
  }

  /** `ResponseWithSuccess`: the code with sub-code 0, its description, no errors, the data. */
  function ResponseWithSuccess<D>(table: map<int, Description>, status: int, data: D): Reply<D> {
    var code := BuildAPICode(status, 0);
    var desc := Describe(table, code);
    Reply(status, Response(Meta(code, desc.status, desc.message, []), Some(data)))
  }

  function ResponseWithOK<D>(table: map<int, Description>, data: D): Reply<D> {
    ResponseWithSuccess(table, 200, data)
  }

  function ResponseWithCreated<D>(table: map<int, Description>, data: D): Reply<D> {
    ResponseWithSuccess(table, 201, data)
  }

  function ResponseWithAccepted<D>(table: map<int, Description>, data: D): Reply<D> {
    ResponseWithSuccess(table, 202, data)
  }

  /**
   * A success reply carries the status times 100 as its code, splits back
   * into the status and sub-code 0, has no errors, and takes type and
   * message from the table entry of that code.
   */
  lemma SuccessReply<D>(table: map<int, Description>, status: int, data: D)
    requires 0 <= status && status * 100 <= Int64Max
    ensures var r := ResponseWithSuccess(table, status, data);
            && r.httpStatus == status
            && r.body.meta.code == status * 100
            && StatusCode(r.body.meta) == status && SubCode(r.body.meta) == 0
            && r.body.meta.errors == [] && r.body.data == Some(data)
            && r.body.meta.typeName == Describe(table, status * 100).status
            && r.body.meta.message == Describe(table, status * 100).message
  {
    BuildAPICodeSmall(status, 0);
  }

  /**
   * An error reply for a status and a sub-code below 100 splits back into
   * them, carries the errors and no data, and is an error reply exactly when
   * the status is 400 or more.
   */
  lemma ErrorReply<D>(table: map<int, Description>, status: int, sub: int, errors: seq<string>)
    requires 0 <= status && 0 <= sub <= 99 && status * 100 + sub <= Int64Max
    ensures var r: Reply<D> := ResponseWithErrors(table, status, sub, errors);
            && r.httpStatus == status
            && StatusCode(r.body.meta) == status && SubCode(r.body.meta) == sub
            && r.body.meta.errors == errors && r.body.data == None
            && (IsError(r.body.meta) <==> status >= 400)
  {
    BuildAPICodeSmall(status, sub);
  }

  /** With the built-in table the three success helpers are typed `OK`, `Created` and `Accepted`. */
  lemma BuiltinSuccessTypes<D>(data: D)
    ensures ResponseWithOK(BuiltinTable(), data).body.meta.typeName == "OK"
    ensures ResponseWithCreated(BuiltinTable(), data).body.meta.typeName == "Created"
    ensures ResponseWithAccepted(BuiltinTable(), data).body.meta.typeName == "Accepted"
  {
    var t := BuiltinTable();
    assert t[20000].status == "OK" && t[20100].status == "Created" && t[20200].status == "Accepted";
    SuccessReply(t, 200, data);
    SuccessReply(t, 201, data);
    SuccessReply(t, 202, data);
  }
}
