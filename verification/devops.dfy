/**
 * The devops handlers: a process-wide service status (200 online, 503
 * offline) that a load balancer reads, and the form handler that changes it.
 */
module Devops {
  import opened Wrappers
  import opened GoInt

  const StatusOK := 200
  const StatusBadRequest := 400
  const StatusServiceUnavailable := 503

  const ShouldBeMessage := "parameter 'status' should be 200 or 503"
  const OnlineMessage := "the service was online"
  const OfflineMessage := "the service was offline"
  const RequiredMessage := "parameter 'status' was required"

  /** One `c.String(code, body)` call of a handler. */
  datatype Reply = Reply(code: int, body: string)

  /**
   * What the client receives from a sequence of `c.String` calls: the
   * status of the first call (later status codes are dropped once the
   * header is out) and the bodies one after the other.
   */
  function Response(replies: seq<Reply>): (r: Reply)
    ensures replies != [] ==> r.code == replies[0].code
    ensures replies == [] ==> r == Reply(StatusOK, "")
  {
    if replies == [] then Reply(StatusOK, "")
    else Reply(replies[0].code, replies[0].body + Response(replies[1..]).body)
  }

  /** `http.StatusText` for the two codes the status can hold, "" otherwise. */
  function StatusText(code: int): (t: string)
    ensures t != "" <==> code == StatusOK || code == StatusServiceUnavailable
  {
    if code == StatusOK then "OK"
    else if code == StatusServiceUnavailable then "Service Unavailable"
    else ""
  }

  /** A form value the handler accepts: it parses to 200 or 503. */
  predicate Accepted(v: string) {
    Atoi(v) == Number(StatusOK) || Atoi(v) == Number(StatusServiceUnavailable)
  }

  /**
   * The `c.String` calls of `UpdateDevopsStatus` as written: a rejected
   * value still falls through to the online/offline reply, and the
   * "required" reply is sent on every path.
   */
  function UpdateReplies(form: Option<string>): seq<Reply> {
    match form
    case None => [Reply(StatusBadRequest, RequiredMessage)]
    case Some(v) =>
      var code := AtoiIgnoringError(v);
      (if Accepted(v) then [] else [Reply(StatusBadRequest, ShouldBeMessage)])
      + [Reply(StatusOK, if code == StatusOK then OnlineMessage else OfflineMessage)]
      + [Reply(StatusBadRequest, RequiredMessage)]
  }

  /** The status after `UpdateDevopsStatus` as written: online exactly when the value reads as 200. */
  function UpdatedStatus(current: int, form: Option<string>): int {
    match form
    case None => current
    case Some(v) => if AtoiIgnoringError(v) == StatusOK then StatusOK else StatusServiceUnavailable
  }

  /** The package-level `_status`. */
  class ServiceStatus {
    var code: int

    ghost predicate Valid()
      reads this
    {
      code == StatusOK || code == StatusServiceUnavailable
    }

    constructor ()
      ensures code == StatusOK && Valid()
    {
      code := StatusOK;
    }

    method Online()
      modifies this
      ensures code == StatusOK && Valid()
    {
      code := StatusOK;
    }

    method Offline()
      modifies this
      ensures code == StatusServiceUnavailable && Valid()
    {
      code := StatusServiceUnavailable;
    }

    /** `GetDevopsStatus`: the status code with its status text as body. */
    method GetDevopsStatus() returns (r: Reply)
      requires Valid()
      ensures r.code == code && r.body == StatusText(code) && r.body != ""
    {
      r := Reply(code, StatusText(code));
    }

    /** `UpdateDevopsStatus`; `form` is the posted `status` field, `None` when absent. */
    method UpdateDevopsStatus(form: Option<string>) returns (replies: seq<Reply>)
      requires Valid()
      modifies this
      ensures replies == UpdateReplies(form)
      ensures code == UpdatedStatus(old(code), form) && Valid()
    {
      replies := [];
      if form.Some? {
        var v := form.value;
        var parsed := Atoi(v);
        var code' := AtoiIgnoringError(v);
        if !parsed.Number? || (code' != StatusOK && code' != StatusServiceUnavailable) {
          replies := replies + [Reply(StatusBadRequest, ShouldBeMessage)];
        }
        var msg;
        if code' == StatusOK {
          Online();
          msg := OnlineMessage;
        } else {
          Offline();
          msg := OfflineMessage;
        }
        replies := replies + [Reply(StatusOK, msg)];
      }
      replies := replies + [Reply(StatusBadRequest, RequiredMessage)];
    }
  }

  /** As written, every call ends with the "required" reply, so a request never gets a clean body. */
  lemma AlwaysRequiredLast(form: Option<string>)
    ensures var rs := UpdateReplies(form);
            rs != [] && rs[|rs| - 1] == Reply(StatusBadRequest, RequiredMessage)
  {
  }

  lemma AtoiLiteral(x: int, s: string)
    requires IsInt64(x) && FormatInt(x) == s
    ensures Atoi(s) == Number(x)
  {
    AtoiFormatInt(x);
  }

  /**
   * As written, posting `status=200` answers 200 but with the online
   * message followed by the "required" message.
   */
  lemma AsWrittenOnline()
    ensures Response(UpdateReplies(Some("200"))) == Reply(StatusOK, OnlineMessage + RequiredMessage)
  {
    assert FormatInt(200) == "200";
    AtoiLiteral(200, "200");
    var rs := UpdateReplies(Some("200"));
    assert rs == [Reply(StatusOK, OnlineMessage), Reply(StatusBadRequest, RequiredMessage)];
    assert rs[1..][1..] == [];
  }

  /**
   * As written, posting a value that is not a number answers 400 with all
   * three messages, and also takes the service offline.
   */
  lemma AsWrittenGarbage(current: int)
    ensures Response(UpdateReplies(Some("up")))
         == Reply(StatusBadRequest, ShouldBeMessage + OfflineMessage + RequiredMessage)
    ensures UpdatedStatus(current, Some("up")) == StatusServiceUnavailable
  {
    assert Atoi("up").SyntaxError?;
    var rs := UpdateReplies(Some("up"));
    assert rs == [Reply(StatusBadRequest, ShouldBeMessage), Reply(StatusOK, OfflineMessage),
                  Reply(StatusBadRequest, RequiredMessage)];
    assert rs[1..][1..][1..] == [];
  }

  /** As written, any value `Atoi` rejects turns the service offline. */
  lemma RejectedValueGoesOffline(current: int, v: string)
    requires !Atoi(v).Number?
    ensures UpdatedStatus(current, Some(v)) == StatusServiceUnavailable
    ensures Response(UpdateReplies(Some(v))).code == StatusBadRequest
  {
  }

  /**
   * The evidently intended handler: one reply, and the status changes only
   * when the value is accepted, to exactly the value posted.
   */
  function UpdateIntended(current: int, form: Option<string>): (r: (Reply, int))
    ensures r.0.code == StatusOK <==> form.Some? && Accepted(form.value)
    ensures r.0.code == StatusOK ==> r.1 == Atoi(form.value).value
    ensures r.0.code != StatusOK ==> r.1 == current
  {
    match form
    case None => (Reply(StatusBadRequest, RequiredMessage), current)
    case Some(v) =>
      if !Accepted(v) then (Reply(StatusBadRequest, ShouldBeMessage), current)
      else if Atoi(v).value == StatusOK then (Reply(StatusOK, OnlineMessage), StatusOK)
      else (Reply(StatusOK, OfflineMessage), StatusServiceUnavailable)
  }

  /**
   * Where the written handler and the intended one agree: the status code
   * the client sees always, and the new status whenever the value is accepted.
   */
  lemma IntendedAgrees(current: int, form: Option<string>)
    ensures Response(UpdateReplies(form)).code == UpdateIntended(current, form).0.code
    ensures form.Some? && Accepted(form.value) ==> UpdatedStatus(current, form) == UpdateIntended(current, form).1
    ensures form.Some? && Accepted(form.value) ==>
              Response(UpdateReplies(form)).body == UpdateIntended(current, form).0.body + RequiredMessage
  {
    var rs := UpdateReplies(form);
    if form.Some? && Accepted(form.value) {
      var msg := UpdateIntended(current, form).0.body;
      assert rs == [Reply(StatusOK, msg), Reply(StatusBadRequest, RequiredMessage)];
      assert rs[1..][1..] == [];
      assert Response(rs[1..]).body == RequiredMessage;
    }
  }
}
