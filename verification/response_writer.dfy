/**
 * The two response observers of the middleware package.
 * `responseWriterImpl` counts the bytes written and remembers the first
 * status and when it was sent. `ginResponseWriter` is the one the access
 * log wraps around gin's writer (`newResponseWriter`): it delegates
 * everything to gin's writer and only remembers when the header was first
 * sent. Clock readings are nanoseconds, 0 standing for the zero `time.Time`.
 */
module ResponseWriter {

  /** `noWritten`: the size before anything was written. */
  const NoWritten := -1
  /** `defaultStatus`: 200 OK. */
  const DefaultStatus := 200

  type Bytes = seq<bv8>

  /** A call passed on to the wrapped `http.ResponseWriter`. */
  datatype Forwarded = HeaderSent(code: int) | BodySent(data: Bytes) | Hijacked | Flushed

  /** The observer's fields, and the calls it has forwarded so far. */
  datatype WriterState = WriterState(size: int, status: int, firstByteTime: int, forwarded: seq<Forwarded>)

  /** The state `NewResponseWriter` returns: the zero value, then `reset`. */
  function Fresh(): WriterState {
    WriterState(NoWritten, DefaultStatus, 0, [])
  }

  /** `reset`: size and status back to their defaults; the first-byte time is left as it is. */
  function ResetStep(s: WriterState): WriterState {
    s.(size := NoWritten, status := DefaultStatus)
  }

  /**
   * `WriteHeader(code)` at clock reading `now`: a positive code other than
   * the current status is forwarded, and recorded with the time only while
   * no first-byte time is set.
   */
  function WriteHeaderStep(s: WriterState, code: int, now: int): WriterState {
    if code > 0 && s.status != code then
      var sent := s.(forwarded := s.forwarded + [HeaderSent(code)]);
      if s.firstByteTime == 0 then sent.(status := code, firstByteTime := now) else sent
    else s
  }

  /**
   * `Write(data)` where the wrapped writer accepts `accepted` bytes: while no
   * first-byte time is set, `WriteHeader(200)` first; then the body is
   * forwarded and the accepted count added to the size.
   */
  function WriteStep(s: WriterState, data: Bytes, accepted: int, now: int): WriterState {
    var h := if s.firstByteTime == 0 then WriteHeaderStep(s, DefaultStatus, now) else s;
    h.(forwarded := h.forwarded + [BodySent(data)], size := h.size + accepted)
  }

  /** `Hijack`: a negative size becomes 0 before the call is forwarded. */
  function HijackStep(s: WriterState): WriterState {
    var lifted := if s.size < 0 then s.(size := 0) else s;
    lifted.(forwarded := lifted.forwarded + [Hijacked])
  }

  function FlushStep(s: WriterState): WriterState {
    s.(forwarded := s.forwarded + [Flushed])
  }

  /** `Size()`: 0 while nothing was counted, the raw counter otherwise. */
  function SizeOf(s: WriterState): int {
    if s.size == NoWritten then 0 else s.size
  }

  /** One call on the observer; `now` is the clock reading when it happens. */
  datatype Op =
    | WriteHeaderOp(code: int, now: int)
    | WriteOp(data: Bytes, accepted: int, now: int)
    | HijackOp
    | FlushOp
    | ResetOp

  /** Clock readings are never the zero time, and a writer never accepts more than it was given. */
  predicate Allowed(op: Op) {
    match op
    case WriteHeaderOp(_, now) => now != 0
    case WriteOp(data, accepted, now) => now != 0 && 0 <= accepted <= |data|
    case _ => true
  }

  predicate AllAllowed(ops: seq<Op>) {
    forall i :: 0 <= i < |ops| ==> Allowed(ops[i])
  }

  function Step(s: WriterState, op: Op): WriterState {
    match op
    case WriteHeaderOp(code, now) => WriteHeaderStep(s, code, now)
    case WriteOp(data, accepted, now) => WriteStep(s, data, accepted, now)
    case HijackOp => HijackStep(s)
    case FlushOp => FlushStep(s)
    case ResetOp => ResetStep(s)
  }

  /** The state after the calls `ops`, in order. */
  function Run(s: WriterState, ops: seq<Op>): WriterState
    decreases |ops|
  {
    if ops == [] then s else Run(Step(s, ops[0]), ops[1..])
  }

  /**
   * What every reachable state satisfies: the size never drops below the
   * sentinel, and the status differs from 200 only once a first-byte time
   * is recorded.
   */
  predicate Inv(s: WriterState) {
    s.size >= NoWritten && (s.firstByteTime == 0 ==> s.status == DefaultStatus)
  }

  /** A fresh observer reports status 200, size 0 and no first-byte time. */
  lemma FreshReports()
    ensures Inv(Fresh())
    ensures Fresh().status == DefaultStatus && SizeOf(Fresh()) == 0 && Fresh().firstByteTime == 0
  {
  }

  lemma StepKeepsInv(s: WriterState, op: Op)
    requires Inv(s) && Allowed(op)
    ensures Inv(Step(s, op))
  {
  }

  lemma {:induction false} RunKeepsInv(s: WriterState, ops: seq<Op>)
    requires Inv(s) && AllAllowed(ops)
    ensures Inv(Run(s, ops))
    decreases |ops|
  {
    if ops != [] {
      assert Allowed(ops[0]);
      StepKeepsInv(s, ops[0]);
      RunKeepsInv(Step(s, ops[0]), ops[1..]);
    }
  }

  /** `Size()` is never negative, whatever was called. */
  lemma SizeNonNegative(ops: seq<Op>)
    requires AllAllowed(ops)
    ensures SizeOf(Run(Fresh(), ops)) >= 0
  {
    RunKeepsInv(Fresh(), ops);
  }

  /**
   * `WriteHeader` forwards exactly the positive codes other than the
   * current status, and records one only while no first-byte time is set.
   */
  lemma WriteHeaderEffect(s: WriterState, code: int, now: int)
    requires now != 0
    ensures var t := WriteHeaderStep(s, code, now);
            && (t.forwarded != s.forwarded <==> code > 0 && code != s.status)
            && (t.status != s.status <==> code > 0 && code != s.status && s.firstByteTime == 0)
            && (t.firstByteTime != s.firstByteTime ==> s.firstByteTime == 0 && t.firstByteTime == now)
            && t.size == s.size
  {
    var t := WriteHeaderStep(s, code, now);
    if code > 0 && code != s.status {
      assert |t.forwarded| == |s.forwarded| + 1;
    }
  }

  /** Once set, the first-byte time never changes. */
  lemma StepKeepsFirstByteTime(s: WriterState, op: Op)
    requires s.firstByteTime != 0
    ensures Step(s, op).firstByteTime == s.firstByteTime
  {
  }

  lemma {:induction false} FirstByteTimeStable(s: WriterState, ops: seq<Op>)
    requires s.firstByteTime != 0
    ensures Run(s, ops).firstByteTime == s.firstByteTime
    decreases |ops|
  {
    if ops != [] {
      StepKeepsFirstByteTime(s, ops[0]);
      FirstByteTimeStable(Step(s, ops[0]), ops[1..]);
    }
  }

  /** In a reachable state, the `WriteHeader(200)` inside `Write` never does anything. */
  lemma WriteForwardsOnlyBody(s: WriterState, data: Bytes, accepted: int, now: int)
    requires Inv(s)
    ensures WriteStep(s, data, accepted, now)
         == s.(forwarded := s.forwarded + [BodySent(data)], size := s.size + accepted)
  {
  }

  /** A call that records a status: a positive code other than 200. */
  predicate SetsStatus(op: Op) {
    op.WriteHeaderOp? && op.code > 0 && op.code != DefaultStatus
  }

  /**
   * Without a `WriteHeader` of a status other than 200, no first-byte time
   * is ever recorded, however much is written.
   */
  lemma {:induction false} WritesLeaveFirstByteTimeUnset(s: WriterState, ops: seq<Op>)
    requires Inv(s) && s.firstByteTime == 0 && AllAllowed(ops)
    requires forall i :: 0 <= i < |ops| ==> !SetsStatus(ops[i])
    ensures Run(s, ops).firstByteTime == 0
    decreases |ops|
  {
    if ops != [] {
      assert Allowed(ops[0]) && !SetsStatus(ops[0]);
      StepKeepsInv(s, ops[0]);
      RunSuffixAllowed(ops);
      WritesLeaveFirstByteTimeUnset(Step(s, ops[0]), ops[1..]);
    }
  }

  lemma RunSuffixAllowed(ops: seq<Op>)
    requires ops != [] && AllAllowed(ops)
    ensures AllAllowed(ops[1..])
  {
    forall i | 0 <= i < |ops| - 1 ensures Allowed(ops[1..][i]) {
      assert ops[1..][i] == ops[i + 1];
    }
  }

  /** A single write on a fresh observer records no first-byte time. */
  lemma FreshWriteNoFirstByteTime(data: Bytes, now: int)
    ensures WriteStep(Fresh(), data, |data|, now).firstByteTime == 0
  {
  }

  /**
   * The sequence of the observer's own test: `WriteHeader(404)` then a
   * 13-byte write report size 12, not 13, because counting starts at -1.
   */
  lemma SizeOffByOne(data: Bytes, t1: int, t2: int)
    requires |data| == 13 && t1 != 0 && t2 != 0
    ensures var s := Run(Fresh(), [WriteHeaderOp(404, t1), WriteOp(data, 13, t2)]);
            && s.status == 404 && s.firstByteTime == t1 && SizeOf(s) == 12
  {
    var s1 := WriteHeaderStep(Fresh(), 404, t1);
    assert Run(Fresh(), [WriteHeaderOp(404, t1), WriteOp(data, 13, t2)])
        == Run(s1, [WriteOp(data, 13, t2)]);
    assert Run(s1, [WriteOp(data, 13, t2)]) == Run(WriteStep(s1, data, 13, t2), []);
  }

  /** The bytes the wrapped writer accepted, over all the writes in `ops`. */
  function Accepted(ops: seq<Op>): int
    decreases |ops|
  {
    if ops == [] then 0
    else (if ops[0].WriteOp? then ops[0].accepted else 0) + Accepted(ops[1..])
  }

  /** `Write` as evidently intended: the count starts at 0, and the first write records the first-byte time. */
  function WriteStepIntended(s: WriterState, data: Bytes, accepted: int, now: int): WriterState {
    var w := WriteStep(s, data, accepted, now);
    w.(size := (if s.size == NoWritten then 0 else s.size) + accepted,
       firstByteTime := if w.firstByteTime == 0 then now else w.firstByteTime)
  }

  function StepIntended(s: WriterState, op: Op): WriterState {
    if op.WriteOp? then WriteStepIntended(s, op.data, op.accepted, op.now) else Step(s, op)
  }

  function RunIntended(s: WriterState, ops: seq<Op>): WriterState
    decreases |ops|
  {
    if ops == [] then s else RunIntended(StepIntended(s, ops[0]), ops[1..])
  }

  lemma StepIntendedCounts(s: WriterState, op: Op)
    requires s.size >= NoWritten && Allowed(op) && !op.ResetOp?
    ensures StepIntended(s, op).size >= NoWritten
    ensures SizeOf(StepIntended(s, op)) == SizeOf(s) + (if op.WriteOp? then op.accepted else 0)
  {
  }

  /** With the intended `Write`, `Size()` is exactly the number of bytes written since the last reset. */
  lemma {:induction false} RunIntendedCounts(s: WriterState, ops: seq<Op>)
    requires s.size >= NoWritten && AllAllowed(ops)
    requires forall i :: 0 <= i < |ops| ==> !ops[i].ResetOp?
    ensures SizeOf(RunIntended(s, ops)) == SizeOf(s) + Accepted(ops)
    decreases |ops|
  {
    if ops != [] {
      assert Allowed(ops[0]) && !ops[0].ResetOp?;
      StepIntendedCounts(s, ops[0]);
      RunSuffixAllowed(ops);
      RunIntendedCounts(StepIntended(s, ops[0]), ops[1..]);
    }
  }

  /** With the intended `Write`, the first write records the first-byte time, and a later one keeps it. */
  lemma WriteIntendedRecordsFirstByte(s: WriterState, data: Bytes, accepted: int, now: int)
    requires now != 0
    ensures WriteStepIntended(s, data, accepted, now).firstByteTime
         == if s.firstByteTime == 0 then now else s.firstByteTime
  {
  }

  /** `responseWriterImpl`: the observer over a wrapped writer, whose calls are kept in `forwarded`. */
  class ResponseWriterImpl {
    var size: int
    var status: int
    var firstByteTime: int
    var forwarded: seq<Forwarded>

    function Current(): WriterState
      reads this
    {
      WriterState(size, status, firstByteTime, forwarded)
    }

    ghost predicate Valid()
      reads this
    {
      Inv(Current())
    }

    /** `NewResponseWriter`. */
    constructor ()
      ensures Valid() && Current() == Fresh()
    {
      firstByteTime := 0;
      forwarded := [];
      size := NoWritten;
      status := DefaultStatus;
    }

    method Reset()
      requires Valid()
      modifies this
      ensures Valid() && Current() == ResetStep(old(Current()))
    {
      size := NoWritten;
      status := DefaultStatus;
    }

    method WriteHeader(code: int, now: int)
      requires Valid() && now != 0
      modifies this
      ensures Valid() && Current() == WriteHeaderStep(old(Current()), code, now)
    {
      if code > 0 && status != code {
        forwarded := forwarded + [HeaderSent(code)];
        if firstByteTime == 0 {
          status := code;
          firstByteTime := now;
        }
      }
    }

    /** `Write`; `accepted` is the count the wrapped writer reports. */
    method Write(data: Bytes, accepted: int, now: int) returns (n: int)
      requires Valid() && now != 0 && 0 <= accepted <= |data|
      modifies this
      ensures n == accepted
      ensures Valid() && Current() == WriteStep(old(Current()), data, accepted, now)
    {
      if firstByteTime == 0 {
        WriteHeader(DefaultStatus, now);
      }
      forwarded := forwarded + [BodySent(data)];
      n := accepted;
      size := size + n;
    }

    function Status(): int
      reads this
    {
      status
    }

    function Size(): (n: int)
      reads this
      requires Valid()
      ensures n >= 0
      ensures n == SizeOf(Current())
    {
      if size == NoWritten then 0 else size
    }

    function FirstByteTime(): int
      reads this
    {
      firstByteTime
    }

    method Hijack()
      requires Valid()
      modifies this
      ensures Valid() && Current() == HijackStep(old(Current()))
    {
      if size < 0 {
        size := 0;
      }
      forwarded := forwarded + [Hijacked];
    }

    method Flush()
      requires Valid()
      modifies this
      ensures Valid() && Current() == FlushStep(old(Current()))
    {
      forwarded := forwarded + [Flushed];
    }
  }

  /** A call passed on to the wrapped gin writer. */
  datatype GinCall = HeaderNow | BodyWrite(data: Bytes) | StringWrite(text: string)

  /** `ginResponseWriter`: remembers when the header was first sent; its calls are kept in `calls`. */
  class GinResponseWriter {
    var fbt: int
    var calls: seq<GinCall>

    /** The first-byte time is set exactly once a header went out, and every body write follows a header. */
    ghost predicate Valid()
      reads this
    {
      && (fbt == 0 <==> HeaderNow !in calls)
      && forall i :: 0 <= i < |calls| && !calls[i].HeaderNow? ==> 0 < i && calls[i - 1] == HeaderNow
    }

    /** `newResponseWriter`. */
    constructor ()
      ensures Valid() && fbt == 0 && calls == []
    {
      fbt := 0;
      calls := [];
    }

    function FirstByteTime(): int
      reads this
    {
      fbt
    }

    /** `WriteHeaderNow`: delegate, then record the time if none was recorded. */
    method WriteHeaderNow(now: int)
      requires Valid() && now != 0
      modifies this
      ensures Valid()
      ensures calls == old(calls) + [HeaderNow]
      ensures fbt == if old(fbt) == 0 then now else old(fbt)
    {
      calls := calls + [HeaderNow];
      if fbt == 0 {
        fbt := now;
      }
    }

    method Write(data: Bytes, accepted: int, now: int) returns (n: int)
      requires Valid() && now != 0 && 0 <= accepted <= |data|
      modifies this
      ensures Valid() && n == accepted
      ensures calls == old(calls) + [HeaderNow, BodyWrite(data)]
      ensures fbt != 0 && (old(fbt) != 0 ==> fbt == old(fbt))
    {
      WriteHeaderNow(now);
      calls := calls + [BodyWrite(data)];
      n := accepted;
    }

    method WriteString(text: string, accepted: int, now: int) returns (n: int)
      requires Valid() && now != 0 && 0 <= accepted <= |text|
      modifies this
      ensures Valid() && n == accepted
      ensures calls == old(calls) + [HeaderNow, StringWrite(text)]
      ensures fbt != 0 && (old(fbt) != 0 ==> fbt == old(fbt))
    {
      WriteHeaderNow(now);
      calls := calls + [StringWrite(text)];
      n := accepted;
    }
  }
}
