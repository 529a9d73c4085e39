/** The translation from a command's decoded reply to a `result`: the
    connection check, the server-error check, and the narrowing to the
    caller's expected kind. The command itself is not sent here: the
    connection state and the raw reply it would have produced are inputs. */
module Commands {
  import opened Results
  import opened RedisReply

  const NotConnected: string := "not connected"
  const RedisErrorPrefix: string := "redis error: "

  /** `run_op`: fails with "not connected" on a closed endpoint (no
      command is sent, so the reply plays no part); otherwise decodes the
      reply, turns a server error into a failure carrying its message, and
      passes every other value, the empty one included, through. */
  function RunOp(connected: bool, reply: Option<Raw>): (r: Result<Any>)
    ensures !connected ==> r == Failed(NotConnected)
    ensures connected && reply.Some? && reply.value.ErrorReply? ==>
              r == Failed(RedisErrorPrefix + reply.value.str)
    ensures connected && !(reply.Some? && reply.value.ErrorReply?) ==> r == Ok(From(reply))
    ensures r.Ok? ==> !r.value.Error?
  {
    if !connected then Failed(NotConnected)
    else
      var out := From(reply);
      if out.Is(ErrorKind) then
        var ev := out.As(ErrorKind);
        Failed(RedisErrorPrefix + ErrorMessage(ev.value))
      else Ok(out)
  }

  /** `process<R>::run`, with R given by its kind: a `run_op` failure is
      passed through, otherwise the value is narrowed with `try_into<R>`.
      It succeeds exactly when connected with a reply of kind R, and never
      for R = error, since `run_op` has already turned those into
      failures. */
  function Process(k: ResultType, connected: bool, reply: Option<Raw>): (r: Result<Raw>)
    ensures r.Ok? <==> connected && reply.Some? && KindOf(reply.value) == Some(k) && k != ErrorKind
    ensures r.Ok? ==> reply == Some(r.value)
    ensures RunOp(connected, reply).Failed? ==> r == Failed(RunOp(connected, reply).error)
  {
    match RunOp(connected, reply)
    case Failed(e) => Failed(e)
    case Ok(a) => a.As(k)
  }

  /** `process<void>::run`: `ok(true)` when `run_op` succeeds, and its error
      text otherwise. */
  function ProcessVoid(connected: bool, reply: Option<Raw>): (r: Result<bool>)
    ensures r.Ok? <==> RunOp(connected, reply).Ok?
    ensures r.Ok? ==> r.value
    ensures r.Failed? ==> r.error == RunOp(connected, reply).error
  {
    var res := RunOp(connected, reply);
    if res.Failed? then Failed(res.error) else Ok(true)
  }

  /** A call that returns a value or throws `connection_error`. */
  datatype Validated<+T> = Returned(value: T) | ConnectionError(what: string)

  /** `process_validate<R>::run`: throws `connection_error` with
      `process<R>`'s error text, and otherwise returns the unwrapped view. */
  function ProcessValidate(k: ResultType, connected: bool, reply: Option<Raw>): (v: Validated<Raw>)
    ensures v.Returned? <==> Process(k, connected, reply).Ok?
    ensures v.Returned? ==> reply == Some(v.value)
    ensures v.ConnectionError? ==> v.what == Process(k, connected, reply).error
  {
    var r := Process(k, connected, reply);
    if r.Failed? then ConnectionError(r.error) else Returned(r.value)
  }

  /** `process_validate<void>::run`: throws on a `process<void>` failure and
      returns nothing otherwise. */
  function ProcessValidateVoid(connected: bool, reply: Option<Raw>): (v: Validated<()>)
    ensures v.Returned? <==> RunOp(connected, reply).Ok?
    ensures v.ConnectionError? ==> v.what == RunOp(connected, reply).error
  {
    var r := ProcessVoid(connected, reply);
    if r.Failed? then ConnectionError(r.error) else Returned(())
  }

  /** On a closed endpoint every entry point fails, or throws, with
      "not connected", whatever the reply would have been. */
  lemma NotConnectedScenario(k: ResultType, reply: Option<Raw>)
    ensures Process(k, false, reply) == Failed(NotConnected)
    ensures ProcessVoid(false, reply) == Failed(NotConnected)
    ensures ProcessValidate(k, false, reply) == ConnectionError(NotConnected)
  {
  }

  /** A null reply decodes to the empty value: `run_op` passes it as `ok`, so
      `process<void>` reports success, while every `process<R>` fails
      naming the kind "error". */
  lemma NullReplyScenario(k: ResultType)
    ensures RunOp(true, None) == Ok(Empty)
    ensures ProcessVoid(true, None) == Ok(true)
    ensures Process(k, true, None) == Failed(WrongTypePrefix + "error")
  {
  }

  /** A server error reaches every entry point as "redis error: " followed
      by the server's message. */
  lemma ServerErrorScenario(k: ResultType, message: string)
    ensures Process(k, true, Some(ErrorReply(message))) == Failed(RedisErrorPrefix + message)
    ensures ProcessVoid(true, Some(ErrorReply(message))) == Failed(RedisErrorPrefix + message)
    ensures ProcessValidate(k, true, Some(ErrorReply(message))) == ConnectionError(RedisErrorPrefix + message)
  {
  }

  /** A reply with an unknown tag (for example a reply kind added in RESP3)
      reaches the caller as the empty value, and its record is never
      freed, although `release_reply`'s test would free it: `any::from`
      gives it no deleter and `run_op` drops the pointer. */
  lemma UnknownTagReplyLeaks(r: Raw)
    requires KindOf(r).None? && r != OtherReply(0, 0, 0)
    ensures RunOp(true, Some(r)) == Ok(Empty)
    ensures !Released(Some(r)) && ReleasedCorrected(Some(r))
  {
  }

  /** A reply of another kind than the expected one fails `process<R>` with
      the wrong-type text naming the reply's kind. */
  lemma WrongKindScenario(k: ResultType, r: Raw)
    requires !r.ErrorReply? && KindOf(r) != Some(k)
    ensures Process(k, true, Some(r)) ==
              Failed(WrongTypePrefix + (if KindOf(r).Some? then KindText(KindOf(r).value) else "error"))
  {
  }
}
