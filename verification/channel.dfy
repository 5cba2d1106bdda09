/**
 * The method channel between the Flutter UI and the host platform: the values that cross it,
 * a method call, the response to it, and the reply callback a handler answers through.
 */
module Channel {

  import opened Wrappers

  /** The method names the UI calls. Matching is exact and case-sensitive. */
  const GET_DEVICE_EMAIL := "getDeviceEmail"
  const HAS_DEVICE_EMAIL := "hasDeviceEmail"
  const GET_URI_FOR_FILE := "getUriForFile"

  /** A value on the wire: null/nil, a string or a boolean. */
  datatype Value = Null | Str(s: string) | Flag(b: bool)

  /** A method call: its name and its single (possibly null) argument. */
  datatype MethodCall = MethodCall(name: string, argument: Value)

  /** An exception that escapes a handler; the channel reports it with an error reply. */
  datatype Failure =
    | CastFailed          // the argument was not a string (`as String` throws)
    | PathNotShareable    // the file provider refused the path

  /** The one reply a call receives. */
  datatype Response = Success(value: Value) | NotImplemented | Error(failure: Failure)

  /** An optional string as it crosses the channel: absent becomes null. */
  function OptionalStr(o: Option<string>): (v: Value)
    ensures v.Null? <==> o.None?
    ensures o.Some? ==> v == Str(o.value)
  {
    match o
    case None => Null
    case Some(s) => Str(s)
  }

  /**
   * The replies sent back to the caller: those a handler sends through its reply callback
   * (`MethodChannel.Result` on Android), and the error reply the channel itself sends when a
   * handler throws. They are recorded in order, so "exactly one reply per call" is a
   * statement about how much `replies` grows.
   */
  class ReplySink {
    var replies: seq<Response>

    constructor ()
      ensures replies == []
    {
      replies := [];
    }

    method Success(v: Value)
      modifies this
      ensures replies == old(replies) + [Response.Success(v)]
    {
      replies := replies + [Response.Success(v)];
    }

    method NotImplemented()
      modifies this
      ensures replies == old(replies) + [Response.NotImplemented]
    {
      replies := replies + [Response.NotImplemented];
    }

    /** The channel's error reply for an exception that escaped the handler. */
    method Error(f: Failure)
      modifies this
      ensures replies == old(replies) + [Response.Error(f)]
    {
      replies := replies + [Response.Error(f)];
    }
  }
}
