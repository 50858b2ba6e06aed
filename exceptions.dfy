/** The exceptions the client throws, as values, and EndeeApiException's
    mapping from an HTTP status code to a message. */
module Exceptions {
  import opened Base

  /** One constructor per kind of exception that can leave the modelled code. */
  datatype Exception =
      /** IllegalArgumentException with a fixed or computed message. */
    | IllegalArgument(message: string)
      /** The IllegalArgumentException of ValidationUtils.validateVectorIds that
          lists the duplicate ids; the listing order is that of a HashSet. */
    | DuplicateIds(ids: set<string>)
      /** IllegalStateException. */
    | IllegalState(message: string)
      /** ArrayIndexOutOfBoundsException / StringIndexOutOfBoundsException. */
    | IndexOutOfBounds
      /** EndeeException wrapping a library failure. */
    | Endee(message: string)
      /** EndeeApiException: message, status code and raw error body. */
    | EndeeApi(message: string, statusCode: int32, errorBody: string)
      /** msgpack-core: the buffer ended before the value being read. */
    | InsufficientBuffer
      /** msgpack-core MessageTypeException: the next value has another format. */
    | MessageType(expected: string)

  datatype Result<+T> = Ok(value: T) | Err(error: Exception) {
    predicate IsFailure() {
      Err?
    }

    function PropagateFailure<U>(): Result<U>
      requires Err?
    {
      Err(error)
    }

    function Extract(): T
      requires Ok?
    {
      value
    }
  }

  /** The message prefix EndeeApiException.raiseException uses for a status
      code it knows, or None for any other code. */
  function KnownPrefix(statusCode: int): Option<string> {
    match statusCode
    case 400 => Some("Bad Request: ")
    case 401 => Some("Unauthorized: ")
    case 403 => Some("Forbidden: ")
    case 404 => Some("Not Found: ")
    case 409 => Some("Conflict: ")
    case 500 => Some("Internal Server Error: ")
    case _ => None
  }

  /** EndeeApiException.raiseException: the exception it always throws. */
  function RaiseException(statusCode: int32, errorBody: string): (e: Exception)
    ensures e.EndeeApi?
    ensures e.statusCode == statusCode && e.errorBody == errorBody
    ensures KnownPrefix(statusCode).Some? ==>
      e.message == KnownPrefix(statusCode).value + errorBody
    ensures KnownPrefix(statusCode).None? ==>
      e.message == "API Error (" + IntToString(statusCode) + "): " + errorBody
  {
    var message := match KnownPrefix(statusCode)
      case Some(prefix) => prefix + errorBody
      case None => "API Error (" + IntToString(statusCode) + "): " + errorBody;
    EndeeApi(message, statusCode, errorBody)
  }

  /** The message alone tells apart every status code the switch names, and it
      always ends with the error body verbatim. */
  lemma RaiseExceptionMessage(c1: int32, c2: int32, body: string)
    requires KnownPrefix(c1).Some? && KnownPrefix(c2).Some?
    requires RaiseException(c1, body).message == RaiseException(c2, body).message
    ensures c1 == c2
  {
    var m := RaiseException(c1, body).message;
    assert m[..|m| - |body|] == KnownPrefix(c1).value;
    assert m[..|m| - |body|] == KnownPrefix(c2).value;
  }

  /** For a code outside the switch, the decimal code in "API Error (<code>)"
      reads back to the status code. */
  lemma {:induction false} UnknownStatusCodeReadable(code: int32, body: string)
    requires KnownPrefix(code).None? && code >= 0
    ensures var m := RaiseException(code, body).message;
      var digits := NatToString(code);
      && m[..11] == "API Error ("
      && m[11..11 + |digits|] == digits
      && (forall i :: 0 <= i < |digits| ==> IsDecimalDigit(digits[i]))
      && DecimalValue(digits) == code
      && m[11 + |digits|..] == "): " + body
  {
    UnknownCodeMessage(code, body);
    ReadableLayout(RaiseException(code, body).message, NatToString(code), body);
    NatToStringRoundTrip(code);
  }

  lemma ReadableLayout(m: string, digits: string, body: string)
    requires m == "API Error (" + digits + "): " + body
    ensures m[..11] == "API Error ("
    ensures m[11..11 + |digits|] == digits
    ensures m[11 + |digits|..] == "): " + body
  {
    assert |"API Error ("| == 11;
    Slices("API Error (", digits, "): " + body);
  }

  lemma UnknownCodeMessage(code: int32, body: string)
    requires KnownPrefix(code).None? && code >= 0
    ensures RaiseException(code, body).message == "API Error (" + NatToString(code) + "): " + body
  {
    assert IntToString(code) == NatToString(code);
  }

  /** The three parts of a concatenation, read back by slicing. */
  lemma Slices<T>(a: seq<T>, b: seq<T>, c: seq<T>)
    ensures (a + b + c)[..|a|] == a
    ensures (a + b + c)[|a|..|a| + |b|] == b
    ensures (a + b + c)[|a| + |b|..] == c
  {
  }
}
