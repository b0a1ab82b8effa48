/**
 Status-code-to-message mapping (`getErrorMessage`, main.js:272-295).
 `JSON.parse` is not part of this model: its outcome on the response text
 is an input.
 */
module ErrorMessages {
  import opened Strings

  /**
   What `JSON.parse(responseText)` gave: it threw, or it gave a value whose
   `error` field reads as `error` once turned into text; `""` stands for a
   falsy field (absent, empty, or a falsy parse result such as `null`).
   */
  datatype ParsedBody = Unparsable | Parsed(error: string)

  /** The fields of the failed request that are read. */
  datatype Xhr = Xhr(status: nat, statusText: string, responseText: string, body: ParsedBody)

  // Each fixed message is a category, a colon and an explanation.
  const NetworkError: string := "Network Error" + ": The server is unreachable."
  const BadRequest: string := "Bad Request" + ": The input URL might be incorrect."
  const Unauthorized: string := "Unauthorized" + ": Please check the API key."
  const TooManyRequests: string := "Too Many Requests" + ": You are being rate-limited."
  const ServiceUnavailable: string := "Service Unavailable" + ": The server is temporarily overloaded."

  const FixedMessages: seq<string> := [NetworkError, BadRequest, Unauthorized, TooManyRequests, ServiceUnavailable]

  /** The status codes that have a message of their own. */
  predicate KnownStatus(code: nat) {
    code == 0 || code == 400 || code == 401 || code == 429 || code == 503
  }

  /** `Status: ${status}, Error: ${error}`: the start of every composite detail. */
  function Head(status: string, error: string): string {
    "Status: " + status + ", Error: " + error
  }

  /**
   The composite detail built before the switch: the status and the
   transport error, then what the response body adds. An empty response
   text or a body without a truthy `error` adds nothing; a body that does
   not parse adds a fixed notice; a truthy `error` is quoted.
   */
  function Detail(xhr: Xhr, status: string, error: string): (r: string)
    ensures StartsWith(r, Head(status, error))
    ensures StartsWith(r, "Status: ")
    ensures xhr.responseText == "" || xhr.body == Parsed("") ==> r == Head(status, error)
    ensures xhr.responseText != "" && xhr.body.Unparsable? ==>
              r == Head(status, error) + ", Unable to parse server response."
    ensures xhr.responseText != "" && xhr.body.Parsed? && xhr.body.error != "" ==>
              r == Head(status, error) + ", Server Error: " + xhr.body.error
  {
    var message := Head(status, error);
    assert message == "Status: " + (status + ", Error: " + error);
    var r := if xhr.responseText == "" then message
      else match xhr.body
        case Unparsable => message + ", Unable to parse server response."
        case Parsed(e) => if e != "" then message + ", Server Error: " + e else message;
    assert r[..|message|] == message;
    r
  }

  /** `xhr.statusText || error` */
  function StatusTextOr(xhr: Xhr, error: string): string {
    if xhr.statusText != "" then xhr.statusText else error
  }

  /** `getErrorMessage(xhr, status, error)` */
  function GetErrorMessage(xhr: Xhr, status: string, error: string): (r: string)
    ensures KnownStatus(xhr.status) ==> r in FixedMessages
    ensures !KnownStatus(xhr.status) ==>
              && StartsWith(r, "Status: ")
              && StartsWith(r, Detail(xhr, status, error) + ", ")
              && Contains(r, "HTTP " + NatToString(xhr.status) + ": ")
              && |r| >= |StatusTextOr(xhr, error)|
              && r[|r| - |StatusTextOr(xhr, error)|..] == StatusTextOr(xhr, error)
  {
    var code := xhr.status;
    if code == 0 then NetworkError
    else if code == 400 then BadRequest
    else if code == 401 then Unauthorized
    else if code == 429 then TooManyRequests
    else if code == 503 then ServiceUnavailable
    else
      var detail := Detail(xhr, status, error);
      var http := "HTTP " + NatToString(code) + ": ";
      var tail := StatusTextOr(xhr, error);
      var r := detail + ", " + http + tail;
      ContainsMiddle(detail + ", ", http, tail);
      assert r[..|detail + ", "|] == detail + ", ";
      assert r[..8] == detail[..8];
      assert r[|r| - |tail|..] == tail;
      r
  }

  /** None of the fixed messages reads like the composite detail. */
  lemma FixedMessagesAreNotDetails(m: string)
    requires m in FixedMessages
    ensures !StartsWith(m, "Status: ")
  {
    assert m == NetworkError || m == BadRequest || m == Unauthorized || m == TooManyRequests
           || m == ServiceUnavailable;
    assert "Status: "[1] == 't';
    if m == ServiceUnavailable {
      assert m[1] == 'e';
    } else {
      assert m[0] != 'S';
    }
  }

  /** The message is one of the fixed ones exactly when the status code is one of the five known codes. */
  lemma FixedIffKnown(xhr: Xhr, status: string, error: string)
    ensures GetErrorMessage(xhr, status, error) in FixedMessages <==> KnownStatus(xhr.status)
  {
    var r := GetErrorMessage(xhr, status, error);
    if r in FixedMessages {
      FixedMessagesAreNotDetails(r);
    }
  }

  /** For a known code the message ignores the body, the status text and the error strings. */
  lemma KnownIgnoresEverythingElse(xhr: Xhr, status: string, error: string, other: Xhr, status': string, error': string)
    requires KnownStatus(xhr.status) && other.status == xhr.status
    ensures GetErrorMessage(xhr, status, error) == GetErrorMessage(other, status', error')
  {
  }

  /** Each known code's message begins with its own letter. */
  lemma InitialOfKnown(xhr: Xhr, status: string, error: string)
    requires KnownStatus(xhr.status)
    ensures var m := GetErrorMessage(xhr, status, error);
            && |m| > 0
            && (xhr.status == 0 <==> m[0] == 'N')
            && (xhr.status == 400 <==> m[0] == 'B')
            && (xhr.status == 401 <==> m[0] == 'U')
            && (xhr.status == 429 <==> m[0] == 'T')
            && (xhr.status == 503 <==> m[0] == 'S')
  {
    assert NetworkError[0] == 'N' && BadRequest[0] == 'B' && Unauthorized[0] == 'U';
    assert TooManyRequests[0] == 'T' && ServiceUnavailable[0] == 'S';
  }

  /** Distinct known codes get distinct messages. */
  lemma KnownMessagesDistinct(a: Xhr, b: Xhr, status: string, error: string)
    requires KnownStatus(a.status) && KnownStatus(b.status) && a.status != b.status
    ensures GetErrorMessage(a, status, error) != GetErrorMessage(b, status, error)
  {
    InitialOfKnown(a, status, error);
    InitialOfKnown(b, status, error);
  }
}
