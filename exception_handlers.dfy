/**
 * The backend's error responses: the standard `{"error": {...}}` body, the
 * projection of request-validation errors, and the three exception handlers.
 */
module ExceptionHandlers {
  import opened Wrappers

  /** JSON values; an object keeps its keys in insertion order, as a Python dict does. */
  datatype Json =
    | JNull
    | JBool(b: bool)
    | JInt(i: int)
    | JStr(s: string)
    | JArr(items: seq<Json>)
    | JObj(fields: seq<(string, Json)>)

  /** The keys of an object, in order; nothing for any other value. */
  function Keys(j: Json): seq<string> {
    if j.JObj? then KeysOf(j.fields) else []
  }

  function KeysOf(fields: seq<(string, Json)>): (ks: seq<string>)
    ensures |ks| == |fields|
    ensures forall i :: 0 <= i < |fields| ==> ks[i] == fields[i].0
  {
    if fields == [] then [] else [fields[0].0] + KeysOf(fields[1..])
  }

  /** The value stored under `key` in an object (the first entry with that key). */
  function Lookup(j: Json, key: string): Option<Json> {
    if j.JObj? then LookupIn(j.fields, key) else None
  }

  function LookupIn(fields: seq<(string, Json)>, key: string): Option<Json> {
    if fields == [] then None
    else if fields[0].0 == key then Some(fields[0].1)
    else LookupIn(fields[1..], key)
  }

  /** A lookup finds something exactly when the key is among the object's keys. */
  lemma {:induction false} LookupInPresent(fields: seq<(string, Json)>, key: string)
    ensures LookupIn(fields, key).Some? <==> key in KeysOf(fields)
  {
    if fields != [] {
      LookupInPresent(fields[1..], key);
    }
  }

  /** The first entry with a given key decides the lookup. */
  lemma {:induction false} LookupFirst(fields: seq<(string, Json)>, key: string, i: nat)
    requires i < |fields| && fields[i].0 == key
    requires forall j :: 0 <= j < i ==> fields[j].0 != key
    ensures LookupIn(fields, key) == Some(fields[i].1)
  {
    if i > 0 {
      LookupFirst(fields[1..], key, i - 1);
    }
  }

  /** Python truthiness of a JSON-like value: none, false, zero and empty values are false. */
  predicate Truthy(j: Json) {
    match j
    case JNull => false
    case JBool(b) => b
    case JInt(i) => i != 0
    case JStr(s) => s != ""
    case JArr(items) => items != []
    case JObj(fields) => fields != []
  }

  /** Truthiness of the optional `code` string: present and not empty. */
  predicate CodeTruthy(code: Option<string>) {
    code.Some? && code.value != ""
  }

  /** The body of the `"error"` member of a response. */
  function ErrorOf(response: Json): Json {
    match Lookup(response, "error")
    case Some(e) => e
    case None => JNull
  }

  /** In an object whose keys are distinct, every key finds its own entry. */
  lemma DistinctKeysLookup(fields: seq<(string, Json)>)
    requires forall i, j :: 0 <= i < j < |fields| ==> fields[i].0 != fields[j].0
    ensures forall i :: 0 <= i < |fields| ==> LookupIn(fields, fields[i].0) == Some(fields[i].1)
  {
    forall i | 0 <= i < |fields|
      ensures LookupIn(fields, fields[i].0) == Some(fields[i].1)
    {
      LookupFirst(fields, fields[i].0, i);
    }
  }

  /**
   * `create_error_response`: always a status code and a message, then `code` exactly
   * when the code is truthy and `details` exactly when the errors are truthy.
   */
  method CreateErrorResponse(statusCode: int, message: Json, code: Option<string> := None, errors: Json := JNull)
    returns (response: Json)
    ensures Keys(response) == ["error"]
    ensures var e := ErrorOf(response);
            && e.JObj?
            && Keys(e) == ["status_code", "message"]
                          + (if CodeTruthy(code) then ["code"] else [])
                          + (if Truthy(errors) then ["details"] else [])
            && Lookup(e, "status_code") == Some(JInt(statusCode))
            && Lookup(e, "message") == Some(message)
            && (CodeTruthy(code) ==> Lookup(e, "code") == Some(JStr(code.value)))
            && (Truthy(errors) ==> Lookup(e, "details") == Some(errors))
  {
    var error: seq<(string, Json)> := [("status_code", JInt(statusCode)), ("message", message)];
    if CodeTruthy(code) {
      error := error + [("code", JStr(code.value))];
    }
    if Truthy(errors) {
      error := error + [("details", errors)];
    }
    response := JObj([("error", JObj(error))]);
    if CodeTruthy(code) && Truthy(errors) {
      assert error == [("status_code", JInt(statusCode)), ("message", message), ("code", JStr(code.value)), ("details", errors)];
    } else if CodeTruthy(code) {
      assert error == [("status_code", JInt(statusCode)), ("message", message), ("code", JStr(code.value))];
    } else if Truthy(errors) {
      assert error == [("status_code", JInt(statusCode)), ("message", message), ("details", errors)];
    }
    DistinctKeysLookup(error);
    assert error[0].0 == "status_code" && error[1].0 == "message";
    if CodeTruthy(code) {
      assert error[2] == ("code", JStr(code.value));
    }
    if Truthy(errors) {
      assert error[|error| - 1] == ("details", errors);
    }
  }

  /** One entry of `RequestValidationError.errors()`: location, message, type, and any extra context. */
  datatype ValidationIssue = ValidationIssue(loc: seq<Json>, msg: string, kind: string, extra: seq<(string, Json)>)

  /** The client-facing form of one validation issue: exactly `loc`, `msg` and `type`. */
  function Projected(e: ValidationIssue): (j: Json)
    ensures Keys(j) == ["loc", "msg", "type"]
    ensures Lookup(j, "loc") == Some(JArr(e.loc))
    ensures Lookup(j, "msg") == Some(JStr(e.msg))
    ensures Lookup(j, "type") == Some(JStr(e.kind))
  {
    var fields := [("loc", JArr(e.loc)), ("msg", JStr(e.msg)), ("type", JStr(e.kind))];
    LookupFirst(fields, "msg", 1);
    LookupFirst(fields, "type", 2);
    JObj(fields)
  }

  /** The loop of `validation_exception_handler`: one projected entry per issue, in order. */
  method ProjectErrors(errors: seq<ValidationIssue>) returns (messages: seq<Json>)
    ensures |messages| == |errors|
    ensures forall i :: 0 <= i < |errors| ==> messages[i] == Projected(errors[i])
  {
    messages := [];
    var n := 0;
    while n < |errors|
      invariant 0 <= n <= |errors|
      invariant |messages| == n
      invariant forall i :: 0 <= i < n ==> messages[i] == Projected(errors[i])
    {
      messages := messages + [Projected(errors[n])];
      n := n + 1;
    }
  }

  /** A JSON response: status and body. */
  datatype JsonResponse = JsonResponse(statusCode: int, content: Json)

  /** The application's own exceptions carry a machine-readable code; Starlette's do not. */
  datatype ApiException = ApiException(statusCode: int, detail: Json, code: Option<string>)
  datatype HttpException = HttpException(statusCode: int, detail: Json)

  /** `base_api_exception_handler`: status and detail of the exception, with its code. */
  method BaseApiExceptionHandler(exc: ApiException) returns (r: JsonResponse)
    ensures r.statusCode == exc.statusCode
    ensures Lookup(ErrorOf(r.content), "status_code") == Some(JInt(exc.statusCode))
    ensures Lookup(ErrorOf(r.content), "message") == Some(exc.detail)
    ensures "code" in Keys(ErrorOf(r.content)) <==> CodeTruthy(exc.code)
    ensures CodeTruthy(exc.code) ==> Lookup(ErrorOf(r.content), "code") == Some(JStr(exc.code.value))
    ensures "details" !in Keys(ErrorOf(r.content))
  {
    var content := CreateErrorResponse(exc.statusCode, exc.detail, exc.code);
    r := JsonResponse(exc.statusCode, content);
  }

  /** `http_exception_handler`: status and detail of the exception, never a code. */
  method HttpExceptionHandler(exc: HttpException) returns (r: JsonResponse)
    ensures r.statusCode == exc.statusCode
    ensures Keys(ErrorOf(r.content)) == ["status_code", "message"]
    ensures Lookup(ErrorOf(r.content), "status_code") == Some(JInt(exc.statusCode))
    ensures Lookup(ErrorOf(r.content), "message") == Some(exc.detail)
  {
    var content := CreateErrorResponse(exc.statusCode, exc.detail);
    r := JsonResponse(exc.statusCode, content);
  }

  const ValidationStatus: int := 422

  /**
   * `validation_exception_handler`: status 422, message "Validation error", code
   * "VALIDATION_ERROR", and the projected issues as details when there are any.
   */
  method ValidationExceptionHandler(errors: seq<ValidationIssue>) returns (r: JsonResponse)
    ensures r.statusCode == ValidationStatus
    ensures var e := ErrorOf(r.content);
            && Lookup(e, "status_code") == Some(JInt(ValidationStatus))
            && Lookup(e, "message") == Some(JStr("Validation error"))
            && Lookup(e, "code") == Some(JStr("VALIDATION_ERROR"))
            && ("details" in Keys(e) <==> errors != [])
    ensures errors != [] ==>
            exists details :: Lookup(ErrorOf(r.content), "details") == Some(JArr(details))
                 && |details| == |errors|
                 && forall i :: 0 <= i < |errors| ==> details[i] == Projected(errors[i])
  {
    var messages := ProjectErrors(errors);
    var content := CreateErrorResponse(ValidationStatus, JStr("Validation error"), Some("VALIDATION_ERROR"), JArr(messages));
    r := JsonResponse(ValidationStatus, content);
  }
}
