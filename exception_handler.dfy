/**
  `RestExceptionHandler`: the HTTP response each handled exception class
  becomes. Not-found, conflict, validation and authentication failures get
  the `{timestamp, code, message}` error map; the request-shape failures get
  an `{error}` map with a Spanish message.
*/
module ExceptionHandler {
  import opened Wrappers
  import opened Text
  import opened Domain

  const VALIDATION_FAILED := "Validation failed"
  const NO_RESOURCE_MESSAGE := "El recurso solicitado no existe"
  const BAD_JSON_MESSAGE := "El formato del JSON es inválido"
  const BAD_DATE_MESSAGE := "El formato de fecha debe ser YYYY-MM-DD"
  const JSON_SYNTAX_MESSAGE := "El JSON enviado tiene errores de sintaxis"

  /** The `{error: message}` body of the request-shape handlers. */
  function ErrorOnly(message: string): (m: map<string, Value>)
    ensures m.Keys == {"error"} && m["error"] == Text(message)
  {
    map["error" := Text(message)]
  }

  /** The field-to-message map the validation loop fills: a later error for a field overwrites an earlier one. */
  function FieldMessages(errors: seq<FieldError>): map<string, string>
    decreases |errors|
  {
    if errors == [] then map[]
    else
      var last := errors[|errors| - 1];
      FieldMessages(errors[..|errors| - 1])[last.field := last.defaultMessage]
  }

  /** The fields map names exactly the fields that have an error. */
  lemma {:induction false} FieldMessagesKeys(errors: seq<FieldError>)
    ensures forall f :: f in FieldMessages(errors) <==> exists i :: 0 <= i < |errors| && errors[i].field == f
    decreases |errors|
  {
    if errors != [] {
      var init, last := errors[..|errors| - 1], errors[|errors| - 1];
      FieldMessagesKeys(init);
      forall f | f in FieldMessages(errors) ensures exists i :: 0 <= i < |errors| && errors[i].field == f {
        if f != last.field {
          assert f in FieldMessages(init);
          var i :| 0 <= i < |init| && init[i].field == f;
          assert errors[i] == init[i];
        }
      }
      forall f | (exists i :: 0 <= i < |errors| && errors[i].field == f) ensures f in FieldMessages(errors) {
        var i :| 0 <= i < |errors| && errors[i].field == f;
        if i < |init| { assert init[i] == errors[i]; }
      }
    }
  }

  /** Each field maps to the message of the last error reported for it. */
  lemma {:induction false} FieldMessagesLastWins(errors: seq<FieldError>, i: nat)
    requires i < |errors|
    requires forall j :: i < j < |errors| ==> errors[j].field != errors[i].field
    ensures errors[i].field in FieldMessages(errors)
    ensures FieldMessages(errors)[errors[i].field] == errors[i].defaultMessage
    decreases |errors|
  {
    var init := errors[..|errors| - 1];
    if i < |init| {
      assert init[i] == errors[i];
      forall j | i < j < |init| ensures init[j].field != init[i].field {
        assert init[j] == errors[j];
      }
      FieldMessagesLastWins(init, i);
    }
  }

  /** The 400 a failed bean validation becomes: the VALIDATION_ERROR map plus the fields map. */
  function ValidationResponse(errors: seq<FieldError>, now: string): Response {
    Response(HTTP_BAD_REQUEST, None, Json(ErrorBody("VALIDATION_ERROR", VALIDATION_FAILED, now)["fields" := Fields(FieldMessages(errors))]))
  }

  /** `handleValidation`: the loop over the field errors, putting each into the fields map. */
  method HandleValidation(errors: seq<FieldError>, now: string) returns (r: Response)
    ensures r == ValidationResponse(errors, now)
    ensures r.status == HTTP_BAD_REQUEST && r.body.Json?
    ensures r.body.json.Keys == {"timestamp", "code", "message", "fields"}
    ensures r.body.json["code"] == Text("VALIDATION_ERROR") && r.body.json["message"] == Text(VALIDATION_FAILED)
  {
    var body := ErrorBody("VALIDATION_ERROR", VALIDATION_FAILED, now);
    var fields: map<string, string> := map[];
    var i := 0;
    while i < |errors|
      invariant 0 <= i <= |errors|
      invariant fields == FieldMessages(errors[..i])
    {
      assert errors[..i + 1][..i] == errors[..i];
      fields := fields[errors[i].field := errors[i].defaultMessage];
      i := i + 1;
    }
    assert errors[..|errors|] == errors;
    body := body["fields" := Fields(fields)];
    r := Response(HTTP_BAD_REQUEST, None, Json(body));
  }

  /** The message of `handleHttpMessageNotReadable`: a date problem first, then a syntax error, else the generic one. */
  function NotReadableMessage(message: string): string {
    if Contains(message, "LocalDate") then BAD_DATE_MESSAGE
    else if Contains(message, "JSON parse error") then JSON_SYNTAX_MESSAGE
    else BAD_JSON_MESSAGE
  }

  /** Each of the three messages is chosen exactly on its condition. */
  lemma NotReadableMessageChoice(message: string)
    ensures NotReadableMessage(message) == BAD_DATE_MESSAGE <==> Contains(message, "LocalDate")
    ensures NotReadableMessage(message) == JSON_SYNTAX_MESSAGE <==> !Contains(message, "LocalDate") && Contains(message, "JSON parse error")
    ensures NotReadableMessage(message) == BAD_JSON_MESSAGE <==> !Contains(message, "LocalDate") && !Contains(message, "JSON parse error")
  {
    assert BAD_DATE_MESSAGE[3] == 'f' && JSON_SYNTAX_MESSAGE[3] == 'J' && BAD_JSON_MESSAGE[3] == 'f';
    assert BAD_DATE_MESSAGE[13] == ' ' && BAD_JSON_MESSAGE[13] == 'l';
  }

  /**
    The response for a thrown exception, or `None` when this handler has no
    method for its class (Spring's default handling then applies).
  */
  function Handle(e: Exception, now: string): (r: Option<Response>)
    ensures r.None? <==> e.IllegalState? || e.Security? || e.UsernameNotFound? || e.TokenFailure?
  {
    match e
    case EntityNotFound(message) => Some(Response(HTTP_NOT_FOUND, None, Json(ErrorBody("NOT_FOUND", message, now))))
    case DataIntegrityViolation(message) => Some(Response(HTTP_CONFLICT, None, Json(ErrorBody("CONFLICT", message, now))))
    case MethodArgumentNotValid(errors) => Some(ValidationResponse(errors, now))
    case NamingAuthentication(message) => Some(Response(HTTP_UNAUTHORIZED, None, Json(ErrorBody("AUTHENTICATION_FAILED", message, now))))
    case IllegalArgument(message) => Some(Response(HTTP_UNAUTHORIZED, None, Json(ErrorBody("AUTHENTICATION_FAILED", message, now))))
    case HttpRequestMethodNotSupported(httpMethod) =>
      Some(Response(HTTP_METHOD_NOT_ALLOWED, None, Json(ErrorOnly("El método HTTP '" + httpMethod + "' no está soportado para esta ruta"))))
    case NoResourceFound => Some(Response(HTTP_NOT_FOUND, None, Json(ErrorOnly(NO_RESOURCE_MESSAGE))))
    case MissingServletRequestParameter(name) =>
      Some(Response(HTTP_BAD_REQUEST, None, Json(ErrorOnly("El parámetro requerido '" + name + "' no está presente"))))
    case HttpMediaTypeNotSupported(contentType) =>
      Some(Response(HTTP_BAD_REQUEST, None, Json(ErrorOnly("El tipo de contenido '" + contentType + "' no está soportado"))))
    case MethodArgumentTypeMismatch(parameter, requiredType) =>
      Some(Response(HTTP_BAD_REQUEST, None, Json(ErrorOnly("El parámetro '" + parameter + "' debe ser de tipo " + requiredType))))
    case HttpMessageNotReadable(message) => Some(Response(HTTP_BAD_REQUEST, None, Json(ErrorOnly(NotReadableMessage(message)))))
    case _ => None
  }

  /** The status each handled class maps to, and which body shape it gets. */
  lemma HandleStatus(e: Exception, now: string)
    requires Handle(e, now).Some?
    ensures var r := Handle(e, now).value;
      && r.location.None? && r.body.Json?
      && (r.status == HTTP_NOT_FOUND <==> e.EntityNotFound? || e.NoResourceFound?)
      && (r.status == HTTP_CONFLICT <==> e.DataIntegrityViolation?)
      && (r.status == HTTP_UNAUTHORIZED <==> e.IllegalArgument? || e.NamingAuthentication?)
      && (r.status == HTTP_METHOD_NOT_ALLOWED <==> e.HttpRequestMethodNotSupported?)
      && (r.status == HTTP_BAD_REQUEST <==>
            (e.MethodArgumentNotValid? || e.MissingServletRequestParameter? || e.HttpMediaTypeNotSupported?
             || e.MethodArgumentTypeMismatch? || e.HttpMessageNotReadable?))
      && ("code" in r.body.json <==>
            (e.EntityNotFound? || e.DataIntegrityViolation? || e.MethodArgumentNotValid?
             || e.IllegalArgument? || e.NamingAuthentication?))
      && ("error" in r.body.json <==> !("code" in r.body.json))
  {
  }

  /** The error-map handlers carry the exception's own message; both authentication handlers share one code. */
  lemma HandleCarriesMessage(e: Exception, now: string)
    requires e.EntityNotFound? || e.DataIntegrityViolation? || e.IllegalArgument? || e.NamingAuthentication?
    ensures Handle(e, now).Some? && Handle(e, now).value.body.Json?
    ensures Handle(e, now).value.body.json == ErrorBody(
      if e.EntityNotFound? then "NOT_FOUND" else if e.DataIntegrityViolation? then "CONFLICT" else "AUTHENTICATION_FAILED",
      e.message, now)
  {
  }

  /** What the client receives for a controller call: its response, or the handler's answer for what it threw. */
  function Respond(result: Result<Response, Exception>, now: string): (r: Option<Response>)
    ensures result.Ok? ==> r == Some(result.value)
    ensures result.Err? ==> r == Handle(result.error, now)
  {
    match result
    case Ok(response) => Some(response)
    case Err(e) => Handle(e, now)
  }
}
