/**
  `JwtAuthenticationEntryPoint`: the 401 written when a request that needs
  authentication arrives without it, with a Spanish message chosen by
  looking for keywords in the authentication failure's message.
*/
module EntryPoint {
  import opened Wrappers
  import opened Text
  import opened Domain

  const EXPIRED_MESSAGE := "El token ha expirado. " + "Por favor, inicia sesión nuevamente."
  const INVALID_MESSAGE := "Token inválido. " + "Por favor, proporciona un token válido."
  const MALFORMED_MESSAGE := "Token malformado. " + "Verifica el formato del token."
  const GENERIC_PREFIX := "Error de autenticación: "
  const JSON_CONTENT_TYPE := "application/json"
  const UTF8 := "UTF-8"

  /** The servlet response `commence` writes to. */
  class HttpServletResponse {
    var status: int
    var contentType: string
    var characterEncoding: string
    var body: map<string, Value>

    constructor ()
      ensures status == HTTP_OK && contentType == "" && characterEncoding == "" && body == map[]
    {
      status, contentType, characterEncoding, body := HTTP_OK, "", "", map[];
    }
  }

  /** The message chosen for a failure message: the first keyword found among expired, invalid, malformed, else a generic one. */
  function AuthFailureMessage(message: string): (r: string)
    ensures r == EXPIRED_MESSAGE || r == INVALID_MESSAGE || r == MALFORMED_MESSAGE || r == GENERIC_PREFIX + message
  {
    if Contains(message, "expired") then EXPIRED_MESSAGE
    else if Contains(message, "invalid") then INVALID_MESSAGE
    else if Contains(message, "malformed") then MALFORMED_MESSAGE
    else GENERIC_PREFIX + message
  }

  /**
    Which message is chosen: each fixed message exactly for its keyword (an
    earlier keyword taking precedence), and the generic one, which repeats the
    failure message, exactly when none of the keywords occurs.
  */
  lemma AuthFailureMessageChoice(message: string)
    ensures AuthFailureMessage(message) == EXPIRED_MESSAGE <==> Contains(message, "expired")
    ensures AuthFailureMessage(message) == INVALID_MESSAGE <==> !Contains(message, "expired") && Contains(message, "invalid")
    ensures AuthFailureMessage(message) == MALFORMED_MESSAGE <==>
      !Contains(message, "expired") && !Contains(message, "invalid") && Contains(message, "malformed")
    ensures StartsWith(AuthFailureMessage(message), GENERIC_PREFIX) <==>
      !Contains(message, "expired") && !Contains(message, "invalid") && !Contains(message, "malformed")
    ensures !Contains(message, "expired") && !Contains(message, "invalid") && !Contains(message, "malformed") ==>
      AuthFailureMessage(message) == GENERIC_PREFIX + message
  {
    var generic := GENERIC_PREFIX + message;
    assert generic[1] == 'r' && generic[0] == 'E';
    assert EXPIRED_MESSAGE[1] == 'l' && INVALID_MESSAGE[0] == 'T' && MALFORMED_MESSAGE[0] == 'T';
    assert INVALID_MESSAGE[6] == 'i' && MALFORMED_MESSAGE[6] == 'm';
    assert generic[..|GENERIC_PREFIX|] == GENERIC_PREFIX;
  }

  /** `commence`: status 401, JSON in UTF-8, and a body with the timestamp, the failure message as code, the chosen message and the path. */
  method Commence(response: HttpServletResponse, requestUri: string, failureMessage: string, now: string)
    modifies response
    ensures response.status == HTTP_UNAUTHORIZED
    ensures response.contentType == JSON_CONTENT_TYPE && response.characterEncoding == UTF8
    ensures response.body == map[
      "timestamp" := Text(now),
      "code" := Text(failureMessage),
      "message" := Text(AuthFailureMessage(failureMessage)),
      "path" := Text(requestUri)]
  {
    response.status := HTTP_UNAUTHORIZED;
    response.contentType := JSON_CONTENT_TYPE;
    response.characterEncoding := UTF8;
    var details: map<string, Value> := map[];
    details := details["timestamp" := Text(now)];
    details := details["code" := Text(failureMessage)];
    var message := failureMessage;
    if Contains(message, "expired") {
      details := details["message" := Text(EXPIRED_MESSAGE)];
    } else if Contains(message, "invalid") {
      details := details["message" := Text(INVALID_MESSAGE)];
    } else if Contains(message, "malformed") {
      details := details["message" := Text(MALFORMED_MESSAGE)];
    } else {
      details := details["message" := Text(GENERIC_PREFIX + message)];
    }
    details := details["path" := Text(requestUri)];
    response.body := details;
  }

  /** `handleSecurityException`: 403 with the FORBIDDEN error map carrying the exception's message. */
  function HandleSecurityException(e: Exception, now: string): (r: Response)
    requires e.Security?
    ensures r.status == HTTP_FORBIDDEN && r.body.Json?
    ensures r.body.json.Keys == {"timestamp", "code", "message"}
    ensures r.body.json["code"] == Text("FORBIDDEN") && r.body.json["message"] == Text(e.message)
  {
    Forbidden(e.message, now)
  }
}
