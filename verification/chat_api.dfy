/** The `POST /api/chat` handler: it checks that the request carries a `messages` array,
    defaults three generation parameters, hands everything to the model backend, and turns
    any exception into a fixed error response. The backend call and its streamed answer are
    the outcome `Forward`; whether building that call throws is the parameter `backendThrows`. */
module ChatApi {
  import opened Types

  /** A JSON value as `req.json()` parses it. Numbers are abstract reals: the handler only
      compares them with zero and passes them on. */
  datatype Json =
    | JNull
    | JBool(b: bool)
    | JNumber(n: real)
    | JString(s: string)
    | JArray(items: seq<Json>)
    | JObject(fields: map<string, Json>)

  /** The request body: not valid JSON (so `req.json()` throws), or a parsed value. */
  datatype Body = Unparseable | Parsed(value: Json)

  /** What the handler answers. */
  datatype Outcome =
    | BadRequest(body: string)
    | Forward(messages: seq<Json>, maxTokens: real, temperature: real, topP: real)
    | ServerError(body: string)

  /** `JSON.stringify({ error: ... })` of the two fixed messages. */
  const ValidationErrorBody: string := "{\"error\":\"'messages' must be an array of message objects\"}"
  const ProcessingErrorBody: string := "{\"error\":\"There was an error processing your request\"}"
  const JsonContentType: string := "application/json"

  const DefaultMaxTokens: real := 500.0
  const DefaultTemperature: real := 0.7
  const DefaultTopP: real := 0.9

  /** HTTP status of an outcome; a forwarded request is answered by the backend's stream. */
  function StatusCode(o: Outcome): (code: int)
    ensures code == 400 <==> o.BadRequest?
    ensures code == 500 <==> o.ServerError?
    ensures code == 200 <==> o.Forward?
  {
    match o
    case BadRequest(_) => 400
    case Forward(_, _, _, _) => 200
    case ServerError(_) => 500
  }

  /** The declared content type of the two error responses; the stream's own is the backend's. */
  function ContentType(o: Outcome): (t: Option<string>)
    ensures t.Some? <==> !o.Forward?
    ensures t.Some? ==> t.value == JsonContentType
  {
    if o.Forward? then None else Some(JsonContentType)
  }

  /** `value.key`: an object's own property, `undefined` (None) for anything else. */
  function Property(value: Json, key: string): (r: Option<Json>)
    ensures r.Some? ==> value.JObject? && key in value.fields && value.fields[key] == r.value
    ensures value.JObject? && key in value.fields ==> r.Some?
  {
    match value
    case JObject(fields) => if key in fields then Some(fields[key]) else None
    case _ => None
  }

  /** `Array.isArray(p)`. */
  predicate IsArray(p: Option<Json>) {
    p.Some? && p.value.JArray?
  }

  /** `typeof p === "number"`. */
  predicate IsNumber(p: Option<Json>) {
    p.Some? && p.value.JNumber?
  }

  /** `max_tokens` when it is a number greater than zero, 500 otherwise. */
  function MaxTokens(p: Option<Json>): (r: real)
    ensures r > 0.0
    ensures r == DefaultMaxTokens || p == Some(JNumber(r))
    ensures IsNumber(p) && p.value.n > 0.0 ==> r == p.value.n
  {
    if IsNumber(p) && p.value.n > 0.0 then p.value.n else DefaultMaxTokens
  }

  /** `temperature` when it is a number, 0.7 otherwise. */
  function Temperature(p: Option<Json>): (r: real)
    ensures IsNumber(p) ==> p == Some(JNumber(r))
    ensures !IsNumber(p) ==> r == DefaultTemperature
  {
    if IsNumber(p) then p.value.n else DefaultTemperature
  }

  /** `top_p` when it is a number, 0.9 otherwise. */
  function TopP(p: Option<Json>): (r: real)
    ensures IsNumber(p) ==> p == Some(JNumber(r))
    ensures !IsNumber(p) ==> r == DefaultTopP
  {
    if IsNumber(p) then p.value.n else DefaultTopP
  }

  /** The handler. Parsing can throw, and so can the destructuring of a `null` body; a body
      whose `messages` is not an array is refused with 400 before any backend work; otherwise
      the request is forwarded with the defaulted parameters unless building the backend call
      throws. Every exception gives the same 500 body, whatever the error was. */
  function Post(body: Body, backendThrows: bool): (r: Outcome)
    ensures r.BadRequest? <==>
      body.Parsed? && body.value != JNull && !IsArray(Property(body.value, "messages"))
    ensures r.ServerError? <==>
      body.Unparseable? || body == Parsed(JNull)
      || (IsArray(Property(body.value, "messages")) && backendThrows)
    ensures r.BadRequest? ==> r.body == ValidationErrorBody
    ensures r.ServerError? ==> r.body == ProcessingErrorBody
    ensures r.Forward? ==>
      && Property(body.value, "messages") == Some(JArray(r.messages))
      && r.maxTokens > 0.0
      && (r.maxTokens == DefaultMaxTokens || Property(body.value, "max_tokens") == Some(JNumber(r.maxTokens)))
  {
    match body
    case Unparseable => ServerError(ProcessingErrorBody)
    case Parsed(value) =>
      if value == JNull then ServerError(ProcessingErrorBody)
      else
        var messages := Property(value, "messages");
        if !IsArray(messages) then BadRequest(ValidationErrorBody)
        else if backendThrows then ServerError(ProcessingErrorBody)
        else Forward(messages.value.items,
                     MaxTokens(Property(value, "max_tokens")),
                     Temperature(Property(value, "temperature")),
                     TopP(Property(value, "top_p")))
  }

  /** Validation comes first: whether a request is refused, and with what, does not depend on
      the backend, and a refused request is never forwarded. */
  lemma ValidationBeforeBackend(body: Body)
    ensures Post(body, true).BadRequest? <==> Post(body, false).BadRequest?
    ensures Post(body, true).BadRequest? ==> Post(body, true) == Post(body, false)
    ensures !(Post(body, false).BadRequest? && Post(body, true).Forward?)
  {
  }

  /** A request with a `messages` array reaches the backend with that array unchanged, whatever
      it holds, and with each parameter either the caller's valid value or its default. */
  lemma ArrayIsForwarded(fields: map<string, Json>, items: seq<Json>)
    requires "messages" in fields && fields["messages"] == JArray(items)
    ensures var r := Post(Parsed(JObject(fields)), false);
      && r.Forward? && r.messages == items
      && r.maxTokens == MaxTokens(if "max_tokens" in fields then Some(fields["max_tokens"]) else None)
      && r.temperature == Temperature(if "temperature" in fields then Some(fields["temperature"]) else None)
      && r.topP == TopP(if "top_p" in fields then Some(fields["top_p"]) else None)
  {
  }

  /** Worked requests: a string where the array should be, an empty array with no parameters,
      and a negative token limit. */
  lemma Examples()
    ensures Post(Parsed(JObject(map["messages" := JString("not-an-array")])), false)
            == BadRequest(ValidationErrorBody)
    ensures Post(Parsed(JObject(map["messages" := JArray([])])), false)
            == Forward([], 500.0, 0.7, 0.9)
    ensures Post(Parsed(JObject(map["messages" := JArray([]), "max_tokens" := JNumber(-5.0)])), false)
            == Forward([], 500.0, 0.7, 0.9)
    ensures Post(Parsed(JArray([])), false) == BadRequest(ValidationErrorBody)
    ensures Post(Parsed(JNull), false) == ServerError(ProcessingErrorBody)
  {
    var m := map["messages" := JArray([]), "max_tokens" := JNumber(-5.0)];
    assert "temperature" !in m && "top_p" !in m;
  }
}
