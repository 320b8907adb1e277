/** The `create-payment-intent` edge function: a request goes through three guards in a
    fixed order (method, field presence, amount) before a payment intent is created
    with the payment provider; every failure is a JSON `{ error }` body. */
module PaymentIntent {
  import opened Common

  /** The JSON values a request body's field can hold, as far as the guards tell them
      apart. `NaN` cannot come out of JSON text but is kept so truthiness is complete. */
  datatype JsValue =
    | Undefined
    | Null
    | Bool(b: bool)
    | Number(x: real)
    | NaN
    | Str(s: string)
    | Object

  /** JavaScript truthiness: `!v` is false exactly for these values. */
  predicate Truthy(v: JsValue)
  {
    match v
    case Undefined => false
    case Null => false
    case Bool(b) => b
    case Number(x) => x != 0.0
    case NaN => false
    case Str(s) => s != ""
    case Object => true
  }

  /** `const { amount, currency, listingId } = await req.json()`: a field the body lacks
      is `Undefined`. */
  datatype Body = Body(amount: JsValue, currency: JsValue, listingId: JsValue)

  /** `verb` is the HTTP method; `body` is `Err(message)` when reading or destructuring the body throws. */
  datatype Request = Request(verb: string, body: Result<Body>)

  /** What `stripe.paymentIntents.create` is called with: the amount, the currency and
      `metadata.listingId`. */
  datatype IntentParams = IntentParams(amount: real, currency: JsValue, listingId: JsValue)

  /** The provider's answer to the create call: the intent's client secret, or a thrown
      error's message. */
  datatype Provider = Created(clientSecret: string) | Threw(message: string)

  datatype Payload = ErrorPayload(error: string) | SecretPayload(clientSecret: string)

  datatype Response = Response(status: int, payload: Payload)

  /** The response, and the create call the handler made, if it made one. */
  datatype Handled = Handled(response: Response, intent: Option<IntentParams>)

  const MethodNotAllowed := "Method not allowed"
  const MissingFields := "Missing required fields"
  const InvalidAmount := "Invalid amount"

  /** All three fields pass the presence guard. */
  predicate Present(b: Body)
  {
    Truthy(b.amount) && Truthy(b.currency) && Truthy(b.listingId)
  }

  /** The amount passes the amount guard: `typeof amount === 'number' && amount > 0`. */
  predicate PositiveNumber(v: JsValue)
  {
    v.Number? && v.x > 0.0
  }

  /** The request the handler hands on to the provider. */
  predicate Accepted(req: Request)
  {
    req.verb == "POST" && req.body.Ok? && Present(req.body.value) && PositiveNumber(req.body.value.amount)
  }

  /** The `serve` handler. */
  function Serve(req: Request, provider: Provider): (h: Handled)
    ensures h.response.status in {200, 400, 405}
    // Guard 1: anything but POST, OPTIONS included, is refused before the body is read.
    ensures h.response.status == 405 <==> req.verb != "POST"
    ensures req.verb != "POST" ==> h == Handled(Response(405, ErrorPayload(MethodNotAllowed)), None)
    // A body that cannot be read is reported with the thrown error's message.
    ensures req.verb == "POST" && req.body.Err? ==>
      h == Handled(Response(400, ErrorPayload(req.body.message)), None)
    // Guard 2: a falsy field; an amount of zero lands here, not at guard 3.
    ensures req.verb == "POST" && req.body.Ok? && !Present(req.body.value) ==>
      h == Handled(Response(400, ErrorPayload(MissingFields)), None)
    ensures req.verb == "POST" && req.body.Ok? && req.body.value.amount == Number(0.0) ==>
      h.response.payload == ErrorPayload(MissingFields)
    // Guard 3: a present amount that is not a positive number.
    ensures req.verb == "POST" && req.body.Ok? && Present(req.body.value) && !PositiveNumber(req.body.value.amount) ==>
      h == Handled(Response(400, ErrorPayload(InvalidAmount)), None)
    // The provider is called exactly for requests past all guards, with the request's
    // amount, currency and listing id.
    ensures h.intent.Some? <==> Accepted(req)
    ensures h.intent.Some? ==>
      var b := req.body.value;
      h.intent.value == IntentParams(b.amount.x, b.currency, b.listingId)
    // Its answer decides between 200 with the client secret and 400 with its message.
    ensures h.response.status == 200 <==> Accepted(req) && provider.Created?
    ensures h.response.status == 200 ==> h.response.payload == SecretPayload(provider.clientSecret)
    ensures Accepted(req) && provider.Threw? ==> h.response == Response(400, ErrorPayload(provider.message))
  {
    if req.verb != "POST" then
      Handled(Response(405, ErrorPayload(MethodNotAllowed)), None)
    else if req.body.Err? then
      Handled(Response(400, ErrorPayload(req.body.message)), None)
    else
      var b := req.body.value;
      if !Truthy(b.amount) || !Truthy(b.currency) || !Truthy(b.listingId) then
        Handled(Response(400, ErrorPayload(MissingFields)), None)
      else if !b.amount.Number? || b.amount.x <= 0.0 then
        Handled(Response(400, ErrorPayload(InvalidAmount)), None)
      else
        var intent := IntentParams(b.amount.x, b.currency, b.listingId);
        match provider
        case Created(secret) => Handled(Response(200, SecretPayload(secret)), Some(intent))
        case Threw(message) => Handled(Response(400, ErrorPayload(message)), Some(intent))
  }
}
