/** The assistant's HTTP endpoint: the method check, the validation of the request body, and
    the answer built from the responder and the recommendations. */
module Handler {
  import opened Wrappers
  import opened Catalogue
  import opened Responder
  import opened Recommend

  /** A JSON value as the body parser can produce it; `Undefined` is an absent field, and
      objects and arrays are not looked into. */
  datatype JsValue = Undefined | Null | Bool(b: bool) | Number(n: int) | Str(s: string) | Obj

  /** JavaScript truthiness of a value. */
  predicate Truthy(v: JsValue) {
    match v
    case Undefined => false
    case Null => false
    case Bool(b) => b
    case Number(n) => n != 0
    case Str(s) => s != ""
    case Obj => true
  }

  /** The fields of a parsed body object; an absent or empty history is `None` or `Some([])`. */
  datatype Body = Body(message: JsValue, history: Option<seq<Turn>>)

  /** A request with its HTTP method `verb`. `body` is `None` when the parsed body is undefined or
      null, so that destructuring it throws. A primitive body such as a string or a number
      destructures to absent fields and is `Some(Body(Undefined, None))`. */
  datatype Request = Request(verb: string, body: Option<Body>)

  datatype Payload =
    | Empty
    | Error(error: string)
    | Answer(text: string, recommendations: seq<Product>)

  datatype Response = Response(status: int, payload: Payload)

  const MethodNotAllowed := Response(405, Error("Method not allowed"))
  const MessageRequired := Response(400, Error("Message is required"))
  const GenerationFailed := Response(500, Error("Failed to generate response"))

  /** The first `n` elements of `s`, or all of them when there are fewer: `s.slice(0, n)`. */
  function Limit<T>(s: seq<T>, n: nat): (r: seq<T>)
    ensures |r| == Min(n, |s|)
    ensures r == s[..|r|]
    ensures |s| <= n ==> r == s
  {
    s[..Min(n, |s|)]
  }

  /** The request carries a non-empty string message, the only kind the endpoint answers. */
  predicate HasMessage(req: Request) {
    req.body.Some? && req.body.value.message.Str? && req.body.value.message.s != ""
  }

  /** `handler`. A preflight request is accepted with an empty answer; any method but POST is
      refused; a POST whose body is undefined or null fails; a missing or falsy message is refused; a
      truthy message that is not a string fails, since lower-casing it throws; a non-empty
      string message is answered with the reply text and at most four catalogue products.
      `apiKey` is the configured service key, `complete` the completion service, and
      `shuffled` the random reordering of the catalogue `products`. */
  function Handle(req: Request, products: seq<Product>, apiKey: Option<string>,
                  complete: seq<ChatMessage> -> Option<string>, shuffled: seq<Product>): (resp: Response)
    requires multiset(shuffled) == multiset(products)
    ensures req.verb == "OPTIONS" ==> resp == Response(200, Empty)
    ensures req.verb != "OPTIONS" && req.verb != "POST" ==> resp == MethodNotAllowed
    ensures req.verb == "POST" && req.body.None? ==> resp == GenerationFailed
    ensures req.verb == "POST" && req.body.Some? && !Truthy(req.body.value.message) ==>
      resp == MessageRequired
    ensures req.verb == "POST" && req.body.Some? && Truthy(req.body.value.message) &&
            !req.body.value.message.Str?
            ==> resp == GenerationFailed
    ensures req.verb == "POST" && HasMessage(req) ==>
      resp == Response(200, Answer(
        GenerateResponse(req.body.value.message.s, req.body.value.history, apiKey, complete),
        RelevantProducts(KeywordTable, req.body.value.message.s, products, shuffled)))
  {
    if req.verb == "OPTIONS" then Response(200, Empty)
    else if req.verb != "POST" then MethodNotAllowed
    else if req.body.None? then GenerationFailed
    else
      var body := req.body.value;
      if !Truthy(body.message) then MessageRequired
      else if !body.message.Str? then GenerationFailed
      else
        var text := GenerateResponse(body.message.s, body.history, apiKey, complete);
        var recommendations := RelevantProducts(KeywordTable, body.message.s, products, shuffled);
        Response(200, Answer(text, Limit(recommendations, 4)))
  }

  /** The endpoint answers with status 200 exactly for preflight requests and for POST requests
      carrying a non-empty string message. */
  lemma SuccessIff(req: Request, products: seq<Product>, apiKey: Option<string>,
                   complete: seq<ChatMessage> -> Option<string>, shuffled: seq<Product>)
    requires multiset(shuffled) == multiset(products)
    ensures Handle(req, products, apiKey, complete, shuffled).status == 200 <==>
      req.verb == "OPTIONS" || (req.verb == "POST" && HasMessage(req))
  {
  }

  /** The reply text of an answer is the completion service's text or the keyword reply, and
      without a usable key it is always the keyword reply. */
  lemma AnswerTextOrigin(req: Request, products: seq<Product>, apiKey: Option<string>,
                         complete: seq<ChatMessage> -> Option<string>, shuffled: seq<Product>)
    requires multiset(shuffled) == multiset(products)
    requires req.verb == "POST" && HasMessage(req)
    ensures var text := Handle(req, products, apiKey, complete, shuffled).payload.text;
      var message := req.body.value.message.s;
      && (text == Fallback(message) || complete(Messages(req.body.value.history, message)) == Some(text))
      && (apiKey.None? || apiKey.value == "" ==> text == Fallback(message))
  {
  }

  /** An answer recommends at most four products, each taken from the catalogue no more often
      than the catalogue holds it. */
  lemma AnswerRecommendsFromCatalogue(req: Request, products: seq<Product>, apiKey: Option<string>,
                                      complete: seq<ChatMessage> -> Option<string>, shuffled: seq<Product>)
    requires multiset(shuffled) == multiset(products)
    requires req.verb == "POST" && HasMessage(req)
    ensures var recommendations := Handle(req, products, apiKey, complete, shuffled).payload.recommendations;
      |recommendations| <= 4 && multiset(recommendations) <= multiset(products)
  {
  }

  /** Without a usable key the completion service is never consulted. */
  lemma NoKeyIgnoresService(req: Request, products: seq<Product>, apiKey: Option<string>,
                            complete1: seq<ChatMessage> -> Option<string>,
                            complete2: seq<ChatMessage> -> Option<string>, shuffled: seq<Product>)
    requires multiset(shuffled) == multiset(products)
    requires apiKey.None? || apiKey.value == ""
    ensures Handle(req, products, apiKey, complete1, shuffled) ==
            Handle(req, products, apiKey, complete2, shuffled)
  {
  }

  /** Over a catalogue without repetition, an answer recommends at most four of its products,
      none twice. */
  lemma AnswerWithoutRepeats(req: Request, products: seq<Product>, apiKey: Option<string>,
                             complete: seq<ChatMessage> -> Option<string>, shuffled: seq<Product>)
    requires multiset(shuffled) == multiset(products)
    requires Distinct(products)
    ensures var resp := Handle(req, products, apiKey, complete, shuffled);
      resp.payload.Answer? ==>
        && |resp.payload.recommendations| <= 4
        && Distinct(resp.payload.recommendations)
        && multiset(resp.payload.recommendations) <= multiset(products)
  {
    if req.verb == "POST" && HasMessage(req) {
      var recommendations := RelevantProducts(KeywordTable, req.body.value.message.s, products, shuffled);
      SubmultisetDistinct(recommendations, products);
    }
  }

  /** The deployed endpoint: the handler over the built-in catalogue. An answer recommends at
      most four catalogue products, none twice. */
  function Endpoint(req: Request, apiKey: Option<string>, complete: seq<ChatMessage> -> Option<string>,
                    shuffled: seq<Product>): (resp: Response)
    requires multiset(shuffled) == multiset(PPEProducts)
    ensures resp.payload.Answer? ==>
      && |resp.payload.recommendations| <= 4
      && Distinct(resp.payload.recommendations)
      && multiset(resp.payload.recommendations) <= multiset(PPEProducts)
  {
    CatalogueDistinct();
    AnswerWithoutRepeats(req, PPEProducts, apiKey, complete, shuffled);
    Handle(req, PPEProducts, apiKey, complete, shuffled)
  }
}
