/** The part of `get_code_review` and `get_code_suggestions` that runs once
    the chat-completion call has returned: check that there is a choice with
    content, extract the JSON, validate or structure it, and turn every
    exception raised on the way into a ValueError by the `except` chain
    (`JSONDecodeError` → "Invalid JSON", SDK errors → "Azure OpenAI API error",
    a ValueError re-raised as it is, anything else → "Unexpected error").

    The call itself is not modelled: its outcome is a parameter, either the
    returned choices or the class of the exception it raised. */
module Gateway {
  import opened Wrappers
  import opened PyValue
  import Exceptions
  import JsonExtract
  import ReviewValidation
  import Suggestions
  import ReviewErrors

  /** `response.choices[i]`: `message.content` (None when absent) and `finish_reason`. */
  datatype Choice = Choice(content: Option<string>, finishReason: string)

  /** The outcome of `client.chat.completions.create`. */
  type Completion = Result<seq<Choice>, Exceptions.Class>

  /** An exception raised inside the `try`: by the call, or by the code after it. */
  datatype Fault = CallFailed(cls: Exceptions.Class) | BodyError(error: Error)

  /** The ValueError that leaves the function, one constructor per `except` clause. */
  datatype GatewayError =
    | InvalidJson                         // except json.JSONDecodeError
    | ApiFailure(cls: Exceptions.Class)   // except (BadRequestError, RateLimitError, APIError)
    | Reraised(fault: Fault)              // except Exception, already a ValueError: raise
    | Unexpected(cls: Exceptions.Class)   // except Exception, anything else: wrapped

  /** The class of an exception the body raises. */
  function FaultClass(f: Fault): Exceptions.Class {
    match f
    case CallFailed(c) => c
    case BodyError(e) =>
      if e == JsonDecodeError then Exceptions.JSONDecodeError
      else if e == TypeError then Exceptions.TypeError
      else Exceptions.ValueError
  }

  /** The `except` chain of both functions, first matching clause first. */
  function Wrap(f: Fault): GatewayError {
    var c := FaultClass(f);
    if Exceptions.IsSubclass(c, Exceptions.JSONDecodeError) then InvalidJson
    else if Exceptions.IsSubclass(c, Exceptions.BadRequestError)
         || Exceptions.IsSubclass(c, Exceptions.RateLimitError)
         || Exceptions.IsSubclass(c, Exceptions.APIError) then ApiFailure(c)
    else if Exceptions.IsSubclass(c, Exceptions.ValueError) then Reraised(f)
    else Unexpected(c)
  }

  /** The class of the exception that leaves the function. */
  function ErrorClass(g: GatewayError): Exceptions.Class {
    match g
    case Reraised(f) => FaultClass(f)
    case _ => Exceptions.ValueError
  }

  /** The checks on the response: at least one choice, and truthy content in the first. */
  function Content(completion: Completion): Result<string, Fault> {
    match completion
    case Failure(c) => Failure(CallFailed(c))
    case Success(choices) =>
      if choices == [] then Failure(BodyError(NoChoices))
      else
        match choices[0].content
        case Some(text) =>
          if text == "" then Failure(BodyError(EmptyContent(choices[0].finishReason)))
          else Success(text)
        case None => Failure(BodyError(EmptyContent(choices[0].finishReason)))
  }

  /** The body of `get_code_review`'s `try`: the validated dict's entries. A
      reply that is not a dict fails the key check with a TypeError (or an
      AttributeError, folded into it). */
  function ReviewBody(completion: Completion, parse: JsonExtract.Parser): Result<seq<Entry>, Fault> {
    match Content(completion)
    case Failure(f) => Failure(f)
    case Success(text) =>
      match JsonExtract.ExtractJson(text, parse)
      case Failure(e) => Failure(BodyError(e))
      case Success(v) =>
        if !v.Dict? then Failure(BodyError(TypeError))
        else
          var outcome := ReviewValidation.Validate(v.entries);
          match outcome.raised
          case Some(e) => Failure(BodyError(e))
          case None => Success(outcome.entries)
  }

  /** `get_code_review` after the call. */
  function CodeReview(completion: Completion, parse: JsonExtract.Parser): Result<seq<Entry>, GatewayError> {
    match ReviewBody(completion, parse)
    case Success(es) => Success(es)
    case Failure(f) => Failure(Wrap(f))
  }

  method GetCodeReview(completion: Completion, parse: JsonExtract.Parser)
    returns (r: Result<seq<Entry>, GatewayError>)
    ensures r == CodeReview(completion, parse)
  {
    var content := Content(completion);
    if content.Failure? {
      return Failure(Wrap(content.error));
    }
    var result := JsonExtract.ExtractJson(content.value, parse);
    if result.Failure? {
      return Failure(Wrap(BodyError(result.error)));
    }
    if !result.value.Dict? {
      return Failure(Wrap(BodyError(TypeError)));
    }
    var d := new PyDict(result.value.entries);
    var validated := ReviewValidation.ValidateReviewResponse(d);
    if validated.Failure? {
      return Failure(Wrap(BodyError(validated.error)));
    }
    return Success(validated.value.entries);
  }

  /** The body of `get_code_suggestions`' `try`: the structured suggestions. */
  function SuggestionsBody(completion: Completion, parse: JsonExtract.Parser)
    : Result<seq<Suggestions.Suggestion>, Fault>
  {
    match Content(completion)
    case Failure(f) => Failure(f)
    case Success(text) =>
      match JsonExtract.ExtractJson(text, parse)
      case Failure(e) => Failure(BodyError(e))
      case Success(v) =>
        match Suggestions.SuggestionItems(v)
        case Failure(e) => Failure(BodyError(e))
        case Success(items) =>
          Success(seq(|items|, i requires 0 <= i < |items| => Suggestions.Structure(items[i])))
  }

  /** `get_code_suggestions` after the call. */
  function CodeSuggestions(completion: Completion, parse: JsonExtract.Parser)
    : Result<seq<Suggestions.Suggestion>, GatewayError>
  {
    match SuggestionsBody(completion, parse)
    case Success(ss) => Success(ss)
    case Failure(f) => Failure(Wrap(f))
  }

  method GetCodeSuggestions(completion: Completion, parse: JsonExtract.Parser)
    returns (r: Result<seq<Suggestions.Suggestion>, GatewayError>)
    ensures r == CodeSuggestions(completion, parse)
  {
    var content := Content(completion);
    if content.Failure? {
      return Failure(Wrap(content.error));
    }
    var result := JsonExtract.ExtractJson(content.value, parse);
    if result.Failure? {
      return Failure(Wrap(BodyError(result.error)));
    }
    var items := Suggestions.SuggestionItems(result.value);
    if items.Failure? {
      return Failure(Wrap(BodyError(items.error)));
    }
    var structured := Suggestions.StructureSuggestions(items.value);
    assert structured == seq(|items.value|, i requires 0 <= i < |items.value| =>
                               Suggestions.Structure(items.value[i]));
    return Success(structured);
  }

  // ----- what the gateway promises -----

  /** Whatever leaves the gateway is a plain ValueError: the wrapped ones by
      construction, and a re-raised one because the only subclass of
      ValueError raised here, JSONDecodeError, is caught by an earlier clause. */
  lemma WrapIsValueError(f: Fault)
    ensures ErrorClass(Wrap(f)) == Exceptions.ValueError
  {
    if Wrap(f).Reraised? {
      match FaultClass(f)
      case ValueError =>
      case JSONDecodeError =>
      case _ =>
    }
  }

  /** So `/review` answers every failure of `get_code_review` with 500 and
      the catch-all detail: its 401, 429, 503 and 502 clauses, and its
      JSON-decoding and KeyError ones, are never reached from here. */
  lemma ReviewFailuresAre500(completion: Completion, parse: JsonExtract.Parser, message: string)
    requires CodeReview(completion, parse).Failure?
    ensures var e := Exceptions.Raised(ErrorClass(CodeReview(completion, parse).error), message);
      ReviewErrors.ReviewError(e) == ReviewErrors.HttpError(500, ReviewErrors.UnexpectedPrefix + message)
  {
    WrapIsValueError(ReviewBody(completion, parse).error);
    ReviewErrors.ReviewServerError(Exceptions.Raised(Exceptions.ValueError, message));
  }

  /** A successful review has the top-level shape of the response model: a string
      review, a list of suggestions and an integer score in 1..10. */
  lemma CodeReviewShape(completion: Completion, parse: JsonExtract.Parser)
    requires CodeReview(completion, parse).Success?
    ensures var es := CodeReview(completion, parse).value;
      && Lookup(es, "review").Some? && Lookup(es, "review").value.Str?
      && Lookup(es, "suggestions").Some? && Lookup(es, "suggestions").value.List?
      && Lookup(es, "score").Some? && Lookup(es, "score").value.Int?
      && ReviewValidation.MinScore <= Lookup(es, "score").value.i <= ReviewValidation.MaxScore
  {
    var text := Content(completion).value;
    var v := JsonExtract.ExtractJson(text, parse).value;
    ReviewValidation.ValidateScoreInRange(v.entries);
  }

  /** The response checks: no choices, or a first choice without content,
      is a ValueError re-raised as it is, the latter naming the finish reason. */
  lemma ResponseChecks(choices: seq<Choice>, parse: JsonExtract.Parser)
    ensures choices == [] ==>
              CodeReview(Success(choices), parse) == Failure(Reraised(BodyError(NoChoices)))
              && CodeSuggestions(Success(choices), parse) == Failure(Reraised(BodyError(NoChoices)))
    ensures choices != [] && (choices[0].content == None || choices[0].content == Some("")) ==>
              CodeReview(Success(choices), parse) ==
                Failure(Reraised(BodyError(EmptyContent(choices[0].finishReason))))
              && CodeSuggestions(Success(choices), parse) ==
                Failure(Reraised(BodyError(EmptyContent(choices[0].finishReason))))
  {
  }

  /** A failed call is reported as an API error when the SDK raised one, and
      as an unexpected error otherwise (a ValueError passing through). */
  lemma CallFailures(c: Exceptions.Class, parse: JsonExtract.Parser)
    ensures Exceptions.IsSubclass(c, Exceptions.APIError) ==>
              CodeReview(Failure(c), parse) == Failure(ApiFailure(c))
              && CodeSuggestions(Failure(c), parse) == Failure(ApiFailure(c))
    ensures c == Exceptions.KeyError || c == Exceptions.TypeError ==>
              CodeReview(Failure(c), parse) == Failure(Unexpected(c))
              && CodeSuggestions(Failure(c), parse) == Failure(Unexpected(c))
  {
    match c
    case Exception =>
    case ValueError =>
    case JSONDecodeError =>
    case KeyError =>
    case TypeError =>
    case APIError =>
    case APIStatusError =>
    case AuthenticationError =>
    case RateLimitError =>
    case BadRequestError =>
    case APIConnectionError =>
    case APITimeoutError =>
  }

  /** Content that cannot be decoded is an "Invalid JSON" error; content
      without any JSON is the "could not extract" ValueError, re-raised. */
  lemma ExtractionFailures(completion: Completion, parse: JsonExtract.Parser)
    requires Content(completion).Success?
    ensures var text := Content(completion).value;
      && (JsonExtract.ExtractJson(text, parse) == Failure(JsonDecodeError) ==>
            CodeReview(completion, parse) == Failure(InvalidJson)
            && CodeSuggestions(completion, parse) == Failure(InvalidJson))
      && ('{' !in text && parse(text).None? ==>
            CodeReview(completion, parse) ==
              Failure(Reraised(BodyError(NoJsonFound(JsonExtract.ErrorPrefix(text)))))
            && CodeSuggestions(completion, parse) ==
              Failure(Reraised(BodyError(NoJsonFound(JsonExtract.ErrorPrefix(text))))))
  {
    var text := Content(completion).value;
    if '{' !in text && parse(text).None? {
      JsonExtract.ExtractJsonWithoutBrace(text, parse);
    }
  }

  /** A reply that is JSON but not an object fails the key check or `.get`
      with a TypeError (or AttributeError), which both functions wrap as an
      unexpected error. */
  lemma NonDictReply(completion: Completion, parse: JsonExtract.Parser)
    requires Content(completion).Success?
    requires JsonExtract.ExtractJson(Content(completion).value, parse).Success?
    requires !JsonExtract.ExtractJson(Content(completion).value, parse).value.Dict?
    ensures CodeReview(completion, parse) == Failure(Unexpected(Exceptions.TypeError))
    ensures CodeSuggestions(completion, parse) == Failure(Unexpected(Exceptions.TypeError))
  {
  }

  /** Suggestions from a reply dict: one structured suggestion per item of
      its `suggestions` list, in order, and none when the key is absent. */
  lemma CodeSuggestionsFromReply(completion: Completion, parse: JsonExtract.Parser, es: seq<Entry>)
    requires Content(completion).Success?
    requires JsonExtract.ExtractJson(Content(completion).value, parse) == Success(Dict(es))
    ensures "suggestions" !in Keys(es) ==> CodeSuggestions(completion, parse) == Success([])
    ensures forall xs :: Lookup(es, "suggestions") == Some(List(xs)) ==>
              && CodeSuggestions(completion, parse).Success?
              && |CodeSuggestions(completion, parse).value| == |xs|
              && forall i :: 0 <= i < |xs| ==>
                   CodeSuggestions(completion, parse).value[i] == Suggestions.Structure(xs[i])
    ensures Lookup(es, "suggestions").Some? && !Lookup(es, "suggestions").value.List? ==>
              CodeSuggestions(completion, parse) == Failure(Reraised(BodyError(NotAList)))
  {
    Suggestions.SuggestionItemsCases(es);
  }
}
