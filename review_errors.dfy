/** How the HTTP endpoints turn an exception into an error response. `/review`
    has a chain of `except` clauses tried in order, the first one whose class
    the exception belongs to deciding the status and the detail; `/suggest`
    answers 500 with `str(e)` for anything. */
module ReviewErrors {
  import opened Wrappers
  import opened Exceptions

  /** An `HTTPException(status_code, detail)`. */
  datatype HttpError = HttpError(status: nat, detail: string)

  /** One `except` clause of `/review`: the class it catches, the status it
      answers with, and its detail, either fixed or a prefix before `str(e)`. */
  datatype Handler = Handler(catches: Class, status: nat, detail: string, appendsMessage: bool)

  const AuthenticationDetail: string :=
    "Authentication failed. Please check your Azure OpenAI API credentials."
  const RateLimitDetail: string := "Rate limit exceeded. Please try again later."
  const ConnectionDetail: string :=
    "Unable to connect to Azure OpenAI service. Please try again later."
  const ApiErrorPrefix: string := "Azure OpenAI API error: "
  const DecodeDetail: string := "Failed to parse AI response. The model returned an invalid format."
  const KeyErrorPrefix: string := "Invalid response structure from AI: missing field "
  const UnexpectedPrefix: string := "An unexpected error occurred: "

  /** The clauses of `/review`, in source order. */
  const ReviewHandlers: seq<Handler> := [
    Handler(AuthenticationError, 401, AuthenticationDetail, false),
    Handler(RateLimitError, 429, RateLimitDetail, false),
    Handler(APIConnectionError, 503, ConnectionDetail, false),
    Handler(APIError, 502, ApiErrorPrefix, true),
    Handler(JSONDecodeError, 500, DecodeDetail, false),
    Handler(KeyError, 500, KeyErrorPrefix, true),
    Handler(Exception, 500, UnexpectedPrefix, true)
  ]

  /** The index of the first clause that catches class c. */
  function FirstMatch(hs: seq<Handler>, c: Class): (i: Option<nat>)
    ensures i.Some? ==> i.value < |hs| && IsSubclass(c, hs[i.value].catches)
    ensures forall j :: 0 <= j < |hs| && (i.None? || j < i.value) ==> !IsSubclass(c, hs[j].catches)
  {
    if hs == [] then None
    else if IsSubclass(c, hs[0].catches) then Some(0)
    else
      match FirstMatch(hs[1..], c)
      case Some(i) => Some(i + 1)
      case None => None
  }

  /** The response a clause builds for exception e. */
  function Respond(h: Handler, e: Raised): HttpError {
    HttpError(h.status, if h.appendsMessage then h.detail + e.message else h.detail)
  }

  /** The response of `/review` when `get_code_review` raises e. */
  function ReviewError(e: Raised): HttpError {
    match FirstMatch(ReviewHandlers, e.cls)
    case Some(i) => Respond(ReviewHandlers[i], e)
    case None => HttpError(500, e.message)   // not reached: the last clause catches Exception
  }

  /** The clause of `/review` that handles class c, read as an if-chain in
      source order. */
  function ReviewClause(c: Class): nat {
    if IsSubclass(c, AuthenticationError) then 0
    else if IsSubclass(c, RateLimitError) then 1
    else if IsSubclass(c, APIConnectionError) then 2
    else if IsSubclass(c, APIError) then 3
    else if IsSubclass(c, JSONDecodeError) then 4
    else if IsSubclass(c, KeyError) then 5
    else 6
  }

  /** Which classes each clause of `/review` catches. */
  lemma CaughtBy(c: Class)
    ensures IsSubclass(c, AuthenticationError) <==> c == AuthenticationError
    ensures IsSubclass(c, RateLimitError) <==> c == RateLimitError
    ensures IsSubclass(c, APIConnectionError) <==> c == APIConnectionError || c == APITimeoutError
    ensures IsSubclass(c, APIError) <==>
              c == APIError || c == APIStatusError || c == AuthenticationError ||
              c == RateLimitError || c == BadRequestError || c == APIConnectionError ||
              c == APITimeoutError
    ensures IsSubclass(c, JSONDecodeError) <==> c == JSONDecodeError
    ensures IsSubclass(c, KeyError) <==> c == KeyError
    ensures IsSubclass(c, Exception)
  {
    match c
    case Exception =>
    case ValueError =>
    case JSONDecodeError =>
    case KeyError =>
    case TypeError =>
    case APIError =>
    case APIStatusError =>
    case AuthenticationError =>
    case RateLimitError =>
    case BadRequestError =>
    case APIConnectionError =>
    case APITimeoutError =>
  }

  /** The first clause catching c is the k-th when the k-th catches it and
      none before does. */
  lemma FirstMatchAt(hs: seq<Handler>, c: Class, k: nat)
    requires k < |hs| && IsSubclass(c, hs[k].catches)
    requires forall j :: 0 <= j < k ==> !IsSubclass(c, hs[j].catches)
    ensures FirstMatch(hs, c) == Some(k)
  {
    var i := FirstMatch(hs, c);
    if i.None? || i.value < k || i.value > k {
      assert false;
    }
  }

  /** The class each clause of `/review` names, top to bottom. */
  lemma HandlersCatch()
    ensures |ReviewHandlers| == 7
    ensures ReviewHandlers[0].catches == AuthenticationError && ReviewHandlers[1].catches == RateLimitError
    ensures ReviewHandlers[2].catches == APIConnectionError && ReviewHandlers[3].catches == APIError
    ensures ReviewHandlers[4].catches == JSONDecodeError && ReviewHandlers[5].catches == KeyError
    ensures ReviewHandlers[6].catches == Exception
  {
  }

  /** Every exception is caught by some clause of `/review`, the one the
      if-chain selects. */
  lemma ReviewFirstMatch(c: Class)
    ensures FirstMatch(ReviewHandlers, c) == Some(ReviewClause(c))
  {
    HandlersCatch();
    CaughtBy(c);
    FirstMatchAt(ReviewHandlers, c, ReviewClause(c));
  }

  /** The status of `/review` by class, the clauses read from top to bottom:
      authentication 401, rate limit 429, connection 503, any other API error
      502, and 500 for everything else (JSON decoding, KeyError and the rest). */
  lemma ReviewStatus(e: Raised)
    ensures ReviewError(e).status ==
              if IsSubclass(e.cls, AuthenticationError) then 401
              else if IsSubclass(e.cls, RateLimitError) then 429
              else if IsSubclass(e.cls, APIConnectionError) then 503
              else if IsSubclass(e.cls, APIError) then 502
              else 500
  {
    ReviewFirstMatch(e.cls);
  }

  /** `/review` answers 500 exactly for the exceptions that are not API errors;
      a ValueError, which is all `get_code_review` lets out, gets the
      catch-all detail. */
  lemma ReviewServerError(e: Raised)
    ensures ReviewError(e).status == 500 <==> !IsSubclass(e.cls, APIError)
    ensures e.cls == ValueError ==>
              ReviewError(e) == HttpError(500, UnexpectedPrefix + e.message)
  {
    ReviewStatus(e);
    CaughtBy(e.cls);
    if e.cls == ValueError {
      ReviewFirstMatch(e.cls);
      assert ReviewHandlers[6] == Handler(Exception, 500, UnexpectedPrefix, true);
    }
  }

  /** The 401, 429 and 503 responses carry fixed texts; the 502 one carries
      `str(e)` after its prefix; a decoding error gets its own fixed 500 text,
      a KeyError its prefix before `str(e)`, and an exception no earlier
      clause catches the catch-all prefix before `str(e)`. */
  lemma ReviewDetail(e: Raised)
    ensures ReviewError(e).status == 401 ==> ReviewError(e).detail == AuthenticationDetail
    ensures ReviewError(e).status == 429 ==> ReviewError(e).detail == RateLimitDetail
    ensures ReviewError(e).status == 503 ==> ReviewError(e).detail == ConnectionDetail
    ensures ReviewError(e).status == 502 ==> ReviewError(e).detail == ApiErrorPrefix + e.message
    ensures e.cls == JSONDecodeError ==> ReviewError(e) == HttpError(500, DecodeDetail)
    ensures e.cls == KeyError ==> ReviewError(e) == HttpError(500, KeyErrorPrefix + e.message)
    ensures (forall j :: 0 <= j < |ReviewHandlers| - 1 ==> !IsSubclass(e.cls, ReviewHandlers[j].catches)) ==>
              ReviewError(e) == HttpError(500, UnexpectedPrefix + e.message)
  {
    var hs := ReviewHandlers;
    assert hs[0].status == 401 && hs[1].status == 429 && hs[2].status == 503 && hs[3].status == 502;
    assert hs[4].status == 500 && hs[5].status == 500 && hs[6].status == 500;
    assert !hs[0].appendsMessage && !hs[1].appendsMessage && !hs[2].appendsMessage && !hs[4].appendsMessage;
    assert hs[0].detail == AuthenticationDetail && hs[1].detail == RateLimitDetail;
    assert hs[2].detail == ConnectionDetail && hs[4].detail == DecodeDetail;
    assert hs[3].appendsMessage && hs[3].detail == ApiErrorPrefix;
    assert hs[5] == Handler(KeyError, 500, KeyErrorPrefix, true);
    assert hs[6] == Handler(Exception, 500, UnexpectedPrefix, true);
    ReviewFirstMatch(e.cls);
  }

  /** `/suggest`: any exception becomes a 500 carrying `str(e)`. */
  function SuggestError(e: Raised): (r: HttpError)
    ensures r.status == 500 && r.detail == e.message
  {
    HttpError(500, e.message)
  }
}
