/** `_validate_review_response`: check that the parsed reply has the keys
    `review`, `suggestions` and `score`, then normalise them in place: the
    review becomes a string, the suggestions a list (`[]` when falsy), and the
    score an integer (5 when falsy) clamped to 1..10. The dict is updated in
    place and the same dict is returned. */
module ReviewValidation {
  import opened Wrappers
  import opened PyValue

  const RequiredKeys: set<string> := {"review", "suggestions", "score"}
  const DefaultScore: int := 5
  const MinScore: int := 1
  const MaxScore: int := 10

  /** `max(1, min(10, n))`. */
  function Clamp(n: int): (c: int)
    ensures MinScore <= c <= MaxScore
    ensures MinScore <= n <= MaxScore ==> c == n
    ensures n < MinScore ==> c == MinScore
    ensures n > MaxScore ==> c == MaxScore
  {
    if n > MaxScore then MaxScore else if n < MinScore then MinScore else n
  }

  /** `int(v) if v else 5`. */
  function ScoreValue(v: Value): Result<int, Error> {
    if Falsy(v) then Success(DefaultScore) else PyInt(v)
  }

  /** `list(v) if v else []`. */
  function SuggestionsValue(v: Value): Result<seq<Value>, Error> {
    if Falsy(v) then Success([]) else PyList(v)
  }

  /** The state of the dict after the call, and the exception raised, if any. */
  datatype Outcome = Outcome(entries: seq<Entry>, raised: Option<Error>)

  /** What `_validate_review_response` does to a dict with entries `es`: each
      statement in turn, an exception leaving the assignments made before it
      in place. */
  function Validate(es: seq<Entry>): Outcome {
    if !(RequiredKeys <= Keys(es)) then Outcome(es, Some(MissingKeys(RequiredKeys - Keys(es))))
    else
      AssignLookup(es, "review", Str(PyStr(Lookup(es, "review").value)), "suggestions");
      var es1 := Assign(es, "review", Str(PyStr(Lookup(es, "review").value)));
      match SuggestionsValue(Lookup(es1, "suggestions").value)
      case Failure(e) => Outcome(es1, Some(e))
      case Success(xs) =>
        AssignLookup(es1, "suggestions", List(xs), "score");
        AssignLookup(es, "review", Str(PyStr(Lookup(es, "review").value)), "score");
        var es2 := Assign(es1, "suggestions", List(xs));
        match ScoreValue(Lookup(es2, "score").value)
        case Failure(e) => Outcome(es2, Some(e))
        case Success(n) => Outcome(Assign(es2, "score", Int(Clamp(n))), None)
  }

  /** `_validate_review_response(result)` on the dict `d`: `d` is changed as
      `Validate` says, and on success the very same dict is returned. */
  method ValidateReviewResponse(d: PyDict) returns (r: Result<PyDict, Error>)
    modifies d
    ensures d.entries == Validate(old(d.entries)).entries
    ensures r.Success? <==> Validate(old(d.entries)).raised.None?
    ensures r.Success? ==> r.value == d
    ensures r.Failure? ==> Validate(old(d.entries)).raised == Some(r.error)
  {
    ghost var es := d.entries;
    if !(forall k | k in RequiredKeys :: d.Has(k)) {
      var missing := RequiredKeys - Keys(d.entries);
      return Failure(MissingKeys(missing));
    }
    assert RequiredKeys <= Keys(es);
    d.Set("review", Str(PyStr(d.Get("review"))));
    AssignLookup(es, "review", Str(PyStr(Lookup(es, "review").value)), "suggestions");
    AssignLookup(es, "review", Str(PyStr(Lookup(es, "review").value)), "score");
    var suggestions := SuggestionsValue(d.Get("suggestions"));
    if suggestions.Failure? {
      return Failure(suggestions.error);
    }
    ghost var es1 := d.entries;
    d.Set("suggestions", List(suggestions.value));
    AssignLookup(es1, "suggestions", List(suggestions.value), "score");
    var score := ScoreValue(d.Get("score"));
    if score.Failure? {
      return Failure(score.error);
    }
    ghost var es2 := d.entries;
    d.Set("score", Int(score.value));
    AssignLookup(es2, "score", Int(score.value), "score");
    var current := d.Get("score");
    d.Set("score", Int(Clamp(current.i)));
    AssignTwice(es2, "score", Int(score.value), Int(Clamp(score.value)));
    return Success(d);
  }

  /** Assigning the same key twice leaves the second value. */
  lemma {:induction false} AssignTwice(es: seq<Entry>, k: string, v: Value, w: Value)
    ensures Assign(Assign(es, k, v), k, w) == Assign(es, k, w)
  {
    if es != [] && es[0].0 != k {
      AssignTwice(es[1..], k, v, w);
      assert Assign(es, k, v)[1..] == Assign(es[1..], k, v);
    }
  }

  // ----- what validation promises -----

  /** Validation rejects the dict for missing keys exactly when one of the
      three required keys is absent, naming exactly the absent ones, and then
      leaves the dict untouched. */
  lemma ValidateMissingKeys(es: seq<Entry>)
    ensures (Validate(es).raised.Some? && Validate(es).raised.value.MissingKeys?) <==>
              exists k :: k in RequiredKeys && k !in Keys(es)
    ensures Validate(es).raised.Some? && Validate(es).raised.value.MissingKeys? ==>
              && Validate(es).raised.value.missing == RequiredKeys - Keys(es)
              && Validate(es).raised.value.missing != {}
              && Validate(es).entries == es
  {
    if exists k :: k in RequiredKeys && k !in Keys(es) {
      var k :| k in RequiredKeys && k !in Keys(es);
      assert k in RequiredKeys - Keys(es);
    } else {
      RaisedAfterKeyCheck(es);
    }
  }

  /** The errors after the key check are those of `list()` and `int()`. */
  lemma SuggestionsCoercionErrors(v: Value)
    ensures SuggestionsValue(v).Failure? ==> SuggestionsValue(v).error == TypeError
  {
  }

  /** `int()` fails with a TypeError or with a ValueError naming the literal. */
  lemma ScoreCoercionErrors(v: Value)
    ensures ScoreValue(v).Failure? ==>
              ScoreValue(v).error == TypeError || ScoreValue(v).error.InvalidIntLiteral?
  {
  }

  /** Once the keys are present, no later step raises the missing-keys error. */
  lemma RaisedAfterKeyCheck(es: seq<Entry>)
    requires RequiredKeys <= Keys(es)
    ensures Validate(es).raised.Some? ==> !Validate(es).raised.value.MissingKeys?
  {
    var rv := Str(PyStr(Lookup(es, "review").value));
    AssignLookup(es, "review", rv, "suggestions");
    AssignLookup(es, "review", rv, "score");
    var es1 := Assign(es, "review", rv);
    SuggestionsCoercionErrors(Lookup(es1, "suggestions").value);
    match SuggestionsValue(Lookup(es1, "suggestions").value)
    case Failure(_) =>
    case Success(xs) =>
      AssignLookup(es1, "suggestions", List(xs), "score");
      ScoreCoercionErrors(Lookup(Assign(es1, "suggestions", List(xs)), "score").value);
  }

  /** Validation succeeds exactly when the keys are present, the suggestions
      are falsy or can be made a list, and the score is falsy or can be made
      an integer. */
  lemma ValidateSucceeds(es: seq<Entry>)
    ensures Validate(es).raised.None? <==>
              && RequiredKeys <= Keys(es)
              && SuggestionsValue(Lookup(es, "suggestions").value).Success?
              && ScoreValue(Lookup(es, "score").value).Success?
  {
    if RequiredKeys <= Keys(es) {
      var rv := Str(PyStr(Lookup(es, "review").value));
      AssignLookup(es, "review", rv, "suggestions");
      AssignLookup(es, "review", rv, "score");
      var es1 := Assign(es, "review", rv);
      match SuggestionsValue(Lookup(es1, "suggestions").value)
      case Failure(_) =>
      case Success(xs) =>
        AssignLookup(es1, "suggestions", List(xs), "score");
    }
  }

  /** After a successful validation the review is `str()` of the old review,
      the suggestions are `list()` of the old ones or `[]`, and the score is
      the old score as an integer (5 if falsy) clamped to 1..10. */
  lemma ValidateNormalises(es: seq<Entry>)
    requires RequiredKeys <= Keys(es)
    requires SuggestionsValue(Lookup(es, "suggestions").value).Success?
    requires ScoreValue(Lookup(es, "score").value).Success?
    ensures Validate(es).raised.None?
    ensures Lookup(Validate(es).entries, "review") == Some(Str(PyStr(Lookup(es, "review").value)))
    ensures Lookup(Validate(es).entries, "suggestions") ==
              Some(List(SuggestionsValue(Lookup(es, "suggestions").value).value))
    ensures Lookup(Validate(es).entries, "score") ==
              Some(Int(Clamp(ScoreValue(Lookup(es, "score").value).value)))
  {
    var rv := Str(PyStr(Lookup(es, "review").value));
    AssignLookup(es, "review", rv, "suggestions");
    AssignLookup(es, "review", rv, "score");
    var es1 := Assign(es, "review", rv);
    var xs := SuggestionsValue(Lookup(es1, "suggestions").value).value;
    var es2 := Assign(es1, "suggestions", List(xs));
    AssignLookup(es1, "suggestions", List(xs), "score");
    AssignLookup(es1, "suggestions", List(xs), "review");
    AssignLookup(es1, "suggestions", List(xs), "suggestions");
    var n := ScoreValue(Lookup(es2, "score").value).value;
    AssignLookup(es2, "score", Int(Clamp(n)), "review");
    AssignLookup(es2, "score", Int(Clamp(n)), "suggestions");
    AssignLookup(es2, "score", Int(Clamp(n)), "score");
    AssignLookup(es, "review", rv, "review");
  }

  /** After a successful validation the dict has the shape of a
      `CodeReviewResponse`: a string review, a list of suggestions and an
      integer score in 1..10. */
  lemma ValidateScoreInRange(es: seq<Entry>)
    requires Validate(es).raised.None?
    ensures Lookup(Validate(es).entries, "review").Some?
    ensures Lookup(Validate(es).entries, "suggestions").Some?
    ensures Lookup(Validate(es).entries, "score").Some?
    ensures Lookup(Validate(es).entries, "review").value.Str?
    ensures Lookup(Validate(es).entries, "suggestions").value.List?
    ensures var score := Lookup(Validate(es).entries, "score").value;
              score.Int? && MinScore <= score.i <= MaxScore
  {
    ValidateSucceeds(es);
    ValidateNormalises(es);
  }

  /** Validation, successful or not, changes no key other than the three it
      normalises, and keeps every key in its place. */
  lemma ValidateKeepsOtherKeys(es: seq<Entry>, k: string)
    ensures k !in RequiredKeys ==> Lookup(Validate(es).entries, k) == Lookup(es, k)
    ensures |Validate(es).entries| == |es|
    ensures forall i :: 0 <= i < |es| ==> Validate(es).entries[i].0 == es[i].0
  {
    if RequiredKeys <= Keys(es) {
      var rv := Str(PyStr(Lookup(es, "review").value));
      AssignLookup(es, "review", rv, k);
      AssignKeepsOrder(es, "review", rv);
      var es1 := Assign(es, "review", rv);
      AssignLookup(es, "review", rv, "suggestions");
      AssignLookup(es, "review", rv, "score");
      assert "suggestions" in Keys(es1) && "score" in Keys(es1);
      match SuggestionsValue(Lookup(es1, "suggestions").value)
      case Failure(_) =>
      case Success(xs) =>
        var es2 := Assign(es1, "suggestions", List(xs));
        AssignLookup(es1, "suggestions", List(xs), k);
        AssignLookup(es1, "suggestions", List(xs), "score");
        AssignKeepsOrder(es1, "suggestions", List(xs));
        assert "score" in Keys(es2);
        match ScoreValue(Lookup(es2, "score").value)
        case Failure(_) =>
        case Success(n) =>
          AssignLookup(es2, "score", Int(Clamp(n)), k);
          AssignKeepsOrder(es2, "score", Int(Clamp(n)));
    }
  }

  /** A falsy score (0, None, "") becomes 5, not 1. */
  lemma FalsyScoreExamples()
    ensures ScoreValue(Int(0)) == Success(5) && ScoreValue(Null) == Success(5)
    ensures ScoreValue(Str("")) == Success(5) && ScoreValue(Bool(false)) == Success(5)
  {
  }

  /** Integers outside 1..10 are clamped; True counts as 1. */
  lemma ClampedScoreExamples()
    ensures Clamp(ScoreValue(Int(11)).value) == 10
    ensures Clamp(ScoreValue(Int(-3)).value) == 1
    ensures Clamp(ScoreValue(Int(7)).value) == 7
    ensures Clamp(ScoreValue(Bool(true)).value) == 1
  {
  }

  /** A non-empty string that is an integer literal converts to its value. */
  lemma IntegerScore(literal: string, n: int)
    requires literal != [] && PyText.ParseInt(literal) == Some(n)
    ensures ScoreValue(Str(literal)) == Success(n)
  {
  }

  /** Digits between a space and a newline form a truthy string that is
      parsed, whitespace and all: " 0\n" becomes 0, and then 1. */
  lemma PaddedStringScore(d: string)
    requires PyText.IsDigits(d) && |d| <= PyText.MaxStrDigits
    ensures ScoreValue(Str(" " + d + "\n")) == Success(PyText.DigitsValue(d) as int)
    ensures PyText.DigitsValue(d) == 0 ==> Clamp(ScoreValue(Str(" " + d + "\n")).value) == 1
  {
    var s := " " + d + "\n";
    PyText.IntStripsAsciiSpace(d);
    assert |s| > 0;
    IntegerScore(s, PyText.DigitsValue(d));
  }

  /** A non-empty string that is not an integer literal raises ValueError
      naming the literal. */
  lemma NonIntegerScore(literal: string)
    requires literal != [] && PyText.ParseInt(literal) == None
    ensures ScoreValue(Str(literal)) == Failure(InvalidIntLiteral(literal))
  {
    assert !Falsy(Str(literal));
    assert PyInt(Str(literal)) == Failure(InvalidIntLiteral(literal));
  }

  /** A score of more than `MaxStrDigits` digits raises ValueError although
      every character is a digit. */
  lemma LongScore(d: string)
    requires PyText.IsDigits(d) && |d| > PyText.MaxStrDigits
    ensures ScoreValue(Str(d)) == Failure(InvalidIntLiteral(d))
  {
    PyText.IntDigitLimit(d);
    NonIntegerScore(d);
  }

  /** A word such as "seven" raises ValueError naming it; a list raises
      TypeError. */
  lemma BadScoreExamples(word: string)
    requires word != []
    requires 'a' <= word[0] <= 'z' && 'a' <= word[|word| - 1] <= 'z'
    ensures ScoreValue(Str(word)) == Failure(InvalidIntLiteral(word))
    ensures ScoreValue(List([Int(7)])) == Failure(TypeError)
  {
    PyText.ParseIntRejects(word);
    NonIntegerScore(word);
  }
}
