/** The suggestion block of `get_code_suggestions`: take `suggestions` from the
    parsed reply (`[]` when absent, an error when not a list), then build one
    structured suggestion per item, in order. A dict item supplies its own
    `text`, `severity` and `category` (each passed through `str`), defaulting
    to the whole item, "medium" and "maintainability"; any other item is the
    legacy string form and becomes its `str` with the two defaults. */
module Suggestions {
  import opened Wrappers
  import opened PyValue

  const DefaultSeverity: string := "medium"
  const DefaultCategory: string := "maintainability"

  /** A structured suggestion, the `{"text", "severity", "category"}` dict. */
  datatype Suggestion = Suggestion(text: string, severity: string, category: string)

  /** `d.get(k, default)`. */
  function GetOr(es: seq<Entry>, k: string, default: Value): (v: Value)
    ensures k in Keys(es) ==> Lookup(es, k) == Some(v)
    ensures k !in Keys(es) ==> v == default
  {
    match Lookup(es, k)
    case Some(v) => v
    case None => default
  }

  /** One item of the loop body. */
  function Structure(item: Value): Suggestion {
    match item
    case Dict(es) =>
      Suggestion(PyStr(GetOr(es, "text", item)),
                 PyStr(GetOr(es, "severity", Str(DefaultSeverity))),
                 PyStr(GetOr(es, "category", Str(DefaultCategory))))
    case _ => Suggestion(PyStr(item), DefaultSeverity, DefaultCategory)
  }

  /** The structured suggestion as the dict the endpoint returns. */
  function AsValue(s: Suggestion): Value {
    Dict([("text", Str(s.text)), ("severity", Str(s.severity)), ("category", Str(s.category))])
  }

  /** The loop `for s in suggestions: structured_suggestions.append(...)`. */
  method StructureSuggestions(items: seq<Value>) returns (structured: seq<Suggestion>)
    ensures |structured| == |items|
    ensures forall i :: 0 <= i < |items| ==> structured[i] == Structure(items[i])
  {
    structured := [];
    for n := 0 to |items|
      invariant |structured| == n
      invariant forall i :: 0 <= i < n ==> structured[i] == Structure(items[i])
    {
      var s := items[n];
      if s.Dict? {
        structured := structured + [Suggestion(PyStr(GetOr(s.entries, "text", s)),
                                               PyStr(GetOr(s.entries, "severity", Str(DefaultSeverity))),
                                               PyStr(GetOr(s.entries, "category", Str(DefaultCategory))))];
      } else {
        structured := structured + [Suggestion(PyStr(s), DefaultSeverity, DefaultCategory)];
      }
    }
  }

  /** `result.get("suggestions", [])` and the list check: a reply that is not
      a dict has no `get` (AttributeError, a TypeError here). */
  function SuggestionItems(result: Value): Result<seq<Value>, Error> {
    if !result.Dict? then Failure(TypeError)
    else
      match GetOr(result.entries, "suggestions", List([]))
      case List(xs) => Success(xs)
      case _ => Failure(NotAList)
  }

  // ----- what structuring promises -----

  /** A dict item keeps the severity and category it states as strings, and
      gets the defaults for the ones it lacks; its text is its own `text`
      string or, lacking one, the `str` of the whole item. */
  lemma StructureDict(es: seq<Entry>)
    ensures var s := Structure(Dict(es));
      && (Lookup(es, "text").None? ==> s.text == PyStr(Dict(es)))
      && (Lookup(es, "severity").None? ==> s.severity == DefaultSeverity)
      && (Lookup(es, "category").None? ==> s.category == DefaultCategory)
      && (forall t :: Lookup(es, "text") == Some(Str(t)) ==> s.text == t)
      && (forall t :: Lookup(es, "severity") == Some(Str(t)) ==> s.severity == t)
      && (forall t :: Lookup(es, "category") == Some(Str(t)) ==> s.category == t)
  {
  }

  /** Any other item is the legacy string form: its `str` with the defaults. */
  lemma StructureLegacy(item: Value)
    requires !item.Dict?
    ensures Structure(item) == Suggestion(PyStr(item), DefaultSeverity, DefaultCategory)
    ensures item.Str? ==> Structure(item).text == item.s
  {
  }

  /** Structuring is idempotent: a structured suggestion, as the dict the
      endpoint returns, structures to itself. */
  lemma StructureAsValue(s: Suggestion)
    ensures Structure(AsValue(s)) == s
  {
    var es := AsValue(s).entries;
    assert es[1..] == [("severity", Str(s.severity)), ("category", Str(s.category))];
    assert es[2..] == [("category", Str(s.category))];
    assert es[1..][1..] == es[2..];
    assert "text" != "category" && "severity" != "category";
    assert Lookup(es, "text") == Some(Str(s.text));
    assert Lookup(es, "severity") == Some(Str(s.severity));
    assert Lookup(es[2..], "category") == Some(Str(s.category));
    assert Lookup(es[1..], "category") == Some(Str(s.category));
    assert Lookup(es, "category") == Some(Str(s.category));
  }

  /** Structuring a whole list twice gives the same list as once. */
  lemma StructureTwice(items: seq<Value>)
    ensures var once := seq(|items|, i requires 0 <= i < |items| => Structure(items[i]));
      seq(|once|, i requires 0 <= i < |once| => Structure(AsValue(once[i]))) == once
  {
    var once := seq(|items|, i requires 0 <= i < |items| => Structure(items[i]));
    forall i | 0 <= i < |once| ensures Structure(AsValue(once[i])) == once[i] {
      StructureAsValue(once[i]);
    }
  }

  /** A reply without `suggestions` has none; a `suggestions` that is not a
      list is rejected with ValueError; a list is taken as it is. */
  lemma SuggestionItemsCases(es: seq<Entry>)
    ensures "suggestions" !in Keys(es) ==> SuggestionItems(Dict(es)) == Success([])
    ensures Lookup(es, "suggestions").Some? && !Lookup(es, "suggestions").value.List? ==>
              SuggestionItems(Dict(es)) == Failure(NotAList)
    ensures forall xs :: Lookup(es, "suggestions") == Some(List(xs)) ==>
              SuggestionItems(Dict(es)) == Success(xs)
  {
  }
}
