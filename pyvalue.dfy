/** JSON values as the backend sees them after `json.loads`: Python's `None`,
    `bool`, `int`, `str`, `list` and `dict`, with Python's truthiness and the
    built-in coercions `str()`, `int()` and `list()` that the LLM layer applies
    to them. A `dict` keeps its keys in insertion order, as Python's does. */
module PyValue {
  import opened Wrappers
  import PyText

  /** One key/value pair of a dict, in insertion order. */
  type Entry = (string, Value)

  datatype Value =
    | Null
    | Bool(b: bool)
    | Int(i: int)
    | Str(s: string)
    | List(items: seq<Value>)
    | Dict(entries: seq<Entry>)

  /** Python's `not v`: None, False, 0 and the empty string, list and dict. */
  predicate Falsy(v: Value) {
    match v
    case Null => true
    case Bool(b) => !b
    case Int(i) => i == 0
    case Str(s) => s == ""
    case List(xs) => xs == []
    case Dict(es) => es == []
  }

  /** The exceptions the LLM layer raises, one constructor per distinct cause. */
  datatype Error =
    | NoChoices                              // ValueError: no choices returned from the API
    | EmptyContent(finishReason: string)     // ValueError: empty response from the model
    | JsonDecodeError                        // json.JSONDecodeError from json.loads
    | NoJsonFound(prefix: string)            // ValueError: could not extract JSON (text[:200])
    | MissingKeys(missing: set<string>)      // ValueError: response missing required keys
    | NotAList                               // ValueError: suggestions is not a list
    | InvalidIntLiteral(literal: string)     // ValueError from int(): not a literal, or too many digits
    | TypeError                              // TypeError / AttributeError from a wrong-typed value

  /** The errors that are instances of ValueError (json.JSONDecodeError subclasses it). */
  predicate IsValueError(e: Error) {
    !e.TypeError?
  }

  // ----- dicts -----

  /** The key set `set(d.keys())`. */
  function Keys(es: seq<Entry>): set<string> {
    if es == [] then {} else {es[0].0} + Keys(es[1..])
  }

  /** `d.get(k)`: the value stored under `k`, or None when `k not in d`. */
  function Lookup(es: seq<Entry>, k: string): (r: Option<Value>)
    ensures r.Some? <==> k in Keys(es)
  {
    if es == [] then None else if es[0].0 == k then Some(es[0].1) else Lookup(es[1..], k)
  }

  /** `d[k] = v`: an existing key keeps its position, a new key goes last. */
  function Assign(es: seq<Entry>, k: string, v: Value): seq<Entry> {
    if es == [] then [(k, v)]
    else if es[0].0 == k then [(k, v)] + es[1..]
    else [es[0]] + Assign(es[1..], k, v)
  }

  /** After `d[k] = v`, `d[k]` is `v` and every other key reads as before. */
  lemma {:induction false} AssignLookup(es: seq<Entry>, k: string, v: Value, k': string)
    ensures Lookup(Assign(es, k, v), k') == if k' == k then Some(v) else Lookup(es, k')
  {
    if es != [] && es[0].0 != k {
      AssignLookup(es[1..], k, v, k');
      assert Assign(es, k, v)[1..] == Assign(es[1..], k, v);
    }
  }

  /** Assigning to a key that is already present keeps every key in its place
      (and so the size and the key set). */
  lemma {:induction false} AssignKeepsOrder(es: seq<Entry>, k: string, v: Value)
    requires k in Keys(es)
    ensures |Assign(es, k, v)| == |es|
    ensures forall i :: 0 <= i < |es| ==> Assign(es, k, v)[i].0 == es[i].0
  {
    if es[0].0 != k {
      AssignKeepsOrder(es[1..], k, v);
      assert Assign(es, k, v) == [es[0]] + Assign(es[1..], k, v);
    }
  }

  /** The mutable dict the LLM layer normalises in place. */
  class PyDict {
    var entries: seq<Entry>

    constructor (entries: seq<Entry>)
      ensures this.entries == entries
    {
      this.entries := entries;
    }

    /** `k in d`. */
    predicate Has(k: string)
      reads this
    {
      k in Keys(entries)
    }

    /** `d[k]` for a key known to be present. */
    function Get(k: string): (v: Value)
      reads this
      requires Has(k)
      ensures Lookup(entries, k) == Some(v)
    {
      Lookup(entries, k).value
    }

    /** `d[k] = v`. */
    method Set(k: string, v: Value)
      modifies this
      ensures entries == Assign(old(entries), k, v)
    {
      entries := Assign(entries, k, v);
    }
  }

  // ----- str() -----

  /** `str(v)`. Scalars print as Python prints them; a list or dict prints its
      elements with `repr`, which here quotes strings with `'` and escapes nothing. */
  function PyStr(v: Value): string
    decreases v, 0
  {
    match v
    case Null => "None"
    case Bool(b) => if b then "True" else "False"
    case Int(i) => PyText.IntToDecimal(i)
    case Str(s) => s
    case List(xs) =>
      "[" + PyText.Join(seq(|xs|, k requires 0 <= k < |xs| => PyRepr(xs[k])), ", ") + "]"
    case Dict(es) =>
      "{" + PyText.Join(seq(|es|, k requires 0 <= k < |es| =>
                          "'" + es[k].0 + "': " + PyRepr(es[k].1)), ", ") + "}"
  }

  /** `repr(v)` inside a container. */
  function PyRepr(v: Value): string
    decreases v, 1
  {
    if v.Str? then "'" + v.s + "'" else PyStr(v)
  }

  // ----- int() and list() on a truthy value -----

  /** `int(v)`: an int is itself, True is 1, a string is parsed as a decimal
      literal; None, a list or a dict raises TypeError. */
  function PyInt(v: Value): (r: Result<int, Error>)
    ensures v.Int? ==> r == Success(v.i)
    ensures (v.Null? || v.List? || v.Dict?) ==> r == Failure(TypeError)
    ensures r.Failure? ==> (IsValueError(r.error) <==> v.Str?)
  {
    match v
    case Null => Failure(TypeError)
    case Bool(b) => Success(if b then 1 else 0)
    case Int(i) => Success(i)
    case Str(s) =>
      (match PyText.ParseInt(s)
       case Some(n) => Success(n)
       case None => Failure(InvalidIntLiteral(s)))
    case List(_) => Failure(TypeError)
    case Dict(_) => Failure(TypeError)
  }

  /** `list(v)`: a list is copied, a string yields its characters, a dict its
      keys in order; None, a bool or an int raises TypeError. */
  function PyList(v: Value): (r: Result<seq<Value>, Error>)
    ensures r.Success? <==> v.List? || v.Str? || v.Dict?
    ensures v.List? ==> r == Success(v.items)
    ensures v.Str? ==> (r.Success? && |r.value| == |v.s| &&
                        forall k :: 0 <= k < |v.s| ==> r.value[k] == Str([v.s[k]]))
    ensures v.Dict? ==> (r.Success? && |r.value| == |v.entries| &&
                         forall k :: 0 <= k < |v.entries| ==> r.value[k] == Str(v.entries[k].0))
    ensures r.Failure? ==> r.error == TypeError
  {
    match v
    case List(xs) => Success(xs)
    case Str(s) => Success(seq(|s|, k requires 0 <= k < |s| => Str([s[k]])))
    case Dict(es) => Success(seq(|es|, k requires 0 <= k < |es| => Str(es[k].0)))
    case _ => Failure(TypeError)
  }
}
