/** Tolerant extraction of the JSON object in an LLM reply
    (`_extract_json_from_text`): parse the whole text; failing that, parse the
    group of the first fenced block `` ```json {...} ``` ``; failing that, parse
    the leftmost `{...}` with at most one level of nested braces; failing that,
    raise an error carrying the first 200 characters of the text.

    `json.loads` is not modelled: it is the parameter `parse`, a partial
    function from text to a value. The two regular-expression searches are
    modelled as scans, and each scan is proved to find exactly the match that
    Python's `re.search` (leftmost start, then the regex's own preference
    order) finds, stated over declarative descriptions of the patterns. */
module JsonExtract {
  import opened Wrappers
  import opened PyValue
  import PyText

  /** `json.loads`: Some(value), or None where it raises JSONDecodeError. */
  type Parser = string -> Option<Value>

  /** How much of the text the "could not extract" error carries. */
  const ErrorPrefixLength: nat := 200

  predicate AllSpace(s: string, a: nat, b: nat)
    requires a <= b <= |s|
  {
    forall k :: a <= k < b ==> PyText.IsSpace(s[k])
  }

  /** `\s*` from i: the index just past the maximal run of whitespace. */
  function SkipSpace(s: string, i: nat): (j: nat)
    requires i <= |s|
    ensures i <= j <= |s| && AllSpace(s, i, j)
    ensures j == |s| || !PyText.IsSpace(s[j])
    decreases |s| - i
  {
    if i < |s| && PyText.IsSpace(s[i]) then SkipSpace(s, i + 1) else i
  }

  /** The run of whitespace from i ends exactly at the first non-space character. */
  lemma SkipSpaceStopsAt(s: string, i: nat, j: nat)
    requires i <= j < |s| && AllSpace(s, i, j) && !PyText.IsSpace(s[j])
    ensures SkipSpace(s, i) == j
  {
  }

  // ===== The fenced block: ```(?:json)?\s*(\{.*?\})\s*```  (re.DOTALL) =====

  /** Three backticks start at i. */
  predicate FenceAt(s: string, i: nat) {
    i + 3 <= |s| && s[i] == '`' && s[i + 1] == '`' && s[i + 2] == '`'
  }

  /** The tag `json` starts at i. */
  predicate JsonTagAt(s: string, i: nat) {
    i + 4 <= |s| && s[i] == 'j' && s[i + 1] == 's' && s[i + 2] == 'o' && s[i + 3] == 'n'
  }

  /** `\s*```` can match from i: some run of whitespace, then a fence. */
  ghost predicate ClosingFenceFrom(s: string, i: nat)
    requires i <= |s|
  {
    exists f: nat :: i <= f <= |s| && AllSpace(s, i, f) && FenceAt(s, f)
  }

  /** Declaratively: the pattern matches from p, with group 1 = s[q..e + 1].
      The optional tag may be present or absent, `\s*` may take any run of
      whitespace, `.*?` any characters. */
  ghost predicate FencedMatch(s: string, p: nat, q: nat, e: nat) {
    && FenceAt(s, p) && p + 3 <= q < e < |s| && s[q] == '{' && s[e] == '}'
    && (AllSpace(s, p + 3, q) || (JsonTagAt(s, p + 3) && p + 7 <= q && AllSpace(s, p + 7, q)))
    && ClosingFenceFrom(s, e + 1)
  }

  /** Where the group's `{` must stand for a match from p: after the fence,
      the tag when present, and the whitespace. */
  function GroupStart(s: string, p: nat): nat
    requires FenceAt(s, p)
  {
    SkipSpace(s, if JsonTagAt(s, p + 3) then p + 7 else p + 3)
  }

  /** `\s*```` matches at i. */
  predicate ClosesAt(s: string, i: nat)
    requires i <= |s|
  {
    FenceAt(s, SkipSpace(s, i))
  }

  /** `.*?\}\s*```` from i: the first `}` at or after i followed by a closing fence. */
  function LazyClose(s: string, i: nat): (e: Option<nat>)
    requires i <= |s|
    ensures e.Some? ==> i <= e.value < |s| && s[e.value] == '}' && ClosesAt(s, e.value + 1)
    ensures forall k :: i <= k < (if e.Some? then e.value else |s|) ==>
              !(s[k] == '}' && ClosesAt(s, k + 1))
    decreases |s| - i
  {
    if i == |s| then None
    else if s[i] == '}' && ClosesAt(s, i + 1) then Some(i)
    else LazyClose(s, i + 1)
  }

  /** The match of the fenced pattern starting at p, as the group's bounds (q, e). */
  function FencedAt(s: string, p: nat): Option<(nat, nat)>
    requires p <= |s|
  {
    if !FenceAt(s, p) then None
    else
      var q := GroupStart(s, p);
      if q < |s| && s[q] == '{' then
        match LazyClose(s, q + 1)
        case Some(e) => Some((q, e))
        case None => None
      else None
  }

  /** `re.search(fenced, s)` from position `from`: the first start p with a
      match, and the group's bounds there. */
  function FencedScan(s: string, from: nat): Option<(nat, nat, nat)>
    requires from <= |s|
    decreases |s| - from
  {
    if from == |s| then None
    else
      match FencedAt(s, from)
      case Some((q, e)) => Some((from, q, e))
      case None => FencedScan(s, from + 1)
  }

  /** Group 1 of the first fenced block, `json_match.group(1)`. */
  function FencedGroup(s: string): Option<string> {
    match FencedScan(s, 0)
    case Some((p, q, e)) =>
      FencedScanBounds(s, 0);
      Some(s[q..e + 1])
    case None => None
  }

  lemma {:induction false} FencedScanBounds(s: string, from: nat)
    requires from <= |s|
    ensures FencedScan(s, from).Some? ==>
              var (p, q, e) := FencedScan(s, from).value; from <= p <= q < e < |s|
    decreases |s| - from
  {
    if from < |s| && FencedAt(s, from).None? {
      FencedScanBounds(s, from + 1);
    }
  }

  /** A closing `\s*```` exists from i exactly when the scan finds one. */
  lemma ClosesAtIff(s: string, i: nat)
    requires i <= |s|
    ensures ClosesAt(s, i) <==> ClosingFenceFrom(s, i)
  {
    if ClosingFenceFrom(s, i) {
      var f :| i <= f <= |s| && AllSpace(s, i, f) && FenceAt(s, f);
      SkipSpaceStopsAt(s, i, f);
    }
  }

  /** In every match from p the group starts where the scan puts it. */
  lemma FencedMatchGroupStart(s: string, p: nat, q: nat, e: nat)
    requires FencedMatch(s, p, q, e)
    ensures q == GroupStart(s, p)
  {
    if JsonTagAt(s, p + 3) {
      if AllSpace(s, p + 3, q) {
        assert false;
      }
      SkipSpaceStopsAt(s, p + 7, q);
    } else {
      SkipSpaceStopsAt(s, p + 3, q);
    }
  }

  /** What the scan at p finds is a match. */
  lemma FencedAtSound(s: string, p: nat)
    requires p <= |s| && FencedAt(s, p).Some?
    ensures FencedMatch(s, p, FencedAt(s, p).value.0, FencedAt(s, p).value.1)
  {
    var (q, e) := FencedAt(s, p).value;
    ClosesAtIff(s, e + 1);
    var j := if JsonTagAt(s, p + 3) then p + 7 else p + 3;
    assert AllSpace(s, j, q);
  }

  /** Any match from p is found by the scan at p, and the scan's group is the
      shortest (lazy `.*?`) one. */
  lemma FencedAtComplete(s: string, p: nat, q: nat, e: nat)
    requires p <= |s| && FencedMatch(s, p, q, e)
    ensures FencedAt(s, p).Some?
    ensures FencedAt(s, p).value.0 == q && FencedAt(s, p).value.1 <= e
  {
    FencedMatchGroupStart(s, p, q, e);
    ClosesAtIff(s, e + 1);
  }

  /** Where the scan at p finds nothing, no match starts at p. */
  lemma FencedAtNone(s: string, p: nat)
    requires p <= |s| && FencedAt(s, p).None?
    ensures forall q: nat, e: nat :: !FencedMatch(s, p, q, e)
  {
    forall q: nat, e: nat | FencedMatch(s, p, q, e) ensures false {
      FencedAtComplete(s, p, q, e);
    }
  }

  /** Where the scan at p finds a match, every match from p has the same
      group start and ends no earlier. */
  lemma FencedAtShortest(s: string, p: nat)
    requires p <= |s| && FencedAt(s, p).Some?
    ensures forall q: nat, e: nat :: FencedMatch(s, p, q, e) ==>
              q == FencedAt(s, p).value.0 && FencedAt(s, p).value.1 <= e
  {
    forall q: nat, e: nat | FencedMatch(s, p, q, e)
      ensures q == FencedAt(s, p).value.0 && FencedAt(s, p).value.1 <= e
    {
      FencedAtComplete(s, p, q, e);
    }
  }

  /** `FencedScan` from `from` finds the leftmost match at or after `from`
      and, there, the shortest group; None when there is no match at all. */
  lemma {:induction false} FencedScanFrom(s: string, from: nat)
    requires from <= |s|
    ensures FencedScan(s, from).None? ==>
              forall p: nat, q: nat, e: nat :: from <= p ==> !FencedMatch(s, p, q, e)
    ensures FencedScan(s, from).Some? ==>
              var (p, q, e) := FencedScan(s, from).value;
              && from <= p && FencedMatch(s, p, q, e)
              && forall p': nat, q': nat, e': nat :: from <= p' && FencedMatch(s, p', q', e') ==>
                   p < p' || (p == p' && q == q' && e <= e')
    decreases |s| - from
  {
    if from == |s| {
    } else if FencedAt(s, from).Some? {
      FencedAtSound(s, from);
      FencedAtShortest(s, from);
    } else {
      FencedScanFrom(s, from + 1);
      FencedAtNone(s, from);
    }
  }

  // ===== The bare object: \{[^{}]*(?:\{[^{}]*\}[^{}]*)*\} =====

  predicate IsBrace(c: char) {
    c == '{' || c == '}'
  }

  /** The braces of t, in order. */
  function Braces(t: string): string {
    if t == [] then [] else (if IsBrace(t[0]) then [t[0]] else []) + Braces(t[1..])
  }

  /** b reads `{}{}...{}`: whole pairs, each an opening brace then a closing one. */
  predicate IsPairs(b: string) {
    b == [] || (|b| >= 2 && b[0] == '{' && b[1] == '}' && IsPairs(b[2..]))
  }

  /** Declaratively: t matches the bare-object pattern. It opens and closes
      with a brace, and the braces strictly inside read `{}{}...{}`, so the
      object has at most one level of nested objects, none of them nested. */
  predicate IsBraceObject(t: string) {
    |t| >= 2 && t[0] == '{' && t[|t| - 1] == '}' && IsPairs(Braces(t[1..|t| - 1]))
  }

  /** s[p..e] is a substring the bare-object pattern matches. */
  predicate BraceObjectSpan(s: string, p: nat, e: nat) {
    p < e <= |s| && IsBraceObject(s[p..e])
  }

  /** `[^{}]*` from i: the first brace at or after i, or the end. */
  function SkipNonBrace(s: string, i: nat): (j: nat)
    requires i <= |s|
    ensures i <= j <= |s| && (j == |s| || IsBrace(s[j]))
    ensures forall k :: i <= k < j ==> !IsBrace(s[k])
    decreases |s| - i
  {
    if i < |s| && !IsBrace(s[i]) then SkipNonBrace(s, i + 1) else i
  }

  /** `(?:\{[^{}]*\}[^{}]*)*\}` from i, which stands on a brace or at the end:
      the index just past the match. A `{` must be closed before the next
      brace; the first `}` found outside such a pair ends the object. */
  function ClosePairs(s: string, i: nat): Option<nat>
    requires i <= |s| && (i == |s| || IsBrace(s[i]))
    decreases |s| - i
  {
    if i == |s| then None
    else if s[i] == '}' then Some(i + 1)
    else
      var j := SkipNonBrace(s, i + 1);
      if j < |s| && s[j] == '}' then ClosePairs(s, SkipNonBrace(s, j + 1)) else None
  }

  /** The end of the bare-object match starting at p, if any. */
  function BraceObjectAt(s: string, p: nat): Option<nat>
    requires p < |s|
  {
    if s[p] == '{' then ClosePairs(s, SkipNonBrace(s, p + 1)) else None
  }

  /** `re.search(bare, s)` from `from`: the first start with a match, and its end. */
  function BraceScan(s: string, from: nat): Option<(nat, nat)>
    requires from <= |s|
    decreases |s| - from
  {
    if from == |s| then None
    else
      match BraceObjectAt(s, from)
      case Some(e) => Some((from, e))
      case None => BraceScan(s, from + 1)
  }

  /** The first bare object, `json_match.group(0)`. */
  function BraceObject(s: string): Option<string> {
    match BraceScan(s, 0)
    case Some((p, e)) =>
      BraceScanFrom(s, 0);
      Some(s[p..e])
    case None => None
  }

  lemma {:induction false} BracesAppend(a: string, b: string)
    ensures Braces(a + b) == Braces(a) + Braces(b)
  {
    if a != [] {
      BracesAppend(a[1..], b);
      var h := if IsBrace(a[0]) then [a[0]] else [];
      assert (a + b)[0] == a[0] && (a + b)[1..] == a[1..] + b;
      assert Braces(a + b) == h + Braces(a[1..] + b);
      assert Braces(a) == h + Braces(a[1..]);
      assert h + (Braces(a[1..]) + Braces(b)) == (h + Braces(a[1..])) + Braces(b);
    } else {
      assert a + b == b;
    }
  }

  lemma {:induction false} BracesOfNonBraces(t: string)
    requires forall k :: 0 <= k < |t| ==> !IsBrace(t[k])
    ensures Braces(t) == []
  {
    if t != [] {
      BracesOfNonBraces(t[1..]);
    }
  }

  /** Braces of s[a..b] when s[a] is a brace: that brace, then the rest. */
  lemma BracesFrom(s: string, a: nat, b: nat)
    requires a < b <= |s|
    ensures Braces(s[a..b]) == (if IsBrace(s[a]) then [s[a]] else []) + Braces(s[a + 1..b])
  {
    assert s[a..b][1..] == s[a + 1..b];
  }

  /** Splitting s[a..c] at b splits its braces. */
  lemma BracesSplit(s: string, a: nat, b: nat, c: nat)
    requires a <= b <= c <= |s|
    ensures Braces(s[a..c]) == Braces(s[a..b]) + Braces(s[b..c])
  {
    assert s[a..c] == s[a..b] + s[b..c];
    BracesAppend(s[a..b], s[b..c]);
  }

  /** Non-brace characters contribute nothing. */
  lemma BracesSkip(s: string, a: nat, b: nat, c: nat)
    requires a <= b <= c <= |s|
    requires forall k :: a <= k < b ==> !IsBrace(s[k])
    ensures Braces(s[a..c]) == Braces(s[b..c])
  {
    BracesSplit(s, a, b, c);
    BracesOfNonBraces(s[a..b]);
  }

  lemma IsPairsCons(b: string)
    ensures IsPairs(['{', '}'] + b) <==> IsPairs(b)
  {
    assert (['{', '}'] + b)[2..] == b;
  }

  /** One pair `{...}` from i, with only non-braces inside, read as braces. */
  lemma BracesOfPair(s: string, i: nat, j: nat, i': nat, c: nat)
    requires i < j < i' <= c <= |s| && s[i] == '{' && s[j] == '}'
    requires forall k :: i < k < j ==> !IsBrace(s[k])
    requires forall k :: j < k < i' ==> !IsBrace(s[k])
    ensures Braces(s[i..c]) == ['{', '}'] + Braces(s[i'..c])
  {
    BracesFrom(s, i, c);
    BracesSkip(s, i + 1, j, c);
    BracesFrom(s, j, c);
    BracesSkip(s, j + 1, i', c);
  }

  /** One inner pair `{ … }` in front of a run of inner pairs is again a run
      of inner pairs. */
  lemma PairThenPairs(s: string, i: nat, j: nat, i': nat, c: nat)
    requires i < j < i' <= c <= |s| && s[i] == '{' && s[j] == '}'
    requires forall k :: i < k < j ==> !IsBrace(s[k])
    requires forall k :: j < k < i' ==> !IsBrace(s[k])
    requires IsPairs(Braces(s[i'..c]))
    ensures IsPairs(Braces(s[i..c]))
  {
    BracesOfPair(s, i, j, i', c);
    IsPairsCons(Braces(s[i'..c]));
  }

  /** What `ClosePairs` returns ends after a `}`, and what lies before that
      `}` is a run of inner pairs. */
  lemma {:induction false} ClosePairsSound(s: string, i: nat, e: nat)
    requires i <= |s| && (i == |s| || IsBrace(s[i])) && ClosePairs(s, i) == Some(e)
    ensures i < e <= |s| && s[e - 1] == '}'
    ensures IsPairs(Braces(s[i..e - 1]))
    decreases |s| - i
  {
    if s[i] != '}' {
      var j := SkipNonBrace(s, i + 1);
      assert j < |s| && s[j] == '}';
      var i' := SkipNonBrace(s, j + 1);
      assert ClosePairs(s, i') == Some(e);
      ClosePairsSound(s, i', e);
      PairThenPairs(s, i, j, i', e - 1);
    } else {
      assert e == i + 1 && s[i..i] == [];
    }
  }



  /** If the braces of s[i..c] form pairs and s[i] is a brace, s[i] opens the
      first pair, the next brace closes it, and the braces after it still form pairs. */
  lemma FirstPair(s: string, i: nat, c: nat)
    requires i < c < |s| && IsBrace(s[i]) && IsBrace(s[c]) && IsPairs(Braces(s[i..c]))
    ensures s[i] == '{'
    ensures var j := SkipNonBrace(s, i + 1);
      && j < c && s[j] == '}' && SkipNonBrace(s, j + 1) <= c
      && IsPairs(Braces(s[SkipNonBrace(s, j + 1)..c]))
  {
    var b := Braces(s[i..c]);
    BracesFrom(s, i, c);
    assert b[0] == s[i];
    var j := SkipNonBrace(s, i + 1);
    if j >= c {
      BracesSkip(s, i + 1, c, c);
      assert false;
    }
    BracesSkip(s, i + 1, j, c);
    BracesFrom(s, j, c);
    assert b == [s[i]] + [s[j]] + Braces(s[j + 1..c]);
    assert b[1] == s[j];
    var i' := SkipNonBrace(s, j + 1);
    BracesOfPair(s, i, j, i', c);
    IsPairsCons(Braces(s[i'..c]));
  }

  /** ClosePairs finds every end the pattern allows from i. */
  lemma {:induction false} ClosePairsComplete(s: string, i: nat, e: nat)
    requires i < e <= |s| && IsBrace(s[i]) && s[e - 1] == '}'
    requires IsPairs(Braces(s[i..e - 1]))
    ensures ClosePairs(s, i) == Some(e)
    decreases |s| - i
  {
    if i < e - 1 {
      FirstPair(s, i, e - 1);
      var j := SkipNonBrace(s, i + 1);
      var i' := SkipNonBrace(s, j + 1);
      assert i' < e && IsBrace(s[i']);
      ClosePairsComplete(s, i', e);
      assert s[i] != '}' && j < |s| && s[j] == '}';
    } else {
      assert s[i..e - 1] == [];
    }
  }

  lemma InnerSlice(s: string, p: nat, e: nat)
    requires p + 2 <= e <= |s|
    ensures s[p..e][1..e - p - 1] == s[p + 1..e - 1]
  {
    var t := s[p..e];
    var u := t[1..e - p - 1];
    forall k | 0 <= k < |u| ensures u[k] == s[p + 1..e - 1][k] {
      assert u[k] == t[k + 1];
    }
  }

  /** A span is a brace object when it opens with `{`, closes with `}` and
      holds inner pairs between. */
  lemma BraceObjectSpanOf(s: string, p: nat, e: nat)
    requires p + 2 <= e <= |s| && s[p] == '{' && s[e - 1] == '}'
    requires IsPairs(Braces(s[p + 1..e - 1]))
    ensures BraceObjectSpan(s, p, e)
  {
    InnerSlice(s, p, e);
  }

  /** What the scan at p returns is the end of a bare-object match from p. */
  lemma BraceObjectAtSound(s: string, p: nat)
    requires p < |s| && BraceObjectAt(s, p).Some?
    ensures BraceObjectSpan(s, p, BraceObjectAt(s, p).value)
  {
    var e := BraceObjectAt(s, p).value;
    var i := SkipNonBrace(s, p + 1);
    assert s[p] == '{' && ClosePairs(s, i) == Some(e);
    ClosePairsSound(s, i, e);
    BracesSkip(s, p + 1, i, e - 1);
    BraceObjectSpanOf(s, p, e);
  }

  /** Every bare-object match from p ends where the scan at p ends; so the
      match from p, when there is one, is unique. */
  lemma BraceObjectAtComplete(s: string, p: nat, e: nat)
    requires p < |s| && BraceObjectSpan(s, p, e)
    ensures BraceObjectAt(s, p) == Some(e)
  {
    var t := s[p..e];
    assert |t| == e - p && t[0] == s[p] && t[|t| - 1] == s[e - 1];
    InnerSlice(s, p, e);
    var i := SkipNonBrace(s, p + 1);
    BracesSkip(s, p + 1, i, e - 1);
    ClosePairsComplete(s, i, e);
  }

  /** `BraceScan` from `from` finds the leftmost bare-object match at or after `from`. */
  lemma {:induction false} BraceScanFrom(s: string, from: nat)
    requires from <= |s|
    ensures BraceScan(s, from).None? ==>
              forall p: nat, e: nat :: from <= p ==> !BraceObjectSpan(s, p, e)
    ensures BraceScan(s, from).Some? ==>
              var (p, e) := BraceScan(s, from).value;
              && from <= p && BraceObjectSpan(s, p, e)
              && forall p': nat, e': nat :: from <= p' && BraceObjectSpan(s, p', e') ==>
                   p < p' || (p == p' && e == e')
    decreases |s| - from
  {
    if from == |s| {
      forall p: nat, e: nat | from <= p && BraceObjectSpan(s, p, e) ensures false { }
    } else if BraceObjectAt(s, from).Some? {
      BraceObjectAtSound(s, from);
      forall e': nat | BraceObjectSpan(s, from, e') ensures e' == BraceObjectAt(s, from).value {
        BraceObjectAtComplete(s, from, e');
      }
    } else {
      BraceScanFrom(s, from + 1);
      forall e: nat | BraceObjectSpan(s, from, e) ensures false {
        BraceObjectAtComplete(s, from, e);
      }
    }
  }

  // ===== The cascade =====

  /** No fenced block anywhere in s. */
  ghost predicate NoFencedBlock(s: string) {
    forall p: nat, q: nat, e: nat :: !FencedMatch(s, p, q, e)
  }

  /** No bare object anywhere in s. */
  ghost predicate NoBareObject(s: string) {
    forall p: nat, e: nat :: !BraceObjectSpan(s, p, e)
  }

  /** The first `ErrorPrefixLength` characters of the text, `text[:200]`. */
  function ErrorPrefix(text: string): (prefix: string)
    ensures |prefix| == if |text| <= ErrorPrefixLength then |text| else ErrorPrefixLength
    ensures prefix == text[..|prefix|]
    ensures |text| <= ErrorPrefixLength ==> prefix == text
  {
    if |text| <= ErrorPrefixLength then text else text[..ErrorPrefixLength]
  }

  /** `_extract_json_from_text(text)`: the whole text, else the group of the
      first fenced block, else the first bare object, each handed to `parse`;
      a fenced or bare candidate that does not parse is a JSONDecodeError, with
      no fall-back to the next step. */
  function ExtractJson(text: string, parse: Parser): (r: Result<Value, Error>)
    ensures r.Failure? ==> r.error == JsonDecodeError || r.error == NoJsonFound(ErrorPrefix(text))
    ensures r.Failure? && r.error == JsonDecodeError ==> parse(text).None?
  {
    match parse(text)
    case Some(v) => Success(v)
    case None =>
      match FencedGroup(text)
      case Some(g) => ParseCandidate(g, parse)
      case None =>
        match BraceObject(text)
        case Some(o) => ParseCandidate(o, parse)
        case None => Failure(NoJsonFound(ErrorPrefix(text)))
  }

  /** `json.loads(candidate)`, its JSONDecodeError left to propagate. */
  function ParseCandidate(candidate: string, parse: Parser): (r: Result<Value, Error>)
    ensures r.Success? <==> parse(candidate).Some?
    ensures r.Success? ==> r.value == parse(candidate).value
    ensures r.Failure? ==> r.error == JsonDecodeError
  {
    match parse(candidate)
    case Some(v) => Success(v)
    case None => Failure(JsonDecodeError)
  }

  /** Text that parses as a whole is returned as parsed, whatever it contains. */
  lemma ExtractJsonDirect(text: string, parse: Parser)
    requires parse(text).Some?
    ensures ExtractJson(text, parse) == Success(parse(text).value)
  {
  }

  /** When the whole text does not parse and there is a fenced block, the
      outcome is decided by the group of the leftmost block, closed at its
      first possible fence: its parse, or a JSONDecodeError, even if a bare
      object elsewhere would have parsed. */
  lemma ExtractJsonFenced(text: string, parse: Parser, p: nat, q: nat, e: nat)
    requires parse(text).None? && FencedMatch(text, p, q, e)
    requires forall p': nat, q': nat, e': nat :: FencedMatch(text, p', q', e') ==>
               p < p' || (p == p' && e <= e')
    ensures ExtractJson(text, parse) == ParseCandidate(text[q..e + 1], parse)
  {
    FencedScanFrom(text, 0);
    assert FencedScan(text, 0).Some?;
    var (p0, q0, e0) := FencedScan(text, 0).value;
    assert p0 == p && e0 <= e;
    FencedMatchGroupStart(text, p, q, e);
    FencedMatchGroupStart(text, p0, q0, e0);
    assert q0 == q && e0 == e;
    assert FencedGroup(text) == Some(text[q..e + 1]);
  }

  /** With neither a whole-text parse nor a fenced block, the outcome is
      decided by the leftmost bare object. */
  lemma ExtractJsonBare(text: string, parse: Parser, p: nat, e: nat)
    requires parse(text).None? && NoFencedBlock(text) && BraceObjectSpan(text, p, e)
    requires forall p': nat, e': nat :: BraceObjectSpan(text, p', e') ==> p <= p'
    ensures ExtractJson(text, parse) == ParseCandidate(text[p..e], parse)
  {
    FencedScanFrom(text, 0);
    BraceScanFrom(text, 0);
  }

  /** "Could not extract JSON" is raised exactly when the whole text does not
      parse and the text holds neither a fenced block nor a bare object. */
  lemma ExtractJsonNotFound(text: string, parse: Parser)
    ensures ExtractJson(text, parse) == Failure(NoJsonFound(ErrorPrefix(text))) <==>
              parse(text).None? && NoFencedBlock(text) && NoBareObject(text)
  {
    FencedScanFrom(text, 0);
    BraceScanFrom(text, 0);
  }

  /** Text without `{` that does not parse as a whole yields the error. */
  lemma ExtractJsonWithoutBrace(text: string, parse: Parser)
    requires '{' !in text && parse(text).None?
    ensures ExtractJson(text, parse) == Failure(NoJsonFound(ErrorPrefix(text)))
  {
    ExtractJsonNotFound(text, parse);
    assert NoFencedBlock(text);
    assert NoBareObject(text) by {
      forall p: nat, e: nat | p < e <= |text| ensures text[p..e][0] == text[p] { }
    }
  }
}
