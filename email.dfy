/** `is_valid_email`: a non-empty string accepted by
    `re.match(r'^[a-zA-Z0-9._%+-]+@[a-zA-Z0-9.-]+\.[a-zA-Z]{2,}$', email)`.
    The pattern is decided by a scan: the one `@` (the local part has none,
    nor has the domain), and the last `.` (the top-level part has none).
    Python's `$` also matches just before a newline that ends the string, so
    one trailing newline is accepted. */
module Email {
  import opened Wrappers
  import PyText
  import PyValue

  predicate IsLetter(c: char) {
    'a' <= c <= 'z' || 'A' <= c <= 'Z'
  }

  /** `[a-zA-Z0-9._%+-]` */
  predicate IsLocalChar(c: char) {
    IsLetter(c) || PyText.IsDigit(c) || c == '.' || c == '_' || c == '%' || c == '+' || c == '-'
  }

  /** `[a-zA-Z0-9.-]` */
  predicate IsDomainChar(c: char) {
    IsLetter(c) || PyText.IsDigit(c) || c == '.' || c == '-'
  }

  predicate AllLocal(s: string) {
    forall k :: 0 <= k < |s| ==> IsLocalChar(s[k])
  }

  predicate AllDomain(s: string) {
    forall k :: 0 <= k < |s| ==> IsDomainChar(s[k])
  }

  predicate AllLetters(s: string) {
    forall k :: 0 <= k < |s| ==> IsLetter(s[k])
  }

  /** Declaratively: s matches the pattern with the `@` at a and the `.`
      before the top-level part at d. */
  predicate ShapeAt(s: string, a: nat, d: nat) {
    && 1 <= a && a + 1 < d && d + 3 <= |s|
    && s[a] == '@' && s[d] == '.'
    && AllLocal(s[..a]) && AllDomain(s[a + 1..d]) && AllLetters(s[d + 1..])
  }

  /** The pattern, without its anchors, covers all of s. */
  ghost predicate MatchesPattern(s: string) {
    exists a: nat, d: nat :: ShapeAt(s, a, d)
  }

  /** The index of the first c in s. */
  function FirstIndex(s: string, c: char): (i: Option<nat>)
    ensures i.Some? ==> i.value < |s| && s[i.value] == c && c !in s[..i.value]
    ensures i.None? ==> c !in s
  {
    if s == [] then None
    else if s[0] == c then Some(0)
    else
      match FirstIndex(s[1..], c)
      case Some(i) =>
        assert s[..i + 1] == [s[0]] + s[1..][..i];
        Some(i + 1)
      case None => None
  }

  /** The index of the last c in s. */
  function LastIndex(s: string, c: char): (i: Option<nat>)
    ensures i.Some? ==> i.value < |s| && s[i.value] == c && c !in s[i.value + 1..]
    ensures i.None? ==> c !in s
  {
    if s == [] then None
    else if s[|s| - 1] == c then Some(|s| - 1)
    else
      match LastIndex(s[..|s| - 1], c)
      case Some(i) =>
        assert s[i + 1..] == s[..|s| - 1][i + 1..] + [s[|s| - 1]];
        Some(i)
      case None =>
        assert s == s[..|s| - 1] + [s[|s| - 1]];
        None
  }

  /** The scan: take the first `@` and the last `.`, and check the three parts. */
  predicate Shape(s: string) {
    match FirstIndex(s, '@')
    case None => false
    case Some(a) =>
      match LastIndex(s, '.')
      case None => false
      case Some(d) => ShapeAt(s, a, d)
  }

  /** `re.match(pattern, s) is not None`: `$` matches at the end or before a
      final newline. */
  predicate MatchesAnchored(s: string) {
    Shape(s) || (|s| > 0 && s[|s| - 1] == '\n' && Shape(s[..|s| - 1]))
  }

  /** `is_valid_email(email)` for a string argument. */
  predicate IsValidEmail(email: string) {
    email != "" && MatchesAnchored(email)
  }

  /** `is_valid_email(email)` for any argument: a non-string is rejected. */
  predicate IsValidEmailValue(email: PyValue.Value) {
    email.Str? && IsValidEmail(email.s)
  }

  // ----- the scan decides the pattern -----

  /** In any match the `@` is the first one and the `.` the last one. */
  lemma ShapeAtIsUnique(s: string, a: nat, d: nat)
    requires ShapeAt(s, a, d)
    ensures FirstIndex(s, '@') == Some(a)
    ensures LastIndex(s, '.') == Some(d)
  {
    var local := s[..a];
    forall k | 0 <= k < a ensures s[k] != '@' {
      assert IsLocalChar(local[k]);
    }
    var tail := s[d + 1..];
    forall k | d < k < |s| ensures s[k] != '.' {
      assert IsLetter(tail[k - d - 1]);
    }
  }

  /** The scan accepts exactly the strings the pattern matches. */
  lemma ShapeIff(s: string)
    ensures Shape(s) <==> MatchesPattern(s)
  {
    if MatchesPattern(s) {
      var a: nat, d: nat :| ShapeAt(s, a, d);
      ShapeAtIsUnique(s, a, d);
    }
  }

  /** `is_valid_email` in the pattern's own terms. */
  lemma IsValidEmailIff(email: string)
    ensures IsValidEmail(email) <==>
              MatchesPattern(email) ||
              (|email| > 0 && email[|email| - 1] == '\n' && MatchesPattern(email[..|email| - 1]))
  {
    ShapeIff(email);
    if |email| > 0 {
      ShapeIff(email[..|email| - 1]);
    }
  }

  // ----- what an accepted address looks like -----

  /** In a match at a and d, the `@` at a is the only one, and there is no
      space and no newline anywhere. */
  lemma ShapeAtChars(t: string, a: nat, d: nat)
    requires ShapeAt(t, a, d)
    ensures forall k :: 0 <= k < |t| ==> (t[k] == '@' <==> k == a) && t[k] != ' ' && t[k] != '\n'
  {
    var local, domain, tld := t[..a], t[a + 1..d], t[d + 1..];
    forall k | 0 <= k < a ensures t[k] != '@' && t[k] != ' ' && t[k] != '\n' {
      assert IsLocalChar(local[k]);
    }
    forall k | a < k < d ensures t[k] != '@' && t[k] != ' ' && t[k] != '\n' {
      assert IsDomainChar(domain[k - a - 1]);
    }
    forall k | d < k < |t| ensures t[k] != '@' && t[k] != ' ' && t[k] != '\n' {
      assert IsLetter(tld[k - d - 1]);
    }
  }

  /** In a match, the `@` is the only one, and there is no space and no
      newline anywhere. */
  lemma ShapeChars(t: string)
    ensures Shape(t) ==> forall k :: 0 <= k < |t| ==>
              (t[k] == '@' <==> Some(k) == FirstIndex(t, '@')) && t[k] != ' ' && t[k] != '\n'
  {
    if Shape(t) {
      ShapeAtChars(t, FirstIndex(t, '@').value, LastIndex(t, '.').value);
    }
  }

  /** Counting splits over concatenation. */
  lemma {:induction false} CountAppend(s: string, t: string, c: char)
    ensures PyText.CountChar(s + t, c) == PyText.CountChar(s, c) + PyText.CountChar(t, c)
  {
    if s == [] {
      assert s + t == t;
    } else {
      CountAppend(s[1..], t, c);
      assert (s + t)[1..] == s[1..] + t;
    }
  }

  /** A match holds exactly one `@`. */
  lemma ShapeHasOneAt(t: string)
    ensures Shape(t) ==> PyText.CountChar(t, '@') == 1
  {
    ShapeChars(t);
    if Shape(t) {
      var a := FirstIndex(t, '@').value;
      var rest := t[a + 1..];
      assert '@' !in rest by {
        forall k | 0 <= k < |rest| ensures rest[k] != '@' {
          assert rest[k] == t[a + 1 + k];
        }
      }
      assert t == t[..a] + ([t[a]] + rest);
      CountAppend(t[..a], [t[a]] + rest, '@');
      CountAppend([t[a]], rest, '@');
    }
  }

  /** An accepted address has exactly one `@`. */
  lemma AcceptedHasOneAt(email: string)
    requires IsValidEmail(email)
    ensures PyText.CountChar(email, '@') == 1
  {
    ShapeHasOneAt(email);
    if !Shape(email) {
      var t := email[..|email| - 1];
      ShapeHasOneAt(t);
      assert email == t + ['\n'];
      CountAppend(t, ['\n'], '@');
    }
  }

  /** A space anywhere rejects the address. */
  lemma SpaceRejects(email: string)
    requires ' ' in email
    ensures !IsValidEmail(email)
  {
    ShapeChars(email);
    if |email| > 0 {
      var t := email[..|email| - 1];
      ShapeChars(t);
      var k :| 0 <= k < |email| && email[k] == ' ';
      if k < |t| {
        assert t[k] == ' ';
      }
    }
  }

  /** One trailing newline is accepted; a second one is not. */
  lemma TrailingNewline(email: string)
    requires MatchesPattern(email)
    ensures IsValidEmail(email + "\n")
    ensures !IsValidEmail(email + "\n\n")
  {
    ShapeIff(email);
    var s := email + "\n";
    assert s[..|s| - 1] == email;
    var s2 := email + "\n\n";
    assert s2[..|s2| - 1] == s;
    ShapeChars(s);
    ShapeChars(s2);
  }

  /** Dots and hyphens may stand anywhere in the domain, even next to each
      other: `a@..co` is accepted. */
  lemma LooseDomainAccepted()
    ensures IsValidEmail("a@..co")
  {
    assert ShapeAt("a@..co", 1, 3);
    ShapeAtIsUnique("a@..co", 1, 3);
  }

  /** The empty string and non-strings are rejected. */
  lemma RejectedInputs(v: PyValue.Value)
    ensures !IsValidEmail("")
    ensures !v.Str? ==> !IsValidEmailValue(v)
  {
  }
}
