/**
 * Bean Validation constraints on the request DTOs: @NotBlank (used on
 * IssueCreateDto.title, CommentCreateDto.content and both password fields),
 * and the constraints on the `password` field of AccountCreateDto and
 * AuthRequestDto: @NotBlank and @Pattern with the regular expression
 *
 *   ^(?=.*[A-Z])(?=.*[a-z])(?=.*\d)(?=.*[@$!%*?&])[A-Za-z\d@$!%*?&]{8,}$
 *
 * The expression is held as data (Pattern) and given its java.util.regex
 * meaning under Matcher.matches(): each lookahead (?=.*C) asks for a character
 * of class C after a run of characters that `.` matches (anything but a line
 * terminator); the body asks that the whole input be at least eight
 * characters of the body class. PolicyHolds is the same rule stated plainly,
 * and PasswordPatternCharacterised proves the two agree.
 */
module DtoValidation {
  import opened Wrappers

  /** An inclusive range of characters; a single character c is CharRange(c, c). */
  datatype CharRange = CharRange(lo: char, hi: char)

  /** A bracketed character class such as [A-Za-z\d]. */
  type CharClass = seq<CharRange>

  /** ^(?=.*L1)...(?=.*Ln)[B]{m,}$ */
  datatype Pattern = Pattern(lookaheads: seq<CharClass>, body: CharClass, minLength: nat)

  predicate InClass(c: char, cls: CharClass)
  {
    exists k :: 0 <= k < |cls| && cls[k].lo <= c <= cls[k].hi
  }

  const Upper: CharClass := [CharRange('A', 'Z')]
  const Lower: CharClass := [CharRange('a', 'z')]
  const Digit: CharClass := [CharRange('0', '9')]
  const Special: CharClass :=
    [CharRange('@', '@'), CharRange('$', '$'), CharRange('!', '!'), CharRange('%', '%'),
     CharRange('*', '*'), CharRange('?', '?'), CharRange('&', '&')]
  const Alphabet: CharClass := Upper + Lower + Digit + Special

  /** The pattern on AccountCreateDto.password. */
  const AccountCreatePattern: Pattern := Pattern([Upper, Lower, Digit, Special], Alphabet, 8)

  /** The pattern on AuthRequestDto.password, written out separately as the source does. */
  const AuthRequestPattern: Pattern :=
    Pattern([[CharRange('A', 'Z')], [CharRange('a', 'z')], [CharRange('0', '9')],
             [CharRange('@', '@'), CharRange('$', '$'), CharRange('!', '!'), CharRange('%', '%'),
              CharRange('*', '*'), CharRange('?', '?'), CharRange('&', '&')]],
            [CharRange('A', 'Z'), CharRange('a', 'z'), CharRange('0', '9'),
             CharRange('@', '@'), CharRange('$', '$'), CharRange('!', '!'), CharRange('%', '%'),
             CharRange('*', '*'), CharRange('?', '?'), CharRange('&', '&')], 8)

  /** The characters java.util.regex treats as line terminators, which `.` does not match. */
  predicate IsLineTerminator(c: char)
  {
    c == '\n' || c == '\r' || c == '\U{85}' || c == '\U{2028}' || c == '\U{2029}'
  }

  /** (?=.*C) at the start of s. */
  predicate DotStarThen(s: string, cls: CharClass)
    decreases |s|
  {
    |s| > 0 && (InClass(s[0], cls) || (!IsLineTerminator(s[0]) && DotStarThen(s[1..], cls)))
  }

  /** Matcher.matches() of the pattern against the whole of s. */
  predicate Matches(p: Pattern, s: string)
  {
    && (forall k :: 0 <= k < |p.lookaheads| ==> DotStarThen(s, p.lookaheads[k]))
    && |s| >= p.minLength
    && (forall i :: 0 <= i < |s| ==> InClass(s[i], p.body))
  }

  /** @NotBlank: not null, and not only characters that String.trim() strips. */
  predicate NotBlank(s: Option<string>)
  {
    s.Some? && exists i :: 0 <= i < |s.value| && s.value[i] > ' '
  }

  /** @Pattern: null is valid, anything else must match. */
  predicate PatternValid(p: Pattern, s: Option<string>)
  {
    s.None? || Matches(p, s.value)
  }

  /** Both constraints on AccountCreateDto.password. */
  predicate AccountCreatePasswordValid(password: Option<string>)
  {
    NotBlank(password) && PatternValid(AccountCreatePattern, password)
  }

  /** Both constraints on AuthRequestDto.password. */
  predicate AuthRequestPasswordValid(password: Option<string>)
  {
    NotBlank(password) && PatternValid(AuthRequestPattern, password)
  }

  // ----- the rule in plain words -----

  predicate IsUpper(c: char) { 'A' <= c <= 'Z' }
  predicate IsLower(c: char) { 'a' <= c <= 'z' }
  predicate IsDigit(c: char) { '0' <= c <= '9' }
  predicate IsSpecial(c: char)
  {
    c == '@' || c == '$' || c == '!' || c == '%' || c == '*' || c == '?' || c == '&'
  }
  predicate IsAllowed(c: char) { IsUpper(c) || IsLower(c) || IsDigit(c) || IsSpecial(c) }

  /** At least 8 characters, all allowed, with an upper, a lower, a digit and a special one. */
  predicate PolicyHolds(s: string)
  {
    && |s| >= 8
    && (forall i :: 0 <= i < |s| ==> IsAllowed(s[i]))
    && (exists i :: 0 <= i < |s| && IsUpper(s[i]))
    && (exists i :: 0 <= i < |s| && IsLower(s[i]))
    && (exists i :: 0 <= i < |s| && IsDigit(s[i]))
    && (exists i :: 0 <= i < |s| && IsSpecial(s[i]))
  }

  // ----- proofs -----

  lemma ClassMeanings(c: char)
    ensures InClass(c, Upper) <==> IsUpper(c)
    ensures InClass(c, Lower) <==> IsLower(c)
    ensures InClass(c, Digit) <==> IsDigit(c)
    ensures InClass(c, Special) <==> IsSpecial(c)
    ensures InClass(c, Alphabet) <==> IsAllowed(c)
  {
    if IsUpper(c) { assert Upper[0].lo <= c <= Upper[0].hi && Alphabet[0] == Upper[0]; }
    if IsLower(c) { assert Lower[0].lo <= c <= Lower[0].hi && Alphabet[1] == Lower[0]; }
    if IsDigit(c) { assert Digit[0].lo <= c <= Digit[0].hi && Alphabet[2] == Digit[0]; }
    if IsSpecial(c) {
      var k := if c == '@' then 0 else if c == '$' then 1 else if c == '!' then 2
               else if c == '%' then 3 else if c == '*' then 4 else if c == '?' then 5 else 6;
      assert Special[k].lo <= c <= Special[k].hi;
      assert Alphabet[3 + k] == Special[k];
    }
    if InClass(c, Alphabet) {
      var k :| 0 <= k < |Alphabet| && Alphabet[k].lo <= c <= Alphabet[k].hi;
      if k >= 3 { assert Alphabet[k] == Special[k - 3]; }
    }
  }

  /** No character of the body class ends a line. */
  lemma AlphabetHasNoLineTerminator(c: char)
    requires InClass(c, Alphabet)
    ensures !IsLineTerminator(c)
  {
  }

  /** Without line terminators, (?=.*C) just asks for a character of class C somewhere. */
  lemma {:induction false} DotStarThenAnywhere(s: string, cls: CharClass)
    requires forall i :: 0 <= i < |s| ==> !IsLineTerminator(s[i])
    ensures DotStarThen(s, cls) <==> exists i :: 0 <= i < |s| && InClass(s[i], cls)
  {
    if |s| > 0 {
      DotStarThenAnywhere(s[1..], cls);
      if exists i :: 0 <= i < |s| && InClass(s[i], cls) {
        var i :| 0 <= i < |s| && InClass(s[i], cls);
        if i > 0 { assert InClass(s[1..][i - 1], cls); }
      }
      if exists i :: 0 <= i < |s[1..]| && InClass(s[1..][i], cls) {
        var i :| 0 <= i < |s[1..]| && InClass(s[1..][i], cls);
        assert InClass(s[i + 1], cls);
      }
    }
  }

  /** A line terminator ahead of every character of class C defeats (?=.*C). */
  lemma {:induction false} DotStarThenStopsAtLineEnd(s: string, cls: CharClass, t: nat)
    requires t < |s| && IsLineTerminator(s[t]) && !InClass(s[t], cls)
    requires forall i :: 0 <= i < t ==> !InClass(s[i], cls)
    ensures !DotStarThen(s, cls)
  {
    if t > 0 {
      DotStarThenStopsAtLineEnd(s[1..], cls, t - 1);
    }
  }

  /** The regular expression accepts exactly the passwords PolicyHolds describes. */
  /** Every character of s belongs to the body class. */
  predicate AllInAlphabet(s: string)
  {
    forall i :: 0 <= i < |s| ==> InClass(s[i], Alphabet)
  }

  predicate SomeInClass(s: string, cls: CharClass)
  {
    exists i :: 0 <= i < |s| && InClass(s[i], cls)
  }

  /** Step one: over the body class the lookaheads reduce to "somewhere in s". */
  lemma PatternAsClasses(s: string)
    ensures Matches(AccountCreatePattern, s) <==>
      |s| >= 8 && AllInAlphabet(s) && SomeInClass(s, Upper) && SomeInClass(s, Lower)
      && SomeInClass(s, Digit) && SomeInClass(s, Special)
  {
    var p := AccountCreatePattern;
    assert p.lookaheads == [Upper, Lower, Digit, Special];
    if AllInAlphabet(s) {
      forall i | 0 <= i < |s| ensures !IsLineTerminator(s[i]) {
        AlphabetHasNoLineTerminator(s[i]);
      }
      DotStarThenAnywhere(s, Upper);
      DotStarThenAnywhere(s, Lower);
      DotStarThenAnywhere(s, Digit);
      DotStarThenAnywhere(s, Special);
      var all := DotStarThen(s, Upper) && DotStarThen(s, Lower) && DotStarThen(s, Digit) && DotStarThen(s, Special);
      assert (forall k :: 0 <= k < |p.lookaheads| ==> DotStarThen(s, p.lookaheads[k])) <==> all by {
        if all {
          forall k | 0 <= k < |p.lookaheads| ensures DotStarThen(s, p.lookaheads[k]) {
            assert k == 0 || k == 1 || k == 2 || k == 3;
          }
        }
        if forall k :: 0 <= k < |p.lookaheads| ==> DotStarThen(s, p.lookaheads[k]) {
          assert DotStarThen(s, p.lookaheads[0]) && DotStarThen(s, p.lookaheads[1]);
          assert DotStarThen(s, p.lookaheads[2]) && DotStarThen(s, p.lookaheads[3]);
        }
      }
    }
  }

  lemma AllInAlphabetMeaning(s: string)
    ensures AllInAlphabet(s) <==> forall i :: 0 <= i < |s| ==> IsAllowed(s[i])
  {
    forall i | 0 <= i < |s| ensures InClass(s[i], Alphabet) == IsAllowed(s[i]) {
      ClassMeanings(s[i]);
    }
  }

  lemma SomeInClassMeaning(s: string)
    ensures SomeInClass(s, Upper) <==> exists i :: 0 <= i < |s| && IsUpper(s[i])
    ensures SomeInClass(s, Lower) <==> exists i :: 0 <= i < |s| && IsLower(s[i])
    ensures SomeInClass(s, Digit) <==> exists i :: 0 <= i < |s| && IsDigit(s[i])
    ensures SomeInClass(s, Special) <==> exists i :: 0 <= i < |s| && IsSpecial(s[i])
  {
    forall i | 0 <= i < |s|
      ensures InClass(s[i], Upper) == IsUpper(s[i]) && InClass(s[i], Lower) == IsLower(s[i])
      ensures InClass(s[i], Digit) == IsDigit(s[i]) && InClass(s[i], Special) == IsSpecial(s[i])
    {
      ClassMeanings(s[i]);
    }
  }

  /** The regular expression accepts exactly the passwords PolicyHolds describes. */
  lemma PasswordPatternCharacterised(s: string)
    ensures Matches(AccountCreatePattern, s) <==> PolicyHolds(s)
  {
    PatternAsClasses(s);
    AllInAlphabetMeaning(s);
    SomeInClassMeaning(s);
  }

  /** The login pattern and the registration pattern are the same expression. */
  lemma LoginPatternIsRegistrationPattern()
    ensures AuthRequestPattern == AccountCreatePattern
  {
  }

  /** A password is well-formed for login iff it is well-formed for registration. */
  lemma LoginIffRegistration(password: Option<string>)
    ensures AuthRequestPasswordValid(password) <==> AccountCreatePasswordValid(password)
  {
    LoginPatternIsRegistrationPattern();
  }

  /** What an accepted registration password looks like. */
  lemma AcceptedPassword(password: Option<string>)
    requires AccountCreatePasswordValid(password)
    ensures password.Some? && PolicyHolds(password.value)
  {
    PasswordPatternCharacterised(password.value);
  }

  /** Every password PolicyHolds describes passes both constraints. */
  lemma PolicyPasswordAccepted(s: string)
    requires PolicyHolds(s)
    ensures AccountCreatePasswordValid(Some(s))
  {
    PasswordPatternCharacterised(s);
    assert s[0] > ' ' by { assert IsAllowed(s[0]); }
  }

  /** A blank password (null, empty or only spaces and control characters) is rejected. */
  lemma BlankPasswordRejected(password: Option<string>)
    requires password.None? || forall i :: 0 <= i < |password.value| ==> password.value[i] <= ' '
    ensures !AccountCreatePasswordValid(password) && !AuthRequestPasswordValid(password)
  {
  }

  /** One character outside A-Z, a-z, 0-9 and @$!%*?& (a space, '#') rejects the password. */
  lemma ForeignCharacterRejected(s: string, i: nat)
    requires i < |s| && !IsAllowed(s[i])
    ensures !AccountCreatePasswordValid(Some(s)) && !AuthRequestPasswordValid(Some(s))
  {
  }

  /**
   * An illustration of `.` stopping at a line terminator: a line break before
   * the only upper-case letter defeats the lookahead. On whole passwords it
   * adds nothing, since the body class admits no line terminator.
   */
  lemma LineBreakDefeatsLookahead()
    ensures !DotStarThen("\nPassword123!", Upper)
  {
  }

  /** The documented example "Password123!" is accepted on both DTOs. */
  lemma ExamplePasswordAccepted()
    ensures AccountCreatePasswordValid(Some("Password123!"))
    ensures AuthRequestPasswordValid(Some("Password123!"))
  {
    var s := "Password123!";
    assert IsUpper(s[0]) && IsLower(s[1]) && IsDigit(s[8]) && IsSpecial(s[11]);
    PolicyPasswordAccepted(s);
    LoginIffRegistration(Some(s));
  }
}
