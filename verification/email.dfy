/** The contact form's e-mail check, `isValidEmail`: a test against the regular
    expression /^[^\s@]+@[^\s@]+\.[^\s@]+$/. */
module Email {
  import opened Wrappers
  import opened JsText

  /** A character of the class `[^\s@]`. */
  predicate IsAtom(c: char) {
    !IsWhitespace(c) && c != '@'
  }

  predicate AllAtoms(s: string) {
    forall k | 0 <= k < |s| :: IsAtom(s[k])
  }

  /** A string matched by `[^\s@]+`. */
  predicate IsAtomRun(s: string) {
    |s| > 0 && AllAtoms(s)
  }

  /** The language of the pattern: a run of atoms, '@', a run of atoms, '.', a
      run of atoms, and nothing else. The '.' may be any dot of the part after
      the '@', since `.` itself belongs to `[^\s@]` and the matcher backtracks. */
  ghost predicate MatchesEmailPattern(s: string) {
    exists at, dot :: PatternSplit(s, at, dot)
  }

  /** `s` splits at `at` ('@') and `dot` ('.') into the pattern's three runs. */
  ghost predicate PatternSplit(s: string, at: int, dot: int) {
    && 0 <= at < dot < |s|
    && s[at] == '@' && s[dot] == '.'
    && IsAtomRun(s[..at]) && IsAtomRun(s[at + 1..dot]) && IsAtomRun(s[dot + 1..])
  }

  /** The position of the first occurrence of `c` in `s`, as `indexOf` finds it. */
  function IndexOf(s: string, c: char): (r: Option<nat>)
    ensures r.None? <==> c !in s
    ensures r.Some? ==> r.value < |s| && s[r.value] == c && c !in s[..r.value]
  {
    if |s| == 0 then None
    else if s[0] == c then Some(0)
    else
      match IndexOf(s[1..], c)
      case None => None
      case Some(i) =>
        assert s[..i + 1] == [s[0]] + s[1..][..i];
        Some(i + 1)
  }

  /** The part after the '@' holds a '.' with at least one character on each side. */
  predicate HasInteriorDot(domain: string) {
    |domain| >= 3 && '.' in domain[1..|domain| - 1]
  }

  /** The matcher's computation: locate the first '@', then inspect the two
      sides of it. */
  predicate AcceptsAroundFirstAt(s: string) {
    match IndexOf(s, '@')
    case None => false
    case Some(at) =>
      at > 0 && AllAtoms(s[..at]) && AllAtoms(s[at + 1..]) && HasInteriorDot(s[at + 1..])
  }

  /** Inspecting the sides of the first '@' accepts exactly the strings the
      regular expression matches. */
  lemma FirstAtScanMatchesPattern(s: string)
    ensures AcceptsAroundFirstAt(s) <==> MatchesEmailPattern(s)
  {
    if AcceptsAroundFirstAt(s) {
      var at := IndexOf(s, '@').value;
      var domain := s[at + 1..];
      var j :| 1 <= j < |domain| - 1 && domain[j] == '.';
      var dot := at + 1 + j;
      assert s[at + 1..dot] == domain[..j];
      assert s[dot + 1..] == domain[j + 1..];
      assert PatternSplit(s, at, dot);
    }
    if MatchesEmailPattern(s) {
      var at, dot :| PatternSplit(s, at, dot);
      assert '@' in s by { assert s[at] == '@'; }
      var first := IndexOf(s, '@').value;
      assert first == at;
      var domain := s[at + 1..];
      forall k | 0 <= k < |domain|
        ensures IsAtom(domain[k])
      {
        if at + 1 + k < dot {
          assert domain[k] == s[at + 1..dot][k];
        } else if at + 1 + k > dot {
          assert domain[k] == s[dot + 1..][k - (dot - at)];
        }
      }
      assert domain[1..|domain| - 1][dot - at - 2] == '.';
    }
  }

  /** `isValidEmail`: the test of the regular expression against `s`. */
  function IsValidEmail(s: string): (r: bool)
    ensures r <==> MatchesEmailPattern(s)
  {
    FirstAtScanMatchesPattern(s);
    AcceptsAroundFirstAt(s)
  }

  /** A string `isValidEmail` accepts holds no white space at all. */
  lemma ValidEmailHasNoWhitespace(s: string)
    ensures IsValidEmail(s) ==> NoWhitespace(s)
  {
  }

  /** A string `isValidEmail` accepts has exactly one '@', with a non-empty local
      part before it. */
  lemma ValidEmailHasOneAt(s: string)
    requires IsValidEmail(s)
    ensures exists at :: 0 < at < |s| && s[at] == '@' && '@' !in s[..at] && '@' !in s[at + 1..]
  {
  }

  /** The empty string is not an e-mail address. */
  lemma EmptyIsInvalid()
    ensures !IsValidEmail("")
  {
  }

  /** Sample addresses the pattern accepts, one with a doubled dot. */
  lemma AcceptedExamples()
    ensures MatchesEmailPattern("a@b.c")
    ensures MatchesEmailPattern("a@b..c")
  {
    assert PatternSplit("a@b.c", 1, 3);
    assert PatternSplit("a@b..c", 1, 3);
  }

  /** A string with nothing before its '@' is refused. */
  lemma RejectsEmptyLocalPart()
    ensures !MatchesEmailPattern("@b.c")
  {
    FirstAtScanMatchesPattern("@b.c");
  }

  /** A string whose dot directly follows the '@' is refused. */
  lemma RejectsDotAfterAt()
    ensures !MatchesEmailPattern("a@.c")
  {
    FirstAtScanMatchesPattern("a@.c");
  }

  /** A string with a second '@' is refused. */
  lemma RejectsSecondAt()
    ensures !MatchesEmailPattern("a@@b.c")
  {
    assert IndexOf("a@@b.c", '@') == Some(1);
    assert !IsAtom("@b.c"[0]);
    FirstAtScanMatchesPattern("a@@b.c");
  }

  /** A string with white space in it is refused. */
  lemma RejectsWhitespace()
    ensures !MatchesEmailPattern("a b@c.d")
  {
    var s := "a b@c.d";
    assert IsWhitespace(s[1]);
    ValidEmailHasNoWhitespace(s);
    assert !IsValidEmail(s);
  }
}
