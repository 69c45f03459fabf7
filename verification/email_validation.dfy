/** The email check of the lead detail panel: `validateEmail` tests
    `/^[^\s@]+@[^\s@]+\.[^\s@]+$/`. `EmailPattern` states the regular
    expression as three non-empty runs of `[^\s@]` around an `@` and a `.`;
    `ValidateEmail` computes it by locating the `@`. */
module EmailValidation {
  import opened Text
  import Seqs

  /** A character of the class `[^\s@]`. */
  predicate PlainChar(c: char) {
    !IsWhitespace(c) && c != '@'
  }

  /** Every character of `s` belongs to `[^\s@]`. */
  predicate AllPlain(s: string) {
    forall i :: 0 <= i < |s| ==> PlainChar(s[i])
  }

  /** `s` matches the expression with its `@` at `at` and the `.` the
      expression consumes at `dot`: `s[..at]`, `s[at + 1..dot]` and
      `s[dot + 1..]` are non-empty runs of `[^\s@]`. */
  predicate MatchesAt(s: string, at: int, dot: int) {
    && 0 < at && at + 1 < dot && dot + 1 < |s|
    && s[at] == '@' && s[dot] == '.'
    && AllPlain(s[..at]) && AllPlain(s[at + 1..dot]) && AllPlain(s[dot + 1..])
  }

  /** `/^[^\s@]+@[^\s@]+\.[^\s@]+$/.test(s)`. */
  ghost predicate EmailPattern(s: string) {
    exists at, dot :: MatchesAt(s, at, dot)
  }

  /** A domain part with a `.` that has at least one character on each side. */
  predicate HasInnerDot(domain: string) {
    exists j :: 0 < j < |domain| - 1 && domain[j] == '.'
  }

  function IsAt(): char -> bool {
    (c: char) => c == '@'
  }

  /** `validateEmail`: `s` is `local + "@" + domain` where the local part is
      non-empty, neither part holds an `@` or whitespace, and the domain has
      an inner `.`. */
  function ValidateEmail(s: string): (r: bool)
    ensures r <==> EmailPattern(s)
  {
    match Seqs.FindIndex(s, IsAt())
    case None =>
      NoAtNoPattern(s);
      false
    case Some(at) =>
      PatternAtFirstAt(s, at);
      0 < at && AllPlain(s[..at]) && AllPlain(s[at + 1..]) && HasInnerDot(s[at + 1..])
  }

  /** Without an `@` the expression cannot match. */
  lemma NoAtNoPattern(s: string)
    requires forall j :: 0 <= j < |s| ==> s[j] != '@'
    ensures !EmailPattern(s)
  {
    forall at, dot ensures !MatchesAt(s, at, dot) {
      if 0 <= at < |s| {
        assert s[at] != '@';
      }
    }
  }

  /** With the first `@` at `at`, the expression matches exactly when the text
      before it is a non-empty run of `[^\s@]` and the text after it is a run of
      `[^\s@]` with an inner `.`. */
  lemma PatternAtFirstAt(s: string, at: nat)
    requires at < |s| && s[at] == '@'
    requires forall j :: 0 <= j < at ==> s[j] != '@'
    ensures EmailPattern(s) <==> 0 < at && AllPlain(s[..at]) && AllPlain(s[at + 1..]) && HasInnerDot(s[at + 1..])
  {
    var domain := s[at + 1..];
    if 0 < at && AllPlain(s[..at]) && AllPlain(domain) && HasInnerDot(domain) {
      var j :| 0 < j < |domain| - 1 && domain[j] == '.';
      var dot := at + 1 + j;
      assert s[at + 1..dot] == domain[..j];
      assert s[dot + 1..] == domain[j + 1..];
      assert MatchesAt(s, at, dot);
    }
    if EmailPattern(s) {
      var at', dot :| MatchesAt(s, at', dot);
      forall i | 0 <= i < at' ensures s[i] != '@' {
        assert s[..at'][i] == s[i];
      }
      assert at == at';
      assert domain[dot - at - 1] == '.';
      forall i | 0 <= i < |domain| ensures PlainChar(domain[i]) {
        if at + 1 + i < dot {
          assert domain[i] == s[at + 1..dot][i];
        } else if at + 1 + i > dot {
          assert domain[i] == s[dot + 1..][i - (dot - at)];
        }
      }
    }
  }

  /** A string holding whitespace is rejected. */
  lemma RejectsWhitespace(s: string, i: int)
    requires 0 <= i < |s| && IsWhitespace(s[i])
    ensures !ValidateEmail(s)
  {
    forall at, dot | MatchesAt(s, at, dot) ensures PlainChar(s[i]) || i == at || i == dot {
      PlainAround(s, at, dot, i);
    }
  }

  /** In a match, every character other than the `@` and the `.` consumed
      by the expression is in `[^\s@]`. */
  lemma PlainAround(s: string, at: int, dot: int, i: int)
    requires MatchesAt(s, at, dot) && 0 <= i < |s|
    ensures PlainChar(s[i]) || i == at || i == dot
  {
    if i < at {
      assert s[..at][i] == s[i];
    } else if at < i < dot {
      assert s[at + 1..dot][i - at - 1] == s[i];
    } else if dot < i {
      assert s[dot + 1..][i - dot - 1] == s[i];
    }
  }

  /** A string without an `@` is rejected. */
  lemma RejectsMissingAt(s: string)
    requires forall i :: 0 <= i < |s| ==> s[i] != '@'
    ensures !ValidateEmail(s)
  {
    NoAtNoPattern(s);
  }

  /** A string with two or more `@` is rejected. */
  lemma RejectsTwoAts(s: string, i: int, j: int)
    requires 0 <= i < j < |s| && s[i] == '@' && s[j] == '@'
    ensures !ValidateEmail(s)
  {
    forall at, dot | MatchesAt(s, at, dot) ensures i == at && j == at {
      PlainAround(s, at, dot, i);
      PlainAround(s, at, dot, j);
    }
  }
}
