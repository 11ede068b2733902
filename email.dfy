/** The e-mail check both auth pages use: the pattern `^[^\s@]+@[^\s@]+\.[^\s@]+$`. */
module Email {
  import opened Wrappers
  import opened JsText

  /** The pattern's character class `[^\s@]`. */
  predicate InClass(c: char) {
    !IsWhitespace(c) && c != '@'
  }

  /** The pattern read as a language: a non-empty local part, one '@', a non-empty name, a '.',
      and a non-empty tail, every character but the '@' from the class. */
  ghost predicate MatchesPattern(s: string) {
    exists i, j | 0 < i && i + 1 < j && j + 1 < |s| ::
      s[i] == '@' && s[j] == '.' && forall k | 0 <= k < |s| && k != i :: InClass(s[k])
  }

  /** The first position of `c` in `s`. */
  function IndexOf(s: string, c: char): (r: Option<nat>)
    ensures r.None? <==> c !in s
    ensures r.Some? ==> r.value < |s| && s[r.value] == c && forall k | 0 <= k < r.value :: s[k] != c
  {
    if |s| == 0 then None
    else if s[0] == c then Some(0)
    else
      match IndexOf(s[1..], c)
      case None => None
      case Some(k) => Some(k + 1)
  }

  /** A '.' with at least one character on each side. */
  predicate HasInnerDot(d: string) {
    exists k | 0 < k < |d| - 1 :: d[k] == '.'
  }

  /** `emailRegex.test(email)`: no whitespace, a first '@' past the start, no second '@', and a
      dot inside the part after it. */
  function CheckEmail(s: string): bool {
    match IndexOf(s, '@')
    case None => false
    case Some(at) =>
      && 0 < at
      && (forall k | 0 <= k < |s| :: !IsWhitespace(s[k]))
      && '@' !in s[at + 1..]
      && HasInnerDot(s[at + 1..])
  }

  /** Every string the check accepts matches the pattern. */
  lemma CheckEmailSound(s: string)
    requires CheckEmail(s)
    ensures MatchesPattern(s)
  {
    var at := IndexOf(s, '@').value;
    var d := s[at + 1..];
    var k :| 0 < k < |d| - 1 && d[k] == '.';
    var j := at + 1 + k;
    assert s[j] == '.';
    forall m | 0 <= m < |s| && m != at
      ensures InClass(s[m])
    {
      if m > at {
        assert s[m] == d[m - at - 1];
        assert s[m] in d;
      }
    }
  }

  /** Every string the pattern matches passes the check. */
  lemma CheckEmailComplete(s: string, i: nat, j: nat)
    requires 0 < i && i + 1 < j && j + 1 < |s|
    requires s[i] == '@' && s[j] == '.' && forall k | 0 <= k < |s| && k != i :: InClass(s[k])
    ensures CheckEmail(s)
  {
    assert IndexOf(s, '@') == Some(i);
    var d := s[i + 1..];
    assert d[j - i - 1] == '.';
    assert '@' !in d by {
      forall m | 0 <= m < |d| ensures d[m] != '@' {
        assert d[m] == s[m + i + 1];
      }
    }
    forall k | 0 <= k < |s| ensures !IsWhitespace(s[k]) {
      if k != i {
        assert InClass(s[k]);
      }
    }
  }

  /** The check accepts exactly the strings the pattern matches. */
  lemma CheckEmailMatchesPattern(s: string)
    ensures CheckEmail(s) <==> MatchesPattern(s)
  {
    if CheckEmail(s) {
      CheckEmailSound(s);
    }
    if MatchesPattern(s) {
      var i, j :| 0 < i && i + 1 < j && j + 1 < |s|
        && s[i] == '@' && s[j] == '.' && forall k | 0 <= k < |s| && k != i :: InClass(s[k]);
      CheckEmailComplete(s, i, j);
    }
  }

  lemma AcceptsPlainAddress()
    ensures CheckEmail("ann@mail.com")
  {
    var s := "ann@mail.com";
    forall k | 0 <= k < |s| && k != 3
      ensures InClass(s[k])
    {
      assert s[k] in "annmail.com";
    }
    assert s[3] == '@' && s[8] == '.';
    CheckEmailMatchesPattern(s);
  }

  lemma RejectsMissingDot()
    ensures !CheckEmail("ann@mail")
  {
    var s := "ann@mail";
    assert forall k | 0 <= k < |s| :: s[k] != '.';
    CheckEmailMatchesPattern(s);
  }

  lemma RejectsSecondAt()
    ensures !CheckEmail("ann@@mail.com")
  {
    assert IndexOf("ann@@mail.com", '@') == Some(3);
    assert "ann@@mail.com"[4..][0] == '@';
  }

  lemma RejectsEmptyLocalPart()
    ensures !CheckEmail("@mail.com")
  {
    assert IndexOf("@mail.com", '@') == Some(0);
  }
}
