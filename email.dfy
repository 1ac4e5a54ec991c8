/** `_is_valid_email`: `re.match(r"^[^@\s]+@[^@\s]+\.[^@\s]+$", email) is not None`.

    `EmailPattern` is the reference: the strings the pattern matches, written as the
    regular expression reads (a '@' and a '.' splitting the text into three non-empty
    runs of the class `[^@\s]`), including the rule that `$` without MULTILINE also
    matches just before one final newline. `IsValidEmail` decides it by splitting at
    the first '@'; `IsValidEmailMatchesPattern` proves the two agree on every string. */
module EmailCheck {

  /** Python's `\s` for text patterns: the characters for which `str.isspace()` holds. */
  predicate IsSpace(c: char) {
    || '\U{9}' <= c <= '\U{D}'
    || '\U{1C}' <= c <= '\U{20}'
    || c == '\U{85}'
    || c == '\U{A0}'
    || c == '\U{1680}'
    || '\U{2000}' <= c <= '\U{200A}'
    || c == '\U{2028}'
    || c == '\U{2029}'
    || c == '\U{202F}'
    || c == '\U{205F}'
    || c == '\U{3000}'
  }

  /** The character class `[^@\s]`. */
  predicate InClass(c: char) {
    c != '@' && !IsSpace(c)
  }

  predicate AllInClass(s: string) {
    forall i :: 0 <= i < |s| ==> InClass(s[i])
  }

  /** `s` reads as `[^@\s]+@[^@\s]+\.[^@\s]+` with the '@' at `at` and the '.' at `dot`. */
  predicate SplitsAt(s: string, at: int, dot: int) {
    && 0 < at
    && at + 1 < dot < |s| - 1
    && s[at] == '@'
    && s[dot] == '.'
    && AllInClass(s[..at])
    && AllInClass(s[at + 1..dot])
    && AllInClass(s[dot + 1..])
  }

  /** The whole of `s` matches `[^@\s]+@[^@\s]+\.[^@\s]+`. */
  ghost predicate FullMatch(s: string) {
    exists at, dot :: SplitsAt(s, at, dot)
  }

  /** `re.match` with the pattern anchored by `^` and `$` succeeds: the string matches in
      full, or it matches in full once one final "\n" is taken off. */
  ghost predicate EmailPattern(s: string) {
    || FullMatch(s)
    || (|s| > 0 && s[|s| - 1] == '\n' && FullMatch(s[..|s| - 1]))
  }

  /** The text `$` is tested against: one final newline is ignored. */
  function DropFinalNewline(s: string): (t: string)
    ensures s == t || s == t + "\n"
    ensures |s| > 0 && s[|s| - 1] == '\n' ==> |t| == |s| - 1
  {
    if |s| > 0 && s[|s| - 1] == '\n' then s[..|s| - 1] else s
  }

  /** The position of the first `c` in `s`, or `|s|` when there is none. */
  function IndexOf(s: string, c: char): (k: nat)
    ensures k <= |s|
    ensures k < |s| ==> s[k] == c
    ensures forall j :: 0 <= j < k ==> s[j] != c
  {
    if s == [] then 0
    else if s[0] == c then 0
    else 1 + IndexOf(s[1..], c)
  }

  /** A '.' that is neither the first nor the last character. */
  predicate HasInnerDot(d: string) {
    exists i :: 0 < i < |d| - 1 && d[i] == '.'
  }

  /** `_is_valid_email`, decided by splitting at the first '@'. */
  predicate IsValidEmail(email: string) {
    SplitsAtFirstAt(DropFinalNewline(email))
  }

  lemma AllInClassSlice(s: string, lo: int, hi: int)
    requires AllInClass(s)
    requires 0 <= lo <= hi <= |s|
    ensures AllInClass(s[lo..hi])
  {
    assert forall i :: 0 <= i < hi - lo ==> s[lo..hi][i] == s[lo + i];
  }

  /** A full match ends in a character of the class, so never in a newline. */
  lemma FullMatchLastInClass(s: string)
    requires FullMatch(s)
    ensures |s| > 0 && InClass(s[|s| - 1])
  {
    var at, dot :| SplitsAt(s, at, dot);
    var tail := s[dot + 1..];
    assert tail[|tail| - 1] == s[|s| - 1];
  }

  /** The text after the first '@' is all in the class and has an inner '.'. */
  predicate SplitsAtFirstAt(t: string) {
    var at := IndexOf(t, '@');
    && 0 < at < |t|
    && AllInClass(t[..at])
    && AllInClass(t[at + 1..])
    && HasInnerDot(t[at + 1..])
  }

  lemma FullMatchSplitsAtFirstAt(t: string)
    requires FullMatch(t)
    ensures SplitsAtFirstAt(t)
  {
    var at := IndexOf(t, '@');
    var a, dot :| SplitsAt(t, a, dot);
    // The first '@' is the one the match uses: none lies before it.
    assert at == a;
    var d := t[at + 1..];
    var i := dot - at - 1;
    assert AllInClass(d) by {
      forall j | 0 <= j < |d|
        ensures InClass(d[j])
      {
        if j < i {
          assert d[j] == t[at + 1..dot][j];
        } else if j > i {
          assert d[j] == t[dot + 1..][j - i - 1];
        } else {
          assert d[j] == t[dot];
        }
      }
    }
    assert d[i] == '.';
  }

  lemma SplitsAtFirstAtFullMatch(t: string)
    requires SplitsAtFirstAt(t)
    ensures FullMatch(t)
  {
    var at := IndexOf(t, '@');
    var d := t[at + 1..];
    var i :| 0 < i < |d| - 1 && d[i] == '.';
    var dot := at + 1 + i;
    AllInClassSlice(d, 0, i);
    AllInClassSlice(d, i + 1, |d|);
    assert t[at + 1..dot] == d[0..i];
    assert t[dot + 1..] == d[i + 1..|d|];
    assert t[dot] == '.';
    assert SplitsAt(t, at, dot);
  }

  /** `IsValidEmail` accepts exactly the strings `re.match` accepts for the pattern. */
  lemma IsValidEmailMatchesPattern(email: string)
    ensures IsValidEmail(email) <==> EmailPattern(email)
  {
    var t := DropFinalNewline(email);
    if FullMatch(t) {
      FullMatchSplitsAtFirstAt(t);
    }
    if SplitsAtFirstAt(t) {
      SplitsAtFirstAtFullMatch(t);
    }
    if |email| > 0 && email[|email| - 1] == '\n' && FullMatch(email) {
      FullMatchLastInClass(email);
    }
  }

  /** The shape the validator accepts: after dropping one final newline, the text has
      one '@' and no whitespace; the part before the '@' is non-empty; after it comes
      a '.' with text on both sides. */
  lemma ValidEmailShape(email: string)
    requires IsValidEmail(email)
    ensures var t := DropFinalNewline(email);
      && (forall j :: 0 <= j < |t| ==> !IsSpace(t[j]))
      && (exists at :: 0 < at < |t| - 3 && t[at] == '@'
            && (forall j :: 0 <= j < |t| && j != at ==> t[j] != '@')
            && HasInnerDot(t[at + 1..]))
  {
    var t := DropFinalNewline(email);
    var at := IndexOf(t, '@');
    var d := t[at + 1..];
    forall j | 0 <= j < |t|
      ensures !IsSpace(t[j]) && (j != at ==> t[j] != '@')
    {
      if j < at {
        assert t[j] == t[..at][j];
      } else if j > at {
        assert t[j] == d[j - at - 1];
      }
    }
  }

  /** The `$` anchor: a full match is accepted, and so is it with one newline appended. */
  lemma TrailingNewlineAccepted(t: string)
    requires FullMatch(t)
    ensures IsValidEmail(t)
    ensures IsValidEmail(t + "\n")
  {
    var u := t + "\n";
    assert IsValidEmail(t) by {
      IsValidEmailMatchesPattern(t);
    }
    assert u[..|u| - 1] == t;
    IsValidEmailMatchesPattern(u);
  }

  /** `$` forgives one final newline, not two. */
  lemma TwoNewlinesRejected(t: string)
    ensures !IsValidEmail(t + "\n\n")
  {
    var u := t + "\n";
    var w := t + "\n\n";
    assert w[..|w| - 1] == u;
    if FullMatch(u) {
      FullMatchLastInClass(u);
    }
    if FullMatch(w) {
      FullMatchLastInClass(w);
    }
    IsValidEmailMatchesPattern(w);
  }

  /** A string with no '@' is rejected. */
  lemma NoAtRejected(s: string)
    requires forall k :: 0 <= k < |s| ==> s[k] != '@'
    ensures !IsValidEmail(s)
  {
    var t := DropFinalNewline(s);
    assert forall k :: 0 <= k < |t| ==> t[k] == s[k];
  }

  /** An ordinary address is accepted, and so is it with one final newline. */
  lemma AcceptedExample()
    ensures IsValidEmail("jo@x.io")
    ensures IsValidEmail("jo@x.io\n")
  {
    assert SplitsAt("jo@x.io", 2, 4);
    TrailingNewlineAccepted("jo@x.io");
    assert "jo@x.io" + "\n" == "jo@x.io\n";
  }

  /** The domain may start with a '.' as long as a later '.' has text on both sides. */
  lemma LeadingDotDomainExample()
    ensures IsValidEmail("a@.b.c")
  {
    assert SplitsAt("a@.b.c", 1, 4);
    TrailingNewlineAccepted("a@.b.c");
  }

  /** A domain without an inner '.' is rejected. */
  lemma NoInnerDotExample()
    ensures !IsValidEmail("jo@x")
    ensures !IsValidEmail("jo@.io")
  {
    assert IndexOf("jo@x", '@') == 2;
    assert IndexOf("jo@.io", '@') == 2;
  }

  /** An empty local part is rejected. */
  lemma EmptyLocalExample()
    ensures !IsValidEmail("@x.io")
  {
    assert IndexOf("@x.io", '@') == 0;
  }

  /** A second '@' is rejected. */
  lemma SecondAtExample()
    ensures !IsValidEmail("j@o@x.io")
  {
    assert IndexOf("j@o@x.io", '@') == 1;
    assert "j@o@x.io"[2..][1] == '@';
  }

  /** Whitespace is rejected. */
  lemma SpaceExample()
    ensures !IsValidEmail("j o@x.io")
  {
    assert IndexOf("j o@x.io", '@') == 3;
    assert "j o@x.io"[..3][1] == ' ';
  }
}
