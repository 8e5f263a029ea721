/** The client-side email check of schema/ValidateEmail.ts, and the regular
    expression `^[^\s@]+@[^\s@]+\.[^\s@]+$` it shares with the subscribe route. */
module EmailValidation {

  /** The class `\s` of ECMAScript regular expressions (WhiteSpace and
      LineTerminator); `String.prototype.trim` strips the same set. */
  predicate IsSpace(c: char) {
    || c == '\t' || c == '\n' || c == '\U{B}' || c == '\U{C}' || c == '\r' || c == ' '
    || c == '\U{A0}' || c == '\U{1680}' || ('\U{2000}' <= c <= '\U{200A}')
    || c == '\U{2028}' || c == '\U{2029}' || c == '\U{202F}' || c == '\U{205F}'
    || c == '\U{3000}' || c == '\U{FEFF}'
  }

  /** One character of the class `[^\s@]`. */
  predicate PatternChar(c: char) {
    c != '@' && !IsSpace(c)
  }

  /** Every character of `s` is in `[^\s@]`. */
  predicate AllPatternChars(s: string) {
    forall i :: 0 <= i < |s| ==> PatternChar(s[i])
  }

  /** The language of `^[^\s@]+@[^\s@]+\.[^\s@]+$`, read off the expression:
      `s` splits at an `@` and a later `.` into three non-empty runs of `[^\s@]`. */
  ghost predicate MatchesPattern(s: string) {
    exists at, dot ::
      && 0 < at && at + 1 < dot < |s| - 1
      && s[at] == '@' && s[dot] == '.'
      && AllPatternChars(s[..at])
      && AllPatternChars(s[at + 1..dot])
      && AllPatternChars(s[dot + 1..])
  }

  /** `s.indexOf(c)`: the first position of `c`, or -1. */
  function IndexOf(s: string, c: char): (r: int)
    ensures r == -1 <==> c !in s
    ensures r != -1 ==> 0 <= r < |s| && s[r] == c && c !in s[..r]
  {
    if |s| == 0 then -1
    else if s[0] == c then 0
    else
      var k := IndexOf(s[1..], c);
      assert s[1..][..if k < 0 then 0 else k] == s[1..1 + if k < 0 then 0 else k];
      if k == -1 then -1 else k + 1
  }

  /** `s.lastIndexOf(c)`: the last position of `c`, or -1. */
  function LastIndexOf(s: string, c: char): (r: int)
    ensures r == -1 <==> c !in s
    ensures r != -1 ==> 0 <= r < |s| && s[r] == c && c !in s[r + 1..]
  {
    if |s| == 0 then -1
    else if s[|s| - 1] == c then |s| - 1
    else
      assert s == s[..|s| - 1] + [s[|s| - 1]];
      LastIndexOf(s[..|s| - 1], c)
  }

  /** The two characters of `s` from position `i` on. */
  function PairAt(s: string, i: nat): string
    requires i + 2 <= |s|
  {
    s[i..i + 2]
  }

  /** `s.includes('..')`: some two-character window of `s` is "..". */
  predicate HasDoubleDot(s: string): (r: bool)
    ensures r <==> exists i: nat :: i + 2 <= |s| && PairAt(s, i) == ".."
  {
    var found := exists i: nat :: i + 1 < |s| && s[i] == '.' && s[i + 1] == '.';
    assert found ==> exists i: nat :: i + 2 <= |s| && PairAt(s, i) == ".." by {
      if found {
        var i: nat :| i + 1 < |s| && s[i] == '.' && s[i + 1] == '.';
        assert PairAt(s, i) == "..";
      }
    }
    assert (exists i: nat :: i + 2 <= |s| && PairAt(s, i) == "..") ==> found by {
      if exists i: nat :: i + 2 <= |s| && PairAt(s, i) == ".." {
        var i: nat :| i + 2 <= |s| && PairAt(s, i) == "..";
        assert PairAt(s, i)[0] == s[i] && PairAt(s, i)[1] == s[i + 1];
      }
    }
    found
  }

  /** The regular expression evaluated without backtracking: the first `@`
      ends a non-empty local part, and the rest is a run of `[^\s@]` with a
      `.` somewhere other than at its ends. */
  predicate BasicFormatValid(s: string): (ok: bool)
    ensures ok ==> 0 < IndexOf(s, '@') && |s| >= 5
  {
    var at := IndexOf(s, '@');
    && 0 < at
    && AllPatternChars(s[..at])
    && AllPatternChars(s[at + 1..])
    && at + 3 < |s| + 1
    && '.' in s[at + 2..|s| - 1]
  }

  /** `validateEmail`: the regular expression plus the three index rules.
      The shortest accepted address has six characters, as "a@b.co". */
  predicate ValidateEmail(email: string): (ok: bool)
    ensures ok ==> |email| >= 6
  {
    && BasicFormatValid(email)
    && IndexOf(email, '.') != LastIndexOf(email, '@') + 1
    && LastIndexOf(email, '.') < |email| - 2
    && !HasDoubleDot(email)
  }

  /** An address passing the executable check is in the language of the regular expression. */
  lemma BasicFormatSound(s: string)
    requires BasicFormatValid(s)
    ensures MatchesPattern(s)
  {
    var at := IndexOf(s, '@');
    var mid := s[at + 2..|s| - 1];
    var k := IndexOf(mid, '.');
    var dot := at + 2 + k;
    assert s[dot] == mid[k];
    var tail := s[at + 1..];
    var domain, tld := s[at + 1..dot], s[dot + 1..];
    assert AllPatternChars(domain) by {
      forall i | 0 <= i < |domain| ensures PatternChar(domain[i]) {
        assert domain[i] == tail[i];
      }
    }
    assert AllPatternChars(tld) by {
      forall i | 0 <= i < |tld| ensures PatternChar(tld[i]) {
        assert tld[i] == tail[dot - at + i];
      }
    }
    assert 0 < at && at + 1 < dot < |s| - 1 && s[at] == '@' && s[dot] == '.';
  }

  /** Every string in the language of the regular expression passes the executable check. */
  lemma BasicFormatComplete(s: string, at: int, dot: int)
    requires 0 < at && at + 1 < dot < |s| - 1
    requires s[at] == '@' && s[dot] == '.'
    requires AllPatternChars(s[..at]) && AllPatternChars(s[at + 1..dot]) && AllPatternChars(s[dot + 1..])
    ensures BasicFormatValid(s)
  {
    var local := s[..at];
    assert '@' !in local by {
      forall i | 0 <= i < |local| ensures local[i] != '@' {
        assert PatternChar(local[i]);
      }
    }
    assert IndexOf(s, '@') == at;
    var tail := s[at + 1..];
    forall i | 0 <= i < |tail| ensures PatternChar(tail[i]) {
      var j := at + 1 + i;
      if j < dot {
        assert tail[i] == s[at + 1..dot][j - at - 1];
      } else if j > dot {
        assert tail[i] == s[dot + 1..][j - dot - 1];
      }
    }
    assert s[at + 2..|s| - 1][dot - at - 2] == '.';
  }

  /** The executable check decides exactly the language of the regular expression. */
  lemma BasicFormatMatchesPattern(s: string)
    ensures BasicFormatValid(s) <==> MatchesPattern(s)
  {
    if BasicFormatValid(s) {
      BasicFormatSound(s);
    }
    if MatchesPattern(s) {
      var at, dot :|
        && 0 < at && at + 1 < dot < |s| - 1
        && s[at] == '@' && s[dot] == '.'
        && AllPatternChars(s[..at])
        && AllPatternChars(s[at + 1..dot])
        && AllPatternChars(s[dot + 1..]);
      BasicFormatComplete(s, at, dot);
    }
  }

  /** Every address the client accepts also passes the route's regular expression. */
  lemma ClientAcceptanceImpliesServer(s: string)
    requires ValidateEmail(s)
    ensures MatchesPattern(s)
  {
    BasicFormatMatchesPattern(s);
  }

  /** An accepted address has no whitespace, exactly one `@` after a non-empty
      local part, and a `.` in the domain that is neither its first nor its last character. */
  lemma ValidEmailShape(s: string)
    requires ValidateEmail(s)
    ensures forall i :: 0 <= i < |s| ==> !IsSpace(s[i])
    ensures exists at ::
      && 0 < at < |s| && s[at] == '@'
      && (forall i :: 0 <= i < |s| && i != at ==> s[i] != '@')
      && (exists dot :: at + 1 < dot < |s| - 1 && s[dot] == '.')
  {
    var at := IndexOf(s, '@');
    forall i | 0 <= i < |s| && i != at ensures s[i] != '@' && !IsSpace(s[i]) {
      if i < at {
        assert PatternChar(s[..at][i]);
      } else {
        assert PatternChar(s[at + 1..][i - at - 1]);
      }
    }
    var k := IndexOf(s[at + 2..|s| - 1], '.');
    assert s[at + 2 + k] == '.';
  }

  /** An accepted address never contains `..`. */
  lemma ValidEmailHasNoDoubleDot(s: string, i: int)
    requires ValidateEmail(s)
    requires 0 <= i < |s| - 1
    ensures !(s[i] == '.' && s[i + 1] == '.')
  {
  }

  /** In an accepted address at least two characters follow the final `.`. */
  lemma ValidEmailHasTld(s: string)
    requires ValidateEmail(s)
    ensures exists dot :: 0 <= dot < |s| - 2 && s[dot] == '.' && forall i :: dot < i < |s| ==> s[i] != '.'
  {
    var dot := LastIndexOf(s, '.');
    assert dot != -1 by {
      var k := IndexOf(s[IndexOf(s, '@') + 2..|s| - 1], '.');
      assert s[IndexOf(s, '@') + 2 + k] == '.';
    }
    forall i | dot < i < |s| ensures s[i] != '.' {
      assert s[dot + 1..][i - dot - 1] == s[i];
    }
  }

  /** The domain rule compares the FIRST `.` of the whole address with the
      position after `@`: a domain starting with `.` is rejected unless the
      local part already contains a `.`. */
  lemma ValidEmailDomainRule(s: string, at: int)
    requires ValidateEmail(s)
    requires 0 <= at < |s| - 1 && s[at] == '@'
    ensures s[at + 1] == '.' ==> exists i :: 0 <= i < at && s[i] == '.'
  {
    ValidEmailShape(s);
    var at' := LastIndexOf(s, '@');
    assert at' == at;
    if s[at + 1] == '.' {
      var first := IndexOf(s, '.');
      assert first != at + 1;
      assert s[first] == '.';
    }
  }

  /** An accepted address has an `@`, and a `.` somewhere after it. */
  lemma NeedsAtAndDot(s: string)
    ensures ValidateEmail(s) ==> '@' in s && '.' in s[IndexOf(s, '@') + 1..]
  {
    if ValidateEmail(s) {
      var at := IndexOf(s, '@');
      var k := IndexOf(s[at + 2..|s| - 1], '.');
      assert s[at + 1..][k + 1] == '.';
    }
  }

  /** `IndexOf` finds a position holding `c` with no `c` before it. */
  lemma IndexOfIs(s: string, c: char, k: int)
    requires 0 <= k < |s| && s[k] == c
    requires forall j :: 0 <= j < k ==> s[j] != c
    ensures IndexOf(s, c) == k
  {
    assert c in s[..k + 1] by { assert s[..k + 1][k] == c; }
  }

  /** `LastIndexOf` finds a position holding `c` with no `c` after it. */
  lemma LastIndexOfIs(s: string, c: char, k: int)
    requires 0 <= k < |s| && s[k] == c
    requires forall j :: k < j < |s| ==> s[j] != c
    ensures LastIndexOf(s, c) == k
  {
    assert s[k] in s;
  }

  /** "a@b.co" is accepted: a two-letter TLD is enough. */
  lemma AcceptsTwoLetterTld(s: string)
    requires s == "a@b.co"
    ensures ValidateEmail(s)
  {
    IndexOfIs(s, '@', 1); LastIndexOfIs(s, '@', 1);
    IndexOfIs(s, '.', 3); LastIndexOfIs(s, '.', 3);
    assert s[3..5][0] == '.';
    assert AllPatternChars(s[..1]) && AllPatternChars(s[2..]);
  }

  /** "x.y@.b.com" matches the regular expression, split as "x.y" @ ".b" . "com". */
  lemma DotAfterAtExampleFormat(s: string)
    requires s == "x.y@.b.com"
    ensures BasicFormatValid(s)
  {
    assert AllPatternChars(s[..3]) && AllPatternChars(s[4..6]) && AllPatternChars(s[7..]);
    BasicFormatComplete(s, 3, 6);
  }

  /** "x.y@.b.com" is accepted although its domain starts with `.`:
      the first `.` of the address lies in the local part. */
  lemma AcceptsDotAfterAtWhenLocalHasDot(s: string)
    requires s == "x.y@.b.com"
    ensures ValidateEmail(s)
  {
    DotAfterAtExampleFormat(s);
    LastIndexOfIs(s, '.', 6);
    IndexOfIs(s, '.', 1);
    LastIndexOfIs(s, '@', 3);
    assert IndexOf(s, '.') != LastIndexOf(s, '@') + 1;
    assert LastIndexOf(s, '.') < |s| - 2;
    assert !HasDoubleDot(s) by {
      forall i | 0 <= i < |s| - 1 ensures !(s[i] == '.' && s[i + 1] == '.') {
      }
    }
  }

  /** Rejected examples: a one-letter TLD, a domain starting with `.`,
      consecutive dots, and no `@` at all. */
  lemma RejectedExamples(s: string)
    requires s == "a@b.c" || s == "a@.b.com" || s == "a@b..com" || s == "not-an-email"
    ensures !ValidateEmail(s)
  {
    if s == "a@b.c" {
      LastIndexOfIs(s, '.', 3);
    } else if s == "a@.b.com" {
      IndexOfIs(s, '@', 1); LastIndexOfIs(s, '@', 1); IndexOfIs(s, '.', 2);
    } else if s == "a@b..com" {
      assert s[3] == '.' && s[4] == '.';
    } else {
      assert '@' !in s;
    }
  }
}
