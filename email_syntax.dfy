/** is_valid_email (app.py): Python's re.match with an anchored pattern of
    one or more local characters, '@', one or more domain characters, '.',
    and two or more letters.  The language is stated declaratively
    (RegexAccepts) and decided by a scan for the first '@' and the last '.'
    (IsValidEmail); the two are proved equal.  Python's `$` also matches just
    before a final newline, so an address followed by one "\n" is accepted
    too. */
module EmailSyntax {

  predicate IsLetter(c: char) {
    'a' <= c <= 'z' || 'A' <= c <= 'Z'
  }

  predicate IsDigit(c: char) {
    '0' <= c <= '9'
  }

  /** The class [a-zA-Z0-9._%+-] of the part before '@'. */
  predicate IsLocalChar(c: char) {
    IsLetter(c) || IsDigit(c) || c == '.' || c == '_' || c == '%' || c == '+' || c == '-'
  }

  /** The class [a-zA-Z0-9.-] of the domain. */
  predicate IsDomainChar(c: char) {
    IsLetter(c) || IsDigit(c) || c == '.' || c == '-'
  }

  predicate AllLocal(s: string) {
    forall i :: 0 <= i < |s| ==> IsLocalChar(s[i])
  }

  predicate AllDomain(s: string) {
    forall i :: 0 <= i < |s| ==> IsDomainChar(s[i])
  }

  predicate AllLetters(s: string) {
    forall i :: 0 <= i < |s| ==> IsLetter(s[i])
  }

  // ---------------------------------------------------------------------
  // The language of the pattern

  /** s reads L '@' D '.' T with the '@' at index at and the '.' at index
      dot: L non-empty over the local class, D non-empty over the domain
      class, T two or more letters. */
  predicate SplitsAt(s: string, at: int, dot: int) {
    && 0 < at && at + 1 < dot && dot + 2 < |s|
    && s[at] == '@' && s[dot] == '.'
    && AllLocal(s[..at])
    && AllDomain(s[at + 1..dot])
    && AllLetters(s[dot + 1..])
  }

  /** The whole string is in the language of the pattern. */
  ghost predicate MatchesPattern(s: string) {
    exists at, dot :: SplitsAt(s, at, dot)
  }

  /** What re.match accepts: the anchor `$` matches at the end of the string
      or just before a newline that ends it. */
  ghost predicate RegexAccepts(s: string) {
    MatchesPattern(s) || (|s| > 0 && s[|s| - 1] == '\n' && MatchesPattern(s[..|s| - 1]))
  }

  // ---------------------------------------------------------------------
  // The decision procedure

  /** The index of the first c in s, or |s| when there is none. */
  function FirstIndex(s: string, c: char): (k: nat)
    ensures k <= |s|
    ensures k < |s| ==> s[k] == c
    ensures forall i :: 0 <= i < k ==> s[i] != c
  {
    if s == [] then 0
    else if s[0] == c then 0
    else 1 + FirstIndex(s[1..], c)
  }

  /** The index of the last c in s, or -1 when there is none. */
  function LastIndex(s: string, c: char): (k: int)
    ensures -1 <= k < |s|
    ensures k >= 0 ==> s[k] == c
    ensures forall i :: k < i < |s| ==> s[i] != c
  {
    if s == [] then -1
    else if s[|s| - 1] == c then |s| - 1
    else LastIndex(s[..|s| - 1], c)
  }

  /** After the '@': domain characters throughout, the last '.' not first,
      and two or more letters after it. */
  predicate DomainThenTld(r: string) {
    var dot := LastIndex(r, '.');
    AllDomain(r) && 0 < dot && |r| - dot - 1 >= 2 && AllLetters(r[dot + 1..])
  }

  predicate MatchesWhole(s: string) {
    var at := FirstIndex(s, '@');
    0 < at < |s| && AllLocal(s[..at]) && DomainThenTld(s[at + 1..])
  }

  predicate IsValidEmail(email: string) {
    MatchesWhole(email)
    || (|email| > 0 && email[|email| - 1] == '\n' && MatchesWhole(email[..|email| - 1]))
  }

  // ---------------------------------------------------------------------
  // The decision procedure decides the language

  lemma {:induction false} WholeFromSplit(s: string, at: int, dot: int)
    requires SplitsAt(s, at, dot)
    ensures MatchesWhole(s)
  {
    forall i | 0 <= i < at ensures s[i] != '@' {
      assert IsLocalChar(s[..at][i]);
    }
    assert FirstIndex(s, '@') == at;
    var r := s[at + 1..];
    var d := dot - at - 1;
    assert r[d] == '.';
    forall i | 0 <= i < |r| ensures IsDomainChar(r[i]) {
      if i < d { assert r[i] == s[at + 1..dot][i]; }
      else if i > d { assert r[i] == s[dot + 1..][i - d - 1]; }
    }
    forall i | d < i < |r| ensures r[i] != '.' {
      assert IsLetter(s[dot + 1..][i - d - 1]);
    }
    assert LastIndex(r, '.') == d;
    assert r[d + 1..] == s[dot + 1..];
  }

  lemma {:induction false} SplitFromWhole(s: string) returns (at: int, dot: int)
    requires MatchesWhole(s)
    ensures SplitsAt(s, at, dot)
  {
    at := FirstIndex(s, '@');
    var r := s[at + 1..];
    var d := LastIndex(r, '.');
    dot := at + 1 + d;
    assert s[at + 1..dot] == r[..d];
    assert s[dot + 1..] == r[d + 1..];
  }

  lemma {:induction false} MatchesWholeIsPattern(s: string)
    ensures MatchesWhole(s) <==> MatchesPattern(s)
  {
    if MatchesWhole(s) {
      var at, dot := SplitFromWhole(s);
    }
    if MatchesPattern(s) {
      var at, dot :| SplitsAt(s, at, dot);
      WholeFromSplit(s, at, dot);
    }
  }

  /** is_valid_email accepts exactly the strings re.match accepts. */
  lemma {:induction false} IsValidEmailDecidesPattern(email: string)
    ensures IsValidEmail(email) <==> RegexAccepts(email)
  {
    MatchesWholeIsPattern(email);
    if |email| > 0 {
      MatchesWholeIsPattern(email[..|email| - 1]);
    }
  }

  // ---------------------------------------------------------------------
  // Consequences for the addresses the form accepts

  /** The string without the one final newline `$` lets through. */
  function Core(email: string): string {
    if |email| > 0 && email[|email| - 1] == '\n' then email[..|email| - 1] else email
  }

  lemma {:induction false} AcceptedCoreMatches(email: string)
    requires IsValidEmail(email)
    ensures MatchesWhole(Core(email))
  {
    if !MatchesWhole(email) {
      assert email[|email| - 1] == '\n';
    } else {
      var at, dot := SplitFromWhole(email);
      assert IsLetter(email[dot + 1..][|email| - dot - 2]);
    }
  }

  lemma {:induction false} NoAtAroundSplit(s: string, at: int, dot: int)
    requires SplitsAt(s, at, dot)
    ensures '@' !in s[..at] && '@' !in s[at + 1..]
  {
    var local, rest := s[..at], s[at + 1..];
    forall i | 0 <= i < |local| ensures local[i] != '@' {
      assert IsLocalChar(local[i]);
    }
    forall i | 0 <= i < |rest| ensures rest[i] != '@' {
      if i < dot - at - 1 {
        assert IsDomainChar(s[at + 1..dot][i]);
      } else if i > dot - at - 1 {
        assert IsLetter(s[dot + 1..][i - (dot - at)]);
      }
    }
  }

  lemma {:induction false} OneAtAroundSplit(s: string, at: int, dot: int)
    requires SplitsAt(s, at, dot)
    ensures multiset(s)['@'] == 1
  {
    NoAtAroundSplit(s, at, dot);
    var local, rest := s[..at], s[at + 1..];
    assert multiset(local)['@'] == 0;
    assert multiset(rest)['@'] == 0;
    assert s == local + [s[at]] + rest;
    assert multiset(s) == multiset(local) + multiset([s[at]]) + multiset(rest);
  }

  /** An accepted address holds exactly one '@'. */
  lemma {:induction false} AcceptedHasOneAt(email: string)
    requires IsValidEmail(email)
    ensures multiset(email)['@'] == 1
  {
    var core := Core(email);
    AcceptedCoreMatches(email);
    var at, dot := SplitFromWhole(core);
    OneAtAroundSplit(core, at, dot);
    if core != email {
      assert email == core + ['\n'];
      assert multiset(email) == multiset(core) + multiset(['\n']);
    }
  }

  /** The empty string and every string without '@' are rejected. */
  lemma RejectsWithoutAt(email: string)
    requires '@' !in email
    ensures !IsValidEmail(email)
  {
    if IsValidEmail(email) {
      AcceptedHasOneAt(email);
    }
  }

  /** What follows the last '.' of an accepted address (ignoring the one
      final newline) is two or more letters. */
  lemma {:induction false} AcceptedEndsInTld(email: string)
    requires IsValidEmail(email)
    ensures var core := Core(email);
            var dot := LastIndex(core, '.');
            0 <= dot && |core| - dot - 1 >= 2 && AllLetters(core[dot + 1..])
  {
    var core := Core(email);
    AcceptedCoreMatches(email);
    var at, dot := SplitFromWhole(core);
    forall i | dot < i < |core| ensures core[i] != '.' {
      assert IsLetter(core[dot + 1..][i - dot - 1]);
    }
    assert LastIndex(core, '.') == dot;
  }

  /** Any local part, domain and top-level domain drawn from the pattern's
      classes form an accepted address, with or without one final newline. */
  lemma {:induction false} AcceptsParts(local: string, domain: string, tld: string)
    requires local != [] && AllLocal(local)
    requires domain != [] && AllDomain(domain)
    requires |tld| >= 2 && AllLetters(tld)
    ensures IsValidEmail(local + "@" + domain + "." + tld)
    ensures IsValidEmail(local + "@" + domain + "." + tld + "\n")
  {
    var s := local + "@" + domain + "." + tld;
    var at, dot := |local|, |local| + 1 + |domain|;
    assert s[..at] == local;
    assert s[at + 1..dot] == domain;
    assert s[dot + 1..] == tld;
    WholeFromSplit(s, at, dot);
    var s' := s + "\n";
    assert s'[..|s'| - 1] == s;
  }

  /** A pattern match ends in a letter of the top-level domain. */
  lemma {:induction false} MatchEndsInLetter(s: string)
    ensures MatchesWhole(s) ==> |s| > 0 && IsLetter(s[|s| - 1])
  {
    if MatchesWhole(s) {
      var at, dot := SplitFromWhole(s);
      assert IsLetter(s[dot + 1..][|s| - dot - 2]);
    }
  }

  /** Only one final newline gets through: a pattern match ends in a
      letter, so two trailing newlines are rejected. */
  lemma {:induction false} RejectsTwoNewlines(email: string)
    ensures !IsValidEmail(email + "\n\n")
  {
    var s := email + "\n\n";
    MatchEndsInLetter(s);
    MatchEndsInLetter(s[..|s| - 1]);
  }

  lemma AcceptsUserAtExample()
    ensures IsValidEmail("user@example.com")
  {
    var s := "user@example.com";
    assert s[..4] == "user" && s[5..12] == "example" && s[13..] == "com";
    assert SplitsAt(s, 4, 12);
    WholeFromSplit(s, 4, 12);
  }

  lemma AcceptsFinalNewline()
    ensures IsValidEmail("a@b.com\n")
  {
    AcceptsParts("a", "b", "com");
    assert "a" + "@" + "b" + "." + "com" + "\n" == "a@b.com\n";
  }

  lemma RejectsSamples()
    ensures !IsValidEmail("not-an-email")
    ensures !IsValidEmail("")
  {
    RejectsWithoutAt("not-an-email");
    RejectsWithoutAt("");
  }
}
