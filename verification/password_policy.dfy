/**
 The password policy shared by account creation and account update.

 The controller tests passwords against the regular expression
 `^(?=.*[a-z])(?=.*[A-Z])(?=.*\d)[a-zA-Z\d]{8,}$`. This module gives three
 readings of it:
 - `MatchesPasswordRegex`, a literal reading of the expression (three
   lookaheads anchored at the start, then a run of at least eight
   letters or digits reaching the end);
 - `StrongPassword`, the policy in plain words;
 - `TestPassword`, a single left-to-right scan that decides the policy;
 and proves the three agree on every string.
 */
module PasswordPolicy {

  /** The smallest accepted length (the `{8,}` quantifier). */
  const MinLength: nat := 8

  predicate IsLower(c: char) { 'a' <= c <= 'z' }

  predicate IsUpper(c: char) { 'A' <= c <= 'Z' }

  /** `\d` in a JavaScript regular expression is the ASCII digits only. */
  predicate IsDigit(c: char) { '0' <= c <= '9' }

  /** The character class `[a-zA-Z\d]`. */
  predicate IsAlnum(c: char) { IsLower(c) || IsUpper(c) || IsDigit(c) }

  /** Characters that `.` does not match in a JavaScript regular expression. */
  predicate IsLineTerminator(c: char) {
    c == '\n' || c == '\r' || c == '\U{2028}' || c == '\U{2029}'
  }

  /** Some character of `s` belongs to the class `cls`. */
  predicate Contains(s: string, cls: char -> bool) {
    exists i :: 0 <= i < |s| && cls(s[i])
  }

  /** Every character of `s` belongs to the class `cls`. */
  predicate All(s: string, cls: char -> bool) {
    forall i :: 0 <= i < |s| ==> cls(s[i])
  }

  /** The lookahead `(?=.*[cls])` tried at the start of `s`: `.*` skips
      characters other than line terminators, then one character of the
      class must follow. */
  predicate LookaheadFinds(s: string, cls: char -> bool) {
    exists i :: 0 <= i < |s| && cls(s[i]) && !Contains(s[..i], IsLineTerminator)
  }

  /** The whole expression, read literally. */
  predicate MatchesPasswordRegex(s: string) {
    && LookaheadFinds(s, IsLower)
    && LookaheadFinds(s, IsUpper)
    && LookaheadFinds(s, IsDigit)
    && |s| >= MinLength
    && All(s, IsAlnum)
  }

  /** The policy in plain words: at least eight characters, nothing but
      ASCII letters and digits, and at least one lower-case letter, one
      upper-case letter and one digit. */
  predicate StrongPassword(s: string) {
    && |s| >= MinLength
    && All(s, IsAlnum)
    && Contains(s, IsLower)
    && Contains(s, IsUpper)
    && Contains(s, IsDigit)
  }

  /** The regular expression accepts exactly the strong passwords. */
  lemma RegexMatchesPolicy(s: string)
    ensures MatchesPasswordRegex(s) <==> StrongPassword(s)
  {
  }

  /** `passwordRegex.test(s)`, as both account handlers call it: it holds
      exactly for the strong passwords. */
  function PasswordRegexTest(s: string): (ok: bool)
    ensures ok <==> StrongPassword(s)
  {
    RegexMatchesPolicy(s);
    MatchesPasswordRegex(s)
  }

  /** Decides the policy in one pass over the characters, tracking which
      required classes have been seen and whether every character so far
      was a letter or digit. */
  method TestPassword(s: string) returns (ok: bool)
    ensures ok <==> StrongPassword(s)
    ensures ok <==> MatchesPasswordRegex(s)
  {
    var lower, upper, digit, alnum := false, false, false, true;
    var i := 0;
    while i < |s|
      invariant 0 <= i <= |s|
      invariant lower <==> Contains(s[..i], IsLower)
      invariant upper <==> Contains(s[..i], IsUpper)
      invariant digit <==> Contains(s[..i], IsDigit)
      invariant alnum <==> All(s[..i], IsAlnum)
    {
      var c := s[i];
      assert s[..i + 1] == s[..i] + [c];
      lower := lower || IsLower(c);
      upper := upper || IsUpper(c);
      digit := digit || IsDigit(c);
      alnum := alnum && IsAlnum(c);
      i := i + 1;
    }
    assert s[..i] == s;
    ok := |s| >= MinLength && alnum && lower && upper && digit;
    RegexMatchesPolicy(s);
  }

  /** The password of the create test is accepted. */
  lemma CreateTestPasswordAccepted()
    ensures StrongPassword("minhaCaranga67")
  {
    assert IsLower("minhaCaranga67"[0]) && IsUpper("minhaCaranga67"[5]) && IsDigit("minhaCaranga67"[12]);
  }

  /** The new password of the update test is accepted. */
  lemma UpdateTestPasswordAccepted()
    ensures StrongPassword("newValidPassword1")
  {
    assert IsLower("newValidPassword1"[0]) && IsUpper("newValidPassword1"[3]) && IsDigit("newValidPassword1"[16]);
  }

  /** The default password of the test fixture is accepted. */
  lemma FixturePasswordAccepted()
    ensures StrongPassword("DeanTeAmo23")
  {
    assert IsLower("DeanTeAmo23"[1]) && IsUpper("DeanTeAmo23"[0]) && IsDigit("DeanTeAmo23"[9]);
  }

  /** The password of the second account in the ownership test is accepted. */
  lemma OtherUserPasswordAccepted()
    ensures StrongPassword("aPassword123")
  {
    assert IsLower("aPassword123"[0]) && IsUpper("aPassword123"[1]) && IsDigit("aPassword123"[9]);
  }

  /** Strings that are too short, lack one of the three classes, or carry
      a symbol or a space are refused. */
  lemma RefusedExamples()
    ensures !StrongPassword("Abcdef1")
    ensures !StrongPassword("abcdefg1")
    ensures !StrongPassword("ABCDEFG1")
    ensures !StrongPassword("Abcdefgh")
    ensures !StrongPassword("Abcdef1!")
    ensures !StrongPassword("Abcd ef12")
  {
    assert !IsAlnum("Abcdef1!"[7]);
    assert !IsAlnum("Abcd ef12"[4]);
  }
}
