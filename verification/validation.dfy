/** The regular expressions the forms and the auth routes test, restated as
    character-class predicates. Each regular expression has two readings
    here: the one that follows the pattern's structure (a split point
    chosen anywhere, as backtracking would), and a direct scan; the lemmas
    show they accept the same strings. */
module Validation {
  import opened Common

  /** `/^[A-Za-z\s]+$/` (the `[a-zA-Z\s]` of the admin form is the same class). */
  predicate NameOk(s: string) {
    |s| > 0 && forall i :: 0 <= i < |s| ==> IsAsciiLetter(s[i]) || IsJsWhitespace(s[i])
  }

  /** `/^\d{10}$/` */
  predicate MobileOk(s: string) {
    |s| == 10 && forall i :: 0 <= i < |s| ==> IsAsciiDigit(s[i])
  }

  // ---------------------------------------------------------------------
  // E-mail addresses

  /** `[a-zA-Z0-9._%+-]` */
  predicate IsLocalChar(c: char) {
    IsAsciiLetter(c) || IsAsciiDigit(c) || c == '.' || c == '_' || c == '%' || c == '+' || c == '-'
  }

  predicate LocalPartOk(s: string) {
    |s| > 0 && forall i :: 0 <= i < |s| ==> IsLocalChar(s[i])
  }

  /** The domain alternatives of the registration pattern under the `i`
      flag: `gmail.com`, `outlook.com`, `vignan.ac.in`, or at least one
      character other than a line terminator followed by `.edu`. Without the
      `u` flag, case folding relates ASCII letters only. */
  predicate RegisterDomainOk(d: string) {
    var l := Lower(d);
    || l == "gmail.com" || l == "outlook.com" || l == "vignan.ac.in"
    || (|d| >= 5 && l[|d| - 4..] == ".edu" && forall i :: 0 <= i < |d| - 4 ==> !IsLineTerminator(d[i]))
  }

  /** The registration pattern read as written: some `@` splits the address
      into an allowed local part and an allowed domain. */
  ghost predicate RegisterEmailMatches(s: string) {
    exists i :: 0 < i < |s| && s[i] == '@' && LocalPartOk(s[..i]) && RegisterDomainOk(s[i + 1..])
  }

  /** The registration e-mail check: the local part cannot hold an `@`, so
      the split is at the first one. */
  function RegisterEmailOk(s: string): (r: bool)
    ensures r <==> RegisterEmailMatches(s)
  {
    var i := IndexOf(s, '@');
    var ok := 0 < i && LocalPartOk(s[..i]) && RegisterDomainOk(s[i + 1..]);
    assert RegisterEmailMatches(s) ==> ok by {
      if RegisterEmailMatches(s) {
        var k :| 0 < k < |s| && s[k] == '@' && LocalPartOk(s[..k]) && RegisterDomainOk(s[k + 1..]);
        FirstAt(s, k, i);
      }
    }
    ok
  }

  /** An `@` preceded only by local-part characters is the first `@`. */
  lemma FirstAt(s: string, k: int, i: int)
    requires 0 < k < |s| && s[k] == '@' && LocalPartOk(s[..k])
    requires i == IndexOf(s, '@')
    ensures i == k
  {
    assert forall j :: 0 <= j < k ==> s[j] == s[..k][j];
  }

  /** `[a-zA-Z0-9-]` */
  predicate IsLabelChar(c: char) {
    IsAsciiLetter(c) || IsAsciiDigit(c) || c == '-'
  }

  predicate LabelOk(s: string) {
    |s| > 0 && forall i :: 0 <= i < |s| ==> IsLabelChar(s[i])
  }

  /** `(?:[a-zA-Z0-9-]+\.)+` read as written: a label and a dot, then
      either nothing or more such groups. */
  ghost predicate Groups(g: string)
    decreases |g|
  {
    exists k :: 0 < k < |g| && g[k] == '.' && LabelOk(g[..k]) && (k == |g| - 1 || Groups(g[k + 1..]))
  }

  /** The same language described by its characters: labels and dots,
      starting with a label character, ending with a dot, no two dots in a row. */
  predicate DottedOk(g: string) {
    && |g| > 0 && g[0] != '.' && g[|g| - 1] == '.'
    && (forall i :: 0 <= i < |g| ==> IsLabelChar(g[i]) || g[i] == '.')
    && (forall i :: 0 <= i < |g| - 1 ==> !(g[i] == '.' && g[i + 1] == '.'))
  }

  lemma GroupsDotted(g: string)
    ensures Groups(g) <==> DottedOk(g)
  {
    if Groups(g) {
      GroupsAreDotted(g);
    }
    if DottedOk(g) {
      DottedAreGroups(g);
    }
  }

  lemma {:induction false} GroupsAreDotted(g: string)
    requires Groups(g)
    ensures DottedOk(g)
    decreases |g|
  {
    var k :| 0 < k < |g| && g[k] == '.' && LabelOk(g[..k]) && (k == |g| - 1 || Groups(g[k + 1..]));
    assert forall i :: 0 <= i < k ==> g[i] == g[..k][i];
    if k < |g| - 1 {
      var rest := g[k + 1..];
      GroupsAreDotted(rest);
      assert forall i :: k < i < |g| ==> g[i] == rest[i - k - 1];
    }
  }

  lemma {:induction false} DottedAreGroups(g: string)
    requires DottedOk(g)
    ensures Groups(g)
    decreases |g|
  {
    var k := IndexOf(g, '.');
    assert LabelOk(g[..k]) by {
      assert forall i :: 0 <= i < k ==> g[..k][i] == g[i];
    }
    if k < |g| - 1 {
      var rest := g[k + 1..];
      assert forall i :: 0 <= i < |rest| ==> rest[i] == g[i + k + 1];
      assert DottedOk(rest);
      DottedAreGroups(rest);
    }
  }

  /** `[a-zA-Z]{2,}` */
  predicate TldOk(t: string) {
    |t| >= 2 && forall i :: 0 <= i < |t| ==> IsAsciiLetter(t[i])
  }

  /** The admin-form pattern read as written:
      `^[a-zA-Z0-9._%+-]+@(?:[a-zA-Z0-9-]+\.)+[a-zA-Z]{2,}$`. */
  ghost predicate AdminEmailMatches(s: string) {
    exists i, j :: 0 < i < j < |s| && s[i] == '@' && LocalPartOk(s[..i]) && Groups(s[i + 1..j]) && TldOk(s[j..])
  }

  /** The admin-form e-mail check: the split is at the first `@` and just
      after the last dot. */
  function AdminEmailOk(s: string): (r: bool)
    ensures r <==> AdminEmailMatches(s)
  {
    AdminEmailSplit(s);
    AdminSplitOk(s)
  }

  /** The scan behind `AdminEmailOk`. */
  predicate AdminSplitOk(s: string) {
    var i := IndexOf(s, '@');
    var j := LastIndexOf(s, '.') + 1;
    0 < i && i + 1 < j && LocalPartOk(s[..i]) && DottedOk(s[i + 1..j]) && TldOk(s[j..])
  }

  lemma AdminEmailSplit(s: string)
    ensures AdminSplitOk(s) <==> AdminEmailMatches(s)
  {
    if AdminSplitOk(s) {
      var i := IndexOf(s, '@');
      var j := LastIndexOf(s, '.') + 1;
      GroupsDotted(s[i + 1..j]);
      assert 0 < i < j < |s| && s[i] == '@' && LocalPartOk(s[..i]) && Groups(s[i + 1..j]) && TldOk(s[j..]);
    }
    if AdminEmailMatches(s) {
      var a, b :| 0 < a < b < |s| && s[a] == '@' && LocalPartOk(s[..a]) && Groups(s[a + 1..b]) && TldOk(s[b..]);
      AdminEmailWitness(s, a, b);
    }
  }

  /** Any split the pattern can choose is the one the scan takes. */
  lemma AdminEmailWitness(s: string, a: int, b: int)
    requires 0 < a < b < |s| && s[a] == '@' && LocalPartOk(s[..a]) && Groups(s[a + 1..b]) && TldOk(s[b..])
    ensures AdminSplitOk(s)
  {
    FirstAt(s, a, IndexOf(s, '@'));
    GroupsDotted(s[a + 1..b]);
    assert s[b - 1] == s[a + 1..b][b - a - 2] == '.';
    assert forall k :: b <= k < |s| ==> s[k] == s[b..][k - b];
    assert LastIndexOf(s, '.') + 1 == b;
  }

  // ---------------------------------------------------------------------
  // Passwords

  /** `[!@#$%^&*]` */
  predicate IsSpecial(c: char) {
    c == '!' || c == '@' || c == '#' || c == '$' || c == '%' || c == '^' || c == '&' || c == '*'
  }

  predicate IsPasswordChar(c: char) {
    IsAsciiLetter(c) || IsAsciiDigit(c) || IsSpecial(c)
  }

  /** `/^(?=.*[A-Z])(?=.*\d)(?=.*[!@#$%^&*])[A-Za-z\d!@#$%^&*]{8,}$/`: at
      least eight characters, all from the allowed set, among them an
      uppercase letter, a digit and a special character. The look-aheads'
      `.` cannot skip a line terminator, but none can occur in a string the
      main class accepts. */
  predicate PasswordOk(s: string) {
    && |s| >= 8
    && (forall i :: 0 <= i < |s| ==> IsPasswordChar(s[i]))
    && (exists i :: 0 <= i < |s| && IsAsciiUpper(s[i]))
    && (exists i :: 0 <= i < |s| && IsAsciiDigit(s[i]))
    && (exists i :: 0 <= i < |s| && IsSpecial(s[i]))
  }

  /** What the rule lets through. */
  lemma PasswordAccepted()
    ensures PasswordOk("Neural@2024")
  {
    var p := "Neural@2024";
    assert IsAsciiUpper(p[0]) && IsSpecial(p[6]) && IsAsciiDigit(p[7]);
  }

  /** What it stops: no uppercase letter, no special character, fewer than
      eight characters, a character outside the allowed set. */
  lemma PasswordRejected()
    ensures !PasswordOk("neural@2024")
    ensures !PasswordOk("Neural2024")
    ensures !PasswordOk("Ne@2024")
    ensures !PasswordOk("Neural @2024")
  {
    var p := "neural@2024";
    assert forall i :: 0 <= i < |p| ==> !IsAsciiUpper(p[i]);
    var q := "Neural2024";
    assert forall i :: 0 <= i < |q| ==> !IsSpecial(q[i]);
    assert !IsPasswordChar("Neural @2024"[6]);
  }
}
