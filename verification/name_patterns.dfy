/** The regular expressions the validators apply: the two letter classes
    (one with ñ, one with ü), the digits-only patterns and the e-mail shape
    `/^[A-Z0-9._%+-]+@[A-Z0-9.-]+\.[A-Z]{2,}$/i`. */
module NamePatterns {
  import opened JsString
  import opened Wrappers

  predicate IsAsciiLetter(c: char) {
    'a' <= c <= 'z' || 'A' <= c <= 'Z'
  }

  /** `[a-zA-ZáéíóúÁÉÍÓÚñÑ\s]`, used for products and suppliers. */
  predicate InEnyeClass(c: char) {
    IsAsciiLetter(c) || c in "áéíóúÁÉÍÓÚñÑ" || IsSpace(c)
  }

  /** `[a-zA-ZáéíóúüÁÉÍÓÚÜ\s]`, used for supplies and supply categories. */
  predicate InUmlautClass(c: char) {
    IsAsciiLetter(c) || c in "áéíóúüÁÉÍÓÚÜ" || IsSpace(c)
  }

  /** `/^[cls]{min,}$/.test(s)` (with `min == 1` for `+`). */
  predicate RepeatAtLeast(s: string, cls: char -> bool, min: nat) {
    |s| >= min && forall i :: 0 <= i < |s| ==> cls(s[i])
  }

  /** No digit belongs to either letter class, so a name such as "Harina2"
      fails every letters-only rule. */
  lemma DigitInNoLetterClass(s: string, i: int)
    requires 0 <= i < |s| && IsDigit(s[i])
    ensures !RepeatAtLeast(s, InEnyeClass, 1) && !RepeatAtLeast(s, InUmlautClass, 1)
  {
    assert !InEnyeClass(s[i]) && !InUmlautClass(s[i]);
  }

  /** The supply screens' name rule: `!x.trim()` reports `required`, then
      `!/^[cls]+$/.test(x)` on the untrimmed text reports `letters`. A name
      passes exactly when it is not blank and every character is in the
      class. */
  function BlankThenClassError(s: string, cls: char -> bool, required: string, letters: string): (r: Option<string>)
    ensures r.None? <==> !AllSpaces(s) && RepeatAtLeast(s, cls, 1)
    ensures AllSpaces(s) ==> r == Some(required)
    ensures !AllSpaces(s) && r.Some? ==> r == Some(letters)
  {
    TrimEmptyIffAllSpaces(s);
    if Trim(s) == "" then Some(required)
    else if !RepeatAtLeast(s, cls, 1) then Some(letters)
    else None
  }

  /** The two classes differ: ñ is only in the first, ü only in the second. */
  lemma ClassesDiffer()
    ensures InEnyeClass('ñ') && !InUmlautClass('ñ')
    ensures InUmlautClass('ü') && !InEnyeClass('ü')
  {
  }

  // The e-mail pattern. The `i` flag makes the letter ranges match both
  // cases; characters beyond ASCII never match them.

  predicate IsLocalChar(c: char) {
    IsAsciiLetter(c) || IsDigit(c) || c in "._%+-"
  }

  predicate IsDomainChar(c: char) {
    IsAsciiLetter(c) || IsDigit(c) || c in ".-"
  }

  /** `s` splits as local-part '@' domain '.' top-level-domain with the '@'
      at `at` and the final '.' at `dot`. */
  predicate EmailSplitAt(s: string, at: int, dot: int) {
    && 1 <= at && at + 2 <= dot && dot + 3 <= |s|
    && s[at] == '@' && s[dot] == '.'
    && (forall k :: 0 <= k < at ==> IsLocalChar(s[k]))
    && (forall k :: at < k < dot ==> IsDomainChar(s[k]))
    && (forall k :: dot < k < |s| ==> IsAsciiLetter(s[k]))
  }

  /** What the regular expression accepts: SOME split point for '@' and '.'
      makes every part fit its class. */
  ghost predicate EmailRegexAccepts(s: string) {
    exists at, dot :: EmailSplitAt(s, at, dot)
  }

  predicate NotAt(c: char) {
    c != '@'
  }

  /** The index of the last '.', or -1. */
  function LastDot(s: string): (k: int)
    ensures -1 <= k < |s|
    ensures 0 <= k ==> s[k] == '.'
    ensures forall j :: k < j < |s| ==> s[j] != '.'
  {
    if s == "" then -1
    else if s[|s| - 1] == '.' then |s| - 1
    else LastDot(s[..|s| - 1])
  }

  /** A matcher that tries one split only: the first '@' and the last '.'. */
  predicate IsEmail(s: string) {
    var at := FirstFailing(s, NotAt);
    EmailSplitAt(s, at, LastDot(s))
  }

  /** Trying the first '@' and the last '.' loses nothing: the regular
      expression accepts a string exactly when that one split fits, because
      no part but the separator may hold '@' and the top-level domain holds
      no '.'. */
  lemma IsEmailIffRegexAccepts(s: string)
    ensures IsEmail(s) <==> EmailRegexAccepts(s)
  {
    if EmailRegexAccepts(s) {
      var at, dot :| EmailSplitAt(s, at, dot);
      assert forall k :: 0 <= k < at ==> NotAt(s[k]);
      assert FirstFailing(s, NotAt) == at;
      assert LastDot(s) == dot;
    }
  }
}
