/**
 * PasswordPolicy.isValid: at least 8 UTF-16 units, one upper-case letter
 * A-Z, one digit 0-9 and one special character, each tested with
 * `String.matches(".*[...].*")`.
 *
 * `matches` must consume the whole string and a regex `.` accepts every
 * code point except a line terminator, so each test is modelled by a
 * matcher that follows the regex literally (`MatchesAround`); the lemma
 * `MatchesAroundSpec` turns it into "no line terminator and some character
 * of the class".
 */
module PasswordPolicy {
  import opened Domain

  const MinLength: nat := 8

  /** The characters a Java regex `.` refuses (no DOTALL, no UNIX_LINES). */
  predicate IsLineTerminator(c: char)
  {
    c == '\n' || c == '\r' || c == '\U{0085}' || c == '\U{2028}' || c == '\U{2029}'
  }

  datatype CharClass = Upper | Digit | Special

  /** `[A-Z]`, `[0-9]` and `[!@#$%^&*(),.?":{}|<>]` (inside a class `^`, `&`, `.`, `{`, `}` and `|` are literal). */
  predicate InClass(c: char, k: CharClass)
  {
    match k
    case Upper => 'A' <= c <= 'Z'
    case Digit => '0' <= c <= '9'
    case Special => c in "!@#$%^&*(),.?\":{}|<>"
  }

  /** `s` matches `.*` */
  predicate DotStar(s: string)
  {
    forall i :: 0 <= i < |s| ==> !IsLineTerminator(s[i])
  }

  /** `s` matches `.*[k].*`: either the class consumes the first character and `.*` the rest, or the leading `.*` consumes it. */
  predicate MatchesAround(s: string, k: CharClass)
    decreases |s|
  {
    |s| > 0 &&
    ((InClass(s[0], k) && DotStar(s[1..])) ||
     (!IsLineTerminator(s[0]) && MatchesAround(s[1..], k)))
  }

  predicate ContainsClass(s: string, k: CharClass)
  {
    exists i :: 0 <= i < |s| && InClass(s[i], k)
  }

  /** `String.length()`: code points above U+FFFF take two UTF-16 units. */
  function Utf16Length(s: string): (n: nat)
    ensures n >= |s|
  {
    if s == [] then 0
    else (if s[0] as int >= 0x10000 then 2 else 1) + Utf16Length(s[1..])
  }

  lemma {:induction false} MatchesAroundSpec(s: string, k: CharClass)
    ensures MatchesAround(s, k) <==> DotStar(s) && ContainsClass(s, k)
    decreases |s|
  {
    if |s| > 0 {
      MatchesAroundSpec(s[1..], k);
      if DotStar(s) && ContainsClass(s, k) {
        var i :| 0 <= i < |s| && InClass(s[i], k);
        if i > 0 && !InClass(s[0], k) {
          assert InClass(s[1..][i - 1], k);
        }
      }
      if MatchesAround(s, k) {
        if InClass(s[0], k) && DotStar(s[1..]) {
          assert forall j :: 1 <= j < |s| ==> s[j] == s[1..][j - 1];
        } else {
          var j :| 0 <= j < |s[1..]| && InClass(s[1..][j], k);
          assert InClass(s[j + 1], k);
          assert forall m :: 1 <= m < |s| ==> s[m] == s[1..][m - 1];
        }
      }
    }
  }

  /** isValid(pw); `None` stands for a null argument. */
  function IsValid(pw: Option<string>): (ok: bool)
    ensures ok <==>
      pw.Some? && Utf16Length(pw.value) >= MinLength && DotStar(pw.value) &&
      ContainsClass(pw.value, Upper) && ContainsClass(pw.value, Digit) &&
      ContainsClass(pw.value, Special)
  {
    if pw.None? then false
    else
      var s := pw.value;
      MatchesAroundSpec(s, Upper);
      MatchesAroundSpec(s, Digit);
      MatchesAroundSpec(s, Special);
      if Utf16Length(s) < MinLength then false
      else if !MatchesAround(s, Upper) then false
      else if !MatchesAround(s, Digit) then false
      else if !MatchesAround(s, Special) then false
      else true
  }

  /** Outside the supplementary planes, `length()` is the number of characters. */
  lemma {:induction false} Utf16LengthBmp(s: string)
    requires forall i :: 0 <= i < |s| ==> s[i] as int < 0x10000
    ensures Utf16Length(s) == |s|
    decreases |s|
  {
    if s != [] {
      assert forall i :: 0 <= i < |s[1..]| ==> s[1..][i] == s[i + 1];
      Utf16LengthBmp(s[1..]);
    }
  }

  /** A line terminator anywhere defeats every `.*` around the class, so the password is refused. */
  lemma LineTerminatorRejected(s: string, i: nat)
    requires i < |s| && IsLineTerminator(s[i])
    ensures !IsValid(Some(s))
  {
  }

  /** Every character class is needed: removing its last witness flips the verdict. */
  lemma EachClassRequired(s: string, k: CharClass)
    requires !ContainsClass(s, k)
    ensures !IsValid(Some(s))
  {
    match k
    case Upper =>
    case Digit =>
    case Special =>
  }

  /** A password that would pass but for its trailing newline is refused. */
  lemma NewlineExample()
    ensures !IsValid(Some("Passw0rd!\n"))
  {
    LineTerminatorRejected("Passw0rd!\n", 9);
  }
}
