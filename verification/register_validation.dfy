/**
 * The registration body's rules: an email that is non-empty and passes the
 * email-format check (the `isEmail` parameter), a username of at least 3
 * characters drawn from `[a-zA-Z0-9_]`, and a password of at least 8
 * characters that the pattern `^(?=.*[a-z])(?=.*[A-Z])(?=.*\d)` accepts.
 *
 * A Dafny `char` is a Unicode scalar value. The patterns (no `u` flag) step
 * through UTF-16 code units, but every character class they test and every
 * line terminator lies below U+FFFF, and no half of a surrogate pair is in
 * any of them, so a scan over scalar values gives the same answer. The
 * length rules count a surrogate pair once, as a count of scalar values
 * does. In each lookahead `.` does not match a line terminator, so the
 * lowercase letter, the uppercase letter and the digit must all occur before
 * the first line break.
 */
module RegisterValidation {
  import opened MatchTypes

  datatype RegisterBody = RegisterBody(email: string, username: string, password: string)

  const MinUsernameLength: nat := 3
  const MinPasswordLength: nat := 8

  datatype Violation =
    | EmailInvalid
    | EmailEmpty
    | UsernameEmpty
    | UsernameTooShort
    | UsernameBadCharacters
    | PasswordEmpty
    | PasswordTooShort
    | PasswordMissingClasses

  predicate IsLower(c: char) { 'a' <= c <= 'z' }
  predicate IsUpper(c: char) { 'A' <= c <= 'Z' }
  predicate IsDigit(c: char) { '0' <= c <= '9' }
  predicate IsWordChar(c: char) { IsLower(c) || IsUpper(c) || IsDigit(c) || c == '_' }

  /** The characters `.` does not match: LF, CR, LS and PS. */
  predicate IsLineTerminator(c: char) {
    c == '\n' || c == '\r' || c == '\U{2028}' || c == '\U{2029}'
  }

  /** `^[a-zA-Z0-9_]+$`, read left to right. */
  function MatchesWordRun(s: string): (b: bool)
    ensures b <==> |s| > 0 && forall i :: 0 <= i < |s| ==> IsWordChar(s[i])
  {
    |s| > 0 && AllWordChars(s)
  }

  function AllWordChars(s: string): (b: bool)
    ensures b <==> forall i :: 0 <= i < |s| ==> IsWordChar(s[i])
  {
    if |s| == 0 then true
    else IsWordChar(s[0]) && AllWordChars(s[1..])
  }

  /**
   * `(?=.*[C])` at the start: some character of class C is reached by
   * skipping only characters that are not line terminators.
   */
  ghost predicate LookaheadFinds(s: string, cls: char -> bool) {
    exists i :: 0 <= i < |s| && cls(s[i]) && forall k :: 0 <= k < i ==> !IsLineTerminator(s[k])
  }

  /** The lookahead as a scan: stop at the first line terminator. */
  function ScanFor(s: string, cls: char -> bool): bool {
    if |s| == 0 then false
    else if cls(s[0]) then true
    else if IsLineTerminator(s[0]) then false
    else ScanFor(s[1..], cls)
  }

  lemma {:induction false} ScanForFinds(s: string, cls: char -> bool)
    ensures ScanFor(s, cls) <==> LookaheadFinds(s, cls)
  {
    if |s| == 0 {
    } else if cls(s[0]) {
      assert LookaheadFinds(s, cls) by {
        assert cls(s[0]);
      }
    } else if IsLineTerminator(s[0]) {
    } else {
      ScanForFinds(s[1..], cls);
      if LookaheadFinds(s, cls) {
        var i :| 0 <= i < |s| && cls(s[i]) && forall k :: 0 <= k < i ==> !IsLineTerminator(s[k]);
        assert i > 0;
        assert cls(s[1..][i - 1]) && forall k :: 0 <= k < i - 1 ==> !IsLineTerminator(s[1..][k]) by {
          forall k | 0 <= k < i - 1 ensures !IsLineTerminator(s[1..][k]) {
            assert s[1..][k] == s[k + 1];
          }
        }
      }
      if LookaheadFinds(s[1..], cls) {
        var i :| 0 <= i < |s[1..]| && cls(s[1..][i]) && forall k :: 0 <= k < i ==> !IsLineTerminator(s[1..][k]);
        assert cls(s[i + 1]) && forall k :: 0 <= k < i + 1 ==> !IsLineTerminator(s[k]) by {
          forall k | 0 <= k < i + 1 ensures !IsLineTerminator(s[k]) {
            if k > 0 {
              assert s[k] == s[1..][k - 1];
            }
          }
        }
      }
    }
  }

  /** The characters before the first line terminator. */
  function FirstLine(s: string): (r: string)
    ensures |r| <= |s| && r == s[..|r|]
    ensures forall k :: 0 <= k < |r| ==> !IsLineTerminator(r[k])
    ensures |r| < |s| ==> IsLineTerminator(s[|r|])
  {
    if |s| == 0 || IsLineTerminator(s[0]) then []
    else [s[0]] + FirstLine(s[1..])
  }

  /** The lookahead succeeds exactly when the class occurs in the first line. */
  lemma LookaheadIsFirstLine(s: string, cls: char -> bool)
    requires forall c :: cls(c) ==> !IsLineTerminator(c)
    ensures LookaheadFinds(s, cls) <==> exists i :: 0 <= i < |FirstLine(s)| && cls(FirstLine(s)[i])
  {
    var r := FirstLine(s);
    if LookaheadFinds(s, cls) {
      var i :| 0 <= i < |s| && cls(s[i]) && forall k :: 0 <= k < i ==> !IsLineTerminator(s[k]);
      assert i < |r|;
      assert cls(r[i]);
    }
  }

  predicate PasswordPatternOk(p: string) {
    ScanFor(p, IsLower) && ScanFor(p, IsUpper) && ScanFor(p, IsDigit)
  }

  predicate ValidUsername(u: string) {
    u != "" && |u| >= MinUsernameLength && MatchesWordRun(u)
  }

  predicate ValidPassword(p: string) {
    p != "" && |p| >= MinPasswordLength && PasswordPatternOk(p)
  }

  predicate ValidRegister(body: RegisterBody, isEmail: string -> bool) {
    isEmail(body.email) && body.email != "" && ValidUsername(body.username) && ValidPassword(body.password)
  }

  function Check(ok: bool, v: Violation): seq<Violation> {
    if ok then [] else [v]
  }

  /** Every failed decorator of the body, property by property; none exactly when the body is valid. */
  function RegisterViolations(body: RegisterBody, isEmail: string -> bool): (v: seq<Violation>)
    ensures v == [] <==> ValidRegister(body, isEmail)
    ensures EmailInvalid in v <==> !isEmail(body.email)
    ensures UsernameBadCharacters in v <==> !MatchesWordRun(body.username)
    ensures PasswordTooShort in v <==> |body.password| < MinPasswordLength
    ensures PasswordMissingClasses in v <==> !PasswordPatternOk(body.password)
  {
    Check(isEmail(body.email), EmailInvalid)
      + Check(body.email != "", EmailEmpty)
      + Check(body.username != "", UsernameEmpty)
      + Check(|body.username| >= MinUsernameLength, UsernameTooShort)
      + Check(MatchesWordRun(body.username), UsernameBadCharacters)
      + Check(body.password != "", PasswordEmpty)
      + Check(|body.password| >= MinPasswordLength, PasswordTooShort)
      + Check(PasswordPatternOk(body.password), PasswordMissingClasses)
  }

  /**
   * An accepted password has 8 or more characters and, within its first
   * line, a lowercase letter, an uppercase letter and a digit.
   */
  lemma {:induction false} ValidPasswordHasClasses(p: string)
    requires ValidPassword(p)
    ensures |p| >= MinPasswordLength
    ensures exists i :: 0 <= i < |FirstLine(p)| && IsLower(FirstLine(p)[i])
    ensures exists i :: 0 <= i < |FirstLine(p)| && IsUpper(FirstLine(p)[i])
    ensures exists i :: 0 <= i < |FirstLine(p)| && IsDigit(FirstLine(p)[i])
  {
    ScanForFinds(p, IsLower);
    ScanForFinds(p, IsUpper);
    ScanForFinds(p, IsDigit);
    LookaheadIsFirstLine(p, IsLower);
    LookaheadIsFirstLine(p, IsUpper);
    LookaheadIsFirstLine(p, IsDigit);
  }

  /** The empty username fails three rules at once; `IsNotEmpty` never fails alone. */
  lemma EmptyUsernameViolations(body: RegisterBody, isEmail: string -> bool)
    requires body.username == ""
    ensures var v := RegisterViolations(body, isEmail);
      UsernameEmpty in v && UsernameTooShort in v && UsernameBadCharacters in v
  {
  }

  /** The scan gives up at a line terminator met before any character of the class. */
  lemma {:induction false} ScanStopsAt(s: string, cls: char -> bool, k: nat)
    requires k < |s| && IsLineTerminator(s[k]) && !cls(s[k])
    requires forall j :: 0 <= j < k ==> !cls(s[j])
    ensures !ScanFor(s, cls)
  {
    if k > 0 && !IsLineTerminator(s[0]) {
      assert !cls(s[0]);
      ScanStopsAt(s[1..], cls, k - 1);
    }
  }

  /**
   * A password with every class, but the uppercase letter and the digit
   * after a line break, is refused.
   */
  lemma SecondLineDoesNotCount()
    ensures !ValidPassword("abcdefg\nA1")
  {
    var p := "abcdefg\nA1";
    ScanStopsAt(p, IsUpper, 7);
  }

  /** The same characters on one line are accepted. */
  lemma {:induction false} OneLineCounts()
    ensures ValidPassword("abcdefgA1")
  {
    var p := "abcdefgA1";
    assert forall k :: 0 <= k < 8 ==> !IsLineTerminator(p[k]);
    assert LookaheadFinds(p, IsLower) by {
      assert IsLower(p[0]);
    }
    assert LookaheadFinds(p, IsUpper) by {
      assert IsUpper(p[7]);
    }
    assert LookaheadFinds(p, IsDigit) by {
      assert IsDigit(p[8]);
    }
    ScanForFinds(p, IsLower);
    ScanForFinds(p, IsUpper);
    ScanForFinds(p, IsDigit);
  }
}
