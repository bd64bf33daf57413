/**
 * The string helpers of the monitor: the prefix test built on strncmp, the
 * "directory name is a process id" filter built on isdigit, and atoi applied
 * to such a name.
 *
 * A C string is modelled as a `string` whose end plays the part of the NUL
 * terminator; reading past the end yields the terminator's code 0.
 */
module CStrings {

  /** A C string holds no NUL character: the terminator is the end of the sequence. */
  predicate CString(s: string) {
    forall i :: 0 <= i < |s| ==> s[i] != '\0'
  }

  /** The code of the first character, or 0 (the terminator) for the empty string. */
  function Head(s: string): int {
    if s == [] then 0 else s[0] as int
  }

  /**
   * strncmp: compares at most `n` characters, stopping at the first
   * difference or at the terminator; the sign of the result orders `a` and `b`.
   */
  function StrNCmp(a: string, b: string, n: nat): int
    decreases n
  {
    if n == 0 then 0
    else if Head(a) != Head(b) then Head(a) - Head(b)
    else if Head(a) == 0 then 0
    else StrNCmp(a[1..], b[1..], n - 1)
  }

  /** strncmp over the whole length of a NUL-free prefix is 0 exactly when `s` begins with it. */
  lemma {:induction false} StrNCmpIsPrefixTest(prefix: string, s: string)
    requires CString(prefix)
    ensures StrNCmp(prefix, s, |prefix|) == 0 <==> |prefix| <= |s| && s[..|prefix|] == prefix
  {
    if prefix != [] {
      assert Head(prefix) != 0;
      if s != [] && s[0] == prefix[0] {
        assert CString(prefix[1..]);
        StrNCmpIsPrefixTest(prefix[1..], s[1..]);
        if |prefix| <= |s| {
          assert s[..|prefix|] == [s[0]] + s[1..][..|prefix| - 1];
          assert prefix == [prefix[0]] + prefix[1..];
        }
      } else if s != [] && |prefix| <= |s| {
        assert s[..|prefix|][0] != prefix[0];
      }
    }
  }

  /**
   * starts_with(prefix, s): the first |prefix| characters of `s` are `prefix`;
   * a string shorter than the prefix never matches. The source computes it as
   * strncmp(prefix, s, strlen(prefix)) == 0, which StrNCmpIsPrefixTest shows
   * to be the same test for every NUL-free prefix.
   */
  predicate StartsWith(prefix: string, s: string) {
    |prefix| <= |s| && s[..|prefix|] == prefix
  }

  /** isdigit in the C locale. */
  predicate IsDigit(c: char) {
    '0' <= c <= '9'
  }

  /** Every character is a decimal digit (vacuously true of the empty name). */
  predicate AllDigits(s: string) {
    forall i :: 0 <= i < |s| ==> IsDigit(s[i])
  }

  /**
   * is_process_dir: scans the entry name and gives up at the first character
   * that is not a decimal digit.
   */
  method IsProcessDir(name: string) returns (r: bool)
    ensures r <==> AllDigits(name)
  {
    for i := 0 to |name|
      invariant forall k :: 0 <= k < i ==> IsDigit(name[k])
    {
      if !IsDigit(name[i]) {
        return false;
      }
    }
    return true;
  }

  /** The registry's control entries are not process directories. */
  lemma ControlEntriesRejected()
    ensures !AllDigits(".") && !AllDigits("..") && !AllDigits("self")
  {
    assert !IsDigit("."[0]);
    assert !IsDigit(".."[0]);
    assert !IsDigit("self"[0]);
  }

  /** The value of one decimal digit. */
  function DigitValue(c: char): (d: nat)
    requires IsDigit(c)
    ensures d < 10
  {
    c as int - '0' as int
  }

  /** The digit character for a value below ten. */
  function DigitChar(d: nat): (c: char)
    requires d < 10
    ensures IsDigit(c) && DigitValue(c) == d
  {
    ('0' as int + d) as char
  }

  /**
   * atoi applied to a name made only of digits: its decimal value, the
   * leftmost digit most significant (the empty name reads as 0). A name
   * without a leading zero is the decimal spelling of the value it reads as,
   * so two such names give the same pid only if they are the same name.
   */
  function DecimalValue(s: string): (v: nat)
    requires AllDigits(s)
    ensures |s| > 0 && s[0] != '0' ==> v > 0
    ensures |s| > 0 && (s[0] != '0' || |s| == 1) ==> DecimalString(v) == s
  {
    if s == [] then 0
    else
      var init := s[..|s| - 1];
      var v := DecimalValue(init) * 10 + DigitValue(s[|s| - 1]);
      assert |s| > 1 ==> init[0] == s[0];
      assert DigitChar(DigitValue(s[|s| - 1])) == s[|s| - 1];
      assert |s| > 1 && s[0] != '0' ==> v / 10 == DecimalValue(init) && v % 10 == DigitValue(s[|s| - 1]);
      assert |s| > 1 ==> s == init + [s[|s| - 1]];
      v
  }

  /** The decimal spelling of `n` under which the kernel names a process directory. */
  function DecimalString(n: nat): (s: string)
    ensures AllDigits(s) && 1 <= |s|
    ensures s[0] == '0' ==> n == 0
  {
    if n < 10 then [DigitChar(n)]
    else DecimalString(n / 10) + [DigitChar(n % 10)]
  }

  /** Reading back the directory name of process `n` gives `n`. */
  lemma {:induction false} DecimalRoundTrip(n: nat)
    ensures DecimalValue(DecimalString(n)) == n
  {
    var s := DecimalString(n);
    if n >= 10 {
      assert s[..|s| - 1] == DecimalString(n / 10);
      DecimalRoundTrip(n / 10);
    }
  }
}
