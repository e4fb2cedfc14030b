// String primitives the controllers rely on, with JavaScript's semantics:
// String.prototype.trim, String.prototype.length (UTF-16 code units) and
// the global parseInt with no radix argument.

module Text {
  import opened Wrappers

  /** The characters trim and parseInt skip: ECMAScript WhiteSpace and
      LineTerminator code points. */
  predicate IsJsWhitespace(c: char)
  {
    c == '\t' || c == '\n' || c == '\U{000B}' || c == '\U{000C}' || c == '\r' || c == ' '
    || c == '\U{00A0}' || c == '\U{1680}' || ('\U{2000}' <= c <= '\U{200A}')
    || c == '\U{2028}' || c == '\U{2029}' || c == '\U{202F}' || c == '\U{205F}'
    || c == '\U{3000}' || c == '\U{FEFF}'
  }

  predicate AllWhitespace(s: string)
  {
    forall i :: 0 <= i < |s| ==> IsJsWhitespace(s[i])
  }

  /** Drops the longest whitespace prefix: r is the suffix of s that starts
      at the first non-whitespace character. */
  function TrimStart(s: string): (r: string)
    ensures |r| <= |s| && r == s[|s| - |r|..]
    ensures AllWhitespace(s[..|s| - |r|])
    ensures r != [] ==> !IsJsWhitespace(r[0])
  {
    if s != [] && IsJsWhitespace(s[0]) then
      var r := TrimStart(s[1..]);
      var k := |s| - |r|;
      assert AllWhitespace(s[..k]) by {
        forall i | 0 <= i < k
          ensures IsJsWhitespace(s[..k][i])
        {
          if i > 0 {
            assert s[..k][i] == s[1..][..k - 1][i - 1];
          }
        }
      }
      r
    else s
  }

  /** Drops the longest whitespace suffix. */
  function TrimEnd(s: string): (r: string)
    ensures |r| <= |s| && r == s[..|r|]
    ensures AllWhitespace(s[|r|..])
    ensures r != [] ==> !IsJsWhitespace(r[|r| - 1])
  {
    if s != [] && IsJsWhitespace(s[|s| - 1]) then
      var r := TrimEnd(s[..|s| - 1]);
      assert AllWhitespace(s[|r|..]) by {
        forall i | 0 <= i < |s| - |r|
          ensures IsJsWhitespace(s[|r|..][i])
        {
          if i < |s| - 1 - |r| {
            assert s[|r|..][i] == s[..|s| - 1][|r|..][i];
          }
        }
      }
      r
    else s
  }

  /** String.prototype.trim. */
  function Trim(s: string): (r: string)
  {
    TrimEnd(TrimStart(s))
  }

  /** trim returns a contiguous piece of its input, with only whitespace cut
      away on either side and no whitespace left at either end. */
  lemma TrimIsInnerSlice(s: string)
    ensures exists i, j ::
      0 <= i <= j <= |s| && Trim(s) == s[i..j] && AllWhitespace(s[..i]) && AllWhitespace(s[j..])
    ensures Trim(s) != [] ==> !IsJsWhitespace(Trim(s)[0]) && !IsJsWhitespace(Trim(s)[|Trim(s)| - 1])
  {
    var i, j := TrimCuts(s);
    if Trim(s) != [] {
      assert TrimStart(s)[0] == Trim(s)[0];
    }
  }

  /** The two cut points of trim. */
  lemma TrimCuts(s: string) returns (i: nat, j: nat)
    ensures i <= j <= |s| && Trim(s) == s[i..j]
    ensures AllWhitespace(s[..i]) && AllWhitespace(s[j..])
  {
    var t := TrimStart(s);
    var u := TrimEnd(t);
    i, j := |s| - |t|, |s| - |t| + |u|;
    SliceOfSuffix(s, i, |u|);
  }

  lemma SliceOfSuffix<T>(s: seq<T>, i: nat, m: nat)
    requires i + m <= |s|
    ensures s[i..][..m] == s[i..i + m] && s[i..][m..] == s[i + m..]
  {
  }

  /** Content is blank (trims to nothing) exactly when every character is
      whitespace. */
  lemma TrimEmptyIffBlank(s: string)
    ensures Trim(s) == [] <==> AllWhitespace(s)
  {
    var t := TrimStart(s);
    var k := |s| - |t|;
    if Trim(s) == [] {
      assert t[0..] == t;
      assert t == [];
      assert s[..k] == s;
    }
    assert t != [] ==> t[0] == s[k];
  }

  /** Trimming twice changes nothing more. */
  lemma TrimIdempotent(s: string)
    ensures Trim(Trim(s)) == Trim(s)
  {
    var r := Trim(s);
    if r != [] {
      assert TrimStart(r) == r;
      assert TrimEnd(r) == r;
    }
  }

  /** String.prototype.length: code points above U+FFFF take two UTF-16
      code units. */
  function Utf16Length(s: string): (n: nat)
    ensures |s| <= n <= 2 * |s|
  {
    if s == [] then 0
    else Utf16Length(s[..|s| - 1]) + (if s[|s| - 1] as int > 0xFFFF then 2 else 1)
  }

  /** Appending one character adds one code unit, or two for a character
      above U+FFFF (a surrogate pair). */
  lemma Utf16LengthAppend(s: string, c: char)
    ensures Utf16Length(s + [c]) == Utf16Length(s) + (if c as int > 0xFFFF then 2 else 1)
  {
    assert (s + [c])[..|s|] == s;
  }

  /** The code-unit count of a concatenation is the sum of the counts. */
  lemma {:induction false} Utf16LengthConcat(s: string, t: string)
    ensures Utf16Length(s + t) == Utf16Length(s) + Utf16Length(t)
  {
    if t != [] {
      var init := t[..|t| - 1];
      var c := t[|t| - 1];
      assert t == init + [c];
      assert s + t == (s + init) + [c];
      Utf16LengthConcat(s, init);
      Utf16LengthAppend(s + init, c);
      Utf16LengthAppend(init, c);
    } else {
      assert s + t == s;
    }
  }

  lemma {:induction false} Utf16LengthOfBmp(s: string)
    requires forall i :: 0 <= i < |s| ==> s[i] as int <= 0xFFFF
    ensures Utf16Length(s) == |s|
  {
    if s != [] {
      Utf16LengthOfBmp(s[..|s| - 1]);
    }
  }

  // ---------------------------------------------------------------------
  // parseInt
  // ---------------------------------------------------------------------

  /** The value of c as a digit in the given radix (10 or 16), if it is one. */
  function DigitValue(c: char, radix: nat): (d: Option<nat>)
    requires radix == 10 || radix == 16
    ensures d.Some? ==> d.value < radix
  {
    if '0' <= c <= '9' then Some(c as nat - '0' as nat)
    else if radix == 16 && 'a' <= c <= 'f' then Some(c as nat - 'a' as nat + 10)
    else if radix == 16 && 'A' <= c <= 'F' then Some(c as nat - 'A' as nat + 10)
    else None
  }

  predicate IsDigit(c: char, radix: nat)
    requires radix == 10 || radix == 16
  {
    DigitValue(c, radix).Some?
  }

  /** Length of the longest prefix of s made of radix digits. */
  function DigitRun(s: string, radix: nat): (n: nat)
    requires radix == 10 || radix == 16
    ensures n <= |s|
    ensures forall i :: 0 <= i < n ==> IsDigit(s[i], radix)
    ensures n < |s| ==> !IsDigit(s[n], radix)
  {
    if s != [] && IsDigit(s[0], radix) then 1 + DigitRun(s[1..], radix) else 0
  }

  /** Value of a string of digits, most significant first. */
  function DigitsValue(ds: string, radix: nat): nat
    requires radix == 10 || radix == 16
    requires forall i :: 0 <= i < |ds| ==> IsDigit(ds[i], radix)
  {
    if ds == [] then 0
    else
      var last := ds[|ds| - 1];
      assert IsDigit(last, radix);
      DigitsValue(ds[..|ds| - 1], radix) * radix + DigitValue(last, radix).value
  }

  /** The unsigned part of parseInt: a "0x"/"0X" prefix selects radix 16,
      then the longest digit run is read; no digit at all is NaN (None). */
  function ParseMagnitude(s: string): (r: Option<nat>)
  {
    var hex := |s| >= 2 && s[0] == '0' && (s[1] == 'x' || s[1] == 'X');
    var radix := if hex then 16 else 10;
    var body := if hex then s[2..] else s;
    var n := DigitRun(body, radix);
    if n == 0 then None else Some(DigitsValue(body[..n], radix))
  }

  /** parseInt(s) with no radix: leading whitespace is skipped, one sign is
      read, and None stands for NaN. */
  function ParseInt(s: string): (r: Option<int>)
  {
    var t := TrimStart(s);
    var negative := t != [] && t[0] == '-';
    var unsigned := if t != [] && (t[0] == '-' || t[0] == '+') then t[1..] else t;
    match ParseMagnitude(unsigned)
    case None => None
    case Some(m) => Some(if negative then -(m as int) else m as int)
  }

  /** Decimal digits of n, without leading zeros. */
  function NatToString(n: nat): (s: string)
    ensures s != [] && forall i :: 0 <= i < |s| ==> '0' <= s[i] <= '9'
    decreases n
  {
    var last := [('0' as int + n % 10) as char];
    if n < 10 then last else NatToString(n / 10) + last
  }

  lemma {:induction false} DigitsValueOfNatToString(n: nat)
    ensures forall i :: 0 <= i < |NatToString(n)| ==> IsDigit(NatToString(n)[i], 10)
    ensures DigitsValue(NatToString(n), 10) == n
    decreases n
  {
    var s := NatToString(n);
    if n >= 10 {
      DigitsValueOfNatToString(n / 10);
      assert s[..|s| - 1] == NatToString(n / 10);
    }
  }

  lemma DigitRunAll(s: string, radix: nat)
    requires radix == 10 || radix == 16
    requires forall i :: 0 <= i < |s| ==> IsDigit(s[i], radix)
    ensures DigitRun(s, radix) == |s|
  {
  }

  /** parseInt reads back the decimal rendering of any natural number. */
  lemma ParseIntOfNatToString(n: nat)
    ensures ParseInt(NatToString(n)) == Some(n)
  {
    var s := NatToString(n);
    assert '0' <= s[0] <= '9';
    ParseIntOfUnsigned(s);
    MagnitudeOfNatToString(n);
  }

  /** Text that starts with neither whitespace nor a sign is read by
      ParseMagnitude alone. */
  lemma ParseIntOfUnsigned(s: string)
    requires s != [] && !IsJsWhitespace(s[0]) && s[0] != '-' && s[0] != '+'
    ensures ParseInt(s) == match ParseMagnitude(s) case None => None case Some(m) => Some(m as int)
  {
    assert TrimStart(s) == s;
  }

  lemma MagnitudeOfNatToString(n: nat)
    ensures ParseMagnitude(NatToString(n)) == Some(n)
  {
    var s := NatToString(n);
    DigitsValueOfNatToString(n);
    assert !(|s| >= 2 && s[1] == 'x') && !(|s| >= 2 && s[1] == 'X') by {
      if |s| >= 2 {
        assert '0' <= s[1] <= '9';
      }
    }
    MagnitudeOfDecimal(s);
  }

  lemma MagnitudeOfDecimal(s: string)
    requires s != [] && forall i :: 0 <= i < |s| ==> IsDigit(s[i], 10)
    requires !(|s| >= 2 && s[1] == 'x') && !(|s| >= 2 && s[1] == 'X')
    ensures ParseMagnitude(s) == Some(DigitsValue(s, 10))
  {
    DigitRunAll(s, 10);
    assert s[..|s|] == s;
  }

  /** Text with no digit where parseInt looks for one is NaN. */
  lemma ParseIntNoDigits(s: string)
    requires forall i :: 0 <= i < |s| ==> !('0' <= s[i] <= '9')
    ensures ParseInt(s) == None
  {
    var t := TrimStart(s);
    var signed := t != [] && (t[0] == '-' || t[0] == '+');
    var u := if signed then t[1..] else t;
    var k := |s| - |t| + (if signed then 1 else 0);
    assert u == s[k..];
    if u != [] {
      assert u[0] == s[k];
      assert DigitRun(u, 10) == 0;
    }
    assert ParseMagnitude(u) == None;
  }
}
