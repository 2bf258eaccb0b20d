/**
 * The text primitives the programs rely on: String.Split and String.Join on one
 * separator character, Int32.ToString with and without a zero-padding format,
 * and Int32.Parse under the default integer number style.
 */
module Text {
  import opened Wrappers

  const INT32_MIN: int := -0x8000_0000
  const INT32_MAX: int := 0x7FFF_FFFF

  predicate IsInt32(n: int) { INT32_MIN <= n <= INT32_MAX }

  /** Unchecked Int32 arithmetic: the exact value brought into the Int32 range modulo 2^32. */
  function Wrap32(n: int): (w: int)
    ensures IsInt32(w) && (w - n) % 0x1_0000_0000 == 0
    ensures IsInt32(n) ==> w == n
  {
    (n - INT32_MIN) % 0x1_0000_0000 + INT32_MIN
  }

  predicate IsDigit(c: char) { '0' <= c <= '9' }

  predicate AllDigits(s: string) { forall i :: 0 <= i < |s| ==> IsDigit(s[i]) }

  /** White space that Int32.Parse skips around a number: space and U+0009 to U+000D. */
  predicate IsWhite(c: char) { c == ' ' || '\t' <= c <= '\r' }

  function DigitChar(d: nat): (c: char)
    requires d < 10
    ensures IsDigit(c)
  {
    ('0' as int + d) as char
  }

  function DigitValue(c: char): (d: nat)
    requires IsDigit(c)
    ensures d < 10 && DigitChar(d) == c
  {
    c as int - '0' as int
  }

  /** Decimal digits of n, most significant first, without leading zeros. */
  function NatDigits(n: nat): (s: string)
    ensures 1 <= |s| && AllDigits(s)
    ensures n < 10 <==> |s| == 1
    decreases n
  {
    if n < 10 then [DigitChar(n)] else NatDigits(n / 10) + [DigitChar(n % 10)]
  }

  /** The number a string of decimal digits denotes. */
  function DigitsValue(s: string): nat
    requires AllDigits(s)
    decreases |s|
  {
    if |s| == 0 then 0 else DigitsValue(s[..|s| - 1]) * 10 + DigitValue(s[|s| - 1])
  }

  function Zeros(k: int): (s: string)
    ensures |s| == if k < 0 then 0 else k
    ensures forall i :: 0 <= i < |s| ==> s[i] == '0'
    decreases k
  {
    if k <= 0 then "" else Zeros(k - 1) + "0"
  }

  /** Int32.ToString(): an optional minus sign followed by the decimal digits. */
  function IntToString(n: int): string
  {
    if n < 0 then "-" + NatDigits(-n) else NatDigits(n)
  }

  /**
   * Int32.ToString with a custom format of `width` zeros ("000000"): the digits
   * left-padded with zeros to at least `width`, after the sign of a negative number.
   */
  function Pad(n: int, width: nat): string
  {
    var digits := NatDigits(if n < 0 then -n else n);
    (if n < 0 then "-" else "") + Zeros(width - |digits|) + digits
  }

  function TrimStart(s: string): (t: string)
    ensures |t| <= |s| && t == s[|s| - |t|..]
    ensures |t| > 0 ==> !IsWhite(t[0])
    decreases |s|
  {
    if |s| > 0 && IsWhite(s[0]) then TrimStart(s[1..]) else s
  }

  function TrimEnd(s: string): (t: string)
    ensures |t| <= |s| && t == s[..|t|]
    ensures |t| > 0 ==> !IsWhite(t[|t| - 1])
    decreases |s|
  {
    if |s| > 0 && IsWhite(s[|s| - 1]) then TrimEnd(s[..|s| - 1]) else s
  }

  /** String.Trim: white space removed from both ends. */
  function Trim(s: string): string
    decreases |s|
  {
    if |s| > 0 && IsWhite(s[0]) then Trim(s[1..])
    else if |s| > 0 && IsWhite(s[|s| - 1]) then Trim(s[..|s| - 1])
    else s
  }

  /** Trim is TrimStart followed by TrimEnd: it keeps a slice of s with no white space at either end. */
  lemma {:induction false} TrimBothEnds(s: string)
    ensures Trim(s) == TrimEnd(TrimStart(s))
    decreases |s|
  {
    if |s| > 0 && IsWhite(s[0]) {
      TrimBothEnds(s[1..]);
    } else if |s| > 0 && IsWhite(s[|s| - 1]) {
      var u := s[..|s| - 1];
      TrimBothEnds(u);
      if |u| > 0 {
        assert u[0] == s[0];
      }
    }
  }

  /**
   * Int32.Parse(s) under NumberStyles.Integer: optional surrounding white space, an
   * optional '+' or '-' sign, then at least one decimal digit and nothing else.
   * A malformed string throws FormatException, a value outside Int32 OverflowException.
   */
  function ParseInt32(s: string): (r: Result<int>)
    ensures r.Ok? ==> IsInt32(r.value)
    ensures r.Err? ==> r.error == Format || r.error == Overflow
  {
    ParseSigned(TrimEnd(TrimStart(s)))
  }

  function ParseSigned(t: string): (r: Result<int>)
    ensures r.Ok? ==> IsInt32(r.value)
    ensures r.Err? ==> r.error == Format || r.error == Overflow
  {
    if |t| > 0 && t[0] == '-' then ParseDigits(t[1..], true)
    else if |t| > 0 && t[0] == '+' then ParseDigits(t[1..], false)
    else ParseDigits(t, false)
  }

  function ParseDigits(body: string, negative: bool): (r: Result<int>)
    ensures r.Ok? ==> IsInt32(r.value)
    ensures r.Err? ==> r.error == Format || r.error == Overflow
  {
    if |body| == 0 || !AllDigits(body) then Err(Format)
    else
      var v: int := if negative then -(DigitsValue(body) as int) else DigitsValue(body);
      if IsInt32(v) then Ok(v) else Err(Overflow)
  }

  function IndexOf(s: string, c: char): (i: nat)
    requires c in s
    ensures i < |s| && s[i] == c && c !in s[..i]
  {
    if s[0] == c then 0 else 1 + IndexOf(s[1..], c)
  }

  /**
   * String.Split(sep): the pieces between the separators, empty pieces included,
   * so a string holding k separators yields k + 1 pieces.
   */
  function Split(s: string, sep: char): (parts: seq<string>)
    ensures 1 <= |parts|
    ensures forall i :: 0 <= i < |parts| ==> sep !in parts[i]
    decreases |s|
  {
    if sep !in s then [s]
    else
      var i := IndexOf(s, sep);
      [s[..i]] + Split(s[i + 1..], sep)
  }

  /** String.Join(sep, parts): the parts with one separator between neighbours. */
  function Join(parts: seq<string>, sep: char): string
    decreases |parts|
  {
    if |parts| == 0 then "" else if |parts| == 1 then parts[0] else parts[0] + [sep] + Join(parts[1..], sep)
  }

  /** A character absent from every part and different from the separator is absent from the join. */
  lemma {:induction false} JoinKeepsOut(parts: seq<string>, sep: char, c: char)
    requires c != sep && forall i :: 0 <= i < |parts| ==> c !in parts[i]
    ensures c !in Join(parts, sep)
    decreases |parts|
  {
    if |parts| > 1 {
      JoinKeepsOut(parts[1..], sep, c);
    }
  }

  /** Maps each number to its decimal text. */
  function IntsToStrings(ns: seq<int>): (r: seq<string>)
    ensures |r| == |ns| && forall i :: 0 <= i < |ns| ==> r[i] == IntToString(ns[i])
  {
    seq(|ns|, i requires 0 <= i < |ns| => IntToString(ns[i]))
  }

  // ---------------------------------------------------------------------------
  // Properties

  lemma {:induction false} IndexOfAfter(a: string, sep: char, b: string)
    requires sep !in a
    ensures sep in a + [sep] + b && IndexOf(a + [sep] + b, sep) == |a|
    decreases |a|
  {
    var s := a + [sep] + b;
    assert s[|a|] == sep;
    if |a| > 0 {
      assert s[1..] == a[1..] + [sep] + b;
      IndexOfAfter(a[1..], sep, b);
    }
  }

  /** Splitting a joined list gives the list back, provided no part holds the separator. */
  lemma {:induction false} SplitJoin(parts: seq<string>, sep: char)
    requires |parts| >= 1
    requires forall i :: 0 <= i < |parts| ==> sep !in parts[i]
    ensures Split(Join(parts, sep), sep) == parts
    decreases |parts|
  {
    if |parts| > 1 {
      var s := Join(parts, sep);
      var rest := Join(parts[1..], sep);
      assert s == parts[0] + [sep] + rest;
      IndexOfAfter(parts[0], sep, rest);
      assert s[..|parts[0]|] == parts[0];
      assert s[|parts[0]| + 1..] == rest;
      SplitJoin(parts[1..], sep);
    }
  }

  /** Joining the pieces of a split gives the original string. */
  lemma {:induction false} JoinSplit(s: string, sep: char)
    ensures Join(Split(s, sep), sep) == s
    decreases |s|
  {
    if sep in s {
      var i := IndexOf(s, sep);
      JoinSplit(s[i + 1..], sep);
      var tail := Split(s[i + 1..], sep);
      assert Split(s, sep) == [s[..i]] + tail;
      assert s == s[..i] + [sep] + s[i + 1..];
    }
  }

  lemma {:induction false} NatDigitsValue(n: nat)
    ensures DigitsValue(NatDigits(n)) == n
    decreases n
  {
    if n >= 10 {
      NatDigitsValue(n / 10);
      var s := NatDigits(n);
      assert s[..|s| - 1] == NatDigits(n / 10);
    }
  }

  lemma {:induction false} LeadingZerosValue(z: string, s: string)
    requires forall i :: 0 <= i < |z| ==> z[i] == '0'
    requires AllDigits(s)
    ensures AllDigits(z + s) && DigitsValue(z + s) == DigitsValue(s)
    decreases |s| + |z|
  {
    if |s| == 0 {
      assert z + s == z;
      if |z| > 0 {
        LeadingZerosValue(z[..|z| - 1], "");
        assert z[..|z| - 1] + "" == z[..|z| - 1];
      }
    } else {
      LeadingZerosValue(z, s[..|s| - 1]);
      assert (z + s)[..|z + s| - 1] == z + s[..|s| - 1];
    }
  }

  lemma TrimUnpadded(s: string)
    requires |s| > 0 ==> !IsWhite(s[0]) && !IsWhite(s[|s| - 1])
    ensures TrimEnd(TrimStart(s)) == s
  {
  }

  /** Int32.Parse reads back what Int32.ToString wrote. */
  lemma IntToStringParses(n: int)
    requires IsInt32(n)
    ensures ParseInt32(IntToString(n)) == Ok(n)
  {
    var m: nat := if n < 0 then -n else n;
    var digits := NatDigits(m);
    NatDigitsValue(m);
    assert IsDigit(digits[0]) && IsDigit(digits[|digits| - 1]);
    var s := IntToString(n);
    if n < 0 {
      assert s == "-" + digits;
      TrimUnpadded(s);
      assert s[1..] == digits;
      assert ParseSigned(s) == ParseDigits(digits, true);
    } else {
      assert s == digits;
      TrimUnpadded(s);
      assert ParseSigned(s) == ParseDigits(digits, false);
    }
  }

  /** Int32.Parse reads back a zero-padded non-negative number. */
  lemma PadParses(n: int, width: nat)
    requires 0 <= n <= INT32_MAX
    ensures ParseInt32(Pad(n, width)) == Ok(n)
    ensures |Pad(n, width)| >= width && AllDigits(Pad(n, width))
  {
    var digits := NatDigits(n);
    var z := Zeros(width - |digits|);
    NatDigitsValue(n);
    LeadingZerosValue(z, digits);
    var s := Pad(n, width);
    assert s == z + digits;
    assert IsDigit(s[0]) && IsDigit(s[|s| - 1]);
    TrimUnpadded(s);
    assert ParseInt32(s) == ParseSigned(s);
    assert !(|s| > 0 && s[0] == '-') && !(|s| > 0 && s[0] == '+');
    assert ParseSigned(s) == ParseDigits(s, false);
  }

  /** Int32.Parse rejects a decimal fraction such as "1.5", whatever its digits. */
  lemma ParseRejectsFraction(w: string, f: string)
    requires 1 <= |w| && AllDigits(w) && 1 <= |f| && AllDigits(f)
    ensures ParseInt32(w + "." + f) == Err(Format)
  {
    var s := w + "." + f;
    assert s[0] == w[0];
    assert s[|s| - 1] == f[|f| - 1];
    assert TrimEnd(TrimStart(s)) == s by { TrimUnpadded(s); }
    assert ParseInt32(s) == ParseSigned(s);
    assert !(s[0] == '-' || s[0] == '+');
    assert ParseSigned(s) == ParseDigits(s, false);
    assert s[|w|] == '.';
  }

  /** A number printed with or without padding holds digits and a minus sign only. */
  lemma NumberClean(sep: char, n: int, w: nat)
    requires sep != '-' && !IsDigit(sep)
    ensures sep !in Pad(n, w) && sep !in IntToString(n)
  {
    var digits := NatDigits(if n < 0 then -n else n);
    var zeros := Zeros(w - |digits|);
    assert sep !in digits;
    assert sep !in zeros;
    var sign: string := if n < 0 then "-" else "";
    assert Pad(n, w) == sign + zeros + digits;
    assert sep !in sign;
  }
}
