/**
  The global `parseInt(string)` of JavaScript, called with no radix, as specified in
  section 19.2.5 ("parseInt ( string, radix )") of ECMA-262: leading white space is
  dropped, an optional sign is read, a `0x`/`0X` prefix switches to radix 16, and the
  longest run of radix digits that follows is the value. An empty run is `NaN`,
  modelled as `None`.
*/
module JsParseInt {
  import opened Wrappers

  /** StrWhiteSpaceChar of ECMA-262: WhiteSpace (TAB, VT, FF, ZWNBSP, every Zs) and LineTerminator. */
  predicate IsStrWhiteSpace(c: char) {
    || c == '\t' || c == '\U{000B}' || c == '\U{000C}' || c == '\U{FEFF}'
    || c == ' ' || c == '\U{00A0}' || c == '\U{1680}' || ('\U{2000}' <= c <= '\U{200A}')
    || c == '\U{202F}' || c == '\U{205F}' || c == '\U{3000}'
    || c == '\n' || c == '\r' || c == '\U{2028}' || c == '\U{2029}'
  }

  /** The value of `c` as a digit in radices up to 36 (`0`-`9`, then `a`/`A` = 10 up to `z`/`Z` = 35), or -1. */
  function DigitValue(c: char): (d: int)
    ensures -1 <= d < 36
    ensures '0' <= c <= '9' ==> d == c as int - '0' as int
    ensures d == -1 <==> !('0' <= c <= '9' || 'a' <= c <= 'z' || 'A' <= c <= 'Z')
  {
    if '0' <= c <= '9' then c as int - '0' as int
    else if 'a' <= c <= 'z' then c as int - 'a' as int + 10
    else if 'A' <= c <= 'Z' then c as int - 'A' as int + 10
    else -1
  }

  predicate IsRadixDigit(c: char, radix: nat) {
    0 <= DigitValue(c) < radix
  }

  /** `s` without its leading white space. */
  function TrimStart(s: string): string {
    if s != [] && IsStrWhiteSpace(s[0]) then TrimStart(s[1..]) else s
  }

  /** TrimStart drops exactly the leading white space: a suffix remains that is empty or starts otherwise. */
  lemma {:induction false} TrimStartDropsWhiteSpace(s: string)
    ensures var t := TrimStart(s);
      && |t| <= |s| && t == s[|s| - |t|..]
      && (forall k :: 0 <= k < |s| - |t| ==> IsStrWhiteSpace(s[k]))
      && (t == [] || !IsStrWhiteSpace(t[0]))
  {
    if s != [] && IsStrWhiteSpace(s[0]) {
      var r := s[1..];
      TrimStartDropsWhiteSpace(r);
      var t := TrimStart(r);
      assert TrimStart(s) == t;
      assert r[|r| - |t|..] == s[|s| - |t|..];
      forall k | 1 <= k < |s| - |t| ensures IsStrWhiteSpace(s[k]) {
        assert s[k] == r[k - 1];
      }
    }
  }

  /** The length of the longest prefix of `s` made of radix digits. */
  function DigitRunLength(s: string, radix: nat): (n: nat)
    ensures n <= |s|
    ensures forall k :: 0 <= k < n ==> IsRadixDigit(s[k], radix)
    ensures n == |s| || !IsRadixDigit(s[n], radix)
  {
    if s != [] && IsRadixDigit(s[0], radix) then 1 + DigitRunLength(s[1..], radix) else 0
  }

  /** The number that the digit string `ds` denotes in `radix`, most significant digit first. */
  function DigitsValue(ds: string, radix: nat): nat
    requires forall k :: 0 <= k < |ds| ==> IsRadixDigit(ds[k], radix)
  {
    if ds == [] then 0
    else
      assert IsRadixDigit(ds[|ds| - 1], radix);
      DigitsValue(ds[..|ds| - 1], radix) * radix + DigitValue(ds[|ds| - 1])
  }

  /** What remains of `t` once a leading `+` or `-` is dropped. */
  function Unsigned(t: string): string {
    if t != [] && (t[0] == '+' || t[0] == '-') then t[1..] else t
  }

  predicate HasHexPrefix(u: string) {
    |u| >= 2 && u[0] == '0' && (u[1] == 'x' || u[1] == 'X')
  }

  /**
    The digits that follow the sign: a `0x`/`0X` prefix selects radix 16, otherwise
    radix 10; the longest run of digits is the value, and an empty run is `NaN`.
  */
  function ParseDigits(u: string): Option<nat> {
    var radix := if HasHexPrefix(u) then 16 else 10;
    var v := if HasHexPrefix(u) then u[2..] else u;
    var n := DigitRunLength(v, radix);
    if n == 0 then None else Some(DigitsValue(v[..n], radix))
  }

  /**
    `parseInt(s)` with the radix left undefined; `None` is `NaN`. A number needs a
    decimal digit right after the white space and the optional sign, and only a `-`
    there makes it negative.
  */
  function ParseInt(s: string): (r: Option<int>)
    ensures r.Some? ==> var u := Unsigned(TrimStart(s)); u != [] && '0' <= u[0] <= '9'
    ensures r.Some? && r.value < 0 ==> TrimStart(s) != [] && TrimStart(s)[0] == '-'
  {
    ParseTrimmed(TrimStart(s))
  }

  /** `parseInt` of a string that does not start with white space: the sign, then the digits. */
  function ParseTrimmed(t: string): Option<int> {
    match ParseDigits(Unsigned(t))
    case None => None
    case Some(m) =>
      var value: int := m;
      Some(if t != [] && t[0] == '-' then -value else value)
  }

  /** The decimal rendering of a natural number, as `String(n)` gives it. */
  function NatToDecimal(n: nat): (s: string)
    ensures |s| >= 1
    ensures forall k :: 0 <= k < |s| ==> '0' <= s[k] <= '9'
    decreases n
  {
    var d := [('0' as int + n % 10) as char];
    if n < 10 then d else NatToDecimal(n / 10) + d
  }

  /** The decimal rendering of an integer, with a `-` for negative ones: how an id is written into a URL path. */
  function IntToDecimal(i: int): string {
    if i < 0 then "-" + NatToDecimal(-i) else NatToDecimal(i)
  }

  lemma {:induction false} DigitRunOfDigits(ds: string, rest: string, radix: nat)
    requires forall k :: 0 <= k < |ds| ==> IsRadixDigit(ds[k], radix)
    ensures DigitRunLength(ds + rest, radix) == |ds| + DigitRunLength(rest, radix)
  {
    if ds != [] {
      assert (ds + rest)[1..] == ds[1..] + rest;
      DigitRunOfDigits(ds[1..], rest, radix);
    } else {
      assert ds + rest == rest;
    }
  }

  lemma {:induction false} DecimalValue(n: nat)
    ensures DigitsValue(NatToDecimal(n), 10) == n
    decreases n
  {
    var s := NatToDecimal(n);
    if n >= 10 {
      assert s[..|s| - 1] == NatToDecimal(n / 10);
      DecimalValue(n / 10);
    }
  }

  /**
    Reading back a rendered id: `parseInt` of the decimal rendering of `i`, followed by
    any text that does not start with a digit, gives `i`. For `i == 0` the text must not
    start with `x` or `X` either, since `"0x1"` is read in radix 16.
  */
  lemma ParseIntOfDecimal(i: int, rest: string)
    requires rest == [] || !('0' <= rest[0] <= '9' || (i == 0 && (rest[0] == 'x' || rest[0] == 'X')))
    ensures ParseInt(IntToDecimal(i) + rest) == Some(i)
  {
    var m: nat := if i < 0 then -i else i;
    DecimalStartsTrimmed(i, rest);
    SignOfDecimal(i, rest);
    ParseDigitsOfDecimal(m, rest);
  }

  lemma DecimalStartsTrimmed(i: int, rest: string)
    ensures TrimStart(IntToDecimal(i) + rest) == IntToDecimal(i) + rest
  {
    var s := IntToDecimal(i) + rest;
    var c := s[0];
    assert c == '-' || '0' <= c <= '9';
    assert !IsStrWhiteSpace(c);
  }

  lemma SignOfDecimal(i: int, rest: string)
    ensures var s := IntToDecimal(i) + rest;
      && Unsigned(s) == NatToDecimal(if i < 0 then -i else i) + rest
      && (s[0] == '-' <==> i < 0)
  {
    var s := IntToDecimal(i) + rest;
    if i < 0 {
      assert s == "-" + (NatToDecimal(-i) + rest);
    } else {
      assert '0' <= s[0] <= '9';
    }
  }

  lemma ParseDigitsOfDecimal(m: nat, rest: string)
    requires rest == [] || !('0' <= rest[0] <= '9' || (m == 0 && (rest[0] == 'x' || rest[0] == 'X')))
    ensures ParseDigits(NatToDecimal(m) + rest) == Some(m)
  {
    var ds := NatToDecimal(m);
    var u := ds + rest;
    assert !HasHexPrefix(u) by {
      if |u| >= 2 {
        if |ds| >= 2 {
          assert u[1] == ds[1];
        } else if m != 0 {
          assert u[0] == ds[0] == ('0' as int + m) as char;
        } else {
          assert u[1] == rest[0];
        }
      }
    }
    forall k | 0 <= k < |ds| ensures IsRadixDigit(ds[k], 10) {
    }
    DigitRunOfDigits(ds, rest, 10);
    assert rest == [] || !IsRadixDigit(rest[0], 10);
    assert u[..|ds|] == ds;
    DecimalValue(m);
  }

  /** A path id is in particular read back exactly from its decimal rendering. */
  lemma ParseIntRoundTrip(i: int)
    ensures ParseInt(IntToDecimal(i)) == Some(i)
  {
    ParseIntOfDecimal(i, []);
    assert IntToDecimal(i) + [] == IntToDecimal(i);
  }

  /** Leading white space never changes what `parseInt` reads. */
  lemma {:induction false} ParseIntSkipsWhiteSpace(w: string, s: string)
    requires forall k :: 0 <= k < |w| ==> IsStrWhiteSpace(w[k])
    ensures ParseInt(w + s) == ParseInt(s)
  {
    TrimStartSkips(w, s);
  }

  lemma {:induction false} TrimStartSkips(w: string, s: string)
    requires forall k :: 0 <= k < |w| ==> IsStrWhiteSpace(w[k])
    ensures TrimStart(w + s) == TrimStart(s)
  {
    if w == [] {
      assert w + s == s;
    } else {
      assert (w + s)[1..] == w[1..] + s;
      TrimStartSkips(w[1..], s);
    }
  }

  /**
    `NaN` cases: when what follows the white space and an optional sign is empty or
    does not start with a decimal digit, `parseInt` gives `NaN`; when it starts with a
    decimal digit and is not a `0x` prefix, it gives a number. After a `0x` prefix, it
    gives `NaN` when no hex digit follows and a number when one does.
  */
  lemma ParseIntDefined(s: string)
    ensures var u := Unsigned(TrimStart(s));
      (u == [] || !('0' <= u[0] <= '9')) ==> ParseInt(s) == None
    ensures var u := Unsigned(TrimStart(s));
      (u != [] && '0' <= u[0] <= '9' && !HasHexPrefix(u)) ==> ParseInt(s).Some?
    ensures var u := Unsigned(TrimStart(s));
      (HasHexPrefix(u) && (|u| == 2 || !IsRadixDigit(u[2], 16))) ==> ParseInt(s) == None
    ensures var u := Unsigned(TrimStart(s));
      (HasHexPrefix(u) && |u| > 2 && IsRadixDigit(u[2], 16)) ==> ParseInt(s).Some?
  {
  }

  /** Concrete readings of path segments: trailing text after the digits is ignored. */
  lemma ParseIntIgnoresTail()
    ensures ParseInt(" -12abc") == Some(-12)
    ensures ParseInt("1.9") == Some(1)
  {
    assert NatToDecimal(12) == "12";
    assert " -12abc" == " " + (IntToDecimal(-12) + "abc");
    ParseIntOfDecimal(-12, "abc");
    ParseIntSkipsWhiteSpace(" ", IntToDecimal(-12) + "abc");
    assert "1.9" == IntToDecimal(1) + ".9";
    ParseIntOfDecimal(1, ".9");
  }

  /** An `x` after a digit other than a lone leading `0` is ordinary trailing text. */
  lemma ParseIntXAfterNonZero()
    ensures ParseInt("5x") == Some(5)
  {
    assert NatToDecimal(5) == "5";
    assert "5x" == IntToDecimal(5) + "x";
    ParseIntOfDecimal(5, "x");
  }

  /** Without a radix, a `0x` prefix is read in radix 16, and `0x` alone is `NaN`. */
  lemma ParseIntHexPrefix()
    ensures ParseInt("0x1A") == Some(26)
    ensures ParseInt("0x") == None
  {
    assert TrimStart("0x1A") == "0x1A";
    assert Unsigned("0x1A") == "0x1A";
    assert "0x1A"[2..] == "1A";
    assert DigitRunLength("1A", 16) == 2;
    assert "1A"[..2] == "1A";
    assert DigitsValue("1A", 16) == 26 by {
      assert "1A"[..1] == "1";
      assert "1"[..0] == "";
    }
    assert TrimStart("0x") == "0x";
    assert "0x"[2..] == "";
  }

  /** Text that does not start with a digit is `NaN`, and so never matches any record id. */
  lemma ParseIntNotANumber()
    ensures ParseInt("abc") == None
    ensures ParseInt("") == None
  {
    assert TrimStart("abc") == "abc";
    ParseIntDefined("abc");
  }
}
