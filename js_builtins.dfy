/**
 * The few JavaScript built-ins the demo's logic leans on, stated as functions:
 * `null`/`undefined` as `Option`, `parseInt(s, 16)` (which yields a number or NaN),
 * `String.prototype.slice` with its negative-index rule and
 * `String.prototype.includes`.
 */
module JsBuiltins {

  /** `null` / `undefined` (None) or a present value (Some). */
  datatype Option<+T> = None | Some(value: T)

  /** The outcome of `parseInt`: an integral number, or NaN when no digit was read. */
  datatype IntOrNaN = NaN | Int(value: int)

  // ---------------------------------------------------------------------------
  // parseInt(string, 16)
  // ---------------------------------------------------------------------------

  /** The characters that `parseInt` skips before the number (white space and line terminators). */
  predicate IsJsWhiteSpace(c: char) {
    c == '\t' || c == '\n' || c == '\U{000B}' || c == '\U{000C}' || c == '\r' || c == ' ' ||
    c == '\U{00A0}' || c == '\U{1680}' || ('\U{2000}' <= c <= '\U{200A}') ||
    c == '\U{2028}' || c == '\U{2029}' || c == '\U{202F}' || c == '\U{205F}' ||
    c == '\U{3000}' || c == '\U{FEFF}'
  }

  function TrimStart(s: string): (r: string)
    ensures r == [] || !IsJsWhiteSpace(r[0])
  {
    if s != [] && IsJsWhiteSpace(s[0]) then TrimStart(s[1..]) else s
  }

  predicate IsHexDigit(c: char) {
    ('0' <= c <= '9') || ('a' <= c <= 'f') || ('A' <= c <= 'F')
  }

  function HexDigitValue(c: char): (d: nat)
    requires IsHexDigit(c)
    ensures d < 16
  {
    if '0' <= c <= '9' then (c - '0') as nat
    else if 'a' <= c <= 'f' then (c - 'a') as nat + 10
    else (c - 'A') as nat + 10
  }

  predicate AllHexDigits(s: string) {
    forall i :: 0 <= i < |s| ==> IsHexDigit(s[i])
  }

  /**
   * `parseInt(s, 16)`: skip leading white space, read an optional sign, drop an
   * optional `0x`/`0X`, then read the longest run of hexadecimal digits; no digit
   * at all gives NaN. Anything after the run is ignored.
   */
  function ParseIntHex(s: string): (r: IntOrNaN)
    ensures TrimStart(s) == [] ==> r == NaN
    ensures r.Int? && r.value < 0 ==> StartsNegative(TrimStart(s))
  {
    var t := TrimStart(s);
    var magnitude := ScanHex(StripHexPrefix(Unsigned(t)), None);
    if magnitude.None? then NaN
    else if StartsNegative(t) then Int(-(magnitude.value as int))
    else Int(magnitude.value)
  }

  predicate StartsNegative(t: string) {
    t != [] && t[0] == '-'
  }

  /** `t` without a leading `+` or `-`. */
  function Unsigned(t: string): string {
    if t != [] && (t[0] == '+' || t[0] == '-') then t[1..] else t
  }

  /** `u` without a leading `0x` or `0X`. */
  function StripHexPrefix(u: string): string {
    if |u| >= 2 && u[0] == '0' && (u[1] == 'x' || u[1] == 'X') then u[2..] else u
  }

  /**
   * Reads the leading run of hexadecimal digits of `s` from left to right;
   * `read` is the value of the digits read so far (None before the first one).
   */
  function ScanHex(s: string, read: Option<nat>): Option<nat>
    decreases |s|
  {
    if s != [] && IsHexDigit(s[0]) then ScanHex(s[1..], Some(Shift(read, s[0]))) else read
  }

  /** The value so far with one more digit appended. */
  function Shift(read: Option<nat>, c: char): nat
    requires IsHexDigit(c)
  {
    (if read.None? then 0 else read.value) * 16 + HexDigitValue(c)
  }

  /** The value of the digits `ds` read after a value `v`, most significant first. */
  function HexValueFrom(v: nat, ds: string): nat
    requires AllHexDigits(ds)
    decreases |ds|
  {
    if ds == [] then v else HexValueFrom(v * 16 + HexDigitValue(ds[0]), ds[1..])
  }

  /** The lower-case hexadecimal digits of `n`, without leading zeros. */
  function ToHex(n: nat): (r: string)
    ensures r != [] && AllHexDigits(r)
  {
    if n < 16 then [HexChar(n)] else ToHex(n / 16) + [HexChar(n % 16)]
  }

  function HexChar(d: nat): (c: char)
    requires d < 16
    ensures IsHexDigit(c) && HexDigitValue(c) == d
  {
    if d < 10 then '0' + d as char else 'a' + (d - 10) as char
  }

  /** Appending a digit multiplies the value by sixteen and adds the digit. */
  lemma {:induction false} HexValueFromSnoc(v: nat, ds: string, c: char)
    requires AllHexDigits(ds) && IsHexDigit(c)
    ensures AllHexDigits(ds + [c])
    ensures HexValueFrom(v, ds + [c]) == HexValueFrom(v, ds) * 16 + HexDigitValue(c)
    decreases |ds|
  {
    assert AllHexDigits(ds + [c]) by {
      forall i | 0 <= i < |ds + [c]| ensures IsHexDigit((ds + [c])[i]) {
        if i < |ds| { assert (ds + [c])[i] == ds[i]; }
      }
    }
    if ds != [] {
      assert (ds + [c])[1..] == ds[1..] + [c];
      HexValueFromSnoc(v * 16 + HexDigitValue(ds[0]), ds[1..], c);
    } else {
      assert (ds + [c])[1..] == [];
    }
  }

  /** The digits `ToHex` writes have the value `n`. */
  lemma {:induction false} HexValueOfToHex(n: nat)
    ensures HexValueFrom(0, ToHex(n)) == n
  {
    if n >= 16 {
      HexValueOfToHex(n / 16);
      HexValueFromSnoc(0, ToHex(n / 16), HexChar(n % 16));
    } else {
      assert [HexChar(n)][1..] == [];
    }
  }

  /** Scanning a run of digits up to a non-digit yields the value of the run. */
  lemma {:induction false} ScanHexOfDigits(ds: string, rest: string, v: nat)
    requires AllHexDigits(ds)
    requires rest == [] || !IsHexDigit(rest[0])
    ensures ScanHex(ds + rest, Some(v)) == Some(HexValueFrom(v, ds))
    decreases |ds|
  {
    if ds == [] {
      assert ds + rest == rest;
    } else {
      assert (ds + rest)[0] == ds[0] && (ds + rest)[1..] == ds[1..] + rest;
      ScanHexOfDigits(ds[1..], rest, v * 16 + HexDigitValue(ds[0]));
    }
  }

  /** After a `0x` prefix `parseInt` reads exactly the digit run that follows. */
  lemma ParseIntHexAfterPrefix(body: string)
    ensures ParseIntHex("0x" + body) == match ScanHex(body, None) case None => NaN case Some(v) => Int(v)
  {
    var s := "0x" + body;
    assert s[0] == '0' && s[1] == 'x' && s[2..] == body;
    assert TrimStart(s) == s;
    assert !StartsNegative(s) && Unsigned(s) == s;
    assert StripHexPrefix(s) == body;
  }

  /** A non-empty run of digits up to a non-digit reads as its value. */
  lemma ScanHexOfRun(ds: string, rest: string)
    requires ds != [] && AllHexDigits(ds)
    requires rest == [] || !IsHexDigit(rest[0])
    ensures ScanHex(ds + rest, None) == Some(HexValueFrom(0, ds))
  {
    var body := ds + rest;
    assert body[0] == ds[0] && body[1..] == ds[1..] + rest;
    ScanHexOfDigits(ds[1..], rest, HexDigitValue(ds[0]));
  }

  /**
   * Reading back what `ToHex` wrote: `parseInt("0x" + ToHex(n) + rest, 16) == n`
   * whenever `rest` does not continue the digit run.
   */
  lemma ParseIntHexOfToHex(n: nat, rest: string)
    requires rest == [] || !IsHexDigit(rest[0])
    ensures ParseIntHex("0x" + ToHex(n) + rest) == Int(n)
  {
    var digits := ToHex(n);
    assert "0x" + digits + rest == "0x" + (digits + rest);
    ParseIntHexAfterPrefix(digits + rest);
    ScanHexOfRun(digits, rest);
    HexValueOfToHex(n);
  }

  /** Leading white space never changes what `parseInt` reads. */
  lemma ParseIntHexSkipsWhiteSpace(c: char, s: string)
    requires IsJsWhiteSpace(c)
    ensures ParseIntHex([c] + s) == ParseIntHex(s)
  {
    assert ([c] + s)[1..] == s;
    assert TrimStart([c] + s) == TrimStart(s);
  }

  function Negate(x: IntOrNaN): IntOrNaN {
    match x
    case NaN => NaN
    case Int(v) => Int(-v)
  }

  /** A minus sign in front of an unsigned number negates it. */
  lemma ParseIntHexNegative(s: string)
    requires s == [] || (!IsJsWhiteSpace(s[0]) && s[0] != '+' && s[0] != '-')
    ensures ParseIntHex("-" + s) == Negate(ParseIntHex(s))
  {
    var t := "-" + s;
    assert TrimStart(s) == s;
    assert !StartsNegative(s) && Unsigned(s) == s;
    assert t[0] == '-' && t[1..] == s;
    assert TrimStart(t) == t;
    assert StartsNegative(t) && Unsigned(t) == s;
  }

  // ---------------------------------------------------------------------------
  // String.prototype.slice(start[, end])
  // ---------------------------------------------------------------------------

  /** A relative index as `slice` resolves it: negative counts from the end; both clamp to [0, len]. */
  function ResolveIndex(rel: int, len: nat): (k: nat)
    ensures k <= len
  {
    if rel < 0 then (if len + rel < 0 then 0 else len + rel)
    else if rel > len then len
    else rel
  }

  /** `s.slice(start, end)`; an absent `end` means the length of `s`. */
  function Slice(s: string, start: int, end: Option<int>): (r: string)
    ensures |r| <= |s|
    ensures ResolveIndex(start, |s|) + |r| <= |s|
    ensures r == s[ResolveIndex(start, |s|)..ResolveIndex(start, |s|) + |r|]
  {
    var from := ResolveIndex(start, |s|);
    var to := match end case None => |s| case Some(e) => ResolveIndex(e, |s|);
    if from < to then s[from..to] else ""
  }

  /** `s.slice(0, n)` with `n >= 0` is the first `min(n, |s|)` characters. */
  lemma SliceHead(s: string, n: nat)
    ensures Slice(s, 0, Some(n)) == s[..if n < |s| then n else |s|]
  {
  }

  /** `s.slice(-n)` with `n > 0` is the last `min(n, |s|)` characters. */
  lemma SliceTail(s: string, n: nat)
    requires n > 0
    ensures Slice(s, -(n as int), None) == s[|s| - (if n < |s| then n else |s|)..]
  {
    if |s| <= n {
      assert Slice(s, -(n as int), None) == if 0 < |s| then s[0..|s|] else "";
    }
  }

  // ---------------------------------------------------------------------------
  // String.prototype.includes(search)
  // ---------------------------------------------------------------------------

  predicate OccursAt(s: string, sub: string, i: int) {
    0 <= i && i + |sub| <= |s| && s[i..i + |sub|] == sub
  }

  /** `s.includes(sub)`, scanning `s` from the left. */
  predicate Includes(s: string, sub: string): (found: bool)
    ensures found ==> |sub| <= |s|
    ensures sub == [] ==> found
    decreases |s|
  {
    |sub| <= |s| && (s[..|sub|] == sub || (s != [] && Includes(s[1..], sub)))
  }

  /** The scan finds `sub` exactly when `sub` occurs at some position of `s`. */
  lemma {:induction false} IncludesIffOccurs(s: string, sub: string)
    ensures Includes(s, sub) <==> exists i :: OccursAt(s, sub, i)
    decreases |s|
  {
    if |sub| <= |s| {
      if s != [] {
        IncludesIffOccurs(s[1..], sub);
        if s[..|sub|] == sub {
          assert OccursAt(s, sub, 0);
        }
        if exists i :: OccursAt(s[1..], sub, i) {
          var i :| OccursAt(s[1..], sub, i);
          assert s[i + 1..i + 1 + |sub|] == s[1..][i..i + |sub|];
          assert OccursAt(s, sub, i + 1);
        }
        if exists i :: OccursAt(s, sub, i) {
          var i :| OccursAt(s, sub, i);
          if i > 0 {
            assert s[1..][i - 1..i - 1 + |sub|] == s[i..i + |sub|];
            assert OccursAt(s[1..], sub, i - 1);
          } else {
            assert s[..|sub|] == sub;
          }
          assert Includes(s, sub);
        }
      } else {
        assert OccursAt(s, sub, 0);
      }
    }
  }
}
