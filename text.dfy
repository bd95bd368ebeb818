/**
 * The few JavaScript string operations the modelled code relies on:
 * `trim`, `toLowerCase` on ASCII letters, `includes`, and decimal
 * digit strings (number formatting in template literals, `\d+` in a
 * regular expression).
 */
module Text {

  /** JavaScript's WhiteSpace and LineTerminator code points, the set `String.prototype.trim` removes. */
  predicate IsSpace(c: char) {
    var k := c as int;
    k == 0x09 || k == 0x0A || k == 0x0B || k == 0x0C || k == 0x0D || k == 0x20
    || k == 0xA0 || k == 0x1680 || (0x2000 <= k <= 0x200A) || k == 0x2028 || k == 0x2029
    || k == 0x202F || k == 0x205F || k == 0x3000 || k == 0xFEFF
  }

  /** `s` with its leading white space removed. */
  function TrimStart(s: string): (r: string)
    ensures |r| <= |s| && r == s[|s| - |r|..]
    ensures r == [] || !IsSpace(r[0])
    ensures forall i :: 0 <= i < |s| - |r| ==> IsSpace(s[i])
  {
    if |s| > 0 && IsSpace(s[0]) then TrimStart(s[1..]) else s
  }

  /** `s` with its trailing white space removed. */
  function TrimEnd(s: string): (r: string)
    ensures |r| <= |s| && r == s[..|r|]
    ensures r == [] || !IsSpace(r[|r| - 1])
    ensures forall i :: |r| <= i < |s| ==> IsSpace(s[i])
  {
    if |s| > 0 && IsSpace(s[|s| - 1]) then TrimEnd(s[..|s| - 1]) else s
  }

  /** `String.prototype.trim`. */
  function Trim(s: string): (r: string)
    ensures |r| <= |s|
    ensures r == [] || (!IsSpace(r[0]) && !IsSpace(r[|r| - 1]))
    ensures exists a :: 0 <= a <= |s| - |r| && r == s[a..][..|r|]
                        && (forall k :: 0 <= k < a ==> IsSpace(s[k]))
                        && (forall k :: a + |r| <= k < |s| ==> IsSpace(s[k]))
  {
    var t := TrimStart(s);
    var r := TrimEnd(t);
    TrimBounds(s, t, r);
    r
  }

  /** `Trim` keeps the slice of `s` between its leading and its trailing white space. */
  lemma TrimBounds(s: string, t: string, r: string)
    requires |t| <= |s| && t == s[|s| - |t|..] && forall k :: 0 <= k < |s| - |t| ==> IsSpace(s[k])
    requires |r| <= |t| && r == t[..|r|] && forall k :: |r| <= k < |t| ==> IsSpace(t[k])
    ensures var a := |s| - |t|;
            r == s[a..][..|r|] && (forall k :: a + |r| <= k < |s| ==> IsSpace(s[k]))
  {
    var a := |s| - |t|;
    forall k | a + |r| <= k < |s| ensures IsSpace(s[k]) {
      assert s[k] == t[k - a];
    }
  }

  /** A string trims to nothing exactly when every one of its characters is white space. */
  lemma TrimEmptyIff(s: string)
    ensures Trim(s) == [] <==> forall i :: 0 <= i < |s| ==> IsSpace(s[i])
  {
    var t := TrimStart(s);
    if Trim(s) == [] {
      assert t == [];
    } else {
      var r := Trim(s);
      assert r == t[..|r|];
      assert !IsSpace(s[|s| - |t|]);
    }
  }

  /** ASCII upper-case letters become lower case; every other character is kept. */
  function LowerChar(c: char): (d: char)
    ensures 'A' <= c <= 'Z' ==> d as int == c as int + 32
    ensures !('A' <= c <= 'Z') ==> d == c
  {
    if 'A' <= c <= 'Z' then (c as int + 32) as char else c
  }

  /** `toLowerCase` restricted to ASCII letters. */
  function Lower(s: string): (r: string)
    ensures |r| == |s|
    ensures forall i :: 0 <= i < |s| ==> r[i] == LowerChar(s[i])
  {
    if s == [] then [] else [LowerChar(s[0])] + Lower(s[1..])
  }

  /** `sub` occurs in `s` starting at index `i`. */
  predicate OccursAt(s: string, sub: string, i: nat) {
    i + |sub| <= |s| && s[i..i + |sub|] == sub
  }

  /** `String.prototype.includes`. */
  predicate Includes(s: string, sub: string) {
    exists i: nat | i <= |s| :: OccursAt(s, sub, i)
  }

  predicate IsDigit(c: char) {
    '0' <= c <= '9'
  }

  predicate AllDigits(s: string) {
    forall i :: 0 <= i < |s| ==> IsDigit(s[i])
  }

  function DigitChar(d: nat): (c: char)
    requires d < 10
    ensures IsDigit(c) && c as int - '0' as int == d
  {
    ('0' as int + d) as char
  }

  /** The value of a string of decimal digits; the empty string is 0. */
  function DecimalValue(ds: string): nat
    requires AllDigits(ds)
  {
    if ds == [] then 0
    else 10 * DecimalValue(ds[..|ds| - 1]) + (ds[|ds| - 1] as int - '0' as int)
  }

  /** How a JavaScript template literal writes a non-negative integer. */
  function NatToDecimal(n: nat): (r: string)
    ensures |r| >= 1 && AllDigits(r)
  {
    if n < 10 then [DigitChar(n)] else NatToDecimal(n / 10) + [DigitChar(n % 10)]
  }

  /** How a JavaScript template literal writes an integer. */
  function IntToDecimal(i: int): (r: string)
    ensures |r| >= 1
    ensures i >= 0 ==> AllDigits(r)
    ensures i < 0 ==> r[0] == '-' && AllDigits(r[1..])
  {
    if i < 0 then "-" + NatToDecimal(-i) else NatToDecimal(i)
  }

  /** Reading back a number that was written in decimal gives the number. */
  lemma {:induction false} DecimalRoundTrip(n: nat)
    ensures DecimalValue(NatToDecimal(n)) == n
  {
    if n >= 10 {
      var r := NatToDecimal(n);
      assert r[..|r| - 1] == NatToDecimal(n / 10);
      DecimalRoundTrip(n / 10);
    }
  }

  /** Distinct integers are written differently, so an error message that embeds one identifies it. */
  lemma IntToDecimalInjective(i: int, j: int)
    requires IntToDecimal(i) == IntToDecimal(j)
    ensures i == j
  {
    if i >= 0 && j >= 0 {
      DecimalRoundTrip(i);
      DecimalRoundTrip(j);
    } else if i < 0 && j < 0 {
      assert NatToDecimal(-i) == IntToDecimal(i)[1..];
      DecimalRoundTrip(-i);
      DecimalRoundTrip(-j);
    }
  }

  lemma TrimStartReact()
    ensures TrimStart(" React\n") == "React\n"
  {
    assert " React\n"[1..] == "React\n";
    assert !IsSpace('R');
  }

  lemma TrimEndReact()
    ensures TrimEnd("React\n") == "React"
  {
    assert "React\n"[..5] == "React";
    assert IsSpace('\n') && !IsSpace('t');
  }

  /** `trim` then `toLowerCase` turns " React\n" into `react`. */
  lemma TrimLowerReact()
    ensures Lower(Trim(" React\n")) == "react"
  {
    TrimStartReact();
    TrimEndReact();
    var r := Lower("React");
    assert r[0] == LowerChar('R') == 'r';
    assert r[1..] == "React"[1..] == "eact";
  }

  /** `trim` then `toLowerCase` turns "NODE" into `node`. */
  lemma TrimLowerNode()
    ensures Lower(Trim("NODE")) == "node"
  {
    TrimNode();
    LowerNode();
  }

  lemma TrimNode()
    ensures Trim("NODE") == "NODE"
  {
    assert !IsSpace('N') && !IsSpace('E');
  }

  lemma LowerNode()
    ensures Lower("NODE") == "node"
  {
    var r := Lower("NODE");
    assert r[0] == LowerChar('N') == 'n';
    assert r[1] == LowerChar('O') == 'o';
    assert r[2] == LowerChar('D') == 'd';
    assert r[3] == LowerChar('E') == 'e';
  }
}
