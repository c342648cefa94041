/**
 * The decoded trap record (src/sensu/snmp/trap.py) and the values it carries.
 * Object identifiers are modelled by their dotted string form, so `str(oid)`
 * is the identifier itself.
 */
module Traps {

  /** A dotted numeric object identifier such as "1.3.6.1.2.1.1.3.0". */
  type Oid = string

  /** A scalar carried by a trap argument or property. */
  datatype Atom = AStr(s: string) | AInt(i: int) | ABool(b: bool) | ANone

  /** The character of a decimal digit. */
  function DigitChar(d: nat): (c: char)
    requires d < 10
    ensures '0' <= c <= '9' && c as int - '0' as int == d
  {
    ('0' as int + d) as char
  }

  predicate IsDigit(c: char)
  {
    '0' <= c <= '9'
  }

  /** The number a string of decimal digits denotes, most significant first. */
  function DecimalValue(s: string): nat
    requires forall k :: 0 <= k < |s| ==> IsDigit(s[k])
  {
    if s == [] then 0
    else
      assert IsDigit(s[|s| - 1]);
      10 * DecimalValue(s[..|s| - 1]) + (s[|s| - 1] as int - '0' as int)
  }

  /** `s` is the canonical decimal spelling of `n`: digits only, no leading zero, denoting `n`. */
  predicate IsDecimal(s: string, n: nat)
  {
    && |s| > 0
    && (forall k :: 0 <= k < |s| ==> IsDigit(s[k]))
    && DecimalValue(s) == n
    && (|s| > 1 ==> s[0] != '0')
  }

  /** Decimal digits of a natural number. */
  function Digits(n: nat): (s: string)
    ensures IsDecimal(s, n)
    decreases n
  {
    if n < 10 then
      var s := [DigitChar(n)];
      assert s[..0] == [];
      s
    else
      var h := Digits(n / 10);
      var s := h + [DigitChar(n % 10)];
      assert s[..|s| - 1] == h;
      s
  }

  /** Python's `str()` of an atom: strings as they are, integers in decimal with a leading '-' when negative. */
  function Show(a: Atom): (r: string)
    ensures a.AStr? ==> r == a.s
    ensures a.AInt? && a.i >= 0 ==> IsDecimal(r, a.i)
    ensures a.AInt? && a.i < 0 ==> |r| > 1 && r[0] == '-' && IsDecimal(r[1..], -a.i)
    ensures a.ABool? ==> r == (if a.b then "True" else "False")
    ensures a.ANone? ==> r == "None"
  {
    match a
    case AStr(s) => s
    case AInt(i) =>
      if i < 0 then
        var r := "-" + Digits(-i);
        assert r[1..] == Digits(-i);
        r
      else Digits(i)
    case ABool(b) => if b then "True" else "False"
    case ANone => "None"
  }

  /** A trap: its type name, its identifier, its argument bindings and its extra properties. */
  datatype Trap = Trap(
    typeName: string,
    oid: Oid,
    arguments: map<Oid, Atom>,
    properties: map<string, Atom>)
}
