/**
 * The SVG `viewBox` strings of the island crops: four unsigned decimal
 * integers "x y width height" separated by single spaces.
 */
module ViewBox {
  import opened Wrappers

  datatype Rect = Rect(x: nat, y: nat, width: nat, height: nat)

  /** The string split at every space (so `|Split(s)|` is one more than the number of spaces). */
  function Split(s: string): (r: seq<string>)
    ensures |r| >= 1
  {
    if s == [] then [""]
    else if s[0] == ' ' then [""] + Split(s[1..])
    else
      var rest := Split(s[1..]);
      [[s[0]] + rest[0]] + rest[1..]
  }

  predicate IsDigit(c: char) {
    '0' <= c <= '9'
  }

  /** The value of a non-empty string of decimal digits, most significant first. */
  function DigitsValue(t: string): nat
    requires forall i :: 0 <= i < |t| ==> IsDigit(t[i])
  {
    if t == [] then 0
    else
      assert IsDigit(t[|t| - 1]);
      DigitsValue(t[..|t| - 1]) * 10 + (t[|t| - 1] as int - '0' as int)
  }

  function ParseNat(t: string): Option<nat> {
    if t != [] && forall i :: 0 <= i < |t| ==> IsDigit(t[i]) then Some(DigitsValue(t)) else None
  }

  /** The rectangle a `viewBox` string denotes, if it has exactly four numeric fields. */
  function Parse(s: string): Option<Rect> {
    var f := Split(s);
    if |f| != 4 then None
    else
      match (ParseNat(f[0]), ParseNat(f[1]), ParseNat(f[2]), ParseNat(f[3]))
      case (Some(x), Some(y), Some(w), Some(h)) => Some(Rect(x, y, w, h))
      case _ => None
  }

  /** A crop with four integer fields and a non-empty area. */
  predicate WellFormed(s: string) {
    var r := Parse(s);
    r.Some? && r.value.width > 0 && r.value.height > 0
  }

  /** The decimal digits of `n`, most significant first. */
  function NatString(n: nat): (t: string)
    ensures |t| >= 1 && forall i :: 0 <= i < |t| ==> IsDigit(t[i])
  {
    if n < 10 then [('0' as int + n) as char]
    else NatString(n / 10) + [('0' as int + n % 10) as char]
  }

  /** A field followed by a space and the remaining fields. */
  function Field(a: string, rest: string): string {
    a + " " + rest
  }

  /** The `viewBox` string of a rectangle. */
  function Format(r: Rect): string {
    Field(NatString(r.x), Field(NatString(r.y), Field(NatString(r.width), NatString(r.height))))
  }

  lemma {:induction false} DigitsValueNatString(n: nat)
    ensures DigitsValue(NatString(n)) == n
  {
    var t := NatString(n);
    if n >= 10 {
      assert t[..|t| - 1] == NatString(n / 10);
      DigitsValueNatString(n / 10);
    }
  }

  /** A field without spaces splits to itself. */
  lemma {:induction false} SplitNoSpace(a: string)
    requires forall i :: 0 <= i < |a| ==> a[i] != ' '
    ensures Split(a) == [a]
  {
    if a != [] {
      SplitNoSpace(a[1..]);
      assert [a[0]] + a[1..] == a;
    }
  }

  /** Splitting "a b" peels off the first field `a` when `a` has no space. */
  lemma {:induction false} SplitCons(a: string, b: string)
    requires forall i :: 0 <= i < |a| ==> a[i] != ' '
    ensures Split(Field(a, b)) == [a] + Split(b)
  {
    if a == [] {
      assert a + " " + b == [' '] + b;
      assert (a + " " + b)[1..] == b;
    } else {
      assert (a + " " + b)[1..] == a[1..] + " " + b;
      SplitCons(a[1..], b);
      assert [a[0]] + a[1..] == a;
    }
  }

  lemma NatStringNoSpace(n: nat)
    ensures forall i :: 0 <= i < |NatString(n)| ==> NatString(n)[i] != ' '
  {
  }

  lemma ParseNatString(n: nat)
    ensures ParseNat(NatString(n)) == Some(n)
  {
    DigitsValueNatString(n);
  }

  /** Parsing the formatted string of a rectangle gives the rectangle back. */
  lemma ParseFormat(r: Rect)
    ensures Parse(Format(r)) == Some(r)
  {
    var x, y, w, h := NatString(r.x), NatString(r.y), NatString(r.width), NatString(r.height);
    NatStringNoSpace(r.x); NatStringNoSpace(r.y); NatStringNoSpace(r.width);
    SplitNoSpace(h);
    SplitCons(w, h);
    SplitCons(y, Field(w, h));
    SplitCons(x, Field(y, Field(w, h)));
    assert Split(Format(r)) == [x, y, w, h];
    ParseNatString(r.x); ParseNatString(r.y); ParseNatString(r.width); ParseNatString(r.height);
  }
}
