/** The text form of a clock: fixed-width hexadecimal fields. */
module HlcText {
  import opened Bytes
  import opened Results
  import opened Hlc

  // ---- hexadecimal ----

  function Digit(n: nat): (c: char)
    requires n < 16
  {
    if n < 10 then '0' + n as char else 'a' + (n - 10) as char
  }

  function DigitValue(c: char): (n: Option<nat>)
    ensures n.Some? ==> n.value < 16
  {
    if '0' <= c <= '9' then Some((c - '0') as nat)
    else if 'a' <= c <= 'f' then Some(10 + (c - 'a') as nat)
    else if 'A' <= c <= 'F' then Some(10 + (c - 'A') as nat)
    else None
  }

  lemma DigitRead(n: nat)
    requires n < 16
    ensures DigitValue(Digit(n)) == Some(n) && Digit(n) != '-' && Digit(n) != '+'
  {
  }

  lemma DigitOrder(m: nat, n: nat)
    requires m < 16 && n < 16
    ensures Digit(m) < Digit(n) <==> m < n
    ensures Digit(m) == Digit(n) <==> m == n
  {
  }

  /** The low `width` hexadecimal digits of v. */
  function Hex(v: nat, width: nat): (s: string)
    ensures |s| == width
  {
    if width == 0 then "" else Hex(v / 16, width - 1) + [Digit(v % 16)]
  }

  function HexValue(s: string): (v: Option<nat>) {
    if s == "" then Some(0)
    else
      var high := HexValue(s[..|s| - 1]);
      var low := DigitValue(s[|s| - 1]);
      if high.None? || low.None? then None else Some(16 * high.value + low.value)
  }

  function Sixteen(width: nat): (n: nat)
    ensures n > 0
  {
    if width == 0 then 1 else 16 * Sixteen(width - 1)
  }

  lemma Widths()
    ensures Sixteen(8) == COUNTER_MAX + 1 && Sixteen(16) == 0x1_0000_0000_0000_0000
    ensures Sixteen(32) == 0x1_0000_0000_0000_0000_0000_0000_0000_0000
  {
    assert Sixteen(4) == 0x1_0000;
    assert Sixteen(8) == 0x1_0000_0000;
    assert Sixteen(12) == 0x1_0000_0000_0000;
    assert Sixteen(16) == 0x1_0000_0000_0000_0000;
    assert Sixteen(20) == 0x1_0000_0000_0000_0000_0000;
    assert Sixteen(24) == 0x1_0000_0000_0000_0000_0000_0000;
    assert Sixteen(28) == 0x1_0000_0000_0000_0000_0000_0000_0000;
  }

  lemma {:induction false} HexRead(v: nat, width: nat)
    requires v < Sixteen(width)
    ensures HexValue(Hex(v, width)) == Some(v)
    ensures forall i :: 0 <= i < width ==> Hex(v, width)[i] != '-' && Hex(v, width)[i] != '+'
  {
    if width > 0 {
      HexRead(v / 16, width - 1);
      DigitRead(v % 16);
      assert Hex(v, width)[..width - 1] == Hex(v / 16, width - 1);
    }
  }

  // ---- parsing ----

  /** The position of the first '-', or the length. */
  function Dash(s: string): (n: nat)
    ensures n <= |s| && (n < |s| ==> s[n] == '-')
  {
    if s == "" || s[0] == '-' then 0 else 1 + Dash(s[1..])
  }

  /** An unsigned number in base 16: an optional plus sign, then at least one digit. */
  function FromRadix(s: string, max: nat): (v: Option<nat>)
    ensures v.Some? ==> v.value <= max
  {
    var digits := if s != "" && s[0] == '+' then s[1..] else s;
    if digits == "" then None
    else
      var v := HexValue(digits);
      if v.Some? && v.value <= max then v else None
  }

  function Parse(s: string): (c: Option<Clock>) {
    var first := Dash(s);
    var wall := FromRadix(s[..first], 0xFFFF_FFFF_FFFF_FFFF);
    if wall.None? || first == |s| then None
    else
      var rest := s[first + 1..];
      var second := Dash(rest);
      var counter := FromRadix(rest[..second], COUNTER_MAX);
      if counter.None? || second == |rest| then None
      else
        var device := rest[second + 1..];
        if |device| != 32 then None
        else
          var id := HexValue(device);
          if id.None? || id.value >= 0x1_0000_0000_0000_0000_0000_0000_0000_0000 then None
          else Some(Clock(wall.value, counter.value, id.value))
  }

  function Format(c: Clock): (s: string) {
    Hex(c.wall, 16) + "-" + Hex(c.counter, 8) + "-" + Hex(c.device, 32)
  }

  lemma {:induction false} DashAfter(a: string, b: string)
    requires forall i :: 0 <= i < |a| ==> a[i] != '-'
    ensures Dash(a + "-" + b) == |a|
  {
    if a == "" {
      assert a + "-" + b == "-" + b;
    } else {
      DashAfter(a[1..], b);
      assert (a + "-" + b)[1..] == a[1..] + "-" + b;
    }
  }

  lemma FieldRead(v: nat, width: nat, max: nat)
    requires width > 0 && v < Sixteen(width) && v <= max
    ensures FromRadix(Hex(v, width), max) == Some(v)
  {
    HexRead(v, width);
  }

  lemma FieldOff(x: string, a: string)
    ensures var s := x + "-" + a; s[..|x|] == x && s[|x| + 1..] == a
  {
  }

  /** Formatting and parsing again gives the same clock. */
  lemma ParseFormat(c: Clock)
    ensures Parse(Format(c)) == Some(c)
  {
    hide Hex, HexValue, FromRadix, Dash;
    Widths();
    HexRead(c.wall, 16);
    HexRead(c.counter, 8);
    HexRead(c.device, 32);
    FieldRead(c.wall, 16, 0xFFFF_FFFF_FFFF_FFFF);
    FieldRead(c.counter, 8, COUNTER_MAX);
    var w, n, d := Hex(c.wall, 16), Hex(c.counter, 8), Hex(c.device, 32);
    FormatTail(c);
    DashAfter(w, Tail(c));
    DashAfter(n, d);
    FieldOff(w, Tail(c));
    FieldOff(n, d);
  }

  // ---- order ----

  /** The order of strings. */
  predicate Lex(a: string, b: string) {
    if b == "" then false
    else if a == "" then true
    else if a[0] != b[0] then a[0] < b[0]
    else Lex(a[1..], b[1..])
  }

  lemma {:induction false} LexSame(a: string)
    ensures !Lex(a, a)
  {
    if a != "" {
      LexSame(a[1..]);
    }
  }

  /** The first of two fields of equal width decides. */
  lemma {:induction false} LexFields(a: string, x: string, b: string, y: string)
    requires |a| == |b|
    ensures Lex(a + x, b + y) <==> Lex(a, b) || (a == b && Lex(x, y))
  {
    if a == "" {
      assert a + x == x && b + y == y;
    } else {
      assert (a + x)[1..] == a[1..] + x && (b + y)[1..] == b[1..] + y;
      LexFields(a[1..], x, b[1..], y);
      assert a == [a[0]] + a[1..] && b == [b[0]] + b[1..];
    }
  }

  lemma {:induction false} HexOrder(v: nat, u: nat, width: nat)
    requires v < Sixteen(width) && u < Sixteen(width)
    ensures Lex(Hex(v, width), Hex(u, width)) <==> v < u
    ensures Hex(v, width) == Hex(u, width) <==> v == u
  {
    if width > 0 {
      HexOrder(v / 16, u / 16, width - 1);
      DigitOrder(v % 16, u % 16);
      LexFields(Hex(v / 16, width - 1), [Digit(v % 16)], Hex(u / 16, width - 1), [Digit(u % 16)]);
      LexOne(Digit(v % 16), Digit(u % 16));
      LastDigit(v, width);
      LastDigit(u, width);
    }
  }

  lemma LexOne(a: char, b: char)
    ensures Lex([a], [b]) <==> a < b
  {
    assert [a][1..] == "" && [b][1..] == "";
  }

  lemma LastDigit(v: nat, width: nat)
    requires width > 0
    ensures Hex(v, width)[..width - 1] == Hex(v / 16, width - 1) && Hex(v, width)[width - 1] == Digit(v % 16)
  {
  }

  function Tail(c: Clock): (s: string) {
    Hex(c.counter, 8) + "-" + Hex(c.device, 32)
  }

  /** A field, a dash and what follows. */
  lemma DashOrder(x: string, a: string, y: string, b: string)
    requires |x| == |y|
    ensures Lex(x + "-" + a, y + "-" + b) <==> Lex(x, y) || (x == y && Lex(a, b))
  {
    hide Lex;
    assert x + "-" + a == x + ("-" + a) && y + "-" + b == y + ("-" + b);
    LexFields(x, "-" + a, y, "-" + b);
    LexFields("-", a, "-", b);
    LexSame("-");
  }

  /** The order of the strings is the order of the clocks. */
  lemma FormatOrder(a: Clock, b: Clock)
    ensures Lex(Format(a), Format(b)) <==> Precedes(a, b)
  {
    hide Hex, Lex;
    Widths();
    HexOrder(a.wall, b.wall, 16);
    HexOrder(a.counter, b.counter, 8);
    HexOrder(a.device, b.device, 32);
    FormatTail(a);
    FormatTail(b);
    DashOrder(Hex(a.wall, 16), Tail(a), Hex(b.wall, 16), Tail(b));
    DashOrder(Hex(a.counter, 8), Hex(a.device, 32), Hex(b.counter, 8), Hex(b.device, 32));
  }

  lemma FormatTail(c: Clock)
    ensures Format(c) == Hex(c.wall, 16) + "-" + Tail(c)
  {
    hide Hex;
  }
}
