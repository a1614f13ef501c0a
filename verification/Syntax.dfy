/** The concrete syntax of definite-length CBOR data items (section 3 of RFC 8949),
    restricted to the item kinds the ink format supports: no tags, no indefinite
    lengths, and of major type 7 only false, true, null and the three float widths.

    An `Item` keeps how its argument was written, so that `Print` reaches every
    well-formed byte string and not only the shortest ones. */
module Syntax {
  import opened Bytes

  /** How many bytes follow the initial byte to hold the argument. */
  datatype Width = Inline | One | Two | Four | Eight {
    function Size(): (n: nat)
      ensures n <= 8
    {
      match this case Inline => 0 case One => 1 case Two => 2 case Four => 4 case Eight => 8
    }

    /** The additional information of an initial byte announcing this width. */
    function Info(arg: u64): (info: nat)
      requires Fits(arg)
      ensures info < 28
    {
      match this case Inline => arg case One => 24 case Two => 25 case Four => 26 case Eight => 27
    }

    predicate Fits(arg: int) {
      if Inline? then 0 <= arg <= 23 else 0 <= arg < Radix(Size())
    }
  }

  datatype Item =
    | Unsigned(width: Width, arg: u64)
    | Negative(width: Width, arg: u64)
    | ByteString(width: Width, data: seq<u8>)
    | TextString(width: Width, data: seq<u8>)
    | List(width: Width, items: seq<Item>)
    | Table(width: Width, entries: seq<Item>) // keys and values alternate
    | Simple(code: u8)
    | FloatBits(width: Width, arg: u64)
  {
    predicate Valid() {
      match this
      case Unsigned(w, a) => w.Fits(a)
      case Negative(w, a) => w.Fits(a)
      case ByteString(w, d) => |d| <= USIZE_MAX && w.Fits(|d|)
      case TextString(w, d) => |d| <= USIZE_MAX && w.Fits(|d|)
      case List(w, ts) => |ts| <= USIZE_MAX && w.Fits(|ts|) && AllValid(ts)
      case Table(w, ts) =>
        |ts| % 2 == 0 && |ts| / 2 <= USIZE_MAX && w.Fits(|ts| / 2) && AllValid(ts)
      case Simple(c) => 20 <= c <= 22
      case FloatBits(w, a) => (w.Two? || w.Four? || w.Eight?) && w.Fits(a)
    }

    /** Nesting below this item: 0 for an item without children. */
    function Depth(): (d: nat) {
      match this
      case List(_, ts) => if ts == [] then 0 else 1 + MaxDepth(ts)
      case Table(_, ts) => if ts == [] then 0 else 1 + MaxDepth(ts)
      case _ => 0
    }

    /** The number of data items, this one included. */
    function Count(): (n: nat)
      ensures n >= 1
    {
      match this
      case List(_, ts) => 1 + CountAll(ts)
      case Table(_, ts) => 1 + CountAll(ts)
      case _ => 1
    }
  }

  predicate AllValid(ts: seq<Item>) {
    ts == [] || (ts[0].Valid() && AllValid(ts[1..]))
  }

  function MaxDepth(ts: seq<Item>): (d: nat) {
    if ts == [] then 0
    else
      var rest := MaxDepth(ts[1..]);
      if ts[0].Depth() > rest then ts[0].Depth() else rest
  }

  function CountAll(ts: seq<Item>): (n: nat)
    ensures n >= |ts|
  {
    if ts == [] then 0 else ts[0].Count() + CountAll(ts[1..])
  }

  // ---- printing ----

  function Head(major: nat, width: Width, arg: u64): (s: seq<u8>)
    requires major < 8 && width.Fits(arg)
    ensures |s| == 1 + width.Size()
  {
    [major * 32 + width.Info(arg)] + BigEndian(width.Size(), arg)
  }

  datatype HeadOf = HeadOf(major: nat, width: Width, arg: u64)

  /** The initial byte and argument of an item. */
  function HeadOfItem(t: Item): (h: HeadOf)
    requires t.Valid()
    ensures h.major < 8 && h.width.Fits(h.arg)
  {
    match t
    case Unsigned(w, a) => HeadOf(0, w, a)
    case Negative(w, a) => HeadOf(1, w, a)
    case ByteString(w, d) => HeadOf(2, w, |d|)
    case TextString(w, d) => HeadOf(3, w, |d|)
    case List(w, ts) => HeadOf(4, w, |ts|)
    case Table(w, ts) => HeadOf(5, w, |ts| / 2)
    case Simple(c) => HeadOf(7, Inline, c)
    case FloatBits(w, a) => HeadOf(7, w, a)
  }

  function Print(t: Item): (s: seq<u8>)
    requires t.Valid()
    ensures |s| >= 1
    decreases t, 1
  {
    var h := HeadOfItem(t);
    Head(h.major, h.width, h.arg) + Content(t)
  }

  /** What follows the head: string bytes or nested items. */
  function Content(t: Item): (s: seq<u8>)
    requires t.Valid()
    decreases t, 0
  {
    match t
    case ByteString(_, d) => d
    case TextString(_, d) => d
    case List(_, ts) => PrintAll(ts)
    case Table(_, ts) => PrintAll(ts)
    case _ => []
  }

  function PrintAll(ts: seq<Item>): (s: seq<u8>)
    requires AllValid(ts)
    decreases ts
  {
    if ts == [] then [] else Print(ts[0]) + PrintAll(ts[1..])
  }

  // ---- parsing ----

  datatype Parsed<+T> = Bad | Good(value: T, rest: seq<u8>)

  function WidthOf(info: nat): (w: Width)
    requires info < 28
  {
    if info == 24 then One else if info == 25 then Two else if info == 26 then Four
    else if info == 27 then Eight else Inline
  }

  function ReadHead(s: seq<u8>): (r: Parsed<HeadOf>)
    ensures r.Good? ==> |r.rest| < |s| && r.value.major < 8 && r.value.width.Fits(r.value.arg)
  {
    if s == [] || s[0] % 32 > 27 then Bad
    else
      var w := WidthOf(s[0] % 32);
      if |s| < 1 + w.Size() then Bad
      else
        var arg := if w.Inline? then s[0] % 32 else FromBigEndian(s[1..1 + w.Size()]);
        RadixValues();
        FromBigEndianBound(s[1..1 + w.Size()]);
        Good(HeadOf(s[0] / 32, w, arg), s[1 + w.Size()..])
  }

  function Parse(s: seq<u8>): (r: Parsed<Item>)
    ensures r.Good? ==> |r.rest| < |s|
    decreases |s|, 0, 0
  {
    match ReadHead(s)
    case Bad => Bad
    case Good(h, rest) => ParseContent(h, rest)
  }

  function ParseContent(h: HeadOf, rest: seq<u8>): (r: Parsed<Item>)
    ensures r.Good? ==> |r.rest| <= |rest|
    decreases |rest|, 2, 0
  {
    var HeadOf(major, w, arg) := h;
    if major == 0 then Good(Unsigned(w, arg), rest)
    else if major == 1 then Good(Negative(w, arg), rest)
    else if major == 2 then
      if |rest| < arg then Bad else Good(ByteString(w, rest[..arg]), rest[arg..])
    else if major == 3 then
      if |rest| < arg then Bad else Good(TextString(w, rest[..arg]), rest[arg..])
    else if major == 4 then
      match ParseAll(arg, rest)
      case Bad => Bad
      case Good(ts, tail) => Good(List(w, ts), tail)
    else if major == 5 then
      match ParseAll(2 * arg, rest)
      case Bad => Bad
      case Good(ts, tail) => Good(Table(w, ts), tail)
    else if major == 7 && w.Inline? && 20 <= arg <= 22 then Good(Simple(arg), rest)
    else if major == 7 && (w.Two? || w.Four? || w.Eight?) then Good(FloatBits(w, arg), rest)
    else Bad
  }

  function ParseAll(n: nat, s: seq<u8>): (r: Parsed<seq<Item>>)
    ensures r.Good? ==> |r.value| == n && n + |r.rest| <= |s|
    decreases |s|, 1, n
  {
    if n == 0 then Good([], s)
    else
      match Parse(s)
      case Bad => Bad
      case Good(t, rest) =>
        match ParseAll(n - 1, rest)
        case Bad => Bad
        case Good(ts, tail) => Good([t] + ts, tail)
  }

  // ---- parsing and printing are inverse ----

  lemma ParseHead(major: nat, w: Width, arg: u64, rest: seq<u8>)
    requires major < 8 && w.Fits(arg)
    ensures ReadHead(Head(major, w, arg) + rest) == Good(HeadOf(major, w, arg), rest)
  {
    var s := Head(major, w, arg) + rest;
    var info := w.Info(arg);
    assert s[0] == major * 32 + info;
    assert s[0] % 32 == info && s[0] / 32 == major;
    assert WidthOf(info) == w;
    assert s[1..1 + w.Size()] == BigEndian(w.Size(), arg);
    assert s[1 + w.Size()..] == rest;
    if !w.Inline? {
      ReadBigEndian(w.Size(), arg);
    }
  }

  lemma PrintHead(s: seq<u8>)
    requires ReadHead(s).Good?
    ensures var h := ReadHead(s).value;
            s == Head(h.major, h.width, h.arg) + ReadHead(s).rest
  {
    var h := ReadHead(s).value;
    var n := h.width.Size();
    WriteBigEndian(s[1..1 + n]);
    assert s[0] == h.major * 32 + s[0] % 32;
    assert BigEndian(n, h.arg) == s[1..1 + n];
    assert s == [s[0]] + s[1..1 + n] + s[1 + n..];
  }

  lemma {:induction false} ParsePrint(t: Item, rest: seq<u8>)
    requires t.Valid()
    ensures Parse(Print(t) + rest) == Good(t, rest)
    decreases t, 1
  {
    var h := HeadOfItem(t);
    Assoc(Head(h.major, h.width, h.arg), Content(t), rest);
    ParseHead(h.major, h.width, h.arg, Content(t) + rest);
    ParsePrintContent(t, rest);
  }

  lemma {:induction false} ParsePrintContent(t: Item, rest: seq<u8>)
    requires t.Valid()
    ensures ParseContent(HeadOfItem(t), Content(t) + rest) == Good(t, rest)
    decreases t, 0
  {
    hide Parse, ParseAll, Print, PrintAll;
    if t.List? {
      ParsePrintAll(t.items, rest);
    } else if t.Table? {
      ParsePrintAll(t.entries, rest);
    } else if t.ByteString? || t.TextString? {
      SplitAt(t.data, rest);
    } else {
      assert Content(t) + rest == rest;
    }
  }

  lemma {:induction false} ParsePrintAll(ts: seq<Item>, rest: seq<u8>)
    requires AllValid(ts)
    ensures ParseAll(|ts|, PrintAll(ts) + rest) == Good(ts, rest)
    decreases ts
  {
    if ts == [] {
      assert [] + rest == rest;
    } else {
      var t, us := ts[0], ts[1..];
      Assoc(Print(t), PrintAll(us), rest);
      ParsePrint(t, PrintAll(us) + rest);
      ParsePrintAll(us, rest);
      ParseAllStep(|ts|, Print(t) + (PrintAll(us) + rest));
      assert [t] + us == ts;
    }
  }

  lemma ParseAllStep(n: nat, s: seq<u8>)
    requires n > 0 && Parse(s).Good?
    ensures ParseAll(n, s) == (match ParseAll(n - 1, Parse(s).rest)
                               case Bad => Bad
                               case Good(ts, tail) => Good([Parse(s).value] + ts, tail))
  {
  }

  lemma {:induction false} PrintParse(s: seq<u8>)
    requires |s| <= USIZE_MAX && Parse(s).Good?
    ensures Parse(s).value.Valid()
    ensures s == Print(Parse(s).value) + Parse(s).rest
    decreases |s|, 0, 0
  {
    PrintHead(s);
    var h := ReadHead(s).value;
    PrintParseContent(h, ReadHead(s).rest);
    Assoc(Head(h.major, h.width, h.arg), Content(Parse(s).value), Parse(s).rest);
  }

  lemma {:induction false} PrintParseContent(h: HeadOf, rest: seq<u8>)
    requires |rest| <= USIZE_MAX && h.major < 8 && h.width.Fits(h.arg) && ParseContent(h, rest).Good?
    ensures var t := ParseContent(h, rest).value;
            t.Valid() && HeadOfItem(t) == h && rest == Content(t) + ParseContent(h, rest).rest
    decreases |rest|, 2, 0
  {
    if h.major == 4 {
      PrintParseAll(h.arg, rest);
      ListIsValid(h.width, ParseAll(h.arg, rest).value);
    } else if h.major == 5 {
      PrintParseAll(2 * h.arg, rest);
      TableIsValid(h.width, h.arg, ParseAll(2 * h.arg, rest).value);
    } else {
      PrintParseScalar(h, rest);
    }
  }

  lemma PrintParseScalar(h: HeadOf, rest: seq<u8>)
    requires |rest| <= USIZE_MAX && h.major < 8 && h.width.Fits(h.arg) && ParseContent(h, rest).Good?
    requires h.major != 4 && h.major != 5
    ensures var t := ParseContent(h, rest).value;
            t.Valid() && HeadOfItem(t) == h && rest == Content(t) + ParseContent(h, rest).rest
  {
    if h.major == 2 || h.major == 3 {
      assert rest == rest[..h.arg] + rest[h.arg..];
    } else {
      assert rest == [] + rest;
    }
  }

  lemma ListIsValid(w: Width, ts: seq<Item>)
    requires AllValid(ts) && |ts| <= USIZE_MAX && w.Fits(|ts|)
    ensures List(w, ts).Valid() && HeadOfItem(List(w, ts)) == HeadOf(4, w, |ts|)
    ensures Content(List(w, ts)) == PrintAll(ts)
  {
  }

  lemma TableIsValid(w: Width, n: u64, ts: seq<Item>)
    requires AllValid(ts) && |ts| == 2 * n && w.Fits(n)
    ensures Table(w, ts).Valid() && HeadOfItem(Table(w, ts)) == HeadOf(5, w, n)
    ensures Content(Table(w, ts)) == PrintAll(ts)
  {
  }

  lemma {:induction false} PrintParseAll(n: nat, s: seq<u8>)
    requires |s| <= USIZE_MAX && ParseAll(n, s).Good?
    ensures AllValid(ParseAll(n, s).value)
    ensures s == PrintAll(ParseAll(n, s).value) + ParseAll(n, s).rest
    decreases |s|, 1, n
  {
    hide ParseContent, Content;
    if n == 0 {
      assert s == [] + s;
    } else {
      PrintParse(s);
      var t, rest := Parse(s).value, Parse(s).rest;
      PrintParseAll(n - 1, rest);
      ParseAllStep(n, s);
      var us, tail := ParseAll(n - 1, rest).value, ParseAll(n - 1, rest).rest;
      PrintCons(t, us);
      Assoc(Print(t), PrintAll(us), tail);
    }
  }

  lemma PrintCons(t: Item, us: seq<Item>)
    requires t.Valid() && AllValid(us)
    ensures AllValid([t] + us)
    ensures PrintAll([t] + us) == Print(t) + PrintAll(us)
  {
    assert ([t] + us)[1..] == us;
  }
}
