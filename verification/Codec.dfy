/** Lossless codecs for typed scalar columns. Scalars are handled by their bits; the PCO
    library is a parameter, used only through the facts stated in `Pco`. */
module Codec {
  import opened Bytes
  import opened Results

  datatype DType = U8 | I8 | U16 | I16 | U32 | I32 | U64 | I64 | F32 | F64 {
    function Width(): (w: nat)
      ensures w == 1 || w == 2 || w == 4 || w == 8
    {
      match this
      case U8 => 1
      case I8 => 1
      case U16 => 2
      case I16 => 2
      case U32 => 4
      case I32 => 4
      case F32 => 4
      case _ => 8
    }

    function Code(): (b: u8) {
      match this
      case U8 => 1
      case I8 => 2
      case U16 => 3
      case I16 => 4
      case U32 => 5
      case I32 => 6
      case U64 => 7
      case I64 => 8
      case F32 => 9
      case F64 => 10
    }
  }

  function DTypeOf(b: u8): (r: Result<DType>)
    ensures r.Ok? ==> r.value.Code() == b
    ensures r.Err? ==> forall t: DType :: t.Code() != b
  {
    if b == 1 then Ok(U8)
    else if b == 2 then Ok(I8)
    else if b == 3 then Ok(U16)
    else if b == 4 then Ok(I16)
    else if b == 5 then Ok(U32)
    else if b == 6 then Ok(I32)
    else if b == 7 then Ok(U64)
    else if b == 8 then Ok(I64)
    else if b == 9 then Ok(F32)
    else if b == 10 then Ok(F64)
    else Err(Unsupported)
  }

  datatype Encoding = Raw | Pco8 {
    function Id(): (n: u16) {
      if Raw? then 0 else 2
    }

    function Params(): (s: seq<u8>)
      ensures 0 < |s| <= 3
    {
      if Raw? then [0xA1, 0, 0xF4] else [0xA0]
    }
  }

  /** One step of the PCO stream reader: the end of the stream with what follows it, or a
      block announcing `count` numbers, the numbers it then delivers, and the remaining
      bytes. */
  datatype Step =
    | Broken
    | EndOfData(rest: seq<u8>)
    | Block(count: nat, numbers: seq<u64>, finished: bool, rest: seq<u8>)

  /** The PCO library. */
  datatype Pco = Pco(
    compress: (DType, seq<u64>) -> Option<seq<u8>>,
    open: seq<u8> -> Option<seq<u8>>,
    next: (DType, seq<u8>) -> Step)
  {
    /** Every block takes up bytes of the stream. */
    ghost predicate Progresses() {
      forall t, src :: next(t, src).Block? ==> |next(t, src).rest| < |src|
    }

    /** All the numbers of a stream, block after block, and the bytes after its end. */
    function Stream(t: DType, src: seq<u8>): (r: Option<(seq<u64>, seq<u8>)>)
      requires Progresses()
      decreases |src|
    {
      match next(t, src)
      case Broken => None
      case EndOfData(rest) => Some(([], rest))
      case Block(count, numbers, finished, rest) =>
        if !finished || |numbers| != count then None
        else
          match Stream(t, rest)
          case None => None
          case Some((more, tail)) => Some((numbers + more, tail))
    }

    /** The library decompresses what it compressed, for numbers of the type's width. */
    ghost predicate Inverts()
      requires Progresses()
    {
      forall t: DType, numbers: seq<u64> ::
        (forall i :: 0 <= i < |numbers| ==> numbers[i] < Radix(t.Width())) && compress(t, numbers).Some? ==>
          var src := open(compress(t, numbers).value);
          src.Some? && Stream(t, src.value) == Some((numbers, []))
    }
  }

  // ---- scalars and their bytes ----

  lemma GroupFits(n: nat, w: nat)
    requires (w == 1 || w == 2 || w == 4 || w == 8) && n % w == 0 && n > 0
    ensures n >= w && (n - w) % w == 0
  {
    if w == 1 {
    } else if w == 2 {
    } else if w == 4 {
    } else {
    }
  }

  function Split(values: seq<u8>, w: nat): (numbers: seq<u64>)
    requires w == 1 || w == 2 || w == 4 || w == 8
    requires |values| % w == 0
    ensures |numbers| * w == |values|
    ensures forall i :: 0 <= i < |numbers| ==> numbers[i] < Radix(w)
    decreases |values|
  {
    if values == [] then []
    else
      GroupFits(|values|, w);
      RadixValues();
      FromLittleEndianBound(values[..w]);
      [FromLittleEndian(values[..w])] + Split(values[w..], w)
  }

  function Join(numbers: seq<u64>, w: nat): (values: seq<u8>)
    ensures |values| == |numbers| * w
  {
    if numbers == [] then [] else LittleEndian(w, numbers[0]) + Join(numbers[1..], w)
  }

  lemma {:induction false} JoinSplit(values: seq<u8>, w: nat)
    requires (w == 1 || w == 2 || w == 4 || w == 8) && |values| % w == 0
    ensures Join(Split(values, w), w) == values
    decreases |values|
  {
    hide LittleEndian, FromLittleEndian;
    if values != [] {
      GroupFits(|values|, w);
      JoinSplit(values[w..], w);
      WriteLittleEndian(values[..w]);
      var numbers := Split(values, w);
      assert numbers[0] == FromLittleEndian(values[..w]) && numbers[1..] == Split(values[w..], w);
      assert values == values[..w] + values[w..];
    }
  }

  // ---- compression ----

  function Compress(pco: Pco, t: DType, values: seq<u8>, encoding: Encoding): (r: Result<seq<u8>>) {
    if |values| % t.Width() != 0 then Err(InvalidData)
    else if encoding.Raw? then Ok(values)
    else
      match pco.compress(t, Split(values, t.Width()))
      case None => Err(Compression)
      case Some(payload) => Ok(payload)
  }

  /** What the block loop computes: the numbers of one complete stream of the right length. */
  function NumbersOf(pco: Pco, t: DType, payload: seq<u8>, count: nat): (r: Option<seq<u64>>)
    requires pco.Progresses()
    ensures r.Some? ==> |r.value| == count
  {
    match pco.open(payload)
    case None => None
    case Some(src) =>
      match pco.Stream(t, src)
      case None => None
      case Some((numbers, tail)) => if tail == [] && |numbers| == count then Some(numbers) else None
  }

  function Decompress(pco: Pco, t: DType, payload: seq<u8>, count: nat): (r: Result<seq<u8>>)
    requires pco.Progresses()
    ensures r.Ok? ==> |r.value| == count * t.Width()
  {
    match NumbersOf(pco, t, payload, count)
    case None => Err(InvalidData)
    case Some(numbers) => Ok(Join(numbers, t.Width()))
  }

  /** The block loop, which never holds more than `count` numbers. */
  method DecodeNumbers(pco: Pco, t: DType, payload: seq<u8>, count: nat) returns (r: Result<seq<u64>>)
    requires pco.Progresses()
    ensures r.Ok? <==> NumbersOf(pco, t, payload, count).Some?
    ensures r.Ok? ==> r.value == NumbersOf(pco, t, payload, count).value
  {
    var stream := pco.open(payload);
    if stream.None? {
      return Err(Compression);
    }
    var src := stream.value;
    var values: seq<u64> := [];
    BeforeNothing(pco.Stream(t, src));
    while true
      invariant |values| <= count
      invariant pco.Stream(t, stream.value) == Before(values, pco.Stream(t, src))
      decreases |src|
    {
      ghost var ahead := pco.Stream(t, src);
      match pco.next(t, src) {
        case Broken =>
          return Err(Compression);
        case EndOfData(rest) =>
          assert values + [] == values;
          if rest != [] || |values| != count {
            return Err(InvalidData);
          }
          return Ok(values);
        case Block(n, numbers, finished, rest) =>
          BeforeBlock(values, numbers, pco.Stream(t, rest));
          if |values| + n > count {
            return Err(InvalidData);
          }
          if !finished || |numbers| != n {
            return Err(InvalidData);
          }
          values := values + numbers;
          src := rest;
      }
    }
  }

  ghost function Before(values: seq<u64>, rest: Option<(seq<u64>, seq<u8>)>): (r: Option<(seq<u64>, seq<u8>)>) {
    if rest.None? then None else Some((values + rest.value.0, rest.value.1))
  }

  lemma BeforeNothing(rest: Option<(seq<u64>, seq<u8>)>)
    ensures Before([], rest) == rest
  {
    if rest.Some? {
      assert [] + rest.value.0 == rest.value.0;
    }
  }

  lemma BeforeBlock(values: seq<u64>, numbers: seq<u64>, rest: Option<(seq<u64>, seq<u8>)>)
    ensures rest.Some? ==>
              Before(values, Some((numbers + rest.value.0, rest.value.1))) == Before(values + numbers, rest)
  {
    if rest.Some? {
      Assoc(values, numbers, rest.value.0);
    }
  }

  /** Decompressing gives back the compressed bytes, for every type and encoding. */
  lemma CodecRoundTrip(pco: Pco, t: DType, values: seq<u8>, count: nat)
    requires pco.Progresses() && pco.Inverts()
    requires Compress(pco, t, values, Pco8).Ok? && |values| == count * t.Width()
    ensures Decompress(pco, t, Compress(pco, t, values, Pco8).value, count) == Ok(values)
  {
    hide Split, Join, Pco.Stream, Radix;
    var w := t.Width();
    WholeGroups(count, w);
    var numbers := Split(values, w);
    SameCount(|numbers|, count, w);
    JoinSplit(values, w);
  }

  lemma {:induction false} WholeGroups(count: nat, w: nat)
    requires w == 1 || w == 2 || w == 4 || w == 8
    ensures (count * w) % w == 0
  {
    if count > 0 {
      WholeGroups(count - 1, w);
      assert count * w == (count - 1) * w + w;
      NextGroup((count - 1) * w, w);
    }
  }

  lemma NextGroup(n: nat, w: nat)
    requires (w == 1 || w == 2 || w == 4 || w == 8) && n % w == 0
    ensures (n + w) % w == 0
  {
    if w == 1 {
    } else if w == 2 {
    } else if w == 4 {
    } else {
    }
  }

  lemma SameCount(a: nat, b: nat, w: nat)
    requires (w == 1 || w == 2 || w == 4 || w == 8) && a * w == b * w
    ensures a == b
  {
    if w == 1 {
    } else if w == 2 {
    } else if w == 4 {
    } else {
    }
  }
}
