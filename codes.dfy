/**
 * The symbol alphabet of the Gree infrared protocol, the decoder's error
 * taxonomy, and a cursor over a received symbol sequence.
 *
 * A received or transmitted frame is a sequence of `Code`s: three framing
 * markers, which never carry data, and the two pulse classes `Short` (bit 0)
 * and `Long` (bit 1). Unsigned 8-bit integers of the source are `bv8` here,
 * so that `|`, `&`, `<<` and `>>` keep their machine meaning.
 */
module Codes {

  datatype Code = Start | Continue | End | Short | Long {
    /** A framing marker: it carries no bit. */
    predicate IsMarker() {
      Start? || Continue? || End?
    }
  }

  datatype DecodeError =
    | InvalidMarker
    | UnexpectedMarker
    | InvalidMode
    | InvalidTimerSetting
    | InvalidFan
    | InvalidTemperature
    | InvalidSwingMode   // declared by the protocol, never produced by a decoder
    | InvalidMagic(block: bv8)
    | Eof
    | Checksum(nibbles: bv8)

  datatype Option<+T> = None | Some(value: T)

  /** The outcome of a decoding step; usable with `:-`. */
  datatype Result<+T> = Ok(value: T) | Err(error: DecodeError) {
    predicate IsFailure() {
      Err?
    }

    function PropagateFailure<U>(): Result<U>
      requires Err?
    {
      Err(error)
    }

    function Extract(): T
      requires Ok?
    {
      value
    }
  }

  /** `Code::from(bool)`: total, `true` is `Long` and `false` is `Short`. */
  function FromBool(b: bool): (c: Code)
    ensures !c.IsMarker()
    ensures c.Long? <==> b
  {
    if b then Long else Short
  }

  /** `TryInto<u8> for Code`: 1 for `Long`, 0 for `Short`, an error for a marker. */
  function ToBit(c: Code): (r: Result<bv8>)
    ensures r.Err? <==> c.IsMarker()
    ensures r.Err? ==> r.error == UnexpectedMarker
    ensures r.Ok? ==> r.value <= 1 && FromBool(r.value == 1) == c
  {
    match c
    case Start | Continue | End => Err(UnexpectedMarker)
    case Short => Ok(0)
    case Long => Ok(1)
  }

  /** `TryInto<bool> for Code`: `true` for `Long`, `false` for `Short`, an error for a marker. */
  function ToBool(c: Code): (r: Result<bool>)
    ensures r.Err? <==> c.IsMarker()
    ensures r.Err? ==> r.error == UnexpectedMarker
    ensures r.Ok? ==> FromBool(r.value) == c
  {
    match c
    case Start | Continue | End => Err(UnexpectedMarker)
    case Short => Ok(false)
    case Long => Ok(true)
  }

  /** Both projections invert `FromBool`, and agree with each other. */
  lemma FromBoolRoundTrip(b: bool)
    ensures ToBool(FromBool(b)) == Ok(b)
    ensures ToBit(FromBool(b)) == Ok(if b then 1 else 0)
  {
  }

  /**
   * What `iter.next().ok_or(Eof)?.try_into::<u8>()?` yields when the cursor
   * stands at `pos`: `Eof` past the end, `UnexpectedMarker` on a marker.
   */
  function BitAt(codes: seq<Code>, pos: nat): (r: Result<bv8>)
    ensures r == Err(Eof) <==> pos >= |codes|
    ensures r == Err(UnexpectedMarker) <==> pos < |codes| && codes[pos].IsMarker()
    ensures r.Ok? ==> r.value <= 1 && codes[pos] == FromBool(r.value == 1)
  {
    if pos < |codes| then ToBit(codes[pos]) else Err(Eof)
  }

  /** What `iter.next().ok_or(Eof)?.try_into::<bool>()?` yields at `pos`. */
  function BoolAt(codes: seq<Code>, pos: nat): (r: Result<bool>)
    ensures r == Err(Eof) <==> pos >= |codes|
    ensures r == Err(UnexpectedMarker) <==> pos < |codes| && codes[pos].IsMarker()
    ensures r.Ok? ==> codes[pos] == FromBool(r.value)
  {
    if pos < |codes| then ToBool(codes[pos]) else Err(Eof)
  }

  /**
   * A single-pass iterator over a symbol sequence: the `&mut impl Iterator`
   * that every decoder advances.
   */
  class Cursor {
    const codes: seq<Code>
    var pos: nat

    ghost predicate Valid()
      reads this
    {
      pos <= |codes|
    }

    constructor (codes: seq<Code>)
      ensures Valid()
      ensures this.codes == codes && pos == 0
    {
      this.codes := codes;
      pos := 0;
    }

    /** `Iterator::next`: the next symbol, or `None` once the sequence is exhausted. */
    method Next() returns (c: Option<Code>)
      requires Valid()
      modifies this
      ensures Valid()
      ensures old(pos) < |codes| ==> c == Some(codes[old(pos)]) && pos == old(pos) + 1
      ensures old(pos) == |codes| ==> c == None && pos == old(pos)
    {
      if pos < |codes| {
        c := Some(codes[pos]);
        pos := pos + 1;
      } else {
        c := None;
      }
    }

    /** `Iterator::nth(n)`: skips `n` symbols without looking at them, then yields the next one. */
    method Nth(n: nat) returns (c: Option<Code>)
      requires Valid()
      modifies this
      ensures Valid()
      ensures old(pos) + n < |codes| ==> c == Some(codes[old(pos) + n]) && pos == old(pos) + n + 1
      ensures old(pos) + n >= |codes| ==> c == None && pos == |codes|
    {
      var k := 0;
      while k < n
        invariant Valid()
        invariant 0 <= k <= n
        invariant pos == if old(pos) + k <= |codes| then old(pos) + k else |codes|
      {
        var _ := Next();
        k := k + 1;
      }
      c := Next();
    }
  }

  /** `iter.next().ok_or(Eof)?.try_into::<u8>()?` */
  method NextBit(it: Cursor) returns (r: Result<bv8>)
    requires it.Valid()
    modifies it
    ensures it.Valid()
    ensures r == BitAt(it.codes, old(it.pos))
    ensures it.pos == if old(it.pos) < |it.codes| then old(it.pos) + 1 else old(it.pos)
  {
    var c := it.Next();
    if c.None? {
      return Err(Eof);
    }
    r := ToBit(c.value);
  }

  /** `iter.next().ok_or(Eof)?.try_into::<bool>()?` */
  method NextBool(it: Cursor) returns (r: Result<bool>)
    requires it.Valid()
    modifies it
    ensures it.Valid()
    ensures r == BoolAt(it.codes, old(it.pos))
    ensures it.pos == if old(it.pos) < |it.codes| then old(it.pos) + 1 else old(it.pos)
  {
    var c := it.Next();
    if c.None? {
      return Err(Eof);
    }
    r := ToBool(c.value);
  }
}
