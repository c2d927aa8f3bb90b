/**
 * Fixed-width unsigned fields carried as symbols, least significant bit
 * first: the packing policy shared by every attribute codec and by the
 * frame checksum.
 */
module BitFields {
  import opened Codes

  /** The weight of bit `i`: `1 << i`, by doubling; `WeightTable` lists the values. */
  function Weight(i: nat): bv8
    requires i < 8
  {
    if i == 0 then 1 else Weight(i - 1) << 1
  }

  /** The eight weights. */
  lemma WeightTable(i: nat)
    requires i < 8
    ensures Weight(i) == if i == 0 then 0x01 else if i == 1 then 0x02 else if i == 2 then 0x04
      else if i == 3 then 0x08 else if i == 4 then 0x10 else if i == 5 then 0x20
      else if i == 6 then 0x40 else 0x80
  {
    if i == 0 {
    } else if i == 1 {
      assert Weight(1) == 0x02;
    } else if i == 2 {
      assert Weight(2) == 0x04;
    } else if i == 3 {
      assert Weight(3) == 0x08;
    } else if i == 4 {
      assert Weight(4) == 0x10;
    } else if i == 5 {
      assert Weight(5) == 0x20;
    } else if i == 6 {
      assert Weight(6) == 0x40;
    } else {
      assert Weight(7) == 0x80;
    }
  }

  /** `t << i` for a bit `t`, the step of every decoding loop. */
  function Placed(t: bv8, i: nat): bv8
    requires t <= 1 && i < 8
  {
    if t == 0 then 0 else Weight(i)
  }

  /** The `n` low bits of a byte set: `(1 << n) - 1`. */
  function Mask(n: nat): bv8
    requires n <= 8
  {
    if n == 8 then 0xFF else Weight(n) - 1
  }

  /** Whether `a` fits in `n` bits. */
  predicate FitsIn(a: bv8, n: nat)
    requires n <= 8
  {
    a & Mask(n) == a
  }

  /** Bit `i` of `a`, which the encoders write as `a >> i & 1 != 0`. */
  function Bit(a: bv8, i: nat): bool
    requires i < 8
  {
    a & Weight(i) != 0
  }

  /** The definitions above agree with the machine shifts they stand for. */
  lemma ShiftForms(a: bv8, t: bv8, i: nat)
    requires t <= 1 && i < 8
    ensures Weight(i) == 1 << i
    ensures Placed(t, i) == t << i
    ensures Bit(a, i) == ((a >> i) & 1 != 0)
    ensures Mask(i) == (1 << i) - 1
  {
    WeightTable(i);
    if i == 0 {
    } else if i == 1 {
      assert Bit(a, 1) == ((a >> 1) & 1 != 0);
    } else if i == 2 {
      assert Bit(a, 2) == ((a >> 2) & 1 != 0);
    } else if i == 3 {
      assert Bit(a, 3) == ((a >> 3) & 1 != 0);
    } else if i == 4 {
      assert Bit(a, 4) == ((a >> 4) & 1 != 0);
    } else if i == 5 {
      assert Bit(a, 5) == ((a >> 5) & 1 != 0);
    } else if i == 6 {
      assert Bit(a, 6) == ((a >> 6) & 1 != 0);
    } else {
      assert Bit(a, 7) == ((a >> 7) & 1 != 0);
    }
  }

  /** The `n` symbols of `a`'s low `n` bits, bit 0 first. */
  function Bits(a: bv8, n: nat): (r: seq<Code>)
    requires n <= 8
    ensures |r| == n
    ensures forall i | 0 <= i < n :: r[i] == FromBool(Bit(a, i))
  {
    seq(n, i requires 0 <= i < n => FromBool(Bit(a, i)))
  }

  /**
   * Reads `n` bits starting at `pos` the way the source's decoders do:
   * `a |= t << i` for `i` in `0..n`, each `t` obtained by `BitAt`, so the
   * first symbol that is missing or is a marker decides the error, which is
   * therefore `Eof` or `UnexpectedMarker`. The rest of what it computes is
   * stated by `ReadBitsSpec`.
   */
  function ReadBits(codes: seq<Code>, pos: nat, n: nat): (r: Result<bv8>)
    requires n <= 8
    ensures r.Err? ==> r.error == Eof || r.error == UnexpectedMarker
    decreases n
  {
    if n == 0 then Ok(0)
    else
      var a :- ReadBits(codes, pos, n - 1);
      var t :- BitAt(codes, pos + n - 1);
      Ok(a | Placed(t, n - 1))
  }

  /**
   * `ReadBits` succeeds exactly when the `n` symbols are present and none is
   * a marker; it then yields an `n`-bit value whose symbols are exactly the
   * ones read. Otherwise the error is `Eof` or `UnexpectedMarker`, and only
   * the latter when all `n` symbols are present.
   */
  lemma ReadBitsSpec(codes: seq<Code>, pos: nat, n: nat)
    requires n <= 8 && pos <= |codes|
    ensures var r := ReadBits(codes, pos, n);
      && (r.Ok? <==> pos + n <= |codes| && forall i | pos <= i < pos + n :: !codes[i].IsMarker())
      && (r.Ok? ==> FitsIn(r.value, n) && codes[pos..pos + n] == Bits(r.value, n))
      && (r.Err? ==> r.error == Eof || r.error == UnexpectedMarker)
      && (r.Err? && pos + n <= |codes| ==> r.error == UnexpectedMarker)
      && (r == Err(Eof) <==> pos + n > |codes| && forall i | pos <= i < |codes| :: !codes[i].IsMarker())
  {
    ReadBitsSucceeds(codes, pos, n);
    ReadBitsSpells(codes, pos, n);
    ReadBitsErrors(codes, pos, n);
    ReadBitsEof(codes, pos, n);
  }

  /** When `ReadBits` succeeds: all `n` symbols present, none a marker. */
  lemma {:induction false} ReadBitsSucceeds(codes: seq<Code>, pos: nat, n: nat)
    requires n <= 8 && pos <= |codes|
    ensures ReadBits(codes, pos, n).Ok? <==> pos + n <= |codes| && forall i | pos <= i < pos + n :: !codes[i].IsMarker()
    decreases n
  {
    if n > 0 {
      ReadBitsSucceeds(codes, pos, n - 1);
    }
  }

  /** A successful read yields an `n`-bit value spelled by exactly the symbols read. */
  lemma {:induction false} ReadBitsSpells(codes: seq<Code>, pos: nat, n: nat)
    requires n <= 8 && pos <= |codes|
    ensures var r := ReadBits(codes, pos, n);
      r.Ok? ==> pos + n <= |codes| && FitsIn(r.value, n) && codes[pos..pos + n] == Bits(r.value, n)
    decreases n
  {
    if n > 0 {
      ReadBitsSpells(codes, pos, n - 1);
      var prefix := ReadBits(codes, pos, n - 1);
      var t := BitAt(codes, pos + n - 1);
      if prefix.Ok? && t.Ok? {
        var a, b := prefix.value, t.value;
        assert ReadBits(codes, pos, n) == Ok(a | Placed(b, n - 1));
        BitsAppend(a, b, n);
        assert codes[pos..pos + n - 1] == Bits(a, n - 1);
        assert codes[pos + n - 1] == FromBool(b == 1);
        SliceSnoc(codes, pos, n);
      }
    }
  }

  /**
   * The read runs out of symbols (`Eof`) exactly when fewer than `n` remain
   * and none of those that remain is a marker; a marker met first wins.
   */
  lemma {:induction false} ReadBitsEof(codes: seq<Code>, pos: nat, n: nat)
    requires n <= 8 && pos <= |codes|
    ensures ReadBits(codes, pos, n) == Err(Eof) <==>
      pos + n > |codes| && forall i | pos <= i < |codes| :: !codes[i].IsMarker()
    decreases n
  {
    if n > 0 {
      ReadBitsEof(codes, pos, n - 1);
      ReadBitsSucceeds(codes, pos, n - 1);
      ReadBitsErrors(codes, pos, n - 1);
    }
  }

  /** A slice is the slice one shorter followed by its last element. */
  lemma SliceSnoc(codes: seq<Code>, pos: nat, n: nat)
    requires 0 < n && pos + n <= |codes|
    ensures codes[pos..pos + n] == codes[pos..pos + n - 1] + [codes[pos + n - 1]]
  {
  }

  /** A failed read reports `Eof` or `UnexpectedMarker`, and `Eof` only when symbols are missing. */
  lemma {:induction false} ReadBitsErrors(codes: seq<Code>, pos: nat, n: nat)
    requires n <= 8
    ensures var r := ReadBits(codes, pos, n);
      && (r.Err? ==> r.error == Eof || r.error == UnexpectedMarker)
      && (r.Err? && pos + n <= |codes| ==> r.error == UnexpectedMarker)
    decreases n
  {
    if n > 0 {
      ReadBitsErrors(codes, pos, n - 1);
    }
  }

  /** Setting bit `n - 1` above an `(n - 1)`-bit value extends its symbol string by one. */
  lemma BitsAppend(a: bv8, t: bv8, n: nat)
    requires 0 < n <= 8 && FitsIn(a, n - 1) && t <= 1
    ensures FitsIn(a | Placed(t, n - 1), n)
    ensures Bits(a | Placed(t, n - 1), n) == Bits(a, n - 1) + [FromBool(t == 1)]
  {
    var b := a | Placed(t, n - 1);
    var low := Bits(a, n - 1);
    TopBitSet(a, t, n);
    forall i | 0 <= i < n
      ensures Bits(b, n)[i] == (low + [FromBool(t == 1)])[i]
    {
      if i < n - 1 {
        LowBitKept(a, t, n - 1, i);
      }
    }
  }

  /** Or-ing bit `t` at position `k` into a byte leaves the bits below `k` alone. */
  lemma LowBitKept(a: bv8, t: bv8, k: nat, i: nat)
    requires i < k < 8 && t <= 1
    ensures Bit(a | Placed(t, k), i) == Bit(a, i)
  {
    WeightTable(i);
    WeightTable(k);
  }

  /** Or-ing bit `t` at position `n - 1` into an `(n - 1)`-bit value sets bit `n - 1` to `t` and keeps it within `n` bits. */
  lemma TopBitSet(a: bv8, t: bv8, n: nat)
    requires 0 < n <= 8 && FitsIn(a, n - 1) && t <= 1
    ensures Bit(a | Placed(t, n - 1), n - 1) == (t == 1)
    ensures FitsIn(a | Placed(t, n - 1), n)
  {
    WeightTable(n - 1);
    TopBitFits(a, t, n);
  }

  /** Or-ing bit `t` at position `n - 1` into an `(n - 1)`-bit value keeps it within `n` bits. */
  lemma TopBitFits(a: bv8, t: bv8, n: nat)
    requires 0 < n <= 8 && FitsIn(a, n - 1) && t <= 1
    ensures FitsIn(a | Placed(t, n - 1), n)
  {
    WeightTable(n - 1);
    if n < 8 {
      WeightTable(n);
    }
  }

  /** Reading back the symbols of `a` yields `a`'s low `n` bits. */
  lemma {:induction false} ReadBitsOfBits(codes: seq<Code>, pos: nat, a: bv8, n: nat)
    requires n <= 8 && pos + n <= |codes|
    requires codes[pos..pos + n] == Bits(a, n)
    ensures ReadBits(codes, pos, n) == Ok(a & Mask(n))
  {
    assert forall i | pos <= i < pos + n :: codes[i] == Bits(a, n)[i - pos];
    ReadBitsSpec(codes, pos, n);
    var r := ReadBits(codes, pos, n);
    assert codes[pos..pos + n] == Bits(r.value, n);
    forall i | 0 <= i < n
      ensures Bit(r.value, i) == Bit(a, i)
    {
      assert Bits(r.value, n)[i] == Bits(a, n)[i];
    }
    SameBitsSameValue(r.value, a & Mask(n), a, n);
  }

  /** The eight bits of a byte, each by its constant weight. */
  lemma BitTable(a: bv8)
    ensures Bit(a, 0) == (a & 0x01 != 0) && Bit(a, 1) == (a & 0x02 != 0)
    ensures Bit(a, 2) == (a & 0x04 != 0) && Bit(a, 3) == (a & 0x08 != 0)
    ensures Bit(a, 4) == (a & 0x10 != 0) && Bit(a, 5) == (a & 0x20 != 0)
    ensures Bit(a, 6) == (a & 0x40 != 0) && Bit(a, 7) == (a & 0x80 != 0)
  {
  }

  /** Two `n`-bit values with the same bits are equal. */
  lemma SameBitsSameValue(x: bv8, y: bv8, a: bv8, n: nat)
    requires n <= 8 && FitsIn(x, n) && y == a & Mask(n)
    requires forall i | 0 <= i < n :: Bit(x, i) == Bit(a, i)
    ensures x == y
  {
    BitTable(x);
    BitTable(a);
    if n == 8 {
      assert Mask(8) == 0xFF;
      assert Bit(x, 0) == Bit(a, 0) && Bit(x, 1) == Bit(a, 1) && Bit(x, 2) == Bit(a, 2) && Bit(x, 3) == Bit(a, 3) && Bit(x, 4) == Bit(a, 4) && Bit(x, 5) == Bit(a, 5) && Bit(x, 6) == Bit(a, 6) && Bit(x, 7) == Bit(a, 7);
      assert x == a & 0xFF;
    } else if n == 7 {
      assert Mask(7) == 0x7F;
      assert Bit(x, 0) == Bit(a, 0) && Bit(x, 1) == Bit(a, 1) && Bit(x, 2) == Bit(a, 2) && Bit(x, 3) == Bit(a, 3) && Bit(x, 4) == Bit(a, 4) && Bit(x, 5) == Bit(a, 5) && Bit(x, 6) == Bit(a, 6);
      assert x == a & 0x7F;
    } else if n == 6 {
      assert Mask(6) == 0x3F;
      assert Bit(x, 0) == Bit(a, 0) && Bit(x, 1) == Bit(a, 1) && Bit(x, 2) == Bit(a, 2) && Bit(x, 3) == Bit(a, 3) && Bit(x, 4) == Bit(a, 4) && Bit(x, 5) == Bit(a, 5);
      assert x == a & 0x3F;
    } else if n == 5 {
      assert Mask(5) == 0x1F;
      assert Bit(x, 0) == Bit(a, 0) && Bit(x, 1) == Bit(a, 1) && Bit(x, 2) == Bit(a, 2) && Bit(x, 3) == Bit(a, 3) && Bit(x, 4) == Bit(a, 4);
      assert x == a & 0x1F;
    } else if n == 4 {
      assert Mask(4) == 0x0F;
      assert Bit(x, 0) == Bit(a, 0) && Bit(x, 1) == Bit(a, 1) && Bit(x, 2) == Bit(a, 2) && Bit(x, 3) == Bit(a, 3);
      assert x == a & 0x0F;
    } else if n == 3 {
      assert Mask(3) == 0x07;
      assert Bit(x, 0) == Bit(a, 0) && Bit(x, 1) == Bit(a, 1) && Bit(x, 2) == Bit(a, 2);
      assert x == a & 0x07;
    } else if n == 2 {
      assert Mask(2) == 0x03;
      assert Bit(x, 0) == Bit(a, 0) && Bit(x, 1) == Bit(a, 1);
      assert x == a & 0x03;
    } else if n == 1 {
      assert Mask(1) == 0x01;
      assert Bit(x, 0) == Bit(a, 0);
      assert x == a & 0x01;
    } else {
      assert Mask(0) == 0x00;
      assert x == a & 0x00;
    }
  }

  /** Only the `n` symbols at `pos..pos+n` matter to `ReadBits`. */
  lemma {:induction false} ReadBitsLocal(codes: seq<Code>, other: seq<Code>, pos: nat, n: nat)
    requires n <= 8 && pos + n <= |codes| && pos + n <= |other|
    requires forall i | pos <= i < pos + n :: codes[i] == other[i]
    ensures ReadBits(codes, pos, n) == ReadBits(other, pos, n)
    decreases n
  {
    if n > 0 {
      ReadBitsLocal(codes, other, pos, n - 1);
    }
  }

  /** One more step of the reading loop: the next bit lands at position `k`, or its error ends the read. */
  lemma ReadBitsStep(codes: seq<Code>, pos: nat, k: nat, a: bv8)
    requires k < 8 && pos <= |codes| && ReadBits(codes, pos, k) == Ok(a)
    ensures BitAt(codes, pos + k).Ok? ==> ReadBits(codes, pos, k + 1) == Ok(a | Placed(BitAt(codes, pos + k).value, k))
    ensures BitAt(codes, pos + k).Err? ==> ReadBits(codes, pos, k + 1) == Err(BitAt(codes, pos + k).error)
  {
  }

  /** Once a prefix of the field fails, the whole field fails with the same error. */
  lemma {:induction false} ReadBitsFailsEarly(codes: seq<Code>, pos: nat, k: nat, n: nat)
    requires k <= n <= 8 && pos <= |codes|
    requires ReadBits(codes, pos, k).Err?
    ensures ReadBits(codes, pos, n) == ReadBits(codes, pos, k)
    decreases n
  {
    if k < n {
      ReadBitsFailsEarly(codes, pos, k, n - 1);
    }
  }

  /**
   * The loop shared by the 4-bit and 8-bit decoders and the checksum reader:
   * `for i in 0..n { let t: u8 = iter.next().ok_or(Eof)?.try_into()?; a |= t << i; }`.
   */
  method NextBits(it: Cursor, n: nat) returns (r: Result<bv8>)
    requires n <= 8 && it.Valid()
    modifies it
    ensures it.Valid()
    ensures r == ReadBits(it.codes, old(it.pos), n)
    ensures r.Ok? ==> it.pos == old(it.pos) + n
    ensures old(it.pos) <= it.pos <= old(it.pos) + n
  {
    ghost var start := it.pos;
    var a: bv8 := 0;
    for i := 0 to n
      invariant it.Valid()
      invariant it.pos == start + i
      invariant ReadBits(it.codes, start, i) == Ok(a)
    {
      var t := NextBit(it);
      ReadBitsStep(it.codes, start, i, a);
      if t.Err? {
        ReadBitsFailsEarly(it.codes, start, i + 1, n);
        return Err(t.error);
      }
      a := a | Placed(t.value, i);
    }
    r := Ok(a);
  }
}
