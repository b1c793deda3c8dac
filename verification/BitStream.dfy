/** The bit cursor of bs.h: a byte buffer, a byte position and the bits left in that byte. */
module BitStreams {
  import opened Bits
  import opened BitReading
  import opened BitWriting
  import Golomb

  class BitStream {
    const data: array<byte>
    const start: nat
    const end: int
    var p: nat
    var left: int

    ghost predicate Valid()
      reads this
    {
      && start <= p
      && end <= data.Length
      && 1 <= left <= 8
    }

    /** A stream that is being written never stands inside a byte outside the buffer. */
    ghost predicate CanWrite()
      reads this
    {
      && Valid()
      && p <= data.Length
      && (left < 8 ==> p < end)
    }

    ghost function Buffer(): seq<byte>
      requires end <= data.Length
      reads data
    {
      if end <= 0 then [] else data[..end]
    }

    /** The bits the cursor has not passed yet. */
    ghost function Rest(): (r: seq<bool>)
      requires Valid()
      reads this, data
    {
      BitsFrom(Buffer(), p, left)
    }

    /** The bits written so far: whole bytes, then the low bits of the byte in progress. */
    ghost function Written(): (w: seq<bool>)
      requires CanWrite()
      reads this, data
    {
      WrittenBits(data[..], start, p, left)
    }

    /** Room for one more code: the writer's own guard. */
    predicate Room()
      reads this
    {
      p < end - 4
    }

    constructor (data: array<byte>, start: nat, len: int)
      requires start + len <= data.Length
      ensures Valid() && this.data == data && this.start == start && this.end == start + len
      ensures p == start && left == 8
      ensures len > 0 ==> Rest() == Flatten(data[start..start + len])
      ensures len <= 0 ==> Rest() == []
      ensures start <= data.Length ==> CanWrite() && Written() == []
    {
      this.data := data;
      this.start := start;
      this.end := start + len;
      p := start;
      left := 8;
      new;
      if len > 0 {
        BitsFromStart(Buffer(), start);
        assert Buffer()[start..] == data[start..start + len];
      }
    }

    function Pos(): int
      reads this
    {
      8 * (p - start) + 8 - left
    }

    /** True exactly when no bit is left. */
    predicate Eof()
      requires Valid()
      reads this, data
      ensures Eof() <==> Rest() == []
    {
      p >= end
    }

    method Read(count: nat) returns (result: nat)
      requires Valid() && count <= 32
      modifies `p, `left
      ensures Valid()
      ensures (result, Rest()) == BitReading.Read(old(Rest()), count)
      ensures old(p) < end ==> Pos() == Min(old(Pos()) + count, 8 * (end - start))
      ensures OnTrack(old(p), old(left))
    {
      hide Or, Low, Shl, Shr, ToBits, Pow2, Value, BitReading.Read, BitsFrom;
      result := 0;
      var n: nat := count;
      ghost var high: nat := 0;
      ShlZero(n);
      while n > 0 && p < end
        invariant Valid() && OnTrack(old(p), old(left)) && n <= 32
        invariant result == Shl(high, n)
        invariant result + BitReading.Read(Rest(), n).0 == BitReading.Read(old(Rest()), count).0
        invariant BitReading.Read(Rest(), n).1 == BitReading.Read(old(Rest()), count).1
      {
        result, n, high := ReadChunk(result, n, high);
      }
      if n > 0 {
        ReadPastEnd(Buffer(), p, left, n);
      }
      ReadZero(Rest());
      ReadLength(old(Rest()), count);
      PosFromRest(old(p), old(left), count);
    }

    /** One turn of Read's loop: the bits wanted from the current byte. */
    method ReadChunk(acc: nat, n: nat, ghost high: nat) returns (result: nat, rest: nat, ghost high': nat)
      requires Valid() && p < end && 0 < n <= 32 && acc == Shl(high, n)
      modifies `p, `left
      ensures Valid() && OnTrack(old(p), old(left)) && rest < n && result == Shl(high', rest)
      ensures result + BitReading.Read(Rest(), rest).0 == acc + BitReading.Read(old(Rest()), n).0
      ensures BitReading.Read(Rest(), rest).1 == BitReading.Read(old(Rest()), n).1
    {
      hide Or, Low, Shl, Shr, ToBits, Pow2, Value, BitReading.Read, BitsFrom;
      var cur := data[p];
      var shr := left - n;
      if shr >= 0 {
        StepInside(Buffer(), p, left, n, high);
        result := Or(acc, Low(Shr(cur, shr), n));
        left := left - n;
        if left == 0 {
          p := p + 1;
          left := 8;
        }
        rest := 0;
        ReadZero(Rest());
        high' := result;
        ShlNone(result);
      } else {
        StepByteEnd(Buffer(), p, left, n, high);
        result := Or(acc, Shl(Low(cur, left), -shr));
        high' := Shl(high, left) + Low(cur, left);
        rest := n - left;
        p := p + 1;
        left := 8;
      }
    }

    lemma PosFromLength()
      requires Valid() && Rest() != []
      ensures Pos() == 8 * (end - start) - |Rest()|
    {
    }

    /** Where the cursor is follows from how many bits are left. */
    lemma PosFromRest(p0: int, left0: int, n: nat)
      requires Valid() && OnTrack(p0, left0) && start <= p0 && 1 <= left0 <= 8
      requires |Rest()| == |BitsFrom(Buffer(), p0, left0)| - Min(n, |BitsFrom(Buffer(), p0, left0)|)
      ensures p0 < end ==> Pos() == Min(8 * (p0 - start) + 8 - left0 + n, 8 * (end - start))
    {
    }

    /** A cursor that was inside the buffer has not run past its end; one at the end has not moved. */
    ghost predicate OnTrack(p0: int, left0: int)
      reads this
    {
      if p0 < end then p <= end && (p == end ==> left == 8) else p == p0 && left == left0
    }

    method Read1() returns (result: nat)
      requires Valid()
      modifies `p, `left
      ensures Valid() && OnTrack(old(p), old(left))
      ensures (result, Rest()) == BitReading.Read(old(Rest()), 1)
    {
      if p < end {
        StepInside(Buffer(), p, left, 1, 0);
        ShlZero(1);
        OrZero(Low(Shr(data[p], left - 1), 1));
        left := left - 1;
        result := Low(Shr(data[p], left), 1);
        if left == 0 {
          p := p + 1;
          left := 8;
        }
      } else {
        ReadPastEnd(Buffer(), p, left, 1);
        result := 0;
      }
    }

    /** Moves on by n bits; nothing stops it at the end of the buffer. */
    method Skip(count: nat)
      requires Valid()
      modifies `p, `left
      ensures Valid()
      ensures Pos() == old(Pos()) + count
      ensures Rest() == BitReading.Read(old(Rest()), count).1
    {
      left := left - count;
      while left <= 0
        invariant start <= old(p) <= p && left <= 8
        invariant left <= 0 || Valid()
        invariant Pos() == old(Pos()) + count
        decreases -left
      {
        p := p + 1;
        left := left + 8;
      }
      SkipBits(Buffer(), old(p), old(left), p, left, count);
    }

    /** The next count bits without moving; reads four bytes whatever the end is. */
    function Show(count: nat): (result: nat)
      requires Valid() && count <= 32
      requires p < end && count > 0 ==> p + 4 <= data.Length
      reads this, data
      ensures p + 4 <= end && 8 - left + count <= 32 ==> result == BitReading.Read(Rest(), count).0
      ensures count == 0 || p >= end ==> result == 0
    {
      if p < end && count > 0 then
        assert p + 4 <= end && 8 - left + count <= 32 ==>
            Shr(Low(Shl(Word(data[..], p), 8 - left), 32), 32 - count) == BitReading.Read(Rest(), count).0
        by {
          if p + 4 <= end && 8 - left + count <= 32 {
            ShowIsRead(Buffer(), p, left, count);
          }
        }
        Shr(Low(Shl(Word(data[..], p), 8 - left), 32), 32 - count)
      else 0
    }

    /** Every count up to 32; beyond that only what needs no shift by 32 or more. */
    method Write(count: nat, bits: nat)
      requires CanWrite() && count <= 31 + left && bits < Pow2(32)
      modifies `p, `left, data
      ensures CanWrite()
      ensures Written() == old(Written()) + (if old(Room()) then ToBits(bits, count) else [])
      ensures Untouched(old(data[..]), old(p))
      ensures old(Room()) ==> Pos() == old(Pos()) + count
      ensures !old(Room()) ==> data[..] == old(data[..]) && p == old(p) && left == old(left)
    {
      hide Shl, Shr, ToBits, Low, Pow2, WrittenBits, Value, Flatten;
      if p >= end - 4 {
        return;
      }
      var n: nat := count;
      var w: nat := bits;
      while n > 0
        invariant CanWrite() && n <= 31 + left && w < Pow2(32) && (n > 0 ==> p < end)
        invariant Pos() + n == old(Pos()) + count
        invariant Written() + ToBits(w, n) == old(Written()) + ToBits(bits, count)
        invariant Untouched(old(data[..]), old(p))
      {
        n, w := WriteChunk(n, w);
      }
      ToBitsNone(w);
      Assoc(Written(), [], []);
    }

    /** One turn of Write's loop: fill the byte in progress or put the last bits into it. */
    method WriteChunk(n: nat, bits: nat) returns (rest: nat, w: nat)
      requires CanWrite() && p < end && 0 < n <= 31 + left && bits < Pow2(32)
      modifies `p, `left, data
      ensures CanWrite() && rest < n && w < Pow2(32)
      ensures Pos() + rest == old(Pos()) + n
      ensures Written() + ToBits(w, rest) == old(Written()) + ToBits(bits, n)
      ensures Untouched(old(data[..]), old(p))
    {
      hide Or, Shl, Shr, ToBits, Low, Pow2, WrittenBits, Byte;
      w := bits;
      if n < 32 {
        ToBitsMod(w, n, n);
        Pow2Mono(n, 32);
        w := Low(w, n);
      }
      if n < left {
        ShiftIn(n, w);
        left := left - n;
        rest := 0;
        ToBitsNone(w);
        Assoc(Written(), [], []);
      } else {
        if n >= 32 {
          Pow2Mono(32, n);
        }
        var top := Shr(w, n - left);
        ShrBound(w, left, n - left);
        ToBitsSplit(w, left, n - left);
        Assoc(Written(), ToBits(top, left), ToBits(w, n - left));
        ShiftIn(left, top);
        rest := n - left;
        p := p + 1;
        left := 8;
      }
    }

    /** The store *p = (*p << n) | w; the cursor has still to follow. */
    method ShiftIn(n: nat, w: nat)
      requires CanWrite() && p < data.Length && n <= left && w < Pow2(n)
      modifies data
      ensures WrittenBits(data[..], start, NextP(p, left, n), NextLeft(left, n)) == old(Written()) + ToBits(w, n)
      ensures data[..] == old(data[..])[p := Byte(Or(Shl(old(data[p]), n), w))]
    {
      Put(data[..], start, p, left, n, w);
      data[p] := Byte(Or(Shl(data[p], n), w));
      assert data[..] == old(data[..])[p := Byte(Or(Shl(old(data[p]), n), w))];
    }

    /** Only the bytes from the old cursor up to the new one may have changed. */
    ghost predicate Untouched(before: seq<byte>, p0: int)
      reads this, data
    {
      && |before| == data.Length
      && forall k :: 0 <= k < data.Length && (k < p0 || k > p || (k == p && left == 8)) ==> data[k] == before[k]
    }

    /** Appends a bit; a larger number is or-ed into the byte in progress as it is. */
    method Write1(bit: nat)
      requires CanWrite()
      modifies `p, `left, data
      ensures CanWrite()
      ensures bit <= 1 ==> Written() == old(Written()) + (if old(p) < end then [bit == 1] else [])
      ensures old(p) < end ==> data[..] == old(data[..])[old(p) := Byte(Or(Byte(Shl(old(data[p]), 1)), bit))]
      ensures Untouched(old(data[..]), old(p))
      ensures old(p) < end ==> Pos() == old(Pos()) + 1
      ensures old(p) >= end ==> data[..] == old(data[..]) && p == old(p) && left == old(left)
    {
      hide Or, Shl, ToBits, WrittenBits, Byte;
      if p < end {
        ghost var b := data[p];
        ghost var s := data[..];
        if bit <= 1 {
          OneBit(bit);
          ByteOr(b, bit, 1);
          ByteOfByte(Or(Byte(Shl(b, 1)), bit), b, bit);
          Put(s, start, p, left, 1, bit);
        }
        data[p] := Byte(Shl(data[p], 1));
        data[p] := Byte(Or(data[p], bit));
        assert data[..] == s[p := Byte(Or(Byte(Shl(b, 1)), bit))];
        left := left - 1;
        if left == 0 {
          p := p + 1;
          left := 8;
        }
      }
    }

    /** Fills the byte in progress with zeros. */
    method Align0()
      requires CanWrite()
      modifies `p, `left, data
      ensures CanWrite() && left == 8
      ensures Written() == old(Written()) + (if old(left) == 8 then [] else Repeat(false, old(left)))
      ensures Untouched(old(data[..]), old(p))
    {
      if left != 8 {
        ghost var b := data[p];
        OrZero(Shl(b, left));
        ToBitsZero(left);
        ShiftIn(left, 0);
        left := 8;
        p := p + 1;
      }
    }

    /** Fills the byte in progress with ones. */
    method Align1()
      requires CanWrite()
      modifies `p, `left, data
      ensures CanWrite() && left == 8
      ensures Written() == old(Written()) + (if old(left) == 8 then [] else Repeat(true, old(left)))
      ensures Untouched(old(data[..]), old(p))
    {
      hide Or, Shl, ToBits, WrittenBits, Byte;
      if left != 8 {
        ghost var b := data[p];
        ghost var s := data[..];
        PowByte(left);
        ByteOr(b, Pow2(left) - 1, left);
        Put(s, start, p, left, left, Pow2(left) - 1);
        ToBitsOnes(left);
        data[p] := Byte(Shl(data[p], left));
        data[p] := OrByte(data[p], Pow2(left) - 1);
        assert data[..] == s[p := Byte(Or(Shl(b, left), Pow2(left) - 1))];
        left := 8;
        p := p + 1;
      }
    }

    /** The code word of val needs no shift by 32 or more at this alignment; so for every val + 1 < 2^16. */
    ghost predicate UeFits(val: nat)
      reads `left
    {
      val == 0 || 2 * BitLength(val + 1) - 1 <= 31 + left
    }

    lemma SmallUeFits(val: nat)
      requires Valid() && val + 1 < 0x1_0000
      ensures UeFits(val)
    {
      Golomb.Pow2At31();
      Golomb.CodeDigits(val, 16);
    }

    method WriteUe(val: nat)
      requires CanWrite() && val + 1 < 0x1_0000_0000 && UeFits(val)
      modifies `p, `left, data
      ensures CanWrite()
      ensures Written() == old(Written())
            + (if old(Room()) || (val == 0 && old(p) < end) then Golomb.UeBits(val) else [])
      ensures Untouched(old(data[..]), old(p))
      ensures old(Room()) ==> Pos() == old(Pos()) + |Golomb.UeBits(val)|
      ensures old(Room()) && val + 1 < 0x100_0000 ==> Pos() == old(Pos()) + Golomb.SizeUe(val)
    {
      Golomb.UeBitsBinary(val);
      hide Golomb.UeBits, Golomb.SizeUe, BitLength, ToBits, Pow2, WrittenBits;
      if val == 0 {
        Golomb.UeBitsOfZero();
        Write1(1);
      } else {
        var size := Golomb.CodeSize(val + 1);
        Golomb.Pow2At31();
        Write(2 * size - 1, val + 1);
      }
    }

    method WriteSe(val: int)
      requires CanWrite() && Golomb.SeToUe(val) + 1 < 0x1_0000_0000 && UeFits(Golomb.SeToUe(val))
      modifies `p, `left, data
      ensures CanWrite()
      ensures Written() == old(Written())
            + (if old(Room()) || (val == 0 && old(p) < end) then Golomb.UeBits(Golomb.SeToUe(val)) else [])
      ensures Untouched(old(data[..]), old(p))
      ensures old(Room()) ==> Pos() == old(Pos()) + |Golomb.UeBits(Golomb.SeToUe(val))|
      ensures old(Room()) && -0x7f_ffff <= val <= 0x7f_ffff ==> Pos() == old(Pos()) + Golomb.SizeSe(val)
    {
      WriteUe(if val <= 0 then -val * 2 else val * 2 - 1);
    }

    method WriteTe(x: int, val: int)
      requires CanWrite() && (x > 1 ==> 0 <= val && val + 1 < 0x1_0000_0000 && UeFits(val))
      modifies `p, `left, data
      ensures CanWrite()
      ensures old(Room()) ==> Written() == old(Written()) + Golomb.TeBits(x, val)
      ensures Untouched(old(data[..]), old(p))
      ensures old(Room()) ==> Pos() == old(Pos()) + |Golomb.TeBits(x, val)|
      ensures old(Room()) && 0 <= val && val + 1 < 0x100_0000 ==> Pos() == old(Pos()) + Golomb.SizeTe(x, val)
    {
      if x == 1 {
        Write1(1 - val % 2);
      } else if x > 1 {
        WriteUe(val);
      }
    }

    /** The stop bit and zeros up to the byte boundary (section 7.3.2.11 of H.264). */
    method RbspTrailing()
      requires CanWrite()
      modifies `p, `left, data
      ensures CanWrite()
      ensures Untouched(old(data[..]), old(p))
      ensures old(Room()) ==> left == 8 && Written() == old(Written()) + [true] + Repeat(false, old(left) - 1)
      ensures old(Room()) ==> Pos() == old(Pos()) + old(left)
    {
      hide WrittenBits, ToBits;
      Write1(1);
      if left != 8 {
        ToBitsZero(left);
        Write(left, 0);
      }
    }

    method ReadUe() returns (val: int)
      requires Valid()
      modifies `p, `left
      ensures Valid() && OnTrack(old(p), old(left))
      ensures (val, Rest()) == Golomb.ReadUe(old(Rest()))
    {
      hide BitsFrom, BitReading.Read, Golomb.Zeros;
      var i := 0;
      Golomb.ZerosStep(Rest(), 0);
      var bit := Read1();
      ghost var zeros := Golomb.Zeros(old(Rest()), 0);
      while bit == 0 && p < end && i < 32
        invariant Valid() && OnTrack(old(p), old(left)) && 0 <= i <= 32
        invariant zeros == if bit == 0 && Rest() != [] && i < 32 then Golomb.Zeros(Rest(), i + 1) else (i, Rest())
        decreases 32 - i
      {
        i := i + 1;
        Golomb.ZerosStep(Rest(), i);
        bit := Read1();
      }
      if p >= end {
        ReadPastEnd(Buffer(), p, left, 0);
      }
      var v := Read(i);
      val := Golomb.ToInt32(Pow2(i) - 1 + v);
    }

    method ReadSe() returns (val: int)
      requires Valid()
      modifies `p, `left
      ensures Valid() && OnTrack(old(p), old(left))
      ensures (val, Rest()) == Golomb.ReadSe(old(Rest()))
    {
      hide Golomb.ReadUe, BitsFrom;
      var v := ReadUe();
      val := if v % 2 == 1 then (v + 1) / 2 else -(v / 2);
    }

    method ReadTe(x: int) returns (val: int)
      requires Valid()
      modifies `p, `left
      ensures Valid() && OnTrack(old(p), old(left))
      ensures (val, Rest()) == Golomb.ReadTe(old(Rest()), x)
    {
      hide Golomb.ReadUe, BitsFrom, Value, Shl;
      if x == 1 {
        var v: int := Read1();
        val := 1 - v;
      } else if x > 1 {
        val := ReadUe();
      } else {
        val := 0;
      }
    }
  }
}
