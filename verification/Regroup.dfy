/**
Regrouping of bit streams between word sizes, as the contact codec does it with
one accumulator, against the plain reading: write all bits out, cut them anew.
*/
module Regroup {
  import opened Common
  import opened BitMath

  datatype RegroupError = ValueTooWide | BadPadding

  /** All values, `width` bits each, end to end. */
  function Stream(data: seq<nat>, width: nat): Bits {
    if data == [] then [] else Stream(data[..|data| - 1], width) + ToBits(data[|data| - 1], width)
  }

  /** The whole groups of `width` bits at the front of the stream. */
  function Groups(bits: Bits, width: nat): (r: seq<nat>)
    requires width > 0
    decreases |bits|
  {
    if |bits| < width then [] else [FromBits(bits[..width])] + Groups(bits[width..], width)
  }

  /** What is left after the whole groups. */
  function Rest(bits: Bits, width: nat): (r: Bits)
    requires width > 0
    ensures |r| < width
    decreases |bits|
  {
    if |bits| < width then bits else Rest(bits[width..], width)
  }

  predicate Fits(data: seq<nat>, width: nat) { forall i | 0 <= i < |data| :: data[i] < Pow2(width) }

  function Convert(data: seq<nat>, from: nat, to: nat, pad: bool): Result<seq<nat>, RegroupError>
    requires from > 0 && to > 0
  {
    if !Fits(data, from) then Err(ValueTooWide)
    else
      var bits := Stream(data, from);
      var out, rest := Groups(bits, to), Rest(bits, to);
      if pad then Ok(if rest == [] then out else out + [FromBits(rest + Zeros(to - |rest|))])
      else if |rest| >= from || rest != Zeros(|rest|) then Err(BadPadding)
      else Ok(out)
  }

  // The bit-string reading.

  lemma StreamAppend(data: seq<nat>, v: nat, width: nat)
    ensures Stream(data + [v], width) == Stream(data, width) + ToBits(v, width)
  {
    assert (data + [v])[..|data|] == data;
  }

  lemma Associate(a: Bits, b: Bits, c: Bits)
    ensures (a + b) + c == a + (b + c)
  {
  }

  lemma StreamOf(all: seq<nat>, front: seq<nat>, last: nat, width: nat)
    requires all == front + [last]
    ensures Stream(all, width) == Stream(front, width) + ToBits(last, width)
  {
    StreamAppend(front, last, width);
  }

  lemma {:induction false} StreamPrepend(v: nat, data: seq<nat>, width: nat)
    ensures Stream([v] + data, width) == ToBits(v, width) + Stream(data, width)
  {
    if data == [] {
      StreamOf([v] + data, [], v, width);
    } else {
      var front, last := data[..|data| - 1], data[|data| - 1];
      StreamPrepend(v, front, width);
      StreamOf([v] + data, [v] + front, last, width);
      StreamOf(data, front, last, width);
      Associate(ToBits(v, width), Stream(front, width), ToBits(last, width));
    }
  }

  /** Cutting is the inverse of writing out: there is only one way to cut. */
  lemma {:induction false} CutUnique(out: seq<nat>, rest: Bits, width: nat)
    requires width > 0 && Fits(out, width) && |rest| < width
    ensures Groups(Stream(out, width) + rest, width) == out && Rest(Stream(out, width) + rest, width) == rest
    decreases |out|
  {
    if out == [] {
      assert Stream(out, width) + rest == rest;
    } else {
      var v, tail := out[0], out[1..];
      assert out == [v] + tail;
      StreamPrepend(v, tail, width);
      var bits := Stream(out, width) + rest;
      assert bits[..width] == ToBits(v, width) && bits[width..] == Stream(tail, width) + rest;
      BitsRoundTrip(v, width);
      LowOfSmall(v, width);
      CutUnique(tail, rest, width);
    }
  }

  lemma {:induction false} GroupsFit(bits: Bits, width: nat)
    requires width > 0
    ensures Fits(Groups(bits, width), width)
    decreases |bits|
  {
    if |bits| >= width {
      FromBitsBelow(bits[..width]);
      GroupsFit(bits[width..], width);
    }
  }

  lemma CutOne(bits: Bits, width: nat)
    requires 0 < width <= |bits|
    ensures Groups(bits, width) == [FromBits(bits[..width])] + Groups(bits[width..], width)
    ensures Rest(bits, width) == Rest(bits[width..], width)
  {
  }

  lemma StreamOfHead(head: Bits, groups: seq<nat>)
    requires head != []
    ensures Stream([FromBits(head)] + groups, |head|) == head + Stream(groups, |head|)
  {
    NumberRoundTrip(head);
    StreamPrepend(FromBits(head), groups, |head|);
  }

  lemma {:induction false} CutComplete(bits: Bits, width: nat)
    requires width > 0
    ensures bits == Stream(Groups(bits, width), width) + Rest(bits, width)
    decreases |bits|
  {
    if |bits| >= width {
      var head, tail := bits[..width], bits[width..];
      CutComplete(tail, width);
      CutOne(bits, width);
      StreamOfHead(head, Groups(tail, width));
      Associate(head, Stream(Groups(tail, width), width), Rest(tail, width));
      assert bits == head + tail;
    }
  }

  lemma ZeroValue(bits: Bits)
    ensures FromBits(bits) == 0 <==> bits == Zeros(|bits|)
  {
    NumberRoundTrip(bits);
    ZeroBits(|bits|);
    BitsRoundTrip(0, |bits|);
    LowOfSmall(0, |bits|);
  }

  /** Padding only adds zero bits, fewer than one group of them. */
  lemma PaddedStream(data: seq<nat>, from: nat, to: nat)
    requires from > 0 && to > 0 && Fits(data, from)
    ensures var words := Convert(data, from, to, true).value;
            var r := |Rest(Stream(data, from), to)|;
            && Fits(words, to)
            && Stream(words, to) == Stream(data, from) + Zeros(if r == 0 then 0 else to - r)
  {
    var bits := Stream(data, from);
    var out, rest := Groups(bits, to), Rest(bits, to);
    CutComplete(bits, to);
    GroupsFit(bits, to);
    if rest != [] {
      PadLast(out, rest, to);
    } else {
      assert Stream(out, to) == bits + Zeros(0);
    }
  }

  lemma PadLast(out: seq<nat>, rest: Bits, to: nat)
    requires |rest| < to && Fits(out, to)
    ensures var words := out + [FromBits(rest + Zeros(to - |rest|))];
            Fits(words, to) && Stream(words, to) == Stream(out, to) + rest + Zeros(to - |rest|)
  {
    var last := rest + Zeros(to - |rest|);
    FromBitsBelow(last);
    NumberRoundTrip(last);
    assert ToBits(FromBits(last), to) == last;
    StreamAppend(out, FromBits(last), to);
    FitsAppend(out, FromBits(last), to);
    Associate(Stream(out, to), rest, Zeros(to - |rest|));
  }

  lemma FitsAppend(out: seq<nat>, v: nat, width: nat)
    requires Fits(out, width) && v < Pow2(width)
    ensures Fits(out + [v], width)
  {
  }

  /** Regrouping to smaller words and back is the identity on every input. */
  lemma RoundTrip(data: seq<nat>, from: nat, to: nat)
    requires 0 < to <= from && Fits(data, from)
    ensures var r := Convert(data, from, to, true);
            r.Ok? && Fits(r.value, to) && Convert(r.value, to, from, false) == Ok(data)
  {
    PaddedStream(data, from, to);
    var r := |Rest(Stream(data, from), to)|;
    CutUnique(data, Zeros(if r == 0 then 0 else to - r), from);
  }

  /** And the other way: what decodes without error is the encoding of what it decodes to. */
  lemma DecodedIsCanonical(words: seq<nat>, from: nat, to: nat)
    requires 0 < to <= from && Convert(words, to, from, false).Ok?
    ensures Convert(Convert(words, to, from, false).value, from, to, true) == Ok(words)
  {
    var bits := Stream(words, to);
    var data, rest := Groups(bits, from), Rest(bits, from);
    CutComplete(bits, from);
    GroupsFit(bits, from);
    assert bits == Stream(words, to) + [];
    if rest == [] {
      assert Stream(data, from) == bits;
      CutUnique(words, [], to);
    } else {
      LastWordCut(words, Stream(data, from), |rest|, to);
    }
  }

  /** Dropping fewer than one word of zero bits cuts off the last word and fills it up again. */
  lemma LastWordCut(words: seq<nat>, bits: Bits, dropped: nat, to: nat)
    requires words != [] && Fits(words, to) && 0 < dropped < to
    requires Stream(words, to) == bits + Zeros(dropped)
    ensures var rest := Rest(bits, to);
            |rest| == to - dropped && Groups(bits, to) + [FromBits(rest + Zeros(dropped))] == words
  {
    var front, last := words[..|words| - 1], words[|words| - 1];
    var all := ToBits(last, to);
    SplitTail(Stream(front, to), all, bits, dropped);
    CutUnique(front, all[..to - dropped], to);
    BitsRoundTrip(last, to);
    LowOfSmall(last, to);
    assert words == front + [last];
  }

  lemma SplitTail(a: Bits, b: Bits, bits: Bits, dropped: nat)
    requires a + b == bits + Zeros(dropped) && dropped <= |b|
    ensures bits == a + b[..|b| - dropped] && b == b[..|b| - dropped] + Zeros(dropped)
  {
    var whole := a + b;
    assert bits == whole[..|bits|] && Zeros(dropped) == whole[|bits|..];
    assert b[|b| - dropped..] == whole[|bits|..];
  }

  // The accumulator loop.

  lemma ShrZero(v: nat, k: nat)
    ensures Shr(v, k) == 0 <==> v < Pow2(k)
  {
    if Shr(v, k) == 0 {
      SplitAt(v, k);
      ShlZero(k);
    } else if v < Pow2(k) {
      ShrSmall(v, k);
    }
  }

  lemma {:induction false} ShlZero(k: nat)
    ensures Shl(0, k) == 0
  {
    if k > 0 { ShlZero(k - 1); }
  }

  /** Shifting a value in appends its bits; the mask keeps all that is still needed. */
  lemma ShiftIn(acc: nat, bits: nat, v: nat, from: nat, mask: nat)
    requires v < Pow2(from) && bits + from <= mask
    ensures ToBits(Low(Shl(acc, from) + v, mask), bits + from) == ToBits(acc, bits) + ToBits(v, from)
  {
    var x := Shl(acc, from) + v;
    BitsOfLow(x, mask, bits + from);
    BitsSplit(x, bits, from);
    Reassemble(acc, v, from);
    BitsOfLow(x, from, from);
  }

  /** Shifting out takes the first `to` pending bits. */
  lemma ShiftOut(acc: nat, left: nat, to: nat)
    ensures ToBits(acc, to + left) == ToBits(Low(Shr(acc, left), to), to) + ToBits(acc, left)
  {
    BitsSplit(acc, to, left);
    BitsOfLow(Shr(acc, left), to, to);
  }

  lemma ShlBits(acc: nat, bits: nat, m: nat)
    ensures ToBits(Shl(acc, m), bits + m) == ToBits(acc, bits) + Zeros(m)
  {
    var x := Shl(acc, m);
    BitsSplit(x, bits, m);
    Reassemble(acc, 0, m);
    assert x + 0 == x;
    assert ToBits(x, m) == Zeros(m) by {
      BitsOfLow(x, m, m);
      ZeroBits(m);
    }
  }

  /** The last group: the pending bits, filled up with zeros. */
  lemma FinalGroup(acc: nat, bits: nat, to: nat)
    requires bits <= to
    ensures Low(Shl(acc, to - bits), to) == FromBits(ToBits(acc, bits) + Zeros(to - bits))
  {
    var x := Shl(acc, to - bits);
    ShlBits(acc, bits, to - bits);
    assert ToBits(x, to) == ToBits(acc, bits) + Zeros(to - bits);
    BitsRoundTrip(x, to);
  }

  lemma FinalGroupZero(acc: nat, bits: nat, to: nat)
    requires bits <= to
    ensures Low(Shl(acc, to - bits), to) == 0 <==> ToBits(acc, bits) == Zeros(bits)
  {
    FinalGroup(acc, bits, to);
    var pending := ToBits(acc, bits);
    var all := pending + Zeros(to - bits);
    ZeroValue(all);
    if all == Zeros(to) {
      assert forall i | 0 <= i < bits :: pending[i] == all[i];
    }
    if pending == Zeros(bits) {
      assert all == Zeros(to);
    }
  }

  /** The inner loop: push whole groups while there are enough pending bits. */
  method Drain(acc: nat, pending: nat, groups: seq<nat>, to: nat) returns (bits: nat, out: seq<nat>)
    requires to > 0 && Fits(groups, to)
    ensures bits < to && Fits(out, to)
    ensures Stream(out, to) + ToBits(acc, bits) == Stream(groups, to) + ToBits(acc, pending)
  {
    bits, out := pending, groups;
    while bits >= to
      invariant Fits(out, to)
      invariant Stream(out, to) + ToBits(acc, bits) == Stream(groups, to) + ToBits(acc, pending)
    {
      bits := bits - to;
      var group := Low(Shr(acc, bits), to);
      ShiftOut(acc, bits, to);
      StreamAppend(out, group, to);
      assert Stream(out, to) + ToBits(acc, bits + to) == Stream(out + [group], to) + ToBits(acc, bits);
      out := out + [group];
    }
  }

  /** One value in, as many groups out as it completes. */
  method Absorb(acc: nat, bits: nat, out: seq<nat>, value: nat, from: nat, to: nat)
    returns (acc': nat, bits': nat, out': seq<nat>)
    requires bits < to && value < Pow2(from) && Fits(out, to)
    ensures bits' < to && Fits(out', to)
    ensures Stream(out', to) + ToBits(acc', bits') == Stream(out, to) + ToBits(acc, bits) + ToBits(value, from)
  {
    ShiftIn(acc, bits, value, from, from + to - 1);
    acc' := Low(Shl(acc, from) + value, from + to - 1);
    bits', out' := Drain(acc', bits + from, out, to);
  }

  /** The codec's routine: one pass with an accumulator and a count of pending bits. */
  method ConvertLoop(data: seq<nat>, from: nat, to: nat, pad: bool) returns (r: Result<seq<nat>, RegroupError>)
    requires from > 0 && to > 0
    ensures r == Convert(data, from, to, pad)
  {
    var acc: nat, bits: nat, out: seq<nat> := 0, 0, [];
    for i := 0 to |data|
      invariant bits < to && Fits(data[..i], from) && Fits(out, to)
      invariant Stream(data[..i], from) == Stream(out, to) + ToBits(acc, bits)
    {
      var value := data[i];
      ShrZero(value, from);
      if Shr(value, from) != 0 { return Err(ValueTooWide); }
      assert data[..i + 1] == data[..i] + [value];
      StreamAppend(data[..i], value, from);
      acc, bits, out := Absorb(acc, bits, out, value, from, to);
    }
    assert data[..|data|] == data;
    r := Finish(data, from, to, pad, acc, bits, out);
  }

  /** The tail of the routine, after all values are in. */
  method Finish(ghost data: seq<nat>, from: nat, to: nat, pad: bool, acc: nat, bits: nat, out: seq<nat>)
    returns (r: Result<seq<nat>, RegroupError>)
    requires from > 0 && bits < to && Fits(data, from) && Fits(out, to)
    requires Stream(data, from) == Stream(out, to) + ToBits(acc, bits)
    ensures r == Convert(data, from, to, pad)
  {
    CutUnique(out, ToBits(acc, bits), to);
    FinalGroup(acc, bits, to);
    FinalGroupZero(acc, bits, to);
    var final := Low(Shl(acc, to - bits), to);
    if pad {
      r := Ok(if bits != 0 then out + [final] else out);
    } else {
      r := if bits >= from || final != 0 then Err(BadPadding) else Ok(out);
    }
  }
}
