/** Framing of protocol buffer messages: each message is preceded by its length as a base 128 varint, as in the
    section "Base 128 Varints" of the Protocol Buffers Encoding specification. */
module MessageFraming {
  import opened Arithmetic
  import opened Collections
  import opened Text

  type Message = seq<Byte>

  /** `used` counts the bytes read. */
  datatype Decoded = Value(value: int, used: nat) | EndOfFile(used: nat) | TooManyBytes(used: nat)

  const TWO32: int := 0x1_0000_0000
  const MAX63: int := 0x7FFF_FFFF_FFFF_FFFF

  // ----- varints -----

  /** Seven bits at a time, lowest first; all bytes but the last have their top bit set. */
  function Varint(v: nat): seq<Byte> {
    if v < 128 then [v] else [128 + v % 128] + Varint(v / 128)
  }

  /** The number whose digits are the bytes' low seven bits, lowest first. */
  function FromDigits(s: seq<Byte>): nat {
    if s == [] then 0 else s[0] % 128 + 128 * FromDigits(s[1..])
  }

  /** An encoded number is its digits to base 128, lowest first, without a leading zero; the top bit is set on all bytes
      but the last. */
  lemma {:induction false} VarintMeaning(v: nat)
    ensures var s := Varint(v);
            && s != [] && FromDigits(s) == v && (|s| > 1 ==> s[|s| - 1] != 0)
            && forall i :: 0 <= i < |s| ==> (s[i] >= 128 <==> i < |s| - 1)
  {
    if v >= 128 {
      VarintMeaning(v / 128);
      var rest := Varint(v / 128);
      assert Varint(v)[1..] == rest;
    } else {
      assert FromDigits([v][1..]) == 0;
    }
  }

  function Pow128(k: nat): nat {
    if k == 0 then 1 else 128 * Pow128(k - 1)
  }

  /** Sign-extends what exceeds 63 bits, and cuts everything else to 32 bits. */
  function Narrow(v: nat): int {
    if v > MAX63 then v % TWO32 - TWO32 else v % TWO32
  }

  /** A number of up to 63 bits becomes its remainder, a larger one the remainder below zero. */
  lemma {:induction false} NarrowMeaning(v: nat)
    ensures (v - Narrow(v)) % 0x1_0000_0000 == 0
    ensures if v < 0x8000_0000_0000_0000 then 0 <= Narrow(v) < 0x1_0000_0000 else -0x1_0000_0000 <= Narrow(v) < 0
  {
    assert v == v / TWO32 * TWO32 + v % TWO32;
    if v <= MAX63 {
      DivisionUnique(v - Narrow(v), TWO32, v / TWO32, 0);
    } else {
      DivisionUnique(v - Narrow(v), TWO32, v / TWO32 + 1, 0);
    }
  }

  /** `v` counted in units of the `k`-th digit. */
  function Weighted(acc: nat, v: nat, k: nat): nat {
    acc + v * Pow128(k)
  }

  /** Decodes from `s`, `k` bytes having contributed `acc` already. */
  function DecodeFrom(s: seq<Byte>, k: nat, acc: nat): Decoded {
    if s == [] then EndOfFile(k) else
      var acc' := Weighted(acc, s[0] % 128, k);
      if s[0] < 128 then Value(Narrow(acc'), k + 1)
      else if 7 * (k + 1) >= 64 then TooManyBytes(k + 1)
      else DecodeFrom(s[1..], k + 1, acc')
  }

  function Decode(s: seq<Byte>): Decoded {
    DecodeFrom(s, 0, 0)
  }

  /** Decoding reads at most ten bytes, whatever they are, and never past the end. */
  lemma {:induction false} DecodeReads(s: seq<Byte>, k: nat, acc: nat)
    requires k <= 9
    ensures k <= DecodeFrom(s, k, acc).used <= 10 && DecodeFrom(s, k, acc).used <= k + |s|
    ensures DecodeFrom(s, k, acc).Value? ==> DecodeFrom(s, k, acc).used > k
  {
    if s != [] && s[0] >= 128 && 7 * (k + 1) < 64 {
      DecodeReads(s[1..], k + 1, Weighted(acc, s[0] % 128, k));
    }
  }

  lemma {:induction false} SplitDigit(v: nat, k: nat, acc: nat)
    ensures Weighted(Weighted(acc, v % 128, k), v / 128, k + 1) == Weighted(acc, v, k)
  {
    var q, r, p := v / 128, v % 128, Pow128(k);
    assert v == q * 128 + r;
    assert (q * 128 + r) * p == q * (128 * p) + r * p;
  }

  /** Decoding an encoded number gives it back, cut as above, and reads exactly its bytes, as long as it has at
      most seventy bits. */
  lemma {:induction false} DecodeVarint(v: nat, tail: seq<Byte>, k: nat, acc: nat)
    requires k <= 9
    ensures DecodeFrom(Varint(v) + tail, k, acc)
            == if v < Pow128(10 - k) then Value(Narrow(Weighted(acc, v, k)), k + |Varint(v)|) else TooManyBytes(10)
    decreases v
  {
    DecodeDigit(v, tail, k, acc);
    if v < 128 {
      PowAtLeast(10 - k);
    } else if k < 9 {
      DecodeVarint(v / 128, tail, k + 1, Weighted(acc, v % 128, k));
      SplitDigit(v, k, acc);
      DigitsLeft(v, 9 - k);
    } else {
      assert Pow128(1) == 128 * Pow128(0);
    }
  }

  lemma {:induction false} DigitsLeft(v: nat, n: nat)
    ensures v / 128 < Pow128(n) <==> v < Pow128(n + 1)
  {
  }

  /** One byte of it. */
  lemma {:induction false} DecodeDigit(v: nat, tail: seq<Byte>, k: nat, acc: nat)
    requires k <= 9
    ensures |Varint(v)| == if v < 128 then 1 else 1 + |Varint(v / 128)|
    ensures DecodeFrom(Varint(v) + tail, k, acc)
            == if v < 128 then Value(Narrow(Weighted(acc, v, k)), k + 1)
               else if k == 9 then TooManyBytes(10)
               else DecodeFrom(Varint(v / 128) + tail, k + 1, Weighted(acc, v % 128, k))
  {
    var s := Varint(v) + tail;
    if v >= 128 {
      assert s[0] == 128 + v % 128 && s[1..] == Varint(v / 128) + tail;
    }
    assert s[0] % 128 == v % 128;
  }

  lemma {:induction false} PowAtLeast(n: nat)
    ensures n >= 1 ==> Pow128(n) >= 128
    ensures Pow128(n) >= 1
  {
    if n > 0 {
      PowAtLeast(n - 1);
    }
  }

  lemma {:induction false} Pow128Of10()
    ensures Pow128(10) == 0x40_0000_0000_0000_0000
  {
    assert Pow128(2) == 0x4000 && Pow128(4) == 0x1000_0000 && Pow128(6) == 0x400_0000_0000;
    assert Pow128(8) == 0x100_0000_0000_0000;
  }

  // ----- files -----

  class OutFile {
    var data: seq<Byte>

    constructor ()
      ensures data == []
    {
      data := [];
    }

    method Write(bytes: seq<Byte>)
      modifies this
      ensures data == old(data) + bytes
    {
      data := data + bytes;
    }
  }

  class InFile {
    const data: seq<Byte>
    var pos: nat

    ghost predicate Valid()
      reads this
    {
      pos <= |data|
    }

    ghost function Rest(): seq<Byte>
      requires Valid()
      reads this
    {
      data[pos..]
    }

    constructor (data: seq<Byte>)
      ensures Valid() && Rest() == data
    {
      this.data, pos := data, 0;
    }

    /** Reads up to `n` bytes, or to the end if `n` is -1; anything below is an error. */
    method Read(n: int) returns (bytes: Option<seq<Byte>>)
      requires Valid()
      modifies this
      ensures Valid() && (bytes == None <==> n < -1)
      ensures bytes == None ==> Rest() == old(Rest())
      ensures bytes.Some? ==> bytes.value == First(old(Rest()), n) && Rest() == old(Rest())[|bytes.value|..]
    {
      if n < -1 {
        return None;
      }
      var count := if n == -1 || n > |data| - pos then |data| - pos else n;
      bytes := Some(data[pos..pos + count]);
      pos := pos + count;
    }
  }

  function First(s: seq<Byte>, n: int): seq<Byte>
    requires n >= -1
  {
    if n == -1 || n > |s| then s else s[..n]
  }

  method EncodeVarint32(out: OutFile, value: nat)
    modifies out
    ensures out.data == old(out.data) + Varint(value)
  {
    var v := value;
    var bits := v % 128;
    v := v / 128;
    while v != 0
      invariant out.data + Varint(v * 128 + bits) == old(out.data) + Varint(value)
      invariant 0 <= bits < 128 && v >= 0
      decreases v
    {
      assert (v * 128 + bits) / 128 == v && (v * 128 + bits) % 128 == bits;
      out.Write([128 + bits]);
      bits := v % 128;
      v := v / 128;
    }
    out.Write([bits]);
  }

  lemma {:induction false} DecodeStep(s: seq<Byte>, k: nat, acc: nat)
    requires k < |s|
    ensures DecodeFrom(s[k..], k, acc)
            == if s[k] < 128 then Value(Narrow(Weighted(acc, s[k] % 128, k)), k + 1)
               else if 7 * (k + 1) >= 64 then TooManyBytes(k + 1)
               else DecodeFrom(s[k + 1..], k + 1, Weighted(acc, s[k] % 128, k))
  {
    assert s[k..][1..] == s[k + 1..];
  }

  lemma {:induction false} NextByte(s: seq<Byte>, k: nat)
    requires k < |s|
    ensures First(s[k..], 1) == [s[k]] && s[k..][1..] == s[k + 1..]
  {
  }

  method DecodeVarint32(file: InFile) returns (r: Decoded)
    requires file.Valid()
    modifies file
    ensures file.Valid() && r == Decode(old(file.Rest()))
    ensures r.used <= |old(file.Rest())| && file.Rest() == old(file.Rest())[r.used..]
  {
    var result, shift, k := 0, 0, 0;
    ghost var start := file.Rest();
    while true
      invariant file.Valid() && result >= 0 && shift == 7 * k && k <= 9
      invariant k <= |start| && file.Rest() == start[k..]
      invariant DecodeFrom(start[k..], k, result) == Decode(start)
      decreases 10 - k
    {
      var read := file.Read(1);
      var c := read.value;
      if |c| == 0 {
        return EndOfFile(k);
      }
      NextByte(start, k);
      DecodeStep(start, k, result);
      result := Weighted(result, c[0] % 128, k);
      k := k + 1;
      if c[0] < 128 {
        return Value(Narrow(result), k);
      }
      shift := shift + 7;
      if shift >= 64 {
        return TooManyBytes(k);
      }
    }
  }

  // ----- messages -----

  function Frame(m: Message): seq<Byte> {
    Varint(|m|) + m
  }

  /** A message, no message, or an error that is not taken for the end of the file. */
  datatype Received = Got(value: Message) | Nothing | Failed

  /** The next message, or none at the end of the file, at a length of zero, or at an overlong length; a length that
      decodes below -1 is an error; and what is left to read. */
  function NextMessage(s: seq<Byte>): (Received, seq<Byte>) {
    var d := Decode(s);
    DecodeReads(s, 0, 0);
    var rest := s[d.used..];
    if !d.Value? || d.value == 0 then (Nothing, rest)
    else if d.value < -1 then (Failed, rest)
    else
      var m := First(rest, d.value);
      (Got(m), rest[|m|..])
  }

  method EncodeMessage(out: OutFile, m: Message)
    modifies out
    ensures out.data == old(out.data) + Frame(m)
  {
    EncodeVarint32(out, |m|);
    out.Write(m);
  }

  method DecodeMessage(file: InFile) returns (r: Received)
    requires file.Valid()
    modifies file
    ensures file.Valid() && (r, file.Rest()) == NextMessage(old(file.Rest()))
  {
    var d := DecodeVarint32(file);
    if !d.Value? || d.value == 0 {
      return Nothing;
    }
    var buf := file.Read(d.value);
    return if buf == None then Failed else Got(buf.value);
  }

  /** What is written for a sequence of messages. */
  function Frames(ms: seq<Message>): seq<Byte> {
    if ms == [] then [] else Frame(ms[0]) + Frames(ms[1..])
  }

  /** The messages that have been read, and whether reading ended with an error. */
  datatype Reading = Reading(messages: seq<Message>, failed: bool)

  function Preceded(m: Message, r: Reading): Reading {
    r.(messages := [m] + r.messages)
  }

  /** What is read until no message comes any more. */
  function Messages(s: seq<Byte>): Reading
    decreases |s|
  {
    DecodeReads(s, 0, 0);
    var (m, rest) := NextMessage(s);
    if m.Got? then Preceded(m.value, Messages(rest)) else Reading([], m.Failed?)
  }

  /** What is still to come, the next message having been read already. */
  function Coming(m: Received, rest: seq<Byte>): Reading {
    if m.Got? then Preceded(m.value, Messages(rest)) else Reading([], m.Failed?)
  }

  lemma {:induction false} MessagesStep(s: seq<Byte>)
    ensures Messages(s) == Coming(NextMessage(s).0, NextMessage(s).1)
    ensures |NextMessage(s).1| <= |s| && (NextMessage(s).0.Got? ==> |NextMessage(s).1| < |s|)
  {
    DecodeReads(s, 0, 0);
  }

  method WriteAll(out: OutFile, ms: seq<Message>)
    modifies out
    ensures out.data == old(out.data) + Frames(ms)
  {
    for i := 0 to |ms|
      invariant out.data + Frames(ms[i..]) == old(out.data) + Frames(ms)
    {
      assert ms[i..][1..] == ms[i + 1..];
      EncodeMessage(out, ms[i]);
    }
  }

  method ReadAll(file: InFile) returns (ms: seq<Message>, failed: bool)
    requires file.Valid()
    modifies file
    ensures Reading(ms, failed) == Messages(old(file.Rest()))
  {
    ms := [];
    ghost var start := file.Rest();
    MessagesStep(start);
    var r := DecodeMessage(file);
    while r.Got?
      invariant file.Valid()
      invariant var c := Coming(r, file.Rest()); Messages(start) == Reading(ms + c.messages, c.failed)
      decreases |file.Rest()|, r.Got?
    {
      ghost var before := file.Rest();
      MessagesStep(before);
      Reassociate(ms, [r.value], Messages(before).messages);
      ms := ms + [r.value];
      r := DecodeMessage(file);
      assert Messages(before) == Coming(r, file.Rest());
    }
    failed := r.Failed?;
  }

  // ----- the round trip -----

  /** A length that survives: not empty, and below 2^32. */
  predicate Ordinary(m: Message) {
    0 < |m| < TWO32
  }

  /** A length that decodes as -1, which is read as "to the end of the file". */
  predicate Huge(m: Message) {
    MAX63 < |m| < 0x40_0000_0000_0000_0000 && |m| % TWO32 == TWO32 - 1
  }

  lemma {:induction false} DecodeFrame(m: Message, tail: seq<Byte>)
    ensures var s, v := Frame(m) + tail, Varint(|m|);
            && Decode(s) == (if |m| < 0x40_0000_0000_0000_0000 then Value(Narrow(|m|), |v|) else TooManyBytes(10))
            && |v| <= |s| && s[|v|..] == m + tail
  {
    assert Frame(m) + tail == Varint(|m|) + (m + tail);
    DecodeVarint(|m|, m + tail, 0, 0);
    Pow128Of10();
    assert Pow128(0) == 1;
  }

  /** What reading a framed message gives. */
  lemma {:induction false} NextFrame(m: Message, tail: seq<Byte>)
    ensures Ordinary(m) ==> NextMessage(Frame(m) + tail) == (Got(m), tail)
    ensures Huge(m) ==> NextMessage(Frame(m) + tail) == (Got(m + tail), [])
    ensures !Ordinary(m) && !Huge(m) ==> NextMessage(Frame(m) + tail).0 != Got(m)
  {
    DecodeFrame(m, tail);
    NarrowLength(|m|);
    if Ordinary(m) {
      assert (m + tail)[..|m|] == m && (m + tail)[|m|..] == tail;
    } else if Huge(m) {
      assert (m + tail)[|m + tail|..] == [];
    }
  }

  lemma {:induction false} NarrowLength(n: nat)
    ensures n < TWO32 ==> Narrow(n) == n
    ensures n > MAX63 ==> Narrow(n) < 0 && (Narrow(n) == -1 <==> n % TWO32 == TWO32 - 1)
    ensures TWO32 <= n <= MAX63 ==> 0 <= Narrow(n) < n
  {
    if n < TWO32 {
      DivisionUnique(n, TWO32, 0, n);
    }
  }

  /** Only the last message may be huge. */
  ghost predicate Survives(ms: seq<Message>) {
    forall i :: 0 <= i < |ms| ==> Ordinary(ms[i]) || (i == |ms| - 1 && Huge(ms[i]))
  }

  lemma {:induction false} FirstOrdinary(m: Message, rest: seq<Message>)
    requires Ordinary(m)
    ensures Messages(Frame(m) + Frames(rest)) == Preceded(m, Messages(Frames(rest)))
  {
    NextFrame(m, Frames(rest));
    MessagesStep(Frame(m) + Frames(rest));
  }

  lemma {:induction false} FirstHuge(m: Message, rest: seq<Message>)
    requires Huge(m)
    ensures Messages(Frame(m) + Frames(rest)) == Reading([m + Frames(rest)], false)
  {
    NextFrame(m, Frames(rest));
    MessagesStep(Frame(m) + Frames(rest));
    MessagesStep([]);
  }

  lemma {:induction false} FirstLost(m: Message, rest: seq<Message>)
    requires !Ordinary(m) && !Huge(m)
    ensures Messages(Frame(m) + Frames(rest)) != Reading([m] + rest, false)
  {
    NextFrame(m, Frames(rest));
    MessagesStep(Frame(m) + Frames(rest));
    assert ([m] + rest)[0] == m;
  }

  /** Messages written back to back are read back unchanged and without an error if and only if none is empty and all
      are shorter than 2^32 bytes, but for a last one whose length has 64 to 70 bits and ends in 32 ones. */
  lemma {:induction false} RoundTripExactlyWhen(ms: seq<Message>)
    ensures Messages(Frames(ms)) == Reading(ms, false) <==> Survives(ms)
  {
    if ms == [] {
      MessagesStep([]);
    } else {
      var m, rest := ms[0], ms[1..];
      assert ms == [m] + rest;
      if Ordinary(m) {
        RoundTripExactlyWhen(rest);
        FirstOrdinary(m, rest);
        SameTail(m, Messages(Frames(rest)).messages, rest);
        SurvivesTail(m, rest);
      } else if Huge(m) {
        FirstHuge(m, rest);
        if rest == [] {
          assert m + Frames(rest) == m;
        }
      } else {
        FirstLost(m, rest);
        assert !Survives(ms) by { assert !Ordinary(ms[0]) && !Huge(ms[0]); }
      }
    }
  }

  lemma {:induction false} SameTail(m: Message, a: seq<Message>, b: seq<Message>)
    ensures [m] + a == [m] + b <==> a == b
  {
    if [m] + a == [m] + b {
      assert a == ([m] + a)[1..] == ([m] + b)[1..] == b;
    }
  }

  lemma {:induction false} SurvivesTail(m: Message, rest: seq<Message>)
    requires Ordinary(m)
    ensures Survives([m] + rest) <==> Survives(rest)
  {
    var ms := [m] + rest;
    if Survives(ms) {
      forall i | 0 <= i < |rest| ensures Ordinary(rest[i]) || (i == |rest| - 1 && Huge(rest[i])) {
        assert ms[i + 1] == rest[i];
      }
    }
  }
}
