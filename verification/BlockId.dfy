/**
 Block ids carry the block number.

 An id is a 256-bit summary whose first 64-bit word has its low half replaced by the
 byte-reversed block number; the number of a block is one more than the number carried
 by the id of its predecessor.
 */
module BlockId {
  const WORD32 := 0x1_0000_0000
  const WORD64 := 0x1_0000_0000_0000_0000

  /** An id: the number it carries and the rest of the 256 bits, split after the first word. */
  datatype Id = Id(num: nat, high: nat, rest: nat)

  /** The 256 bits as stored: the first 64-bit word and the remaining 192 bits. */
  datatype Bits = Bits(word0: nat, rest: nat)

  predicate Fits(id: Id) {
    id.num < WORD32 && id.high < WORD32
  }

  /** Exchanges the bytes of a 32-bit word end for end. */
  function Reverse32(x: nat): (r: nat)
    ensures r < WORD32
  {
    var q1 := x / 0x100;
    var q2 := q1 / 0x100;
    var q3 := q2 / 0x100;
    FromBytes(q3 % 0x100, q2 % 0x100, q1 % 0x100, x % 0x100)
  }

  /** The word with the given bytes, lowest first. */
  function FromBytes(b0: nat, b1: nat, b2: nat, b3: nat): nat {
    b0 + 0x100 * (b1 + 0x100 * (b2 + 0x100 * b3))
  }

  function NumFromId(id: Bits): (num: nat)
    ensures num < WORD32
  {
    Reverse32(id.word0 % WORD32)
  }

  function MakeId(summary: Bits, num: nat): Bits {
    Bits(summary.word0 - summary.word0 % WORD32 + Reverse32(num), summary.rest)
  }

  /** The number of a block whose predecessor has the given id, in 32-bit arithmetic. */
  function BlockNum(previous: Bits): nat {
    if NumFromId(previous) + 1 == WORD32 then 0 else NumFromId(previous) + 1
  }

  function ToBits(id: Id): Bits {
    Bits(id.high * WORD32 + Reverse32(id.num), id.rest)
  }

  lemma {:induction false} SplitByte(q: nat, r: nat)
    requires r < 0x100
    ensures (r + 0x100 * q) / 0x100 == q && (r + 0x100 * q) % 0x100 == r
  {
  }

  lemma {:induction false} ReverseBytes(b0: nat, b1: nat, b2: nat, b3: nat)
    requires b0 < 0x100 && b1 < 0x100 && b2 < 0x100 && b3 < 0x100
    ensures Reverse32(FromBytes(b0, b1, b2, b3)) == FromBytes(b3, b2, b1, b0)
  {
    var q3 := b3;
    var q2 := b2 + 0x100 * q3;
    var q1 := b1 + 0x100 * q2;
    SplitByte(q1, b0);
    SplitByte(q2, b1);
    SplitByte(q3, b2);
    ReverseOf(FromBytes(b0, b1, b2, b3), q1, q2, q3, b0, b1, b2, b3);
  }

  lemma {:induction false} ReverseOf(x: nat, q1: nat, q2: nat, q3: nat, b0: nat, b1: nat, b2: nat, b3: nat)
    requires q1 == x / 0x100 && q2 == q1 / 0x100 && q3 == q2 / 0x100
    requires b0 == x % 0x100 && b1 == q1 % 0x100 && b2 == q2 % 0x100 && b3 == q3 % 0x100
    ensures Reverse32(x) == FromBytes(b3, b2, b1, b0)
  {
  }

  lemma {:induction false} Bytes(x: nat) returns (b0: nat, b1: nat, b2: nat, b3: nat)
    requires x < WORD32
    ensures b0 < 0x100 && b1 < 0x100 && b2 < 0x100 && b3 < 0x100
    ensures x == FromBytes(b0, b1, b2, b3)
  {
    var q1 := x / 0x100;
    var q2 := q1 / 0x100;
    b0, b1, b2, b3 := x % 0x100, q1 % 0x100, q2 % 0x100, q2 / 0x100;
  }

  lemma {:induction false} ReverseTwice(x: nat)
    requires x < WORD32
    ensures Reverse32(Reverse32(x)) == x
  {
    var b0, b1, b2, b3 := Bytes(x);
    ReverseBytes(b0, b1, b2, b3);
    ReverseBytes(b3, b2, b1, b0);
  }

  lemma {:induction false} SplitWord(high: nat, low: nat)
    requires low < WORD32
    ensures (high * WORD32 + low) % WORD32 == low && (high * WORD32 + low) / WORD32 == high
  {
  }

  lemma {:induction false} ReplaceLow(word: nat, low: nat)
    requires low < WORD32
    ensures word - word % WORD32 + low == word / WORD32 * WORD32 + low
    ensures (word - word % WORD32 + low) % WORD32 == low
  {
    SplitWord(word / WORD32, low);
  }

  lemma {:induction false} SplitUnique(high: nat, low: nat, high': nat, low': nat)
    requires low < WORD32 && low' < WORD32 && high * WORD32 + low == high' * WORD32 + low'
    ensures high == high' && low == low'
  {
    SplitWord(high, low);
    SplitWord(high', low');
  }

  /** The number stored in an id is read back unchanged, whatever the summary. */
  lemma {:induction false} NumberReadsBack(summary: Bits, num: nat)
    requires num < WORD32
    ensures NumFromId(MakeId(summary, num)) == num
    ensures MakeId(summary, num) == ToBits(Id(num, summary.word0 / WORD32, summary.rest))
  {
    var low := Reverse32(num);
    ReplaceLow(summary.word0, low);
    assert MakeId(summary, num).word0 % WORD32 == low;
    ReverseTwice(num);
  }

  /** The number stands in the low half of the first word, highest byte first; nothing else changes. */
  lemma {:induction false} IdBytes(summary: Bits, b0: nat, b1: nat, b2: nat, b3: nat)
    requires b0 < 0x100 && b1 < 0x100 && b2 < 0x100 && b3 < 0x100
    ensures var id := MakeId(summary, FromBytes(b0, b1, b2, b3));
            && id.word0 % WORD32 == FromBytes(b3, b2, b1, b0)
            && id.word0 / WORD32 == summary.word0 / WORD32 && id.rest == summary.rest
            && NumFromId(id) == b0 + 0x100 * b1 + 0x1_0000 * b2 + 0x100_0000 * b3
  {
    ReverseBytes(b0, b1, b2, b3);
    ReverseBytes(b3, b2, b1, b0);
    var low := FromBytes(b3, b2, b1, b0);
    ReplaceLow(summary.word0, low);
    SplitWord(summary.word0 / WORD32, low);
  }

  /** A block's own id therefore carries its predecessor's number plus one. */
  lemma {:induction false} ChildNumber(summary: Bits, previous: Bits)
    requires NumFromId(previous) + 1 < WORD32
    ensures NumFromId(MakeId(summary, BlockNum(previous))) == NumFromId(previous) + 1
  {
    NumberReadsBack(summary, NumFromId(previous) + 1);
  }

  /** The number of an id is the one its bits carry. */
  lemma {:induction false} IdNumber(id: Id)
    requires Fits(id)
    ensures NumFromId(ToBits(id)) == id.num
  {
    SplitWord(id.high, Reverse32(id.num));
    NumberReadsBack(ToBits(id), id.num);
  }

  /** Splitting an id into number and rest loses nothing. */
  lemma {:induction false} BitsDetermineId(a: Id, b: Id)
    requires Fits(a) && Fits(b) && ToBits(a) == ToBits(b)
    ensures a == b
  {
    SplitUnique(a.high, Reverse32(a.num), b.high, Reverse32(b.num));
    ReverseTwice(a.num);
    ReverseTwice(b.num);
  }
}
