/**
 The bytes of the block log and of its index.

 The log is one record per block: the packed block, a descriptor and an end mark. The index
 is one row of fixed size per block. Both are determined by the list of blocks.
 */
module LogFormat {
  import opened Optional

  type Byte = b: nat | b < 256
  type Bytes = seq<Byte>

  const ROW := 64
  const DESC := 64
  const MARK := 4
  const ID := 32

  /** How blocks are packed, and what the log needs to know of a block. */
  datatype Format<!B> = Format(
    number: B -> nat,
    id: B -> Bytes,
    previous: B -> Bytes,
    pack: B -> Bytes,
    unpack: Bytes -> Option<B>)

  /** A block is unpacked from wherever its packed bytes begin; numbers have 32 bits and ids a fixed size. */
  ghost predicate FormatOk<B(!new)>(f: Format<B>) {
    && (forall b: B, rest: Bytes {:trigger f.pack(b) + rest} :: f.unpack(f.pack(b) + rest) == Some(b))
    && (forall b: B :: |f.id(b)| == ID)
    && (forall b: B :: f.number(b) < 0x1_0000_0000)
  }

  // ---------------------------------------------------------------------
  // Numbers and rows as bytes
  // ---------------------------------------------------------------------

  /** The lowest `k` bytes of a number, lowest first. */
  function Low(n: nat, k: nat): (s: Bytes)
    ensures |s| == k
    decreases k, n
  {
    if k == 0 then [] else [n % 256] + Low(n / 256, k - 1)
  }

  function Zeros(k: nat): Bytes {
    seq(k, i => 0)
  }

  function Number(s: Bytes): nat {
    if s == [] then 0 else s[0] + 256 * Number(s[1..])
  }

  function Power(k: nat): nat {
    if k == 0 then 1 else 256 * Power(k - 1)
  }

  lemma {:induction false} LowReadsBack(n: nat, k: nat)
    requires n < Power(k)
    ensures Number(Low(n, k)) == n
    decreases k
  {
    if k > 0 {
      LowReadsBack(n / 256, k - 1);
      assert Low(n, k)[1..] == Low(n / 256, k - 1);
    }
  }

  const WORD := 0x1_0000_0000_0000_0000

  lemma {:induction false} WordReadsBack(n: nat)
    requires n < WORD
    ensures Number(Low(n, 8)) == n
  {
    assert Power(8) == 256 * Power(7) && Power(7) == 256 * Power(6) && Power(6) == 256 * Power(5) &&
           Power(5) == 256 * Power(4);
    assert Power(4) == 0x1_0000_0000;
    LowReadsBack(n, 8);
  }

  /** Bytes stand lowest first. */
  lemma {:induction false} LowestFirst(b0: Byte, b1: Byte, n: nat, k: nat)
    ensures Low(b0 + 0x100 * (b1 + 0x100 * n), k + 2) == [b0, b1] + Low(n, k)
  {
    var rest := b1 + 0x100 * n;
    assert (b0 + 0x100 * rest) % 256 == b0 && (b0 + 0x100 * rest) / 256 == rest;
    assert rest % 256 == b1 && rest / 256 == n;
  }

  datatype Row = Row(num: nat, pos: nat, size: nat, id: Bytes)

  predicate RowFits(r: Row) {
    r.num < WORD && r.pos < WORD && r.size < WORD && |r.id| == ID
  }

  function PutRow(r: Row): (s: Bytes)
    requires |r.id| == ID
    ensures |s| == ROW
  {
    Low(r.num, 8) + Low(r.pos, 8) + Low(r.size, 8) + r.id + Zeros(8)
  }

  function GetRow(s: Bytes): Row
    requires |s| == ROW
  {
    Row(Number(s[..8]), Number(s[8..16]), Number(s[16..24]), s[24..56])
  }

  lemma {:induction false} RowReadsBack(r: Row)
    requires RowFits(r)
    ensures GetRow(PutRow(r)) == r
    ensures var s := PutRow(r);
            && Number(s[..8]) == r.num && Number(s[8..16]) == r.pos && Number(s[16..24]) == r.size && s[24..56] == r.id
            && s[56..] == Zeros(8)
  {
    var s := PutRow(r);
    assert s[..8] == Low(r.num, 8) && s[8..16] == Low(r.pos, 8) && s[16..24] == Low(r.size, 8) && s[24..56] == r.id;
    WordReadsBack(r.num);
    WordReadsBack(r.pos);
    WordReadsBack(r.size);
  }

  function PutDesc(num: nat, pos: nat, size: nat): (s: Bytes)
    ensures |s| == DESC
  {
    Low(num, 8) + Low(pos, 8) + Low(size, 8) + Zeros(40)
  }

  /** The position a descriptor holds. */
  function DescPos(s: Bytes): nat
    requires |s| == DESC
  {
    Number(s[8..16])
  }

  lemma {:induction false} DescReadsBack(num: nat, pos: nat, size: nat)
    requires pos < WORD
    ensures DescPos(PutDesc(num, pos, size)) == pos
  {
    assert PutDesc(num, pos, size)[8..16] == Low(pos, 8);
    WordReadsBack(pos);
  }

  /** The end mark 0xb10cedef, lowest byte first. */
  const END_MARK: Bytes := [0xef, 0xed, 0x0c, 0xb1]

  // ---------------------------------------------------------------------
  // Parts of files
  // ---------------------------------------------------------------------

  lemma {:induction false} InFront(a: Bytes, b: Bytes, i: nat, j: nat)
    requires i <= j <= |a|
    ensures (a + b)[i..j] == a[i..j]
  {
  }

  lemma {:induction false} Behind(a: Bytes, b: Bytes)
    ensures (a + b)[|a|..] == b && (a + b)[|a|..|a| + |b|] == b
  {
  }

  lemma {:induction false} Regroup(a: Bytes, b: Bytes, c: Bytes)
    ensures a + b + c == a + (b + c)
  {
  }

  lemma {:induction false} FromWithin(a: Bytes, b: Bytes, i: nat)
    requires i <= |a|
    ensures (a + b)[i..] == a[i..] + b
  {
  }

  // ---------------------------------------------------------------------
  // The two files
  // ---------------------------------------------------------------------

  function Record<B>(f: Format<B>, b: B, pos: nat): Bytes {
    f.pack(b) + PutDesc(f.number(b), pos, |f.pack(b)|) + END_MARK
  }

  /** The log file of a list of blocks. */
  function LogBytes<B>(f: Format<B>, log: seq<B>): Bytes {
    if log == [] then []
    else
      var before := LogBytes(f, log[..|log| - 1]);
      before + Record(f, log[|log| - 1], |before|)
  }

  function RowOf<B>(f: Format<B>, log: seq<B>, i: nat): Row
    requires i < |log|
  {
    Row(f.number(log[i]), |LogBytes(f, log[..i])|, |f.pack(log[i])|, f.id(log[i]))
  }

  /** The rows of a list of blocks, as bytes. */
  ghost function Rows<B(!new)>(f: Format<B>, log: seq<B>): (rows: seq<Bytes>)
    requires FormatOk(f)
    ensures |rows| == |log| && RowSized(rows)
  {
    seq(|log|, i requires 0 <= i < |log| => PutRow(RowOf(f, log, i)))
  }

  /** The index file of a list of blocks. */
  ghost function IndexBytes<B(!new)>(f: Format<B>, log: seq<B>): Bytes
    requires FormatOk(f)
  {
    Flat(Rows(f, log))
  }

  predicate RowSized(chunks: seq<Bytes>) {
    forall i :: 0 <= i < |chunks| ==> |chunks[i]| == ROW
  }

  /** The chunks one after the other. */
  function Flat(chunks: seq<Bytes>): Bytes {
    if chunks == [] then [] else Flat(chunks[..|chunks| - 1]) + chunks[|chunks| - 1]
  }

  lemma {:induction false} FlatSize(chunks: seq<Bytes>)
    requires RowSized(chunks)
    ensures |Flat(chunks)| == ROW * |chunks|
  {
    if chunks != [] {
      FlatSize(chunks[..|chunks| - 1]);
    }
  }

  /** Chunk `i` is in slot `i`. */
  lemma {:induction false} FlatSlot(chunks: seq<Bytes>, i: nat)
    requires RowSized(chunks) && i < |chunks|
    ensures ROW * i + ROW <= |Flat(chunks)|
    ensures Flat(chunks)[ROW * i..ROW * i + ROW] == chunks[i]
    decreases |chunks|
  {
    var last := |chunks| - 1;
    FlatSize(chunks[..last]);
    if i < last {
      FlatSlot(chunks[..last], i);
      InFront(Flat(chunks[..last]), chunks[last], ROW * i, ROW * i + ROW);
    } else {
      Behind(Flat(chunks[..last]), chunks[last]);
    }
  }

  lemma {:induction false} OneMoreRow<B(!new)>(f: Format<B>, log: seq<B>, b: B)
    requires FormatOk(f)
    ensures Rows(f, log + [b]) == Rows(f, log) + [PutRow(Row(f.number(b), |LogBytes(f, log)|, |f.pack(b)|, f.id(b)))]
    ensures IndexBytes(f, log + [b])
         == IndexBytes(f, log) + PutRow(Row(f.number(b), |LogBytes(f, log)|, |f.pack(b)|, f.id(b)))
    ensures LogBytes(f, log + [b]) == LogBytes(f, log) + Record(f, b, |LogBytes(f, log)|)
  {
    var more := log + [b];
    assert more[..|log|] == log;
    forall i | 0 <= i < |log| ensures RowOf(f, more, i) == RowOf(f, log, i) {
      assert more[..i] == log[..i];
    }
    var row := PutRow(Row(f.number(b), |LogBytes(f, log)|, |f.pack(b)|, f.id(b)));
    assert Rows(f, more) == Rows(f, log) + [row];
    assert (Rows(f, log) + [row])[..|log|] == Rows(f, log);
  }

  /** Row `i` of the index is in slot `i`, and is read back from there. */
  lemma {:induction false} IndexSlot<B(!new)>(f: Format<B>, log: seq<B>, i: nat)
    requires FormatOk(f) && i < |log| && RowFits(RowOf(f, log, i))
    ensures |IndexBytes(f, log)| == ROW * |log|
    ensures ROW * i + ROW <= |IndexBytes(f, log)|
    ensures GetRow(IndexBytes(f, log)[ROW * i..ROW * i + ROW]) == RowOf(f, log, i)
  {
    FlatSize(Rows(f, log));
    FlatSlot(Rows(f, log), i);
    RowReadsBack(RowOf(f, log, i));
  }

  /** The packed bytes of block `i` begin at the position its row names. */
  lemma {:induction false} BlockAt<B(!new)>(f: Format<B>, log: seq<B>, i: nat) returns (rest: Bytes)
    requires FormatOk(f) && i < |log|
    ensures |LogBytes(f, log[..i])| <= |LogBytes(f, log)|
    ensures LogBytes(f, log)[|LogBytes(f, log[..i])|..] == f.pack(log[i]) + rest
    decreases |log|
  {
    var last := |log| - 1;
    var before := log[..last];
    var pos := |LogBytes(f, log[..i])|;
    var record := Record(f, log[last], |LogBytes(f, before)|);
    assert LogBytes(f, log) == LogBytes(f, before) + record;
    if i < last {
      assert log[..i] == before[..i];
      var more := BlockAt(f, before, i);
      rest := more + record;
      FromWithin(LogBytes(f, before), record, pos);
      Regroup(f.pack(log[i]), more, record);
    } else {
      rest := PutDesc(f.number(log[i]), pos, |f.pack(log[i])|) + END_MARK;
      Regroup(f.pack(log[i]), PutDesc(f.number(log[i]), pos, |f.pack(log[i])|), END_MARK);
      Behind(LogBytes(f, before), record);
    }
  }

  /** The descriptor before the end mark names the last block's position. */
  lemma {:induction false} LastDesc<B>(f: Format<B>, log: seq<B>)
    requires log != [] && |LogBytes(f, log)| < WORD
    ensures var s := LogBytes(f, log);
            && |s| >= DESC + MARK
            && DescPos(s[|s| - MARK - DESC..|s| - MARK]) == |LogBytes(f, log[..|log| - 1])|
  {
    var last := log[|log| - 1];
    var before := LogBytes(f, log[..|log| - 1]);
    var desc := PutDesc(f.number(last), |before|, |f.pack(last)|);
    BeforeEnd(before, f.pack(last), desc, END_MARK);
    DescReadsBack(f.number(last), |before|, |f.pack(last)|);
  }

  lemma {:induction false} BeforeEnd(a: Bytes, b: Bytes, c: Bytes, d: Bytes)
    ensures var s := a + (b + c + d);
            s[|s| - |d| - |c|..|s| - |d|] == c
  {
  }
}
