/**
 The log of irreversible blocks: two files that only grow, and the list of blocks they stand for.

 Appending adds a block to the end of the list; reading by number gives the block of that
 number. A read that leaves the file throws, which is the outcome Failed.
 */
module BlockLog {
  import opened Optional
  import opened LogFormat

  datatype Outcome<T> = Got(value: T) | Missing | Failed

  /** File positions are signed 64-bit numbers. */
  const FILE_LIMIT := 0x8000_0000_0000_0000

  /** Reads `n` bytes from a position. */
  function ReadAt(file: Bytes, pos: int, n: nat): (r: Option<Bytes>)
    ensures r.Some? ==> |r.value| == n
  {
    if 0 <= pos && pos + n <= |file| then Some(file[pos..pos + n]) else None
  }

  /** Reads the index row at a position. */
  function RowAt(index: Bytes, pos: int): Option<Row> {
    match ReadAt(index, pos, ROW)
    case None => None
    case Some(bytes) => Some(GetRow(bytes))
  }

  /** Blocks are numbered from one. */
  ghost predicate Numbered<B>(f: Format<B>, log: seq<B>) {
    forall i :: 0 <= i < |log| ==> f.number(log[i]) == i + 1
  }

  /** Every block names the one before it. */
  ghost predicate HashLinked<B>(f: Format<B>, log: seq<B>) {
    forall i :: 0 < i < |log| ==> f.previous(log[i]) == f.id(log[i - 1])
  }

  /** The block can follow the other in the log. */
  ghost predicate Follows<B>(f: Format<B>, b: B, before: B) {
    f.number(b) == f.number(before) + 1 && f.previous(b) == f.id(before)
  }

  ghost function Last<B>(list: seq<B>): B
    requires list != []
  {
    list[|list| - 1]
  }

  /** The log file can still take the block's record. */
  ghost predicate Room<B>(f: Format<B>, b: B, size: nat) {
    size + |Record(f, b, size)| < FILE_LIMIT
  }

  /** The files are those of the list of blocks. */
  ghost predicate FilesOk<B(!new)>(f: Format<B>, blocks: Bytes, index: Bytes, log: seq<B>)
    requires FormatOk(f)
  {
    && blocks == LogBytes(f, log) && |blocks| < FILE_LIMIT
    && index == IndexBytes(f, log) && |index| == ROW * |log|
    && Numbered(f, log)
  }

  /** One record and one row more are the files of one block more. */
  lemma {:induction false} AppendKeepsFiles<B(!new)>(f: Format<B>, blocks: Bytes, index: Bytes, log: seq<B>, b: B)
    requires FormatOk(f) && FilesOk(f, blocks, index, log)
    requires f.number(b) == |log| + 1 && |blocks| + |Record(f, b, |blocks|)| < FILE_LIMIT
    ensures |f.id(b)| == ID
    ensures FilesOk(f, blocks + Record(f, b, |blocks|),
                    index + PutRow(Row(f.number(b), |blocks|, |f.pack(b)|, f.id(b))), log + [b])
  {
    OneMoreRow(f, log, b);
  }

  lemma {:induction false} RowsFit<B(!new)>(f: Format<B>, log: seq<B>, i: nat)
    requires FormatOk(f) && Numbered(f, log) && |LogBytes(f, log)| < FILE_LIMIT && i < |log|
    ensures RowFits(RowOf(f, log, i))
    ensures RowOf(f, log, i).num == i + 1
  {
    var rest := BlockAt(f, log, i);
    assert f.number(log[i]) == i + 1;
  }

  /** Slot `i` of the index has the row of block `i`, and there are no other slots. */
  lemma {:induction false} RowInSlot<B(!new)>(f: Format<B>, blocks: Bytes, index: Bytes, log: seq<B>, i: int)
    requires FormatOk(f) && FilesOk(f, blocks, index, log)
    ensures 0 <= i < |log| ==> RowAt(index, ROW * i) == Some(RowOf(f, log, i)) && RowOf(f, log, i).num == i + 1
    ensures !(0 <= i < |log|) ==> RowAt(index, ROW * i) == None
  {
    if 0 <= i < |log| {
      RowsFit(f, log, i);
      IndexSlot(f, log, i);
    }
  }

  /** The position in the last descriptor of the log. */
  function LastPosition(blocks: Bytes): Option<nat> {
    match ReadAt(blocks, |blocks| - MARK - DESC, DESC)
    case None => None
    case Some(desc) => Some(DescPos(desc))
  }

  lemma {:induction false} HeadPosition<B>(f: Format<B>, log: seq<B>)
    requires |LogBytes(f, log)| < FILE_LIMIT
    ensures LastPosition(LogBytes(f, log)) == if log == [] then None else Some(RowOf(f, log, |log| - 1).pos)
  {
    if log != [] {
      LastDesc(f, log);
      PositionRead(LogBytes(f, log));
    }
  }

  lemma {:induction false} PositionRead(s: Bytes)
    requires |s| >= DESC + MARK
    ensures LastPosition(s) == Some(DescPos(s[|s| - MARK - DESC..|s| - MARK]))
  {
  }

  /** Where a row points, its block is unpacked. */
  lemma {:induction false} RowPoints<B(!new)>(f: Format<B>, log: seq<B>, i: nat)
    requires FormatOk(f) && i < |log|
    ensures RowOf(f, log, i).pos <= |LogBytes(f, log)|
    ensures f.unpack(LogBytes(f, log)[RowOf(f, log, i).pos..]) == Some(log[i])
  {
    var rest := BlockAt(f, log, i);
  }

  class BlockLog<B(!new)> {
    const format: Format<B>
    var blocks: Bytes
    var index: Bytes
    var head: Option<B>
    /** A read or seek that failed leaves its stream in a failed state, in which everything throws. */
    var blocksFailed: bool
    var indexFailed: bool
    ghost var log: seq<B>

    ghost predicate Valid()
      reads this
    {
      && FormatOk(format)
      && FilesOk(format, blocks, index, log)
      && head == if log == [] then None else Some(log[|log| - 1])
    }

    predicate Broken()
      reads this
    {
      blocksFailed || indexFailed
    }

    constructor (format: Format<B>)
      requires FormatOk(format)
      ensures Valid() && log == [] && this.format == format && !Broken()
    {
      this.format := format;
      blocks := [];
      index := [];
      head := None;
      blocksFailed, indexFailed := false, false;
      log := [];
    }

    /** Appends a block if it is the next one by number and no read has failed; the index decides. */
    method AppendBlock(b: B) returns (ok: bool)
      requires Valid()
      modifies this`blocks, this`index, this`head, this`log
      ensures Valid()
      ensures ok == (!Broken() && format.number(b) == |old(log)| + 1 && Room(format, b, |old(blocks)|))
      ensures !ok ==> blocks == old(blocks)
      ensures log == if ok then old(log) + [b] else old(log)
    {
      var num: int := format.number(b);
      if indexFailed || |index| != ROW * (num - 1) {
        return false;
      }
      if blocksFailed || |blocks| + |Record(format, b, |blocks|)| >= FILE_LIMIT {
        return false;
      }
      WriteBlock(b);
      return true;
    }

    /** Writes the record of a block and then its row. */
    method WriteBlock(b: B)
      requires Valid() && format.number(b) == |log| + 1 && |blocks| + |Record(format, b, |blocks|)| < FILE_LIMIT
      modifies this`blocks, this`index, this`head, this`log
      ensures Valid() && log == old(log) + [b]
    {
      AppendKeepsFiles(format, blocks, index, log, b);
      var row := Row(format.number(b), |blocks|, |format.pack(b)|, format.id(b));
      blocks := blocks + Record(format, b, |blocks|);
      index := index + PutRow(row);
      head := Some(b);
      log := log + [b];
    }

    /** A block that has become irreversible must follow the head by number and by id. */
    method OnIrreversible(b: B) returns (ok: bool)
      requires Valid() && log != [] && HashLinked(format, log)
      modifies this`blocks, this`index, this`head, this`log
      ensures Valid() && HashLinked(format, log)
      ensures ok == (!Broken() && Follows(format, b, Last(old(log))) && Room(format, b, |old(blocks)|))
      ensures !ok ==> blocks == old(blocks)
      ensures log == if ok then old(log) + [b] else old(log)
    {
      var pre := head.value;
      assert format.number(pre) == |log|;
      if format.number(b) - 1 != format.number(pre) || format.previous(b) != format.id(pre) {
        return false;
      }
      ok := AppendBlock(b);
    }

    /** The row a number of rows before the last; a seek before the first row fails. */
    method RowBefore(back: int) returns (row: Option<Row>)
      requires Valid() && back >= 0
      modifies this`indexFailed
      ensures row.Some? <==> !old(indexFailed) && back < |log|
      ensures row.Some? ==> row == Some(RowOf(format, log, |log| - 1 - back)) && row.value.num == |log| - back
      ensures indexFailed == (old(indexFailed) || back >= |log|)
    {
      RowInSlot(format, blocks, index, log, |log| - 1 - back);
      var pos := |index| - ROW - ROW * back;
      assert pos == ROW * (|log| - 1 - back);
      row := if indexFailed then None else RowAt(index, pos);
      indexFailed := indexFailed || pos < 0;
    }

    /** Unpacks the block at a position of the log. */
    method ReadBlockAt(pos: nat) returns (r: Outcome<B>)
      requires Valid()
      modifies this`blocksFailed
      ensures old(blocksFailed) ==> r == Failed
      ensures forall i :: 0 <= i < |log| && pos == RowOf(format, log, i).pos ==>
                            blocksFailed == old(blocksFailed) && (!blocksFailed ==> r == Got(log[i]))
    {
      forall i | 0 <= i < |log| && pos == RowOf(format, log, i).pos
        ensures pos <= |blocks| && format.unpack(blocks[pos..]) == Some(log[i])
      {
        RowPoints(format, log, i);
      }
      if blocksFailed {
        return Failed;
      }
      var block := if pos <= |blocks| then format.unpack(blocks[pos..]) else None;
      blocksFailed := block.None?;
      return if block.Some? then Got(block.value) else Failed;
    }

    /**
     While no read has failed, every number from one to the last gives its block, a higher one
     nothing, and zero fails. After a failure every number does, as far as it needs the failed file.
     */
    method ReadByNum(num: nat) returns (r: Outcome<B>)
      requires Valid()
      modifies this`blocksFailed, this`indexFailed
      ensures !old(Broken()) && 1 <= num <= |log| ==> r == Got(log[num - 1]) && format.number(r.value) == num
      ensures !old(indexFailed) && num > |log| > 0 ==> r == Missing
      ensures log == [] || num == 0 ==> r == Failed && indexFailed
      ensures old(indexFailed) || (old(blocksFailed) && num <= |log|) ==> r == Failed
      ensures blocksFailed == old(blocksFailed) && indexFailed == (old(indexFailed) || log == [] || num == 0)
    {
      var last := RowBefore(0);
      if last.None? {
        return Failed;
      }
      if last.value.num > num {
        var row := RowBefore(last.value.num - num);
        if row.None? {
          return Failed;
        }
        assert format.number(log[num - 1]) == num;
        r := ReadBlockAt(row.value.pos);
      } else if last.value.num == num {
        r := ReadBlockAt(last.value.pos);
      } else {
        r := Missing;
      }
    }

    method ReadHead() returns (r: Outcome<B>)
      requires Valid()
      modifies this`blocksFailed
      ensures r == if old(blocksFailed) || log == [] then Failed else Got(log[|log| - 1])
      ensures blocksFailed == (old(blocksFailed) || log == [])
    {
      HeadPosition(format, log);
      var pos := LastPosition(blocks);
      if blocksFailed || pos.None? {
        blocksFailed := true;
        return Failed;
      }
      r := ReadBlockAt(pos.value);
    }

    /** The number of the last block, except that a log of one block says zero. */
    method LastBlockNum() returns (r: Outcome<nat>)
      requires Valid()
      modifies this`indexFailed
      ensures r == if old(indexFailed) || log == [] then Failed else if |log| == 1 then Got(0) else Got(|log|)
      ensures indexFailed == (old(indexFailed) || log == [])
    {
      var at := |index| - ROW;
      if indexFailed || at < 0 {
        indexFailed := true;
        return Failed;
      }
      if at <= 0 {
        return Got(0);
      }
      var last := RowBefore(0);
      return Got(last.value.num);
    }

    /**
     The rows of up to `count` blocks from `begin` on. With two blocks or more this is the slice;
     a log of one block gives nothing. A number below one fails in the file, a negative count
     before it gets there.
     */
    method ReadIndices(begin: int, count: int) returns (r: Outcome<seq<Row>>)
      requires Valid()
      modifies this`indexFailed
      ensures old(indexFailed) || log == [] ==> r == Failed && indexFailed
      ensures !old(indexFailed) && |log| == 1 ==> r == Got([]) && !indexFailed
      ensures !old(indexFailed) && |log| >= 2 && begin > |log| ==> r == Got([]) && !indexFailed
      ensures !old(indexFailed) && |log| >= 2 && begin <= |log| && count < 0 ==> r == Failed && !indexFailed
      ensures !old(indexFailed) && |log| >= 2 && begin < 1 && count >= 0 ==> r == Failed && indexFailed
      ensures !old(indexFailed) && |log| >= 2 && 1 <= begin <= |log| && count >= 0 ==>
                && !indexFailed
                && r == Got(Slice(format, log, begin - 1, if |log| - begin + 1 < count then |log| - begin + 1
                                  else count))
    {
      var at := |index| - ROW;
      if indexFailed || at < 0 {
        indexFailed := true;
        return Failed;
      }
      if at <= 0 {
        return Got([]);
      }
      var last := RowBefore(0);
      var available := last.value.num - begin + 1;
      if available < 1 {
        return Got([]);
      }
      var n := if available < count then available else count;
      if n < 0 {
        return Failed;
      }
      if at - ROW * (last.value.num - begin) < 0 {
        indexFailed := true;
        return Failed;
      }
      var rows := ReadRows(begin - 1, n);
      return Got(rows);
    }

    method ReadRows(from: nat, n: nat) returns (rows: seq<Row>)
      requires Valid() && from + n <= |log|
      ensures rows == Slice(format, log, from, n)
    {
      rows := [];
      for k := 0 to n
        invariant |rows| == k && forall j :: 0 <= j < k ==> rows[j] == RowOf(format, log, from + j)
      {
        RowInSlot(format, blocks, index, log, from + k);
        rows := rows + [RowAt(index, ROW * (from + k)).value];
      }
    }
  }

  function Slice<B>(f: Format<B>, log: seq<B>, from: nat, n: nat): seq<Row>
    requires from + n <= |log|
  {
    seq(n, k requires 0 <= k < n => RowOf(f, log, from + k))
  }
}
