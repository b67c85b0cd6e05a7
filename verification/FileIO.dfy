/** The I/O loops of src/file.c. */
module FileIO {
  import opened Basics

  const WRITE_BLOCK_SIZE: nat := 1000 * 1000

  // ----- Writing a buffer whole -----

  /** How write(2) answers: it takes at most `n` bytes, is interrupted, or fails. */
  datatype WriteAnswer = Takes(n: nat) | Interrupted | WriteError

  /** `rank` goes down at every answer that takes nothing, so some bytes are taken in the end. */
  ghost predicate Progress(answers: nat -> WriteAnswer, rank: nat -> nat) {
    forall i: nat :: answers(i) == Interrupted || answers(i) == Takes(0) ==> rank(i + 1) < rank(i)
  }

  /** A file open for writing, its offset at its end. */
  class OutFile {
    var content: bytes
    const answers: nat -> WriteAnswer
    var calls: nat

    constructor (answers: nat -> WriteAnswer)
      ensures content == [] && this.answers == answers && calls == 0
    {
      content, this.answers, calls := [], answers, 0;
    }

    /** write(2). */
    method Write(buf: bytes) returns (cc: int, eintr: bool)
      modifies this
      ensures calls == old(calls) + 1
      ensures match answers(old(calls))
              case Takes(n) => cc == Min(n, |buf|) && content == old(content) + buf[..cc]
              case Interrupted => cc == -1 && eintr && content == old(content)
              case WriteError => cc == -1 && !eintr && content == old(content)
    {
      var r := answers(calls);
      calls := calls + 1;
      match r
      case Takes(n) =>
        cc, eintr := Min(n, |buf|), false;
        content := content + buf[..cc];
      case Interrupted => cc, eintr := -1, true;
      case WriteError => cc, eintr := -1, false;
    }

    /** write_all: src/file.c:49-75. Whatever the short writes and the interruptions, the buffer is
        appended in order: whole, or a prefix of it when the answer is -1. */
    method WriteAll(buf: bytes, ghost rank: nat -> nat) returns (ret: int)
      requires Progress(answers, rank)
      modifies this
      ensures calls > old(calls)
      ensures ret == 0 ==> content == old(content) + buf
      ensures ret != 0 ==> ret == -1 && exists k :: 0 <= k <= |buf| && content == old(content) + buf[..k]
      ensures (forall i :: old(calls) <= i < calls ==> answers(i) != WriteError) <==> ret == 0
    {
      var rest := buf;
      while true
        invariant calls >= old(calls)
        invariant |rest| <= |buf| && rest == buf[|buf| - |rest|..]
        invariant content == old(content) + buf[..|buf| - |rest|]
        invariant forall i :: old(calls) <= i < calls ==> answers(i) != WriteError
        decreases |rest|, rank(calls)
      {
        var cc, eintr := Write(rest);
        if cc == -1 {
          if eintr {
            continue;
          }
          assert answers(calls - 1) == WriteError;
          return -1;
        }
        assert buf[..|buf| - |rest|] + rest[..cc] == buf[..|buf| - |rest| + cc];
        rest := rest[cc..];
        if rest == [] {
          return 0;
        }
      }
    }
  }

  // ----- Sending a file block by block -----

  function Concat(blocks: seq<bytes>): bytes {
    if blocks == [] then [] else Concat(blocks[..|blocks| - 1]) + blocks[|blocks| - 1]
  }

  /** How the reads and the sends answer, counted from 0: a read may be short, but is empty only at
      the end of the file. */
  datatype SendAnswers = SendAnswers(short: nat -> nat, readFails: nat -> bool, writeFails: nat -> bool)

  /** read_write_all_vfile: src/file.c:77-107. The blocks sent are, together, the file from the
      descriptor's offset on. */
  method ReadWriteAll(file: bytes, offset: nat, a: SendAnswers) returns (ret: int, blocks: seq<bytes>, end: nat)
    requires offset <= |file|
    ensures ret == 0 ==> Concat(blocks) == file[offset..] && end == |file|
    ensures ret != 0 ==> ret == -1 && Concat(blocks) <= file[offset..]
    ensures offset <= end <= |file|
    ensures forall b :: b in blocks ==> 0 < |b| <= 1_000_000
    ensures forall i :: 0 <= i < |blocks| ==> !a.readFails(i) && !a.writeFails(i)
    ensures ret == 0 ==> !a.readFails(|blocks|)
    ensures ret != 0 ==> a.readFails(|blocks|) || a.writeFails(|blocks|)
  {
    blocks, end := [], offset;
    var i := 0;
    while true
      invariant offset <= end <= |file|
      invariant Concat(blocks) == file[offset..end]
      invariant forall b :: b in blocks ==> 0 < |b| <= WRITE_BLOCK_SIZE
      invariant i == |blocks| && forall k :: 0 <= k < i ==> !a.readFails(k) && !a.writeFails(k)
      decreases |file| - end
    {
      if a.readFails(i) {
        assert file[offset..end] <= file[offset..];
        return -1, blocks, end;
      }
      var left := Min(WRITE_BLOCK_SIZE, |file| - end);
      var r := if 1 <= a.short(i) <= left then a.short(i) else left;
      if r == 0 {
        break;
      }
      var block := file[end..end + r];
      if a.writeFails(i) {
        assert file[offset..end] <= file[offset..];
        return -1, blocks, end + r;
      }
      assert (blocks + [block])[..|blocks|] == blocks;
      assert file[offset..end] + block == file[offset..end + r];
      blocks := blocks + [block];
      end, i := end + r, i + 1;
    }
    return 0, blocks, end;
  }
}
