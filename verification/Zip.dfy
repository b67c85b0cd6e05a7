/** The chunk loops of src/zip.c, over any codec that keeps its contract. */
module Zip {
  import opened Basics
  import opened Codec

  const CHUNK := 16384

  /** Which reads and writes fail, counted from 0. */
  datatype Faults = Faults(read: nat -> bool, write: nat -> bool)

  ghost predicate NoFaults(io: Faults) {
    forall k :: !io.read(k) && !io.write(k)
  }

  /** So many reads and writes have gone well, and the writes are enough for what is written. */
  ghost predicate Passed(io: Faults, nread: nat, nwrite: nat, written: nat) {
    && (forall k :: 0 <= k < nread ==> !io.read(k)) && (forall k :: 0 <= k < nwrite ==> !io.write(k))
    && written <= nwrite * CHUNK
  }

  lemma AllPassed(io: Faults, nread: nat, nwrite: nat, written: nat)
    requires Passed(io, nread, nwrite, written)
    ensures forall k :: 0 <= k && k * CHUNK < written ==> !io.write(k)
  {
  }

  /** zip: src/zip.c:38-86. `init` is what deflateInit answers. */
  method Zip<D(!new), I(!new)>(c: Codec<D, I>, source: bytes, init: int, io: Faults) returns (ret: int, dest: bytes)
    requires DeflateOk(c)
    ensures ret == Z_OK ==> c.stream(dest, source)
    ensures init == Z_OK && NoFaults(io) ==> ret == Z_OK
    ensures ret == Z_OK || ret == init || ret == Z_ERRNO
    ensures ret == Z_OK ==> init == Z_OK && forall k :: 0 <= k <= |source| / CHUNK ==> !io.read(k)
    ensures ret == Z_OK ==> forall k :: 0 <= k && k * CHUNK < |dest| ==> !io.write(k)
  {
    ret, dest := init, [];
    if ret != Z_OK {
      return;
    }
    var strm := c.dinit;
    var pos, nread, nwrite := 0, 0, 0;
    var finish := false;
    ghost var fed: bytes := [];
    while !finish
      invariant 0 <= pos <= |source| && fed == source[..pos]
      invariant !finish ==> c.dinv(strm, fed, dest, None)
      invariant finish ==> pos == |source| && ret == Z_STREAM_END && c.stream(dest, source)
      invariant Passed(io, nread, nwrite, |dest|)
      invariant if finish then nread == |source| / CHUNK + 1 else pos == nread * CHUNK
      decreases !finish, |source| - pos
    {
      var got := Min(CHUNK, |source| - pos);
      var input := source[pos..pos + got];
      if io.read(nread) {
        return Z_ERRNO, dest;
      }
      pos, nread := pos + got, nread + 1;
      finish := got < CHUNK;
      var again := true;
      ghost var tail: Option<bytes> := None;
      while again
        invariant c.dinv(strm, fed, dest, tail) && MayDeflate(tail, input, finish)
        invariant fed + input == source[..pos]
        invariant !again ==> input == []
        invariant !again && finish ==> ret == Z_STREAM_END && c.stream(dest, source[..pos])
        invariant !finish ==> tail == None
        invariant Passed(io, nread, nwrite, |dest|)
        decreases again, c.dwork(strm, input, finish)
      {
        var r := c.deflate(strm, input, finish, CHUNK);
        assert DeflateCall(c, strm, input, finish, CHUNK, fed, dest);
        ret := r.ret;
        assert ret != Z_STREAM_ERROR;
        if io.write(nwrite) {
          return Z_ERRNO, dest;
        }
        nwrite := nwrite + 1;
        assert fed + input == (fed + input[..r.used]) + input[r.used..];
        fed, input, strm := fed + input[..r.used], input[r.used..], r.next;
        tail := if finish then Some(input) else None;
        dest := dest + r.out;
        again := |r.out| == CHUNK;
      }
      assert input == [];
      assert finish ==> source[..pos] == source;
    }
    assert ret == Z_STREAM_END;
    AllPassed(io, nread, nwrite, |dest|);
    ret := Z_OK;
  }

  /** unzip: src/zip.c:94-150. `init` is what inflateInit answers. */
  method Unzip<D(!new), I(!new)>(c: Codec<D, I>, source: bytes, init: int, io: Faults) returns (ret: int, dest: bytes)
    requires InflateOk(c)
    ensures ret == Z_OK ==> exists k :: 0 <= k <= |source| && c.stream(source[..k], dest)
    ensures init == Z_OK && NoFaults(io) ==>
              forall e, f :: c.stream(e, f) && e <= source ==> ret == Z_OK && dest == f
    ensures init == Z_OK && NoFaults(io) ==>
              forall e, f :: c.stream(e, f) && source < e ==> ret == Z_DATA_ERROR
    ensures init == Z_OK && NoFaults(io) && source == [] ==> ret == Z_DATA_ERROR
    ensures init != Z_OK ==> ret == init
    ensures ret == Z_OK ==> !io.read(0) && forall k :: 0 <= k && k * CHUNK < |dest| ==> !io.write(k)
  {
    ret, dest := init, [];
    if ret != Z_OK {
      return;
    }
    var strm := c.iinit;
    var pos, nread, nwrite := 0, 0, 0;
    ghost var taken: bytes := [];
    while ret != Z_STREAM_END
      invariant 0 <= pos <= |source|
      invariant c.iinv(strm, taken, dest) && taken <= source
      invariant ret != Z_STREAM_END ==> taken == source[..pos]
      invariant ret == Z_STREAM_END ==> c.stream(taken, dest) && pos > 0
      invariant Passed(io, nread, nwrite, |dest|) && (pos > 0 ==> nread > 0)
      invariant forall e, f :: c.stream(e, f) && Consistent(e, source) ==> Follows(e, f, taken, dest, ret)
      decreases ret != Z_STREAM_END, |source| - pos
    {
      var got := Min(CHUNK, |source| - pos);
      var input := source[pos..pos + got];
      if io.read(nread) {
        return Z_ERRNO, dest;
      }
      pos, nread := pos + got, nread + 1;
      if got == 0 {
        break;
      }
      var again := true;
      while again
        invariant c.iinv(strm, taken, dest) && taken + input == source[..pos]
        invariant !again && ret != Z_STREAM_END ==> input == []
        invariant !again && ret == Z_STREAM_END ==> c.stream(taken, dest)
        invariant Passed(io, nread, nwrite, |dest|)
        invariant forall e, f :: c.stream(e, f) && Consistent(e, source) ==>
                    taken <= e && dest <= f && (!again ==> Follows(e, f, taken, dest, ret))
        decreases again, c.iwork(strm, input)
      {
        var r := c.inflate(strm, input, CHUNK);
        assert InflateCall(c, strm, input, CHUNK, taken, dest);
        forall e, f | c.stream(e, f) && Consistent(e, source)
          ensures InflateFollows(c, strm, input, CHUNK, taken, dest, e, f)
        {
          assert Consistent(e, source[..pos]);
        }
        ret := r.ret;
        assert ret != Z_STREAM_ERROR;
        if ret == Z_NEED_DICT {
          ret := Z_DATA_ERROR;
        }
        if ret == Z_DATA_ERROR || ret == Z_MEM_ERROR {
          return;
        }
        if io.write(nwrite) {
          return Z_ERRNO, dest;
        }
        nwrite := nwrite + 1;
        assert taken + input == (taken + input[..r.used]) + input[r.used..];
        taken, input, strm := taken + input[..r.used], input[r.used..], r.next;
        dest := dest + r.out;
        again := |r.out| == CHUNK;
      }
    }
    if ret == Z_STREAM_END {
      AllPassed(io, nread, nwrite, |dest|);
      assert source[..|taken|] == taken;
      ret := Z_OK;
    } else {
      ret := Z_DATA_ERROR;
    }
  }

  /** How far the loop is into the stream `e` of `f`: at its end exactly when inflate has said so. */
  ghost predicate Follows(e: bytes, f: bytes, taken: bytes, dest: bytes, ret: int) {
    taken <= e && dest <= f && (ret == Z_STREAM_END ==> taken == e && dest == f)
    && (taken == e && taken != [] ==> ret == Z_STREAM_END)
  }
}
