/** The contract of the zlib stream functions, as src/zip.c uses them. */
module Codec {
  import opened Basics

  const Z_OK := 0
  const Z_STREAM_END := 1
  const Z_NEED_DICT := 2
  const Z_ERRNO := -1
  const Z_STREAM_ERROR := -2
  const Z_DATA_ERROR := -3
  const Z_MEM_ERROR := -4

  /** What one call of deflate() or inflate() does: the next state, how much input it took, the
      output it produced, and its return value. */
  datatype Call<S> = Call(next: S, used: nat, out: bytes, ret: int)

  /** A codec: the two stream functions over their states D and I, given the input, (for deflate)
      whether the flush is Z_FINISH, and the room for output. The other fields describe it:
      `stream(e, f)` says that `e` is a complete stream for the content `f`; `dinv` and `iinv` tie a
      state to what it has taken and given out; `dwork` and `iwork` bound the output to come. */
  datatype Codec<!D, !I> = Codec(
    dinit: D,
    deflate: (D, bytes, bool, nat) -> Call<D>,
    iinit: I,
    inflate: (I, bytes, nat) -> Call<I>,
    stream: (bytes, bytes) -> bool,
    dinv: (D, bytes, bytes, Option<bytes>) -> bool,
    dwork: (D, bytes, bool) -> nat,
    iinv: (I, bytes, bytes) -> bool,
    iwork: (I, bytes) -> nat)

  /** After Z_FINISH the caller goes on with Z_FINISH and the input that is left. */
  predicate MayDeflate(tail: Option<bytes>, input: bytes, finish: bool) {
    tail.None? || (finish && tail.value == input)
  }

  /** One call of deflate: it takes input and gives output within the room, it stops short of the
      room only when it has taken everything, and with Z_FINISH only when the stream is complete. */
  ghost predicate DeflateCall<D,
                                    I>(c: Codec<D, I>, s: D, input: bytes, finish: bool, room: nat, fed: bytes,
                                       out: bytes) {
    var r := c.deflate(s, input, finish, room);
    && r.used <= |input| && |r.out| <= room && r.ret != Z_STREAM_ERROR
    && c.dinv(r.next, fed + input[..r.used], out + r.out, if finish then Some(input[r.used..]) else None)
    && (|r.out| < room ==> r.used == |input|)
    && (|r.out| == room ==> c.dwork(r.next, input[r.used..], finish) < c.dwork(s, input, finish))
    && (finish && |r.out| < room ==> r.ret == Z_STREAM_END && c.stream(out + r.out, fed + input))
  }

  predicate InflateFails(ret: int) {
    ret == Z_NEED_DICT || ret == Z_DATA_ERROR || ret == Z_MEM_ERROR
  }

  /** What is read so far can still become, or already goes past, the stream `e`. */
  predicate Consistent(e: bytes, read: bytes) {
    e <= read || read <= e
  }

  /** One call of inflate on any input: it takes input and gives output within the room, and
      reports the end of the stream only after a complete stream. */
  ghost predicate InflateCall<D, I>(c: Codec<D, I>, s: I, input: bytes, room: nat, taken: bytes, out: bytes) {
    var r := c.inflate(s, input, room);
    && r.used <= |input| && |r.out| <= room && r.ret != Z_STREAM_ERROR
    && c.iinv(r.next, taken + input[..r.used], out + r.out)
    && (|r.out| == room ==> c.iwork(r.next, input[r.used..]) < c.iwork(s, input))
    && (|r.out| < room && r.ret != Z_STREAM_END && !InflateFails(r.ret) ==> r.used == |input|)
    && (r.ret == Z_STREAM_END ==> c.stream(taken + input[..r.used], out + r.out))
  }

  /** One call of inflate while the input follows the stream `e` of `f`: no error, nothing taken
      past the stream, a prefix of the content given, and the end reported exactly at the end. */
  ghost predicate InflateFollows<D,
                                       I>(c: Codec<D, I>, s: I, input: bytes, room: nat, taken: bytes, out: bytes,
                                          e: bytes, f: bytes) {
    var r := c.inflate(s, input, room);
    && r.used <= |input| && !InflateFails(r.ret)
    && taken + input[..r.used] <= e && out + r.out <= f
    && (r.ret == Z_STREAM_END ==> taken + input[..r.used] == e && out + r.out == f)
    && (taken + input[..r.used] == e && |r.out| < room ==> r.ret == Z_STREAM_END)
  }

  ghost predicate DeflateOk<D(!new), I(!new)>(c: Codec<D, I>) {
    && c.dinv(c.dinit, [], [], None)
    && (forall s, input, finish, room, fed, out,
        tail {:trigger c.deflate(s, input, finish, room), c.dinv(s, fed, out, tail)} ::
          room > 0 && c.dinv(s, fed, out, tail) && MayDeflate(tail, input, finish)
          ==> DeflateCall(c, s, input, finish, room, fed, out))
  }

  ghost predicate InflateOk<D(!new), I(!new)>(c: Codec<D, I>) {
    && c.iinv(c.iinit, [], [])
    && (forall f :: !c.stream([], f))
    && (forall s, input, room, taken, out {:trigger c.inflate(s, input, room), c.iinv(s, taken, out)} ::
          room > 0 && c.iinv(s, taken, out) ==> InflateCall(c, s, input, room, taken, out))
    && (forall s, input, room, taken, out, e,
        f {:trigger c.inflate(s, input, room), c.iinv(s, taken, out), c.stream(e, f)} ::
          room > 0 && c.iinv(s, taken, out) && c.stream(e, f) && Consistent(e, taken + input)
          ==> InflateFollows(c, s, input, room, taken, out, e, f))
  }

  /** No stream is the beginning of another one, and it has one content. */
  ghost predicate StreamOk<D, I>(c: Codec<D, I>) {
    forall e, f, e', f' :: c.stream(e, f) && c.stream(e', f') && e <= e' ==> e == e' && f == f'
  }

  ghost predicate Valid<D(!new), I(!new)>(c: Codec<D, I>) {
    DeflateOk(c) && InflateOk(c) && StreamOk(c)
  }
}
