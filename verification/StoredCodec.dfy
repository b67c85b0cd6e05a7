/** A codec that keeps the contract: stored blocks of DEFLATE (section 3.2.4 of RFC 1951) in the
    zlib wrapper (section 2.2 of RFC 1950). It gathers its input until the end is known. */
module StoredCodec {
  import opened Basics
  import opened Codec

  const MAX_STORED := 65535
  const ADLER_BASE := 65521

  // ----- The format -----

  /** BFINAL and BTYPE = 00 in the first byte, then LEN and its complement, least byte first. */
  function Head(last: bool, len: nat): (h: bytes)
    requires len <= MAX_STORED
    ensures |h| == 5
  {
    var nlen := MAX_STORED - len;
    [if last then 1 else 0, len % 256, len / 256, nlen % 256, nlen / 256]
  }

  function ReadHead(h: bytes): (r: Option<(bool, nat)>)
    requires |h| == 5
  {
    var len: int := (h[1] as int) + 256 * (h[2] as int);
    var nlen: int := (h[3] as int) + 256 * (h[4] as int);
    if h[0] > 1 || nlen != MAX_STORED - len then None else Some((h[0] == 1, len))
  }

  lemma HeadRoundTrip(last: bool, len: nat)
    requires len <= MAX_STORED
    ensures ReadHead(Head(last, len)) == Some((last, len))
  {
  }

  function Blocks(f: bytes): (e: bytes)
    ensures |e| >= 5
    decreases |f|
  {
    if |f| <= MAX_STORED then Head(true, |f|) + f
    else Head(false, MAX_STORED) + (f[..MAX_STORED] + Blocks(f[MAX_STORED..]))
  }

  function AdlerA(f: bytes): nat {
    if f == [] then 1 else (AdlerA(f[..|f| - 1]) + f[|f| - 1]) % ADLER_BASE
  }

  function AdlerB(f: bytes): nat {
    if f == [] then 0 else (AdlerB(f[..|f| - 1]) + AdlerA(f)) % ADLER_BASE
  }

  function Trailer(f: bytes): (t: bytes)
    ensures |t| == 4
  {
    var a, b := AdlerA(f) % ADLER_BASE, AdlerB(f) % ADLER_BASE;
    [b / 256, b % 256, a / 256, a % 256]
  }

  const HEADER: bytes := [0x78, 0x01]

  function Encode(f: bytes): bytes {
    HEADER + Blocks(f) + Trailer(f)
  }

  /** The content of the blocks at the start of `x` and the bytes they take. */
  function ParseBlocks(x: bytes): (r: Option<(bytes, nat)>)
    ensures r.Some? ==> 5 <= r.value.1 <= |x|
    decreases |x|
  {
    if |x| < 5 then None
    else
      match ReadHead(x[..5])
      case None => None
      case Some((last, len)) =>
        if |x| < 5 + len then None
        else if last then Some((x[5..5 + len], 5 + len))
        else
          match ParseBlocks(x[5 + len..])
          case None => None
          case Some((f, k)) => Some((x[5..5 + len] + f, 5 + len + k))
  }

  function ParseStream(x: bytes): (r: Option<(bytes, nat)>)
    ensures r.Some? ==> 11 <= r.value.1 <= |x|
  {
    if |x| < 2 || x[..2] != HEADER then None
    else
      match ParseBlocks(x[2..])
      case None => None
      case Some((f, k)) => if |x| >= 6 + k && x[2 + k..6 + k] == Trailer(f) then Some((f, 6 + k)) else None
  }

  predicate Stream(e: bytes, f: bytes) {
    ParseStream(e) == Some((f, |e|))
  }

  // ----- The format is read back, and a stream is told from its prefixes -----

  /** The two sequences are the same as far as both go, up to `k`. */
  predicate SameStart(e: bytes, x: bytes, k: nat) {
    k <= |e| && e[..Min(k, |x|)] == x[..Min(k, |x|)]
  }

  lemma SameSlice(e: bytes, x: bytes, k: nat, i: nat, j: nat)
    requires SameStart(e, x, k) && i <= j <= k && j <= |x|
    ensures x[i..j] == e[i..j]
  {
    assert x[i..j] == x[..Min(k, |x|)][i..j] && e[i..j] == e[..Min(k, |x|)][i..j];
  }

  lemma SameRest(e: bytes, x: bytes, k: nat, i: nat)
    requires SameStart(e, x, k) && i <= k && i <= |x|
    ensures SameStart(e[i..], x[i..], k - i)
  {
    var m := Min(k, |x|);
    assert e[i..][..m - i] == e[..m][i..] && x[i..][..m - i] == x[..m][i..];
  }

  /** The blocks are found whatever follows them, and not in a proper prefix of them. */
  lemma {:induction false} BlocksRead(e: bytes, x: bytes)
    requires ParseBlocks(e).Some? && SameStart(e, x, ParseBlocks(e).value.1)
    ensures ParseBlocks(x) == if |x| >= ParseBlocks(e).value.1 then ParseBlocks(e) else None
    decreases |e|
  {
    hide ReadHead, Min, SameStart;
    var k := ParseBlocks(e).value.1;
    if |x| >= 5 {
      SameSlice(e, x, k, 0, 5);
      var (last, len) := ReadHead(e[..5]).value;
      if |x| >= 5 + len {
        SameSlice(e, x, k, 5, 5 + len);
        if !last {
          SameRest(e, x, k, 5 + len);
          BlocksRead(e[5 + len..], x[5 + len..]);
        }
      }
    }
  }

  /** A sequence that goes past the stream `e` reads as `e`, and one that stops short does not read. */
  lemma StreamReads(e: bytes, f: bytes, x: bytes)
    requires Stream(e, f) && Consistent(e, x)
    ensures ParseStream(x) == if e <= x then Some((f, |e|)) else None
  {
    hide ParseBlocks, Trailer;
    var k := |e| - 6;
    assert SameStart(e, x, |e|);
    if |x| >= 2 {
      SameSlice(e, x, |e|, 0, 2);
      SameRest(e, x, |e|, 2);
      assert SameStart(e[2..], x[2..], k) by {
        var m := Min(k, |x| - 2);
        assert e[2..][..m] == e[2..][..Min(k + 4, |x| - 2)][..m];
        assert x[2..][..m] == x[2..][..Min(k + 4, |x| - 2)][..m];
      }
      BlocksRead(e[2..], x[2..]);
      if e <= x { SameSlice(e, x, |e|, 2 + k, 6 + k); }
    }
  }

  lemma Pieces(h: bytes, f: bytes, rest: bytes)
    requires |h| == 5
    ensures var x := h + (f + rest);
            |x| == 5 + |f| + |rest| && x[..5] == h && x[5..5 + |f|] == f && x[5 + |f|..] == rest
  {
  }

  /** One block is found in front of anything. */
  lemma BlockReads(last: bool, f: bytes, rest: bytes, x: bytes)
    requires |f| <= MAX_STORED && x == Head(last, |f|) + (f + rest)
    ensures last ==> ParseBlocks(x) == Some((f, 5 + |f|))
    ensures !last && ParseBlocks(rest).Some? ==>
              ParseBlocks(x) == Some((f + ParseBlocks(rest).value.0, 5 + |f| + ParseBlocks(rest).value.1))
  {
    hide ReadHead, Head;
    HeadRoundTrip(last, |f|);
    Pieces(Head(last, |f|), f, rest);
    var len := |f|;
    assert ReadHead(x[..5]) == Some((last, len));
    assert x[5..5 + len] == f && x[5 + len..] == rest;
  }

  lemma Regroup(h: bytes, f: bytes, blocks: bytes, tail: bytes)
    ensures (h + (f + blocks)) + tail == h + (f + (blocks + tail))
    ensures (h + f) + tail == h + (f + tail)
  {
  }

  lemma {:induction false} BlocksRoundTrip(f: bytes, tail: bytes)
    ensures ParseBlocks(Blocks(f) + tail) == Some((f, |Blocks(f)|))
    decreases |f|
  {
    hide Head, ParseBlocks;
    if |f| <= MAX_STORED {
      Regroup(Head(true, |f|), f, [], tail);
      BlockReads(true, f, tail, Blocks(f) + tail);
    } else {
      var first, rest := f[..MAX_STORED], f[MAX_STORED..];
      BlocksRoundTrip(rest, tail);
      Regroup(Head(false, MAX_STORED), first, Blocks(rest), tail);
      BlockReads(false, first, Blocks(rest) + tail, Blocks(f) + tail);
      assert first + rest == f;
    }
  }

  /** Every content has its stream. */
  lemma EncodeIsStream(f: bytes)
    ensures Stream(Encode(f), f)
  {
    hide Blocks, ParseBlocks, Trailer;
    var e := Encode(f);
    BlocksRoundTrip(f, Trailer(f));
    assert e[2..] == Blocks(f) + Trailer(f);
    assert e[..2] == HEADER;
    var k := |Blocks(f)|;
    assert e[2 + k..6 + k] == Trailer(f);
  }

  // ----- The stream functions -----

  datatype Deflating = Gathering(seen: bytes) | Draining(rest: bytes)

  datatype Inflating = Reading(seen: bytes) | Giving(rest: bytes)

  function Deflate(s: Deflating, input: bytes, finish: bool, room: nat): Call<Deflating> {
    match s
    case Gathering(seen) =>
      if finish then Drain(Encode(seen + input), |input|, room)
      else Call(Gathering(seen + input), |input|, [], Z_OK)
    case Draining(rest) => Drain(rest, |input|, room)
  }

  function Drain(rest: bytes, used: nat, room: nat): (r: Call<Deflating>)
    ensures r.used == used && r.ret != Z_STREAM_ERROR && r.next.Draining?
  {
    var m := Min(room, |rest|);
    Call(Draining(rest[m..]), used, rest[..m], if m == |rest| then Z_STREAM_END else Z_OK)
  }

  function Inflate(s: Inflating, input: bytes, room: nat): Call<Inflating> {
    match s
    case Reading(seen) =>
      (match ParseStream(seen + input)
       case None => Call(Reading(seen + input), |input|, [], Z_OK)
       case Some((f, k)) => Give(f, if k < |seen| then 0 else k - |seen|, room))
    case Giving(rest) => Give(rest, 0, room)
  }

  function Give(rest: bytes, used: nat, room: nat): Call<Inflating> {
    var m := Min(room, |rest|);
    Call(Giving(rest[m..]), used, rest[..m], if m == |rest| then Z_STREAM_END else Z_OK)
  }

  predicate DeflateInv(s: Deflating, fed: bytes, out: bytes, tail: Option<bytes>) {
    match s
    case Gathering(seen) => tail == None && seen == fed && out == []
    case Draining(rest) => tail == Some([]) && out + rest == Encode(fed)
  }

  function DeflateWork(s: Deflating, input: bytes, finish: bool): nat {
    match s
    case Gathering(seen) => if finish then |Encode(seen + input)| else 0
    case Draining(rest) => |rest|
  }

  predicate InflateInv(s: Inflating, taken: bytes, out: bytes) {
    match s
    case Reading(seen) => seen == taken && out == [] && ParseStream(taken) == None
    case Giving(rest) => Stream(taken, out + rest)
  }

  function InflateWork(s: Inflating, input: bytes): nat {
    match s
    case Reading(seen) =>
      (match ParseStream(seen + input)
       case None => 0
       case Some((f, _)) => |f|)
    case Giving(rest) => |rest|
  }

  function Stored(): Codec<Deflating, Inflating> {
    Codec(Gathering([]), Deflate, Reading([]), Inflate, Stream, DeflateInv, DeflateWork, InflateInv, InflateWork)
  }

  // ----- The contract is kept -----

  lemma DrainOn(fed: bytes, out: bytes, rest: bytes, used: nat, room: nat)
    requires room > 0 && out + rest == Encode(fed)
    ensures var r := Drain(rest, used, room);
            && DeflateInv(r.next, fed, out + r.out, Some([])) && |r.out| <= room
            && (|r.out| == room ==> |r.next.rest| < |rest|)
            && (|r.out| < room ==> r.ret == Z_STREAM_END && out + r.out == Encode(fed))
  {
    hide Encode;
    var m := Min(room, |rest|);
    assert rest[..m] + rest[m..] == rest;
    assert (out + rest[..m]) + rest[m..] == out + rest;
  }

  lemma StoredDeflate(s: Deflating, input: bytes, finish: bool, room: nat, fed: bytes, out: bytes, tail: Option<bytes>)
    requires room > 0 && DeflateInv(s, fed, out, tail) && MayDeflate(tail, input, finish)
    ensures DeflateCall(Stored(), s, input, finish, room, fed, out)
  {
    hide Encode, Stream, Drain;
    assert fed + input[..|input|] == fed + input && input[|input|..] == [];
    if finish {
      EncodeIsStream(fed + input);
      match s
      case Gathering(seen) => DrainOn(fed + input, [], Encode(fed + input), |input|, room);
      case Draining(rest) =>
        assert fed + input == fed;
        DrainOn(fed, out, rest, |input|, room);
    }
  }

  /** Giving from `rest`, the content of the stream `e` not given yet. */
  lemma GiveOn(e: bytes, f: bytes, out: bytes, rest: bytes, used: nat, room: nat)
    requires Stream(e, f) && out + rest == f && room > 0
    ensures var r := Give(rest, used, room);
            && InflateInv(r.next, e, out + r.out) && |r.out| <= room && out + r.out <= f
            && (|r.out| == room ==> |r.next.rest| < |rest|)
            && (r.ret == Z_STREAM_END <==> out + r.out == f)
            && (|r.out| < room ==> r.ret == Z_STREAM_END)
  {
    hide Stream;
    var m := Min(room, |rest|);
    assert rest[..m] + rest[m..] == rest;
    assert (out + rest[..m]) + rest[m..] == out + rest;
  }

  /** What inflate does when the end of the stream `e` is in sight. */
  lemma ReadingEnds(seen: bytes, input: bytes)
    requires ParseStream(seen) == None && ParseStream(seen + input).Some?
    ensures var (f, k) := ParseStream(seen + input).value;
            && |seen| < k <= |seen + input| && Stream((seen + input)[..k], f)
            && seen + input[..k - |seen|] == (seen + input)[..k]
  {
    hide ParseStream;
    var x := seen + input;
    var (f, k) := ParseStream(x).value;
    ReadsItself(x);
    if k <= |seen| {
      assert x[..k] <= seen;
      StreamReads(x[..k], f, seen);
    }
  }

  /** What is read as a stream is one. */
  lemma ReadsItself(x: bytes)
    requires ParseStream(x).Some?
    ensures var (f, k) := ParseStream(x).value; k <= |x| && Stream(x[..k], f)
  {
    hide ParseBlocks, Trailer;
    var (f, k) := ParseStream(x).value;
    var e := x[..k];
    assert e[..2] == x[..2];
    assert SameStart(x[2..], e[2..], k - 6) by {
      assert e[2..] == x[2..k] && x[2..][..k - 6] == x[2..k][..k - 6];
    }
    BlocksRead(x[2..], e[2..]);
    assert e[k - 4..k] == x[k - 4..k];
  }

  lemma StoredInflate(s: Inflating, input: bytes, room: nat, taken: bytes, out: bytes)
    requires room > 0 && InflateInv(s, taken, out)
    ensures InflateCall(Stored(), s, input, room, taken, out)
  {
    hide Stream, ParseStream;
    match s
    case Giving(rest) =>
      GiveOn(taken, out + rest, out, rest, 0, room);
      assert taken + input[..0] == taken && input[0..] == input;
    case Reading(seen) =>
      if ParseStream(seen + input).Some? {
        ReadingEnds(seen, input);
        var (f, k) := ParseStream(seen + input).value;
        GiveOn((seen + input)[..k], f, [], f, k - |seen|, room);
      } else {
        assert input[..|input|] == input;
      }
  }

  lemma StoredFollows(s: Inflating, input: bytes, room: nat, taken: bytes, out: bytes, e: bytes, f: bytes)
    requires room > 0 && InflateInv(s, taken, out) && Stream(e, f) && Consistent(e, taken + input)
    ensures InflateFollows(Stored(), s, input, room, taken, out, e, f)
  {
    hide ParseStream;
    StreamReads(e, f, taken + input);
    match s
    case Giving(rest) =>
      Prefixes(e, taken, input);
      StreamReads(e, f, taken);
      StreamReads(taken, out + rest, e);
      GiveOn(taken, out + rest, out, rest, 0, room);
      assert taken + input[..0] == taken;
    case Reading(seen) =>
      if e <= taken + input {
        ReadingEnds(seen, input);
        GiveOn(e, f, [], f, |e| - |seen|, room);
      } else {
        assert input[..|input|] == input;
      }
  }

  lemma Prefixes(e: bytes, taken: bytes, input: bytes)
    requires Consistent(e, taken + input)
    ensures Consistent(e, taken) && Consistent(taken, e)
  {
    assert taken == (taken + input)[..|taken|];
    if e <= taken + input {
      if |e| <= |taken| { assert e == (taken + input)[..|e|] == taken[..|e|]; }
      else { assert taken == e[..|taken|]; }
    } else {
      assert taken == e[..|taken|];
    }
  }

  lemma NoEmptyStream(f: bytes)
    ensures !Stream([], f)
  {
  }

  /** The contract can be met: this codec keeps it. */
  lemma StoredValid()
    ensures Valid(Stored())
  {
    var c := Stored();
    forall s, input, finish, room, fed, out, tail | room > 0 && c.dinv(s, fed, out, tail)
        && MayDeflate(tail, input, finish)
      ensures DeflateCall(c, s, input, finish, room, fed, out)
    {
      StoredDeflate(s, input, finish, room, fed, out, tail);
    }
    forall f ensures !c.stream([], f)
    {
      NoEmptyStream(f);
    }
    forall e, f, e', f' | c.stream(e, f) && c.stream(e', f') && e <= e' ensures e == e' && f == f'
    {
      StreamReads(e, f, e');
    }
    forall s, input, room, taken, out | room > 0 && c.iinv(s, taken, out)
      ensures InflateCall(c, s, input, room, taken, out)
    {
      StoredInflate(s, input, room, taken, out);
    }
    forall s, input, room, taken, out, e, f | room > 0 && c.iinv(s, taken, out) && c.stream(e, f)
        && Consistent(e, taken + input)
      ensures InflateFollows(c, s, input, room, taken, out, e, f)
    {
      StoredFollows(s, input, room, taken, out, e, f);
    }
  }
}
