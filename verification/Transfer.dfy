/** The data path: from a cache file to an object of the store, and back. */
module Transfer {
  import opened Basics
  import opened Codec
  import Zip
  import FileIO
  import opened Text

  // ----- What an object means -----

  predicate TaggedPlain(tag: Option<string>) {
    tag.None? || StartsWith(tag.value, "none")
  }

  predicate TaggedZlib(tag: Option<string>) {
    tag.Some? && !StartsWith(tag.value, "none") && StartsWith(tag.value, "zlib")
  }

  /** `f` is the content of a stream at the start of `x`; what follows the stream does not matter. */
  ghost predicate Unzips<D, I>(c: Codec<D, I>, x: bytes, f: bytes) {
    exists k :: 0 <= k <= |x| && c.stream(x[..k], f)
  }

  /** The file an object stands for, if it stands for one. */
  ghost function Decode<D, I>(c: Codec<D, I>, obj: Object): Option<bytes> {
    if TaggedPlain(obj.compression) then Some(obj.payload)
    else if TaggedZlib(obj.compression) && exists f :: Unzips(c, obj.payload, f)
    then var f :| Unzips(c, obj.payload, f); Some(f)
    else None
  }

  /** The tags that count: none, or one that begins with "none", is a plain file; one that begins with
      "zlib" is a stream and what follows it; an object with any other tag stands for no file. */
  lemma TagsAre<D(!new), I(!new)>(c: Codec<D, I>, payload: bytes, tag: Option<string>)
    requires StreamOk(c)
    ensures tag == None ==> Decode(c, Object(payload, tag)) == Some(payload)
    ensures tag.Some? && tag.value[..Min(4, |tag.value|)] == "none" ==> Decode(c, Object(payload, tag)) == Some(payload)
    ensures tag.Some? && tag.value[..Min(4, |tag.value|)] != "none" && tag.value[..Min(4, |tag.value|)] != "zlib" ==>
              Decode(c, Object(payload, tag)) == None
    ensures tag.Some? && tag.value[..Min(4, |tag.value|)] == "zlib" ==>
              forall f :: Decode(c, Object(payload, tag)) == Some(f) <==>
                          exists k :: 0 <= k <= |payload| && c.stream(payload[..k], f)
  {
    if tag.Some? {
      Prefix4(tag.value, "none");
      Prefix4(tag.value, "zlib");
      assert "zlib"[0] != "none"[0];
      forall f | TaggedZlib(tag) ensures Decode(c, Object(payload, tag)) == Some(f) <==> Unzips(c, payload, f)
      {
        if Unzips(c, payload, f) { DecodeZlib(c, Object(payload, tag), f); }
      }
    }
  }

  lemma Prefix4(s: string, key: string)
    requires |key| == 4
    ensures s[..Min(4, |s|)] == key <==> StartsWith(s, key)
  {
  }

  lemma OnePrefix(x: bytes, j: nat, k: nat)
    requires j <= |x| && k <= |x|
    ensures x[..j] <= x[..k] || x[..k] <= x[..j]
  {
  }

  lemma UnzipsOnce<D, I>(c: Codec<D, I>, x: bytes, f: bytes, g: bytes)
    requires StreamOk(c) && Unzips(c, x, f) && Unzips(c, x, g)
    ensures f == g
  {
    var j :| 0 <= j <= |x| && c.stream(x[..j], f);
    var k :| 0 <= k <= |x| && c.stream(x[..k], g);
    OnePrefix(x, j, k);
  }

  lemma DecodeZlib<D, I>(c: Codec<D, I>, obj: Object, f: bytes)
    requires StreamOk(c) && TaggedZlib(obj.compression) && Unzips(c, obj.payload, f)
    ensures Decode(c, obj) == Some(f)
  {
    UnzipsOnce(c, obj.payload, f, Decode(c, obj).value);
  }

  // ----- Upload -----

  /** How the system answers during an upload. */
  datatype UploadEnv = UploadEnv(
    sourceOpens: bool, tmpOpens: bool, init: int, io: Zip.Faults, fileno: int, fstatOk: bool, tagOk: bool,
    openwriteOk: bool, send: FileIO.SendAnswers, closeOk: bool)

  /** Nothing stands in the way of compressing. */
  ghost predicate Compresses(env: UploadEnv) {
    env.init == Z_OK && Zip.NoFaults(env.io) && env.fileno >= 0 && env.fstatOk && env.tagOk
  }

  /** Nothing stands in the way of sending. */
  ghost predicate Sends(env: UploadEnv) {
    env.sourceOpens && env.openwriteOk && env.closeOk && forall i :: !env.send.readFails(i) && !env.send.writeFails(i)
  }

  /** compress_before_sending: src/release.c:22-79. Answers 0 for "send it uncompressed", and the
      descriptor of the compressed file otherwise. */
  method CompressBeforeSending<D(!new), I(!new)>(c: Codec<D, I>, source: bytes, env: UploadEnv)
    returns (zfd: int, zipped: bytes, tag: Option<string>)
    requires DeflateOk(c) && env.fileno >= -1
    ensures zfd == 0 || zfd == env.fileno > 0
    ensures zfd > 0 ==> tag == Some("zlib") && c.stream(zipped, source)
    ensures zfd == 0 ==> tag == None || (tag == Some("zlib") && env.fileno == 0)
    ensures Compresses(env) ==> zfd == env.fileno && tag == Some("zlib")
    ensures tag.Some? ==> env.init == Z_OK && env.fileno >= 0 && env.fstatOk && env.tagOk
  {
    var zrc;
    zrc, zipped := Zip.Zip(c, source, env.init, env.io);
    if zrc != Z_OK {
      return 0, zipped, None;
    }
    if env.fileno == -1 {
      return 0, zipped, None;
    }
    if !env.fstatOk {
      return 0, zipped, None;
    }
    if !env.tagOk {
      return 0, zipped, None;
    }
    return env.fileno, zipped, Some("zlib");
  }

  /** The tail of dfs_release that sends the cache file: src/release.c:141-214. `offset` is where the
      descriptor is and `end` where the send leaves it, `compression` is conf->compression_method. */
  method Upload<D(!new), I(!new)>(c: Codec<D, I>, content: bytes, offset: nat, compression: string, env: UploadEnv)
    returns (ret: int, obj: Object, end: nat)
    requires Valid(c) && env.fileno >= -1 && offset <= |content|
    ensures offset <= end <= |content|
    ensures ret == 0 && (obj.compression == None || env.fileno == 0) ==> end == |content|
    ensures ret == 0 && obj.compression == Some("zlib") && env.fileno != 0 ==> end == offset
    ensures ret == 0 || ret == -1
    ensures ret == 0 ==> obj.compression == None || obj.compression == Some("zlib")
    ensures ret == 0 && obj.compression == None ==> obj.payload == content[offset..]
    ensures ret == 0 && obj.compression == Some("zlib") && env.fileno != 0 ==> c.stream(obj.payload, content)
    ensures ret == 0 && obj.compression == Some("zlib") && env.fileno == 0 ==> obj.payload == content[offset..]
    ensures ret == 0 && env.fileno != 0 && offset == 0 ==> Decode(c, obj) == Some(content)
    ensures ret == 0 ==> env.openwriteOk && env.closeOk && !env.send.readFails(0)
    ensures ret == 0 && StartsWithNoCase(compression, "zlib") ==> env.sourceOpens
    ensures Sends(env) ==> ret == 0
    ensures ret == 0 && StartsWithNoCase(compression, "zlib") && env.tmpOpens && Compresses(env) ==>
              obj.compression == Some("zlib")
    ensures !StartsWithNoCase(compression, "zlib") && ret == 0 ==> obj == Object(content[offset..], None)
    ensures ret == 0 && obj.compression.Some? ==> env.tmpOpens && env.init == Z_OK && env.fileno >= 0 && env.fstatOk
    ensures ret == 0 && env.tmpOpens && Compresses(env) ==>
              (obj.compression == Some("zlib") <==>
                 && |compression| >= 4 && (compression[0] == 'z' || compression[0] == 'Z')
                 && (compression[1] == 'l' || compression[1] == 'L')
                 && (compression[2] == 'i' || compression[2] == 'I')
                 && (compression[3] == 'b' || compression[3] == 'B'))
  {
    NoCaseMeans(compression, "zlib");
    obj, end := Object([], None), offset;
    var toSend, tag, start := content, None, offset;
    if StartsWithNoCase(compression, "zlib") {
      if !env.sourceOpens {
        return -1, obj, end;
      }
      if env.tmpOpens {
        var zfd, z;
        zfd, z, tag := CompressBeforeSending(c, content, env);
        if zfd < 0 {
          return -1, obj, end;
        }
        if zfd > 0 {
          toSend, start := z, 0;
        }
      }
    }
    if !env.openwriteOk {
      return -1, obj, end;
    }
    var rc, blocks, at := FileIO.ReadWriteAll(toSend, start, env.send);
    obj := Object(FileIO.Concat(blocks), tag);
    if tag == None || env.fileno == 0 {
      end := at;
    }
    if rc == -1 || !env.closeOk {
      return -1, obj, end;
    }
    ret := 0;
    if tag == Some("zlib") && env.fileno != 0 {
      assert obj.payload == toSend && obj.payload[..|obj.payload|] == toSend;
      assert "zlib"[0] != "none"[0];
      DecodeZlib(c, obj, content);
    }
    assert content[0..] == content;
  }

  /** A payload that passes for the file under the tag is right exactly when it begins with a stream for
      itself. */
  lemma RawMeaning<D(!new), I(!new)>(c: Codec<D, I>, obj: Object)
    requires Valid(c) && TaggedZlib(obj.compression)
    ensures Decode(c, obj) == Some(obj.payload) <==> Unzips(c, obj.payload, obj.payload)
  {
    if Unzips(c, obj.payload, obj.payload) { DecodeZlib(c, obj, obj.payload); }
  }

  /** The tag can lie: with descriptor 0 the file goes up plain under the tag "zlib", and an empty
      file sent so can never be read back. */
  lemma MistaggedEmptyFile<D(!new), I(!new)>(c: Codec<D, I>)
    requires Valid(c)
    ensures Decode(c, Object([], Some("zlib"))) == None
  {
    assert "zlib"[0] != "none"[0];
    var empty: bytes := [];
    assert empty[..0] == [];
  }

  /** In general such an object reads back as the file exactly when the file happens to begin with a
      stream for itself. */
  lemma MistaggedExactly<D(!new), I(!new)>(c: Codec<D, I>, content: bytes)
    requires Valid(c)
    ensures Decode(c, Object(content, Some("zlib"))) == Some(content) <==> Unzips(c, content, content)
  {
    assert "zlib"[0] != "none"[0];
    RawMeaning(c, Object(content, Some("zlib")));
  }

  // ----- Download -----

  /** How the system answers during a download; `chunks` is the payload as the store hands it over. */
  datatype DownloadEnv = DownloadEnv(
    headersOk: bool, createOk: bool, chunks: seq<bytes>, openreadOk: bool, answers: nat -> FileIO.WriteAnswer,
    sourceOpens: bool, tmpOpens: bool, init: int, io: Zip.Faults, tagOk: bool, renameOk: bool, reopenOk: bool,
    closeOk: bool, newfd: int)

  ghost predicate AllWell(env: DownloadEnv) {
    && env.headersOk && env.createOk && env.openreadOk && env.sourceOpens && env.tmpOpens && env.init == Z_OK
    && Zip.NoFaults(env.io) && env.tagOk && env.renameOk && env.reopenOk && env.closeOk && env.newfd >= 0
    && forall i :: env.answers(i) != FileIO.WriteError
  }

  /** handle_compression: src/file.c:213-307, on the local file. A rename(2) that fails answers 1,
      with the local file still compressed. */
  method HandleCompression<D(!new), I(!new)>(c: Codec<D, I>, local: bytes, tag: Option<string>, env: DownloadEnv)
    returns (ret: int, after: bytes)
    requires Valid(c)
    ensures ret == -1 || ret == 0 || ret == 1
    ensures ret == 0 ==> Decode(c, Object(local, tag)) == Some(after) && (TaggedPlain(tag) || env.renameOk)
    ensures ret == 1 ==> TaggedZlib(tag) && !env.renameOk && after == local && Decode(c, Object(local, tag)).Some?
    ensures AllWell(env) && Decode(c, Object(local, tag)).Some? ==> ret == 0
  {
    if tag.None? {
      return 0, local;
    }
    if StartsWith(tag.value, "none") {
      return 0, local;
    }
    if !StartsWith(tag.value, "zlib") {
      return -1, local;
    }
    if !env.sourceOpens || !env.tmpOpens {
      return -1, local;
    }
    var zret, unzipped := Zip.Unzip(c, local, env.init, env.io);
    assert AllWell(env) && Decode(c, Object(local, tag)).Some? ==> zret == Z_OK by {
      if Decode(c, Object(local, tag)).Some? {
        var f :| Unzips(c, local, f);
        var k :| 0 <= k <= |local| && c.stream(local[..k], f);
        assert local[..k] <= local;
      }
    }
    if zret != Z_OK {
      return -1, local;
    }
    DecodeZlib(c, Object(local, tag), unzipped);
    if !env.tagOk {
      return -1, local;
    }
    if !env.renameOk {
      return 1, local;
    }
    if !env.reopenOk {
      return -1, unzipped;
    }
    return 0, unzipped;
  }

  /** dfs_get_local_copy once the digest test has failed: src/file.c:389-473. `before` is the cache
      file there was, `local` the one there is. The descriptor is negative, or the cache file has the
      bytes the object stands for; only a rename(2) that fails leaves the compressed payload under a
      good descriptor (`raw`), and that is wrong unless the payload happens to begin with a stream
      for itself. */
  method Download<D(!new),
                    I(!new)>(c: Codec<D, I>, obj: Object, before: Option<bytes>, env: DownloadEnv,
                             ghost rank: nat -> nat)
    returns (fd: int, local: Option<bytes>, raw: bool)
    requires Valid(c)
    requires FileIO.Concat(env.chunks) == obj.payload && FileIO.Progress(env.answers, rank)
    ensures fd == -1 || fd == env.newfd >= 0
    ensures fd >= 0 ==> local.Some?
    ensures fd >= 0 && !raw ==> Decode(c, obj) == local
    ensures raw ==> !env.renameOk && TaggedZlib(obj.compression) && local == Some(obj.payload) && Decode(c, obj).Some?
    ensures fd >= 0 ==> (Decode(c, obj) == local <==>
                           env.renameOk || TaggedPlain(obj.compression) || Unzips(c, obj.payload, obj.payload))
    ensures AllWell(env) && Decode(c, obj).Some? ==> fd >= 0
  {
    raw := false;
    if !env.headersOk {
      return -1, before, raw;
    }
    if !env.createOk {
      return -1, None, raw;
    }
    var file := new FileIO.OutFile(env.answers);
    for i := 0 to |env.chunks|
      invariant file.answers == env.answers && file.content == FileIO.Concat(env.chunks[..i])
    {
      var ret := file.WriteAll(env.chunks[i], rank);
      if ret != 0 {
        return -1, Some(file.content), raw;
      }
      assert env.chunks[..i + 1][..i] == env.chunks[..i];
    }
    assert env.chunks[..|env.chunks|] == env.chunks;
    if !env.openreadOk {
      return -1, Some(file.content), raw;
    }
    var ret, after := HandleCompression(c, file.content, obj.compression, env);
    local := Some(after);
    assert obj == Object(file.content, obj.compression);
    if ret == -1 {
      return -1, local, raw;
    }
    raw := ret == 1;
    if raw { RawMeaning(c, obj); }
    if !env.closeOk || env.newfd < 0 {
      return -1, local, raw;
    }
    fd := env.newfd;
  }

  /** What goes up comes down: for every content and every compression setting, whatever fallback
      the upload took, if the descriptor of the temporary file was not 0. */
  method UpThenDown<D(!new), I(!new)>(c: Codec<D, I>, content: bytes, compression: string, up: UploadEnv,
                                     split: bytes -> seq<bytes>, down: DownloadEnv, ghost rank: nat -> nat)
    returns (sent: int, fd: int, local: Option<bytes>)
    requires Valid(c) && up.fileno >= -1 && FileIO.Progress(down.answers, rank)
    requires forall x :: FileIO.Concat(split(x)) == x
    ensures Sends(up) ==> sent == 0
    ensures sent == 0 && up.fileno != 0 && fd >= 0 && down.renameOk ==> local == Some(content)
    ensures sent == 0 && up.fileno != 0 && AllWell(down) ==> fd >= 0 && local == Some(content)
  {
    var obj, end, raw;
    sent, obj, end := Upload(c, content, 0, compression, up);
    fd, local, raw := Download(c, obj, None, down.(chunks := split(obj.payload)), rank);
  }
}
