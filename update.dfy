/** The firmware-update upload parser. An update file is a sequence of
    sections, each a type byte, a fixed-size preamble and, for images and
    data files, a body of the size the preamble declares. The upload
    arrives in chunks split at arbitrary points, so the parser keeps the
    section type, the preamble bytes seen so far and the body length
    written so far between calls. Every byte it consumes is also fed to a
    running MD5 of the whole file, except that the preamble of the MD5
    section (the expected digest itself) is zeroed first. */
module Update {
  import opened Bytes

  const TypeHeader: byte := 0x1
  const TypeImage: byte := 0x2
  const TypeData: byte := 0x3
  const TypeMd5: byte := 0x4
  const Magic: uint16 := 0xACE1

  /** The product and the two info strings of the header span 36 bytes. */
  const LenProduct: nat := 12
  const LenInfo: nat := 12

  /** Preamble sizes of the four packed section structs. */
  const HeaderSize: nat := 2 + LenProduct + 2 * LenInfo + 2 + 11
  const ImageSize: nat := 33 + 4
  const DataSize: nat := 36 + 33 + 4
  const Md5Size: nat := 33

  /** The preamble buffer holds the largest preamble. */
  const PreambleCap: nat := 73

  predicate KnownType(t: byte)
  {
    t == TypeHeader || t == TypeImage || t == TypeData || t == TypeMd5
  }

  /** The preamble size of a section type, 0 for an unknown type. */
  function PreambleSize(t: byte): (ps: nat)
    ensures ps <= PreambleCap
    ensures ps == 0 <==> !KnownType(t)
  {
    if t == TypeHeader then HeaderSize
    else if t == TypeImage then ImageSize
    else if t == TypeData then DataSize
    else if t == TypeMd5 then Md5Size
    else 0
  }

  function Min(a: nat, b: nat): (m: nat)
    ensures m <= a && m <= b && (m == a || m == b)
  {
    if a <= b then a else b
  }

  /** The status message; the empty string is NoMessage. */
  datatype Message =
    | NoMessage
    | UnknownPreamble
    | BadHeader
    | DataOpenFailed
    | DataReadFailed
    | BadDataMd5
    | RenameFailed
    | BadImageMd5
    | UploadComplete

  /** The calls the parser makes into the flash updater and the file system. */
  datatype Action =
    | BeginImage(md5: seq<byte>)
    | WriteImage(bytes: seq<byte>)
    | EndImage
    | RemoveTmp
    | AppendTmp(bytes: seq<byte>)
    | RemoveFile(name: seq<byte>)
    | RenameTmp(name: seq<byte>)

  /** How the collaborators answer during one chunk: whether the flash
      updater begins, writes all bytes and ends, whether the temporary file
      opens for appending and for reading, the MD5 (as a hex string) the
      temporary file hashes to, and whether it can be renamed. */
  datatype Storage = Storage(
    beginOk: bool, writeOk: bool, endOk: bool, appendOk: bool, readOk: bool, fileMd5: seq<byte>, renameOk: bool)

  /** The persistent update state: the current section type (0 between
      sections), the preamble bytes received, the body bytes written, the
      completed image and data sections, the error flag and message, the
      expected image MD5, the bytes fed to the running digest, the calls
      made so far, and the file names an update keeps. */
  datatype Upd = Upd(
    ontype: byte, pre: seq<byte>, length: nat, files: nat, isError: bool, message: Message,
    imageMd5: seq<byte>, digest: seq<byte>, log: seq<Action>, updated: seq<seq<byte>>)

  /** Preamble fields. The string fields are read as C strings: from the
      start of the field to the first NUL, which may lie in a later field. */
  function HeaderMagic(pre: seq<byte>): uint16
    requires |pre| == HeaderSize
  {
    UnpackLE16(pre[0..2])
  }

  function HeaderModel(pre: seq<byte>): seq<byte>
    requires |pre| == HeaderSize
  {
    CString(pre[2 + LenProduct..])
  }

  function ImageMd5(pre: seq<byte>): seq<byte>
    requires |pre| == ImageSize
  {
    CString(pre)
  }

  function ImageBodySize(pre: seq<byte>): uint32
    requires |pre| == ImageSize
  {
    UnpackLE32(pre[33..37])
  }

  function DataName(pre: seq<byte>): seq<byte>
    requires |pre| == DataSize
  {
    CString(pre)
  }

  function DataMd5(pre: seq<byte>): seq<byte>
    requires |pre| == DataSize
  {
    CString(pre[36..])
  }

  function DataBodySize(pre: seq<byte>): uint32
    requires |pre| == DataSize
  {
    UnpackLE32(pre[69..73])
  }

  /** The declared body size of a section with a full preamble, 0 for the
      sections without a body. */
  function BodySize(u: Upd): nat
  {
    if u.ontype == TypeImage && |u.pre| == ImageSize then ImageBodySize(u.pre)
    else if u.ontype == TypeData && |u.pre| == DataSize then DataBodySize(u.pre)
    else 0
  }

  /** The invariant the parser keeps between calls. */
  ghost predicate UpdOk(u: Upd)
  {
    var ps := PreambleSize(u.ontype);
    |u.pre| <= ps
    && (ps == 0 ==> u.length == 0 && (u.ontype != 0 ==> u.isError))
    && (|u.pre| < ps ==> u.length == 0)
    && (!u.isError && (u.ontype == TypeHeader || u.ontype == TypeMd5) ==> |u.pre| < ps)
    && u.length <= BodySize(u)
    && (!u.isError && |u.pre| == ps && u.length == BodySize(u) ==> u.length == 0)
  }

  /** The state between sections: the type, preamble and length cleared. */
  function Reset(u: Upd): (r: Upd)
    ensures r.ontype == 0 && r.pre == [] && r.length == 0
  {
    u.(ontype := 0, pre := [], length := 0)
  }

  /** The state of one call in progress: the chunk (with the MD5 preamble
      zeroed so far), the bytes consumed, and whether the call has failed
      and so returns 0. */
  datatype Work = Work(u: Upd, d: seq<byte>, index: nat, failed: bool)

  function Fail(w: Work, m: Message): Work
  {
    w.(u := w.u.(isError := true, message := m), failed := true)
  }

  /** A flash-updater failure is printed, not stored in the message. */
  function FailQuietly(w: Work): Work
  {
    w.(u := w.u.(isError := true), failed := true)
  }

  /** Between sections the first byte is the section type. */
  function ReadType(u: Upd, d: seq<byte>): (w: Work)
    requires u.ontype != 0 || |d| >= 1
    ensures w.d == d && w.index <= |d| && !w.failed
  {
    if u.ontype == 0 then Work(u.(ontype := d[0]), d, 1, false) else Work(u, d, 0, false)
  }

  /** An unknown type fails; otherwise as many preamble bytes as are missing
      and available are copied, and zeroed in the chunk for the MD5 section. */
  function CopyPreamble(w: Work): (r: Work)
    requires w.index <= |w.d|
    ensures |r.d| == |w.d| && w.index <= r.index <= |r.d|
  {
    var ps := PreambleSize(w.u.ontype);
    if ps == 0 then Fail(w, UnknownPreamble)
    else if |w.u.pre| < ps then CopyMissing(w)
    else w
  }

  /** The missing preamble bytes the chunk holds are appended to the
      preamble; an MD5 section zeroes them in the chunk. */
  function CopyMissing(w: Work): (r: Work)
    requires w.index <= |w.d| && |w.u.pre| < PreambleSize(w.u.ontype)
    ensures |r.d| == |w.d| && w.index <= r.index <= |r.d|
  {
    var k := Min(PreambleSize(w.u.ontype) - |w.u.pre|, |w.d| - w.index);
    var d := if w.u.ontype == TypeMd5 then w.d[..w.index] + Zeros(k) + w.d[w.index + k..] else w.d;
    Work(w.u.(pre := w.u.pre + w.d[w.index..w.index + k]), d, w.index + k, false)
  }

  /** CopyMissing, given the bytes it copies and the chunk it leaves. */
  lemma CopyMissingIs(w: Work, k: nat, pre: seq<byte>, d: seq<byte>)
    requires w.index <= |w.d| && |w.u.pre| < PreambleSize(w.u.ontype)
    requires k == Min(PreambleSize(w.u.ontype) - |w.u.pre|, |w.d| - w.index)
    requires pre == w.u.pre + w.d[w.index..w.index + k]
    requires d == if w.u.ontype == TypeMd5 then w.d[..w.index] + Zeros(k) + w.d[w.index + k..] else w.d
    ensures CopyMissing(w) == Work(w.u.(pre := pre), d, w.index + k, false)
  {
  }

  /** A header with the wrong magic or model fails; a good one ends the section. */
  function Header(w: Work, model: seq<byte>): (r: Work)
    requires |w.u.pre| == HeaderSize
    ensures r.d == w.d && r.index == w.index && r.u.digest == w.u.digest && r.u.files == w.u.files
    ensures HeaderMagic(w.u.pre) != Magic || HeaderModel(w.u.pre) != model ==>
      r.failed && r.u.isError && r.u.message == BadHeader
    ensures HeaderMagic(w.u.pre) == Magic && HeaderModel(w.u.pre) == model ==>
      r.failed == w.failed && r.u.isError == w.u.isError && r.u.ontype == 0 && r.u.pre == [] && r.u.length == 0
  {
    if HeaderMagic(w.u.pre) != Magic || HeaderModel(w.u.pre) != model then Fail(w, BadHeader)
    else w.(u := Reset(w.u))
  }

  /** An image body's first byte begins the flash update with the declared MD5. */
  function ImageBegin(w: Work, env: Storage): Work
  {
    if w.u.length != 0 then w
    else
      var w1 := w.(u := w.u.(log := w.u.log + [BeginImage(ImageMd5Of(w.u))]));
      if env.beginOk then w1 else FailQuietly(w1)
  }

  function ImageMd5Of(u: Upd): seq<byte>
  {
    if |u.pre| == ImageSize then ImageMd5(u.pre) else []
  }

  /** Body bytes are taken up to the declared size and the end of the chunk. */
  function BodyTake(w: Work): (k: nat)
    requires w.index <= |w.d|
    ensures w.index + k <= |w.d|
    ensures w.u.length < BodySize(w.u) ==> w.u.length + k <= BodySize(w.u)
    ensures w.u.length < BodySize(w.u) && w.index < |w.d| ==> k > 0
  {
    if w.u.length < BodySize(w.u) then Min(BodySize(w.u) - w.u.length, |w.d| - w.index) else 0
  }

  function ImageWrite(w: Work, env: Storage): (r: Work)
    requires w.index <= |w.d|
    ensures r.d == w.d && w.index <= r.index <= |r.d|
  {
    if w.failed || w.u.length >= BodySize(w.u) then w
    else
      var k := BodyTake(w);
      var w1 := w.(u := w.u.(log := w.u.log + [WriteImage(w.d[w.index..w.index + k])]));
      if !env.writeOk then FailQuietly(w1)
      else w1.(u := w1.u.(length := w.u.length + k), index := w.index + k)
  }

  /** The complete body ends the flash update and the section. */
  function ImageEnd(w: Work, env: Storage): Work
  {
    if w.failed || w.u.length != BodySize(w.u) then w
    else
      var w1 := w.(u := w.u.(log := w.u.log + [EndImage]));
      if !env.endOk then FailQuietly(w1)
      else w1.(u := Reset(w1.u).(files := w.u.files + 1))
  }

  /** An image section with a full preamble: nothing happens on an empty rest of chunk. */
  function Image(w: Work, env: Storage): (r: Work)
    requires w.index <= |w.d|
    ensures r.d == w.d && w.index <= r.index <= |r.d|
  {
    if w.index == |w.d| then w
    else ImageEnd(ImageWrite(ImageBegin(w, env), env), env)
  }

  /** A data body's first byte removes the temporary file. */
  function DataStart(w: Work): Work
  {
    if w.u.length != 0 then w else w.(u := w.u.(log := w.u.log + [RemoveTmp]))
  }

  /** Body bytes are appended to the temporary file, which must open. */
  function DataWrite(w: Work, env: Storage): (r: Work)
    requires w.index <= |w.d|
    ensures r.d == w.d && w.index <= r.index <= |r.d|
  {
    if w.failed || w.u.length >= BodySize(w.u) then w
    else if !env.appendOk then Fail(w, DataOpenFailed)
    else
      var k := BodyTake(w);
      w.(u := w.u.(log := w.u.log + [AppendTmp(w.d[w.index..w.index + k])], length := w.u.length + k),
        index := w.index + k)
  }

  function DataNameOf(u: Upd): seq<byte>
  {
    if |u.pre| == DataSize then DataName(u.pre) else []
  }

  function DataMd5Of(u: Upd): seq<byte>
  {
    if |u.pre| == DataSize then DataMd5(u.pre) else []
  }

  /** The complete file is checked against its MD5 and renamed into place. */
  function DataEnd(w: Work, env: Storage): Work
  {
    if w.failed || w.u.length != BodySize(w.u) then w
    else if !env.readOk then Fail(w, DataReadFailed)
    else if DataMd5Of(w.u) != env.fileMd5 then Fail(w, BadDataMd5)
    else
      var name := DataNameOf(w.u);
      var w1 := w.(u := w.u.(log := w.u.log + [RemoveFile(name), RenameTmp(name)]));
      if !env.renameOk then Fail(w1, RenameFailed)
      else w1.(u := Reset(w1.u).(files := w.u.files + 1, updated := w.u.updated + [name]))
  }

  function Data(w: Work, env: Storage): (r: Work)
    requires w.index <= |w.d|
    ensures r.d == w.d && w.index <= r.index <= |r.d|
  {
    if w.index == |w.d| then w
    else DataEnd(DataWrite(DataStart(w), env), env)
  }

  /** The MD5 section stores the expected image digest and ends. */
  function Md5(w: Work): (r: Work)
    requires |w.u.pre| == Md5Size
    ensures r.d == w.d && r.index == w.index && r.failed == w.failed
    ensures 0 !in r.u.imageMd5 && |r.u.imageMd5| <= Md5Size && r.u.imageMd5 == w.u.pre[..|r.u.imageMd5|]
    ensures r.u.ontype == 0 && r.u.pre == [] && r.u.length == 0
    ensures r.u.files == w.u.files && r.u.digest == w.u.digest && r.u.isError == w.u.isError
  {
    w.(u := Reset(w.u.(imageMd5 := CString(w.u.pre))))
  }

  /** Once the preamble is complete, the section's own handling runs. */
  function Section(w: Work, env: Storage, model: seq<byte>): (r: Work)
    requires w.index <= |w.d|
    ensures r.d == w.d && w.index <= r.index <= |r.d|
  {
    if w.failed || |w.u.pre| != PreambleSize(w.u.ontype) then w
    else if w.u.ontype == TypeHeader then Header(w, model)
    else if w.u.ontype == TypeImage then Image(w, env)
    else if w.u.ontype == TypeData then Data(w, env)
    else if w.u.ontype == TypeMd5 then Md5(w)
    else w
  }

  /** The result of one call: the new state, the chunk as the call leaves
      it, and the number of bytes consumed. */
  datatype Step = Step(u: Upd, d: seq<byte>, n: nat)

  /** A failed call returns 0; otherwise the consumed prefix is fed to the digest. */
  function Finish(w: Work): (r: Step)
    requires w.index <= |w.d|
    ensures r.d == w.d && r.n <= |r.d|
  {
    if w.failed then Step(w.u, w.d, 0)
    else Step(w.u.(digest := w.u.digest + w.d[..w.index]), w.d, w.index)
  }

  /** `update_handlechunk(d, |d|)`. */
  function Chunk(u: Upd, d: seq<byte>, env: Storage, model: seq<byte>): (r: Step)
    requires u.ontype != 0 || |d| >= 1
    ensures |r.d| == |d| && r.n <= |d|
  {
    Finish(Section(CopyPreamble(ReadType(u, d)), env, model))
  }

  /** The section type a call works on. */
  function TypeOf(u: Upd, d: seq<byte>): byte
    requires u.ontype != 0 || |d| >= 1
  {
    if u.ontype == 0 then d[0] else u.ontype
  }

  /** The invariant without the clause that a header or MD5 section never
      rests with a full preamble: what holds once the preamble is copied. */
  ghost predicate Copied(u: Upd)
  {
    var ps := PreambleSize(u.ontype);
    |u.pre| <= ps
    && (ps == 0 ==> u.length == 0 && (u.ontype != 0 ==> u.isError))
    && (|u.pre| < ps ==> u.length == 0)
    && u.length <= BodySize(u)
    && (!u.isError && |u.pre| == ps && u.length == BodySize(u) ==> u.length == 0)
  }

  lemma CopyKeeps(u: Upd, d: seq<byte>)
    requires UpdOk(u) && (u.ontype != 0 || |d| >= 1)
    ensures var w := CopyPreamble(ReadType(u, d)); Copied(w.u) && (w.failed ==> w.u.isError)
  {
  }

  /** What no section handling undoes: a failure, the error flag, the
      digest; and an error it raises always fails the call. */
  lemma SectionFrame(w: Work, env: Storage, model: seq<byte>)
    requires w.index <= |w.d|
    ensures var r := Section(w, env, model);
      (w.failed ==> r == w) && (w.u.isError ==> r.u.isError) && r.u.digest == w.u.digest
      && (r.u.isError && !w.u.isError ==> r.failed) && (r.failed ==> r.u.isError || w.failed)
  {
    if !w.failed && |w.u.pre| == PreambleSize(w.u.ontype) && w.index < |w.d| {
      if w.u.ontype == TypeImage {
        ImageFrame(w, env);
      } else if w.u.ontype == TypeData {
        DataFrame(w, env);
      }
    }
  }

  lemma ImageFrame(w: Work, env: Storage)
    requires w.index < |w.d| && !w.failed
    ensures var r := Image(w, env);
      (w.u.isError ==> r.u.isError) && r.u.digest == w.u.digest && (r.u.isError && !w.u.isError ==> r.failed)
      && (r.failed ==> r.u.isError)
  {
    var a := ImageBegin(w, env);
    var b := ImageWrite(a, env);
    assert a.u.digest == w.u.digest && b.u.digest == w.u.digest;
    assert (a.u.isError && !w.u.isError ==> a.failed) && (b.u.isError && !w.u.isError ==> b.failed);
    assert (w.u.isError ==> a.u.isError && b.u.isError) && (b.failed ==> b.u.isError);
  }

  lemma DataFrame(w: Work, env: Storage)
    requires w.index < |w.d| && !w.failed
    ensures var r := Data(w, env);
      (w.u.isError ==> r.u.isError) && r.u.digest == w.u.digest && (r.u.isError && !w.u.isError ==> r.failed)
      && (r.failed ==> r.u.isError)
  {
    var a := DataStart(w);
    var b := DataWrite(a, env);
    assert a.u.digest == w.u.digest && b.u.digest == w.u.digest;
    assert (a.u.isError && !w.u.isError ==> a.failed) && (b.u.isError && !w.u.isError ==> b.failed);
    assert (w.u.isError ==> a.u.isError && b.u.isError) && (b.failed ==> b.u.isError);
  }

  /** Every call keeps the invariant: the preamble never exceeds its
      section's size and a body never exceeds its declared size. */
  lemma ChunkKeeps(u: Upd, d: seq<byte>, env: Storage, model: seq<byte>)
    requires UpdOk(u) && (u.ontype != 0 || |d| >= 1)
    ensures UpdOk(Chunk(u, d, env, model).u)
  {
    var w := CopyPreamble(ReadType(u, d));
    CopyKeeps(u, d);
    SectionKeeps(w, env, model);
  }

  lemma SectionKeeps(w: Work, env: Storage, model: seq<byte>)
    requires w.index <= |w.d| && Copied(w.u) && (w.failed ==> w.u.isError)
    ensures UpdOk(Section(w, env, model).u)
  {
    if !w.failed && |w.u.pre| == PreambleSize(w.u.ontype) && w.index < |w.d| {
      if w.u.ontype == TypeImage {
        ImageKeeps(w, env);
      } else if w.u.ontype == TypeData {
        DataKeeps(w, env);
      }
    }
  }

  lemma ImageKeeps(w: Work, env: Storage)
    requires w.index < |w.d| && Copied(w.u) && !w.failed && w.u.ontype == TypeImage && |w.u.pre| == ImageSize
    ensures UpdOk(Image(w, env).u)
  {
    var a := ImageBegin(w, env);
    assert a.u.length == w.u.length && BodySize(a.u) == BodySize(w.u) && a.u.ontype == TypeImage;
    var b := ImageWrite(a, env);
    assert b.u.ontype == TypeImage && |b.u.pre| == ImageSize && b.u.length <= BodySize(b.u);
    assert b.failed ==> b.u.isError;
    ImageEndKeeps(b, env);
  }

  lemma DataKeeps(w: Work, env: Storage)
    requires w.index < |w.d| && Copied(w.u) && !w.failed && w.u.ontype == TypeData && |w.u.pre| == DataSize
    ensures UpdOk(Data(w, env).u)
  {
    var a := DataStart(w);
    assert a.u.length == w.u.length && BodySize(a.u) == BodySize(w.u) && a.u.ontype == TypeData;
    var b := DataWrite(a, env);
    assert b.u.ontype == TypeData && |b.u.pre| == DataSize && b.u.length <= BodySize(b.u);
    assert b.failed ==> b.u.isError;
    DataEndKeeps(b, env);
  }

  lemma ImageEndKeeps(w: Work, env: Storage)
    requires w.u.ontype == TypeImage && |w.u.pre| == ImageSize && w.u.length <= BodySize(w.u)
    requires w.failed ==> w.u.isError
    ensures UpdOk(ImageEnd(w, env).u)
  {
  }

  lemma DataEndKeeps(w: Work, env: Storage)
    requires w.u.ontype == TypeData && |w.u.pre| == DataSize && w.u.length <= BodySize(w.u)
    requires w.failed ==> w.u.isError
    ensures UpdOk(DataEnd(w, env).u)
  {
  }

  /** The error flag, once set, stays set. */
  lemma ChunkErrorSticks(u: Upd, d: seq<byte>, env: Storage, model: seq<byte>)
    requires u.isError && (u.ontype != 0 || |d| >= 1)
    ensures Chunk(u, d, env, model).u.isError
  {
    SectionFrame(CopyPreamble(ReadType(u, d)), env, model);
  }

  /** A call that does not fail consumes a byte, or clears a section whose
      body is empty: so the caller's loop terminates. */
  lemma ChunkProgress(u: Upd, d: seq<byte>, env: Storage, model: seq<byte>)
    requires UpdOk(u) && |d| >= 1
    ensures var r := Chunk(u, d, env, model);
      r.u.isError || r.n > 0 || (u.ontype != 0 && r.u.ontype == 0)
  {
    var w := CopyPreamble(ReadType(u, d));
    SectionFrame(w, env, model);
    if !w.u.isError && !w.failed && w.index == 0 {
      assert u.ontype != 0 && |w.u.pre| == PreambleSize(w.u.ontype) && w.u == u;
      if u.ontype == TypeImage {
        ImageProgress(w, env);
      } else if u.ontype == TypeData {
        DataProgress(w, env);
      }
    }
  }

  lemma ImageProgress(w: Work, env: Storage)
    requires w.index < |w.d| && !w.failed && !w.u.isError && w.u.ontype == TypeImage && |w.u.pre| == ImageSize
    requires w.u.length <= BodySize(w.u) && (w.u.length == BodySize(w.u) ==> w.u.length == 0)
    ensures var r := Image(w, env); r.failed || r.index > w.index || r.u.ontype == 0
  {
    var a := ImageBegin(w, env);
    var b := ImageWrite(a, env);
    assert a.failed || b.failed || b.index > w.index || b.u.length == BodySize(b.u);
  }

  lemma DataProgress(w: Work, env: Storage)
    requires w.index < |w.d| && !w.failed && !w.u.isError && w.u.ontype == TypeData && |w.u.pre| == DataSize
    requires w.u.length <= BodySize(w.u) && (w.u.length == BodySize(w.u) ==> w.u.length == 0)
    ensures var r := Data(w, env); r.failed || r.index > w.index || r.u.ontype == 0
  {
    var a := DataStart(w);
    var b := DataWrite(a, env);
    assert b.failed || b.index > w.index || b.u.length == BodySize(b.u);
  }

  /** Exactly the consumed prefix of the chunk, as the call leaves it, is fed
      to the digest; a call that raises the error consumes nothing. */
  lemma ChunkDigest(u: Upd, d: seq<byte>, env: Storage, model: seq<byte>)
    requires u.ontype != 0 || |d| >= 1
    ensures var r := Chunk(u, d, env, model);
      r.u.digest == u.digest + r.d[..r.n] && (r.u.isError && !u.isError ==> r.n == 0)
  {
    var w := CopyPreamble(ReadType(u, d));
    SectionFrame(w, env, model);
  }

  /** An unknown section type fails the call with nothing consumed. */
  lemma ChunkUnknownType(u: Upd, d: seq<byte>, env: Storage, model: seq<byte>)
    requires (u.ontype != 0 || |d| >= 1) && !KnownType(TypeOf(u, d))
    ensures var r := Chunk(u, d, env, model);
      r.u.isError && r.u.message == UnknownPreamble && r.n == 0 && r.u.digest == u.digest
      && r.u.ontype == TypeOf(u, d) && r.d == d
  {
  }

  /** Only the MD5 section's preamble bytes are changed in the chunk, to zero. */
  lemma ChunkZeroes(u: Upd, d: seq<byte>, env: Storage, model: seq<byte>)
    requires u.ontype != 0 || |d| >= 1
    ensures var r := Chunk(u, d, env, model);
      (TypeOf(u, d) != TypeMd5 ==> r.d == d)
      && forall k :: 0 <= k < |d| ==> r.d[k] == d[k] || r.d[k] == 0
  {
  }

  /** The preamble as it stands once the call has copied its bytes. */
  function Assembled(u: Upd, d: seq<byte>): seq<byte>
    requires u.ontype != 0 || |d| >= 1
  {
    CopyPreamble(ReadType(u, d)).u.pre
  }

  /** A header section: once its preamble is complete, a wrong magic or
      model fails the call with nothing consumed, and a good one ends the
      section. */
  lemma ChunkHeader(u: Upd, d: seq<byte>, env: Storage, model: seq<byte>)
    requires (u.ontype != 0 || |d| >= 1) && TypeOf(u, d) == TypeHeader && UpdOk(u) && !u.isError
    ensures var r := Chunk(u, d, env, model); var p := Assembled(u, d);
      (|p| < HeaderSize ==> !r.u.isError && r.u.pre == p && r.n == |d|)
      && (|p| == HeaderSize && (HeaderMagic(p) != Magic || HeaderModel(p) != model) ==>
            r.u.isError && r.u.message == BadHeader && r.n == 0)
      && (|p| == HeaderSize && HeaderMagic(p) == Magic && HeaderModel(p) == model ==>
            !r.u.isError && r.u.ontype == 0 && r.u.files == u.files)
  {
  }

  /** `files` counts completed image and data sections: a call adds at most
      one, and only when it ends such a section, after the flash update
      ended or the data file was renamed into place. */
  lemma ChunkFiles(u: Upd, d: seq<byte>, env: Storage, model: seq<byte>)
    requires u.ontype != 0 || |d| >= 1
    ensures var r := Chunk(u, d, env, model);
      r.u.files == u.files || (r.u.files == u.files + 1 && Completed(r.u, TypeOf(u, d)))
  {
    var w := CopyPreamble(ReadType(u, d));
    assert w.u.files == u.files && w.u.ontype == TypeOf(u, d);
    SectionFiles(w, env, model);
    var w2 := Section(w, env, model);
    var r := Chunk(u, d, env, model);
    assert r.u.files == w2.u.files && r.u.ontype == w2.u.ontype && r.u.pre == w2.u.pre;
    assert r.u.length == w2.u.length && r.u.log == w2.u.log;
  }

  /** The state right after an image or data section of type `t` ended: between
      sections, and the last call the end of the flash update or the rename. */
  ghost predicate Completed(u: Upd, t: byte)
  {
    u.ontype == 0 && u.pre == [] && u.length == 0 && |u.log| > 0
    && ((t == TypeImage && u.log[|u.log| - 1] == EndImage) || (t == TypeData && u.log[|u.log| - 1].RenameTmp?))
  }

  lemma SectionFiles(w: Work, env: Storage, model: seq<byte>)
    requires w.index <= |w.d|
    ensures var r := Section(w, env, model);
      r.u.files == w.u.files || (r.u.files == w.u.files + 1 && Completed(r.u, w.u.ontype))
  {
    if !w.failed && |w.u.pre| == PreambleSize(w.u.ontype) && w.index < |w.d| {
      if w.u.ontype == TypeImage {
        var b := ImageWrite(ImageBegin(w, env), env);
        assert b.u.files == w.u.files && b.u.ontype == w.u.ontype;
      } else if w.u.ontype == TypeData {
        var b := DataWrite(DataStart(w), env);
        assert b.u.files == w.u.files && b.u.ontype == w.u.ontype;
      }
    }
  }

  /** The result of the caller's loop: the new state, the buffer as the
      calls leave it, and the bytes consumed. */
  /** The upload-write loop as it stands: the state, the buffer as the
      calls leave it, and the bytes consumed. */
  datatype Fed = Fed(u: Upd, d: seq<byte>, n: nat)

  /** The loop stops on an error or once the buffer is consumed. */
  predicate Stopped(p: Fed, d0: seq<byte>)
  {
    p.u.isError || p.n >= |d0|
  }

  /** The state and the buffer after `k` rounds of the upload-write loop
      on `d0`: each round hands the unconsumed bytes to the parser. */
  function Rounds(u0: Upd, d0: seq<byte>, k: nat, env: Storage, model: seq<byte>): (p: Fed)
    ensures |p.d| == |d0| && p.n <= |d0|
    decreases k, 0
  {
    if k == 0 then Fed(u0, d0, 0) else Round(u0, d0, k - 1, env, model)
  }

  /** The round after the first `k`: nothing happens once the loop has stopped. */
  function Round(u0: Upd, d0: seq<byte>, k: nat, env: Storage, model: seq<byte>): (q: Fed)
    ensures |q.d| == |d0| && q.n <= |d0|
    decreases k, 1
  {
    var p := Rounds(u0, d0, k, env, model);
    if Stopped(p, d0) then p
    else
      var c := Chunk(p.u, p.d[p.n..], env, model);
      Fed(c.u, p.d[..p.n] + c.d, p.n + c.n)
  }

  /** The loop has reached `p` after `k` rounds. */
  predicate After(u0: Upd, d0: seq<byte>, k: nat, env: Storage, model: seq<byte>, p: Fed)
  {
    Rounds(u0, d0, k, env, model) == p
  }

  /** A round that does not stop the loop hands the unconsumed bytes to the parser. */
  lemma AfterNext(u0: Upd, d0: seq<byte>, k: nat, env: Storage, model: seq<byte>, p: Fed, c: Step, q: Fed)
    requires After(u0, d0, k, env, model, p) && !Stopped(p, d0)
    requires c == Chunk(p.u, p.d[p.n..], env, model)
    requires q == Fed(c.u, p.d[..p.n] + c.d, p.n + c.n)
    ensures After(u0, d0, k + 1, env, model, q)
  {
    assert Rounds(u0, d0, k + 1, env, model) == Round(u0, d0, k, env, model);
  }

  /** One round as the caller performs it on its whole buffer `a`, of which
      the first `size` bytes are the loop's: the parser gets `a[index..size]`
      and the call leaves `a1`. */
  lemma AfterHandled(u0: Upd, d0: seq<byte>, k: nat, env: Storage, model: seq<byte>,
                     u: Upd, a: seq<byte>, size: nat, index: nat, len: nat, u1: Upd, a1: seq<byte>, n: nat)
    requires index < size <= |a| && len == size - index && UpdOk(u) && !u.isError
    requires After(u0, d0, k, env, model, Fed(u, a[..size], index))
    requires var r := Chunk(u, a[index..index + len], env, model);
      u1 == r.u && n == r.n && a1 == a[..index] + r.d + a[index + len..]
    ensures index + n <= size && a1[size..] == a[size..]
    ensures After(u0, d0, k + 1, env, model, Fed(u1, a1[..size], index + n))
    ensures u1.isError || 2 * (size - index - n) + (if u1.ontype != 0 then 1 else 0)
      < 2 * (size - index) + (if u.ontype != 0 then 1 else 0)
  {
    var p := Fed(u, a[..size], index);
    var c := Chunk(u, a[index..index + len], env, model);
    Spliced(a, size, index, len, c.d, a1);
    ChunkProgress(u, a[index..index + len], env, model);
    AfterNext(u0, d0, k, env, model, p, c, Fed(u1, a1[..size], index + n));
  }

  /** The buffer after a call that rewrote the slice `a[index..size]` as `mid`. */
  lemma Spliced(a: seq<byte>, size: nat, index: nat, len: nat, mid: seq<byte>, a1: seq<byte>)
    requires index + len == size <= |a| && |mid| == len
    requires a1 == a[..index] + mid + a[index + len..]
    ensures a[index..index + len] == a[..size][index..]
    ensures a1[..size] == a[..size][..index] + mid && a1[size..] == a[size..]
  {
    assert a1[..size] == a[..index] + mid;
  }

  /** Every round keeps the state invariant. */
  lemma {:induction false} RoundsKeep(u0: Upd, d0: seq<byte>, k: nat, env: Storage, model: seq<byte>)
    requires UpdOk(u0)
    ensures UpdOk(Rounds(u0, d0, k, env, model).u)
  {
    if k > 0 {
      RoundsKeep(u0, d0, k - 1, env, model);
      var p := Rounds(u0, d0, k - 1, env, model);
      if !Stopped(p, d0) {
        ChunkKeeps(p.u, p.d[p.n..], env, model);
      }
    }
  }

  /** Once stopped, the loop stays stopped. */
  lemma {:induction false} RoundsStable(u0: Upd, d0: seq<byte>, k: nat, k1: nat, env: Storage, model: seq<byte>)
    requires k <= k1 && Stopped(Rounds(u0, d0, k, env, model), d0)
    ensures Rounds(u0, d0, k1, env, model) == Rounds(u0, d0, k, env, model)
    decreases k1
  {
    if k < k1 {
      RoundsStable(u0, d0, k, k1 - 1, env, model);
    }
  }

  /** What is left of the loop's work: two per unconsumed byte, and one for
      a section whose preamble is being read. */
  function Remaining(p: Fed, d0: seq<byte>): nat
    requires p.n <= |d0|
  {
    2 * (|d0| - p.n) + (if p.u.ontype != 0 then 1 else 0)
  }

  /** The loop has reached what `k` rounds compute. */
  lemma AfterRounds(u0: Upd, d0: seq<byte>, k: nat, env: Storage, model: seq<byte>)
    ensures After(u0, d0, k, env, model, Rounds(u0, d0, k, env, model))
  {
  }

  /** Once stopped, the next round changes nothing. */
  lemma AfterStay(u0: Upd, d0: seq<byte>, k: nat, env: Storage, model: seq<byte>, p: Fed)
    requires After(u0, d0, k, env, model, p) && Stopped(p, d0)
    ensures After(u0, d0, k + 1, env, model, p)
  {
    assert Rounds(u0, d0, k + 1, env, model) == Round(u0, d0, k, env, model);
  }

  /** Every round that does not stop the loop leaves strictly less work. */
  lemma {:induction false} RoundsProgress(u0: Upd, d0: seq<byte>, k: nat, env: Storage, model: seq<byte>, p: Fed)
    requires UpdOk(u0) && After(u0, d0, k, env, model, p)
    ensures Stopped(p, d0) || k + Remaining(p, d0) <= Remaining(Fed(u0, d0, 0), d0)
  {
    if k > 0 {
      var p0 := Rounds(u0, d0, k - 1, env, model);
      AfterRounds(u0, d0, k - 1, env, model);
      RoundsProgress(u0, d0, k - 1, env, model, p0);
      RoundsKeep(u0, d0, k - 1, env, model);
      if Stopped(p0, d0) {
        AfterStay(u0, d0, k - 1, env, model, p0);
      } else {
        ChunkProgress(p0.u, p0.d[p0.n..], env, model);
        var c := Chunk(p0.u, p0.d[p0.n..], env, model);
        var q := Fed(c.u, p0.d[..p0.n] + c.d, p0.n + c.n);
        AfterNext(u0, d0, k - 1, env, model, p0, c, q);
        ProgressStep(d0, p0, c, q);
      }
    }
  }

  /** A round in which the call fails, consumes bytes or ends a section leaves less work. */
  lemma ProgressStep(d0: seq<byte>, p: Fed, c: Step, q: Fed)
    requires p.n < |d0| == |p.d| && |c.d| == |p.d| - p.n && c.n <= |c.d|
    requires c.u.isError || c.n > 0 || (p.u.ontype != 0 && c.u.ontype == 0)
    requires q == Fed(c.u, p.d[..p.n] + c.d, p.n + c.n)
    ensures Stopped(q, d0) || Remaining(q, d0) < Remaining(p, d0)
  {
  }

  /** The number of rounds after which the loop has certainly stopped. */
  function Bound(d: seq<byte>): nat
  {
    2 * |d| + 1
  }

  lemma StoppedByBound(u0: Upd, d0: seq<byte>, env: Storage, model: seq<byte>)
    requires UpdOk(u0)
    ensures Stopped(Rounds(u0, d0, Bound(d0), env, model), d0)
  {
    AfterRounds(u0, d0, Bound(d0), env, model);
    RoundsProgress(u0, d0, Bound(d0), env, model, Rounds(u0, d0, Bound(d0), env, model));
  }

  /** Wherever the loop stops, it stops at the same result. */
  lemma RoundsUpload(u0: Upd, d0: seq<byte>, k: nat, env: Storage, model: seq<byte>)
    requires UpdOk(u0) && Stopped(Rounds(u0, d0, k, env, model), d0)
    ensures Rounds(u0, d0, k, env, model) == Upload(u0, d0, env, model)
  {
    if k <= Bound(d0) {
      RoundsStable(u0, d0, k, Bound(d0), env, model);
    } else {
      StoppedByBound(u0, d0, env, model);
      RoundsStable(u0, d0, Bound(d0), k, env, model);
    }
  }

  /** Wherever the loop stops, it stops at the same result. */
  lemma AfterStopped(u0: Upd, d0: seq<byte>, k: nat, env: Storage, model: seq<byte>, p: Fed)
    requires UpdOk(u0) && After(u0, d0, k, env, model, p) && Stopped(p, d0)
    ensures Upload(u0, d0, env, model) == p
  {
    RoundsUpload(u0, d0, k, env, model);
  }

  /** The whole upload-write loop on `d`. */
  function Upload(u: Upd, d: seq<byte>, env: Storage, model: seq<byte>): (r: Fed)
    ensures |r.d| == |d| && r.n <= |d|
  {
    Rounds(u, d, Bound(d), env, model)
  }

  /** The digest is fed exactly the bytes consumed so far, as the calls leave them. */
  lemma {:induction false} RoundsDigest(u0: Upd, d0: seq<byte>, k: nat, env: Storage, model: seq<byte>, p: Fed)
    requires After(u0, d0, k, env, model, p)
    ensures p.u.digest == u0.digest + p.d[..p.n]
  {
    if k > 0 {
      var p0 := Rounds(u0, d0, k - 1, env, model);
      AfterRounds(u0, d0, k - 1, env, model);
      RoundsDigest(u0, d0, k - 1, env, model, p0);
      if Stopped(p0, d0) {
        AfterStay(u0, d0, k - 1, env, model, p0);
      } else {
        RoundDigest(u0, d0, k - 1, env, model, p0, p);
      }
    }
  }

  /** One round that does not stop the loop keeps the digest invariant. */
  lemma RoundDigest(u0: Upd, d0: seq<byte>, k: nat, env: Storage, model: seq<byte>, p0: Fed, p: Fed)
    requires After(u0, d0, k, env, model, p0) && !Stopped(p0, d0)
    requires After(u0, d0, k + 1, env, model, p)
    requires p0.u.digest == u0.digest + p0.d[..p0.n]
    ensures p.u.digest == u0.digest + p.d[..p.n]
  {
    ChunkDigest(p0.u, p0.d[p0.n..], env, model);
    var c := Chunk(p0.u, p0.d[p0.n..], env, model);
    var q := Fed(c.u, p0.d[..p0.n] + c.d, p0.n + c.n);
    AfterNext(u0, d0, k, env, model, p0, c, q);
    DigestStep(u0.digest, p0, c, q);
  }

  /** A round appends the bytes the call consumed to those consumed before. */
  lemma DigestStep(g: seq<byte>, p: Fed, c: Step, q: Fed)
    requires p.n <= |p.d| && c.n <= |c.d|
    requires p.u.digest == g + p.d[..p.n] && c.u.digest == p.u.digest + c.d[..c.n]
    requires q == Fed(c.u, p.d[..p.n] + c.d, p.n + c.n)
    ensures q.u.digest == g + q.d[..q.n]
  {
    assert q.d[..q.n] == p.d[..p.n] + c.d[..c.n];
    ConcatAssoc(g, p.d[..p.n], c.d[..c.n]);
  }

  /** Across the whole loop the digest is fed exactly the consumed bytes,
      and without an error the whole buffer is consumed. */
  lemma UploadDigest(u: Upd, d: seq<byte>, env: Storage, model: seq<byte>)
    requires UpdOk(u)
    ensures var r := Upload(u, d, env, model);
      UpdOk(r.u) && r.u.digest == u.digest + r.d[..r.n] && |r.d| == |d| && (!r.u.isError ==> r.n == |d|)
  {
    RoundsKeep(u, d, Bound(d), env, model);
    AfterRounds(u, d, Bound(d), env, model);
    RoundsDigest(u, d, Bound(d), env, model, Rounds(u, d, Bound(d), env, model));
    StoppedByBound(u, d, env, model);
  }

  /** The removals of the end-of-upload sweep: every listed file that is
      not one the update keeps, in listing order. */
  function Orphans(dir: seq<seq<byte>>, keep: seq<seq<byte>>): (r: seq<Action>)
    ensures |r| <= |dir|
  {
    if dir == [] then []
    else
      var last := dir[|dir| - 1];
      Orphans(dir[..|dir| - 1], keep) + (if last in keep then [] else [RemoveFile(last)])
  }

  /** The sweep removes exactly the listed files the update does not keep. */
  lemma {:induction false} OrphansRemoved(dir: seq<seq<byte>>, keep: seq<seq<byte>>, x: seq<byte>)
    ensures RemoveFile(x) in Orphans(dir, keep) <==> x in dir && x !in keep
  {
    if dir != [] {
      OrphansRemoved(dir[..|dir| - 1], keep, x);
      assert dir == dir[..|dir| - 1] + [dir[|dir| - 1]];
    }
  }

  /** Only removals are issued. */
  lemma {:induction false} OrphansOnlyRemove(dir: seq<seq<byte>>, keep: seq<seq<byte>>)
    ensures forall a :: a in Orphans(dir, keep) ==> a.RemoveFile?
  {
    if dir != [] {
      OrphansOnlyRemove(dir[..|dir| - 1], keep);
    }
  }

  /** The end of an upload: the image digest must match the MD5 the MD5
      section announced; then every file the update did not keep is removed. */
  function Finalize(u: Upd, computed: seq<byte>, dir: seq<seq<byte>>): (r: Upd)
    ensures r.isError == (u.isError || u.imageMd5 != computed)
    ensures r.files == u.files && r.updated == u.updated && r.digest == u.digest
  {
    if u.imageMd5 != computed then u.(isError := true, message := BadImageMd5)
    else u.(log := u.log + Orphans(dir, u.updated), message := UploadComplete)
  }

  /** The end of an upload reports success exactly when the digests agree,
      and only then removes files: exactly the listed ones not kept. */
  lemma FinalizeOutcome(u: Upd, computed: seq<byte>, dir: seq<seq<byte>>, x: seq<byte>)
    ensures var r := Finalize(u, computed, dir);
      (r.message == UploadComplete <==> u.imageMd5 == computed)
      && (u.imageMd5 != computed ==> r.log == u.log && r.message == BadImageMd5)
      && (u.imageMd5 == computed ==>
            |r.log| >= |u.log| && r.log[..|u.log|] == u.log
            && (RemoveFile(x) in r.log[|u.log|..] <==> x in dir && x !in u.updated))
  {
    if u.imageMd5 == computed {
      var r := Finalize(u, computed, dir);
      assert r.log[|u.log|..] == Orphans(dir, u.updated);
      OrphansRemoved(dir, u.updated, x);
    }
  }

  /** The end of an upload keeps the state invariant. */
  lemma FinalizeKeeps(u: Upd, computed: seq<byte>, dir: seq<seq<byte>>)
    requires UpdOk(u)
    ensures UpdOk(Finalize(u, computed, dir))
  {
  }

  /** A string constant as bytes. */
  function Ascii(s: string): (b: seq<byte>)
    requires forall i :: 0 <= i < |s| ==> s[i] as int < 0x100
    ensures |b| == |s| && forall i :: 0 <= i < |s| ==> b[i] == s[i] as int
  {
    seq(|s|, i requires 0 <= i < |s| => s[i] as int)
  }

  /** The configuration files an update keeps, in the order they are pushed.
      `FNAME_DAISYCFG` is not defined in wifistepper.h, so its value is a parameter. */
  function ConfigFiles(daisyCfg: seq<byte>): (r: seq<seq<byte>>)
    ensures |r| == 4 && r[2] == daisyCfg
  {
    [Ascii("/wificfg.json"), Ascii("/servicecfg.json"), daisyCfg, Ascii("/motorcfg.json")]
  }

  /** The state a new upload starts from keeps the parser's invariant. */
  lemma StartOk(log: seq<Action>, daisyCfg: seq<byte>)
    ensures UpdOk(Upd(0, [], 0, 0, false, NoMessage, [], [], log, ConfigFiles(daisyCfg)))
  {
  }

  /** memset(&a[from], 0, k). */
  method ZeroFill(a: array<byte>, from: nat, k: nat)
    requires from + k <= a.Length
    modifies a
    ensures forall j :: 0 <= j < a.Length ==> a[j] == if from <= j < from + k then 0 else old(a[j])
  {
    var i := 0;
    while i < k
      invariant 0 <= i <= k
      invariant forall j :: 0 <= j < a.Length ==> a[j] == if from <= j < from + i then 0 else old(a[j])
    {
      a[from + i] := 0;
      i := i + 1;
    }
  }

  /** After copying `s` in at `len`, the first `len + |s|` elements are the old ones followed by `s`. */
  lemma CopiedPrefix(p: seq<byte>, p1: seq<byte>, len: nat, s: seq<byte>)
    requires len + |s| <= |p| && p1 == p[..len] + s + p[len + |s|..]
    ensures p1[..len + |s|] == p[..len] + s
  {
    assert p1[..len + |s|] == (p[..len] + s + p[len + |s|..])[..len + |s|];
  }

  /** Zeroing `k` bytes at offset `i` of the slice `a[at..at + len]`, seen on the slice and around it. */
  lemma ZeroedSlice(a: seq<byte>, a1: seq<byte>, at: nat, len: nat, i: nat, k: nat)
    requires at + len <= |a| == |a1| && i + k <= len
    requires forall j :: 0 <= j < |a1| ==> a1[j] == if at + i <= j < at + i + k then 0 else a[j]
    ensures a1[at..at + len] == a[at..at + len][..i] + Zeros(k) + a[at..at + len][i + k..]
    ensures a1[..at] == a[..at] && a1[at + len..] == a[at + len..]
  {
    var s := a[at..at + len];
    var r := s[..i] + Zeros(k) + s[i + k..];
    assert |a1| == |a|;
    forall j | 0 <= j < len
      ensures a1[at + j] == r[j]
    {
      if j < i {
        assert a1[at + j] == a[at + j];
      } else if j < i + k {
        assert a1[at + j] == Zeros(k)[j - i];
      } else {
        assert a1[at + j] == a[at + j];
      }
    }
    assert a1[at..at + len] == r;
    assert a1[..at] == a[..at];
    assert a1[at + len..] == a[at + len..];
  }

  /** The persistent update state, one per device, and the parser's calls. */
  class Updater {
    var ontype: byte
    const preamble: array<byte>
    var preambleLen: nat
    var length: nat
    var files: nat
    var isError: bool
    var message: Message
    var imageMd5: seq<byte>
    var digest: seq<byte>
    var log: seq<Action>
    var updated: seq<seq<byte>>
    /** The model name a header must carry. */
    const model: seq<byte>
    /** The value of `FNAME_DAISYCFG`, one of the files an update keeps. */
    const daisyCfg: seq<byte>

    ghost function State(): Upd
      reads this, preamble
      requires preambleLen <= preamble.Length
    {
      Upd(ontype, preamble[..preambleLen], length, files, isError, message, imageMd5, digest, log, updated)
    }

    ghost predicate Valid()
      reads this, preamble
    {
      preamble.Length == PreambleCap && preambleLen <= PreambleCap && UpdOk(State())
    }

    /** A call in progress on `data[at..at + len]`. */
    ghost function Snap(data: array<byte>, at: nat, len: nat, index: nat, failed: bool): Work
      reads this, preamble, data
      requires preambleLen <= preamble.Length && at + len <= data.Length
    {
      Work(State(), data[at..at + len], index, failed)
    }

    constructor(model: seq<byte>, daisyCfg: seq<byte>)
      ensures Valid() && this.model == model && this.daisyCfg == daisyCfg
      ensures State() == Upd(0, [], 0, 0, false, NoMessage, [], [], [], [])
    {
      ontype, preambleLen, length, files, isError, message := 0, 0, 0, 0, false, NoMessage;
      imageMd5, digest, log, updated := [], [], [], [];
      preamble := new byte[PreambleCap](_ => 0);
      this.model := model;
      this.daisyCfg := daisyCfg;
    }

    /** A new upload starts: the state is zeroed, the digest restarted, and
        the update keeps the four configuration files. */
    method Begin()
      requires Valid()
      modifies this, preamble
      ensures Valid()
      ensures State() == Upd(0, [], 0, 0, false, NoMessage, [], [], old(log), ConfigFiles(daisyCfg))
    {
      ZeroFill(preamble, 0, preamble.Length);
      ontype, preambleLen, length, files, isError, message := 0, 0, 0, 0, false, NoMessage;
      imageMd5, digest, updated := [], [], ConfigFiles(daisyCfg);
      assert preamble[..preambleLen] == [];
      StartOk(old(log), daisyCfg);
    }

    /** `update_handlechunk(&data[at], len)`: returns the bytes consumed. */
    method HandleChunk(data: array<byte>, at: nat, len: nat, env: Storage) returns (n: nat)
      requires Valid() && data != preamble && at + len <= data.Length && (ontype != 0 || len >= 1)
      modifies this, preamble, data
      ensures Valid()
      ensures var r := Chunk(old(State()), old(data[at..at + len]), env, model);
        State() == r.u && n == r.n && data[..] == old(data[..at]) + r.d + old(data[at + len..])
    {
      ghost var u0, d0 := State(), data[at..at + len];
      ChunkKeeps(u0, d0, env, model);
      var index := ReadTypeStep(data, at, len);
      assert Snap(data, at, len, index, false) == ReadType(u0, d0);
      var failed;
      index, failed := CopyStep(data, at, len, index);
      assert Snap(data, at, len, index, failed) == CopyPreamble(ReadType(u0, d0));
      index, failed := SectionStep(data, at, len, index, failed, env);
      ghost var w := Section(CopyPreamble(ReadType(u0, d0)), env, model);
      assert Snap(data, at, len, index, failed) == w;
      n := FinishStep(data, at, len, index, failed);
      Split3(data[..], at, len);
    }

    /** The tail of the call: a failed section returns 0, a successful one
        feeds the consumed bytes to the digest and returns their count. */
    method FinishStep(data: array<byte>, at: nat, len: nat, index: nat, failed: bool) returns (n: nat)
      requires preamble.Length == PreambleCap && preambleLen <= PreambleCap && at + len <= data.Length
      requires index <= len && data != preamble
      modifies this
      ensures preamble.Length == PreambleCap && preambleLen <= PreambleCap
      ensures var r := Finish(old(Snap(data, at, len, index, failed)));
        State() == r.u && n == r.n
    {
      if failed {
        n := 0;
      } else {
        digest := digest + data[at..at + index];
        n := index;
      }
    }

    method ReadTypeStep(data: array<byte>, at: nat, len: nat) returns (index: nat)
      requires preambleLen <= preamble.Length && data != preamble && at + len <= data.Length
      requires ontype != 0 || len >= 1
      modifies this
      ensures unchanged(data) && preambleLen == old(preambleLen)
      ensures Snap(data, at, len, index, false) == ReadType(old(State()), data[at..at + len])
    {
      index := 0;
      if ontype == 0 {
        ontype := data[at];
        index := 1;
      }
    }

    method CopyStep(data: array<byte>, at: nat, len: nat, index0: nat) returns (index: nat, failed: bool)
      requires preamble.Length == PreambleCap && preambleLen <= PreambleSize(ontype) && data != preamble
      requires at + len <= data.Length && index0 <= len
      modifies this, preamble, data
      ensures preamble.Length == PreambleCap && preambleLen <= PreambleCap
      ensures data[..at] == old(data[..at]) && data[at + len..] == old(data[at + len..])
      ensures Snap(data, at, len, index, failed) == CopyPreamble(old(Snap(data, at, len, index0, false)))
    {
      var ps := PreambleSize(ontype);
      if ps == 0 {
        message, isError := UnknownPreamble, true;
        return index0, true;
      }
      if preambleLen < ps {
        index := CopyBytes(data, at, len, index0);
        return index, false;
      }
      return index0, false;
    }

    /** The bytes that complete the preamble as far as the chunk allows. */
    method CopyBytes(data: array<byte>, at: nat, len: nat, index0: nat) returns (index: nat)
      requires preamble.Length == PreambleCap && preambleLen < PreambleSize(ontype) && data != preamble
      requires at + len <= data.Length && index0 <= len
      modifies this`preambleLen, preamble, data
      ensures preamble.Length == PreambleCap && preambleLen <= PreambleCap
      ensures data[..at] == old(data[..at]) && data[at + len..] == old(data[at + len..])
      ensures Snap(data, at, len, index, false) == CopyMissing(old(Snap(data, at, len, index0, false)))
    {
      ghost var w := Snap(data, at, len, index0, false);
      var k := Min(PreambleSize(ontype) - preambleLen, len - index0);
      ghost var p0, a0 := preamble[..], data[..];
      SliceOfSlice(a0, at, len, index0, k);
      CopyIn(preamble, preambleLen, data[at + index0..at + index0 + k]);
      CopiedPrefix(p0, preamble[..], preambleLen, a0[at + index0..at + index0 + k]);
      ghost var pre := preamble[..preambleLen + k];
      assert pre == w.u.pre + w.d[index0..index0 + k];
      if ontype == TypeMd5 {
        ZeroFill(data, at + index0, k);
        ZeroedSlice(a0, data[..], at, len, index0, k);
      }
      ghost var d := data[at..at + len];
      assert d == if ontype == TypeMd5 then w.d[..index0] + Zeros(k) + w.d[index0 + k..] else w.d;
      CopyMissingIs(w, k, pre, d);
      preambleLen := preambleLen + k;
      index := index0 + k;
      assert State() == w.u.(pre := pre);
    }

    method SectionStep(data: array<byte>, at: nat, len: nat, index0: nat, failed0: bool, env: Storage)
      returns (index: nat, failed: bool)
      requires preamble.Length == PreambleCap && preambleLen <= PreambleCap && at + len <= data.Length
      requires index0 <= len && data != preamble
      modifies this
      ensures preamble.Length == PreambleCap && preambleLen <= PreambleCap
      ensures Snap(data, at, len, index, failed) == Section(old(Snap(data, at, len, index0, failed0)), env, model)
    {
      index, failed := index0, failed0;
      if failed || preambleLen != PreambleSize(ontype) {
        return;
      }
      if ontype == TypeHeader {
        failed := HeaderStep(data, at, len, index);
      } else if ontype == TypeImage {
        index, failed := ImageStep(data, at, len, index, env);
      } else if ontype == TypeData {
        index, failed := DataStep(data, at, len, index, env);
      } else if ontype == TypeMd5 {
        Md5Step(data, at, len, index);
      }
    }

    method HeaderStep(data: array<byte>, at: nat, len: nat, index: nat) returns (failed: bool)
      requires preamble.Length == PreambleCap && preambleLen == HeaderSize && at + len <= data.Length
      requires data != preamble
      modifies this
      ensures preamble.Length == PreambleCap && preambleLen <= PreambleCap
      ensures Snap(data, at, len, index, failed) == Header(old(Snap(data, at, len, index, false)), model)
    {
      var pre := preamble[..HeaderSize];
      var magic := preamble[0] as int + 0x100 * preamble[1] as int;
      assert magic == HeaderMagic(pre);
      if magic != Magic || CString(preamble[2 + LenProduct..HeaderSize]) != model {
        message, isError := BadHeader, true;
        return true;
      }
      ontype, preambleLen, length := 0, 0, 0;
      return false;
    }

    method Md5Step(data: array<byte>, at: nat, len: nat, index: nat)
      requires preamble.Length == PreambleCap && preambleLen == Md5Size && at + len <= data.Length
      requires data != preamble
      modifies this
      ensures preamble.Length == PreambleCap && preambleLen <= PreambleCap
      ensures Snap(data, at, len, index, false) == Md5(old(Snap(data, at, len, index, false)))
    {
      imageMd5 := CString(preamble[..Md5Size]);
      ontype, preambleLen, length := 0, 0, 0;
    }

    method ImageStep(data: array<byte>, at: nat, len: nat, index0: nat, env: Storage) returns (index: nat, failed: bool)
      requires preamble.Length == PreambleCap && preambleLen == ImageSize && ontype == TypeImage
      requires at + len <= data.Length && index0 <= len && data != preamble
      modifies this
      ensures preamble.Length == PreambleCap && preambleLen <= PreambleCap
      ensures Snap(data, at, len, index, failed) == Image(old(Snap(data, at, len, index0, false)), env)
    {
      if index0 == len {
        return index0, false;
      }
      failed := ImageBeginStep(data, at, len, index0, env);
      index, failed := ImageWriteStep(data, at, len, index0, failed, env);
      failed := ImageEndStep(data, at, len, index, failed, env);
    }

    method ImageBeginStep(data: array<byte>, at: nat, len: nat, index: nat, env: Storage) returns (failed: bool)
      requires preamble.Length == PreambleCap && preambleLen == ImageSize && ontype == TypeImage
      requires at + len <= data.Length && data != preamble
      modifies this`log, this`isError
      ensures Snap(data, at, len, index, failed) == ImageBegin(old(Snap(data, at, len, index, false)), env)
    {
      if length == 0 {
        assert CString(preamble[..ImageSize]) == ImageMd5Of(State());
        log := log + [BeginImage(CString(preamble[..ImageSize]))];
        if !env.beginOk {
          isError := true;
          return true;
        }
      }
      return false;
    }

    method ImageWriteStep(data: array<byte>, at: nat, len: nat, index0: nat, failed0: bool, env: Storage)
      returns (index: nat, failed: bool)
      requires preamble.Length == PreambleCap && preambleLen == ImageSize && ontype == TypeImage
      requires at + len <= data.Length && index0 <= len && data != preamble
      modifies this`log, this`isError, this`length
      ensures Snap(data, at, len, index, failed) == ImageWrite(old(Snap(data, at, len, index0, failed0)), env)
    {
      index, failed := index0, failed0;
      var size := UnpackLE32(preamble[33..37]);
      assert size == BodySize(State());
      if failed || length >= size {
        return;
      }
      var k := Min(size - length, len - index);
      SliceOfSlice(data[..], at, len, index, k);
      log := log + [WriteImage(data[at + index..at + index + k])];
      if !env.writeOk {
        isError := true;
        return index, true;
      }
      length := length + k;
      index := index + k;
    }

    method ImageEndStep(data: array<byte>, at: nat, len: nat, index: nat, failed0: bool, env: Storage)
      returns (failed: bool)
      requires preamble.Length == PreambleCap && preambleLen == ImageSize && ontype == TypeImage
      requires at + len <= data.Length && data != preamble
      modifies this
      ensures preamble.Length == PreambleCap && preambleLen <= PreambleCap
      ensures Snap(data, at, len, index, failed) == ImageEnd(old(Snap(data, at, len, index, failed0)), env)
    {
      failed := failed0;
      var size := UnpackLE32(preamble[33..37]);
      assert size == BodySize(State());
      if failed || length != size {
        return;
      }
      log := log + [EndImage];
      if !env.endOk {
        isError := true;
        return true;
      }
      ontype, preambleLen, length := 0, 0, 0;
      files := files + 1;
    }

    method DataStep(data: array<byte>, at: nat, len: nat, index0: nat, env: Storage) returns (index: nat, failed: bool)
      requires preamble.Length == PreambleCap && preambleLen == DataSize && ontype == TypeData
      requires at + len <= data.Length && index0 <= len && data != preamble
      modifies this
      ensures preamble.Length == PreambleCap && preambleLen <= PreambleCap
      ensures Snap(data, at, len, index, failed) == Data(old(Snap(data, at, len, index0, false)), env)
    {
      if index0 == len {
        return index0, false;
      }
      if length == 0 {
        log := log + [RemoveTmp];
      }
      index, failed := DataWriteStep(data, at, len, index0, env);
      failed := DataEndStep(data, at, len, index, failed, env);
    }

    method DataWriteStep(data: array<byte>, at: nat, len: nat, index0: nat, env: Storage)
      returns (index: nat, failed: bool)
      requires preamble.Length == PreambleCap && preambleLen == DataSize && ontype == TypeData
      requires at + len <= data.Length && index0 <= len && data != preamble
      modifies this`log, this`isError, this`length, this`message
      ensures Snap(data, at, len, index, failed) == DataWrite(old(Snap(data, at, len, index0, false)), env)
    {
      index, failed := index0, false;
      var size := UnpackLE32(preamble[69..73]);
      assert size == BodySize(State());
      if length >= size {
        return;
      }
      var k := Min(size - length, len - index);
      if !env.appendOk {
        message, isError := DataOpenFailed, true;
        return index, true;
      }
      SliceOfSlice(data[..], at, len, index, k);
      log := log + [AppendTmp(data[at + index..at + index + k])];
      length := length + k;
      index := index + k;
    }

    method DataEndStep(data: array<byte>, at: nat, len: nat, index: nat, failed0: bool, env: Storage)
      returns (failed: bool)
      requires preamble.Length == PreambleCap && preambleLen == DataSize && ontype == TypeData
      requires at + len <= data.Length && data != preamble
      modifies this
      ensures preamble.Length == PreambleCap && preambleLen <= PreambleCap
      ensures Snap(data, at, len, index, failed) == DataEnd(old(Snap(data, at, len, index, failed0)), env)
    {
      failed := failed0;
      var size := UnpackLE32(preamble[69..73]);
      assert size == BodySize(State());
      if failed || length != size {
        return;
      }
      if !env.readOk {
        message, isError := DataReadFailed, true;
        return true;
      }
      var md5 := CString(preamble[36..DataSize]);
      assert md5 == DataMd5Of(State());
      if md5 != env.fileMd5 {
        message, isError := BadDataMd5, true;
        return true;
      }
      var name := CString(preamble[..DataSize]);
      assert name == DataNameOf(State());
      log := log + [RemoveFile(name), RenameTmp(name)];
      if !env.renameOk {
        message, isError := RenameFailed, true;
        return true;
      }
      updated := updated + [name];
      ontype, preambleLen, length := 0, 0, 0;
      files := files + 1;
      assert preamble[..preambleLen] == [];
    }

    /** The upload-write branch: the buffer's first `size` bytes are handed
        to the parser until they are consumed or an error is raised. */
    method Write(buf: array<byte>, size: nat, env: Storage)
      requires Valid() && buf != preamble && size <= buf.Length
      modifies this, preamble, buf
      ensures Valid()
      ensures var r := Upload(old(State()), old(buf[..size]), env, model);
        State() == r.u && buf[..] == r.d + old(buf[size..])
    {
      ghost var u0, d0 := State(), buf[..size];
      ghost var k: nat := 0;
      var index: nat := 0;
      while !isError && index < size
        invariant Valid() && index <= size && buf[size..] == old(buf[size..])
        invariant After(u0, d0, k, env, model, Fed(State(), buf[..size], index))
        decreases if isError then 0 else 1, 2 * (size - index) + (if ontype != 0 then 1 else 0)
      {
        var n := WriteRound(buf, size, index, env, u0, d0, k);
        k, index := k + 1, index + n;
      }
      AfterStopped(u0, d0, k, env, model, Fed(State(), buf[..size], index));
      assert buf[..] == buf[..size] + buf[size..];
    }

    /** One round of the upload-write loop: the parser gets the unconsumed bytes. */
    method WriteRound(buf: array<byte>, size: nat, index: nat, env: Storage, ghost u0: Upd, ghost d0: seq<byte>, ghost k: nat)
      returns (n: nat)
      requires Valid() && buf != preamble && index < size <= buf.Length && !isError
      requires After(u0, d0, k, env, model, Fed(State(), buf[..size], index))
      modifies this, preamble, buf
      ensures Valid() && index + n <= size && buf[size..] == old(buf[size..])
      ensures After(u0, d0, k + 1, env, model, Fed(State(), buf[..size], index + n))
      ensures isError || 2 * (size - index - n) + (if ontype != 0 then 1 else 0)
        < 2 * (size - index) + (if old(ontype) != 0 then 1 else 0)
    {
      var len := size - index;
      ghost var u, a := State(), buf[..];
      n := HandleChunk(buf, index, len, env);
      AfterHandled(u0, d0, k, env, model, u, a, size, index, len, State(), buf[..], n);
    }

    /** The upload-end branch, given the MD5 of everything fed to the
        digest and the file system's listing. */
    method End(computed: seq<byte>, dir: seq<seq<byte>>)
      requires Valid()
      modifies this
      ensures Valid() && State() == Finalize(old(State()), computed, dir)
    {
      if imageMd5 != computed {
        message, isError := BadImageMd5, true;
        return;
      }
      var i := 0;
      while i < |dir|
        invariant i <= |dir| && log == old(log) + Orphans(dir[..i], updated)
        modifies this`log
      {
        if dir[i] !in updated {
          log := log + [RemoveFile(dir[i])];
        }
        assert dir[..i + 1][..i] == dir[..i];
        i := i + 1;
      }
      assert dir[..i] == dir;
      message := UploadComplete;
    }
  }
}
