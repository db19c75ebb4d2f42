/** The stored (uncompressed) zip writer, byte by byte, and the reader it has to satisfy:
    sections 4.3.7, 4.3.12 and 4.3.16 of PKWARE's APPNOTE.TXT. */
module ZipStore {
  import opened Options

  type Byte = x: int | 0 <= x < 256
  type Word = x: int | 0 <= x <= MAX32

  const MAX16: nat := 0xFFFF
  const MAX32: nat := 0xFFFF_FFFF
  const LOCAL_SIGNATURE: Word := 0x04034b50
  const CENTRAL_SIGNATURE: Word := 0x02014b50
  const END_SIGNATURE: Word := 0x06054b50
  const VERSION: nat := 20

  /** A file, its name and text already encoded. */
  datatype File = File(name: seq<Byte>, data: seq<Byte>)

  type Checksum = seq<Byte> -> Word

  // --- Little-endian fields -------------------------------------------------------

  function U16(v: int): (r: seq<Byte>)
    requires 0 <= v <= MAX16
    ensures |r| == 2
  {
    [v % 256, v / 256]
  }

  function U32(v: int): (r: seq<Byte>)
    requires 0 <= v <= MAX32
    ensures |r| == 4
  {
    [v % 256, v / 256 % 256, v / 0x1_0000 % 256, v / 0x100_0000]
  }

  function Read16(b: seq<Byte>, at: nat): nat
    requires at + 2 <= |b|
  {
    b[at] as int + 256 * (b[at + 1] as int)
  }

  function Read32(b: seq<Byte>, at: nat): nat
    requires at + 4 <= |b|
  {
    b[at] as int + 256 * (b[at + 1] as int) + 0x1_0000 * (b[at + 2] as int) + 0x100_0000 * (b[at + 3] as int)
  }

  lemma {:induction false} Read16Back(v: int)
    requires 0 <= v <= MAX16
    ensures Read16(U16(v), 0) == v
  {
  }

  lemma {:induction false} Read32Back(v: int)
    requires 0 <= v <= MAX32
    ensures Read32(U32(v), 0) == v
  {
    assert v / 256 / 256 == v / 0x1_0000 && v / 0x1_0000 / 256 == v / 0x100_0000;
  }

  function Zeros(n: nat): (r: seq<Byte>)
    ensures |r| == n
  {
    seq(n, _ => 0)
  }

  // --- The records ------------------------------------------------------------------

  function LocalHeader(crc: Word, size: int, nameLength: int): (r: seq<Byte>)
    requires 0 <= size <= MAX32 && 0 <= nameLength <= MAX16
    ensures |r| == 30
  {
    U32(LOCAL_SIGNATURE) + U16(VERSION) + Zeros(8) + U32(crc) + U32(size) + U32(size)
    + U16(nameLength) + Zeros(2)
  }

  function CentralPrefix(): (r: seq<Byte>)
    ensures |r| == 8
  {
    U32(CENTRAL_SIGNATURE) + U16(VERSION) + U16(VERSION)
  }

  /** The central header up to and including the name length. */
  function CentralStart(crc: Word, size: int, nameLength: int): (r: seq<Byte>)
    requires 0 <= size <= MAX32 && 0 <= nameLength <= MAX16
    ensures |r| == 30
  {
    CentralPrefix() + Zeros(8) + U32(crc) + U32(size) + U32(size) + U16(nameLength)
  }

  function CentralHeader(crc: Word, size: int, nameLength: int, offset: int): (r: seq<Byte>)
    requires 0 <= size <= MAX32 && 0 <= nameLength <= MAX16 && 0 <= offset <= MAX32
    ensures |r| == 46
  {
    CentralStart(crc, size, nameLength) + Zeros(12) + U32(offset)
  }

  function EndRecord(count: int, dirSize: int, dirOffset: int): (r: seq<Byte>)
    requires 0 <= count <= MAX16 && 0 <= dirSize <= MAX32 && 0 <= dirOffset <= MAX32
    ensures |r| == 22
  {
    U32(END_SIGNATURE) + Zeros(4) + U16(count) + U16(count) + U32(dirSize) + U32(dirOffset) + Zeros(2)
  }

  // --- Writing into a buffer ----------------------------------------------------------

  /** A fresh zero-filled buffer. */
  method Alloc(n: nat) returns (buf: array<Byte>)
    ensures fresh(buf) && buf.Length == n && forall j :: 0 <= j < n ==> buf[j] == 0
  {
    buf := new Byte[n](_ => 0);
  }

  /** The writes refuse a value that does not fit, as the runtime does by throwing. */
  method Write16(buf: array<Byte>, value: int, at: nat) returns (ok: bool)
    requires at + 2 <= buf.Length
    modifies buf
    ensures ok == (0 <= value <= MAX16)
    ensures forall j :: 0 <= j < buf.Length && !(at <= j < at + 2) ==> buf[j] == old(buf[j])
    ensures ok ==> buf[at..at + 2] == U16(value)
  {
    ok := 0 <= value <= MAX16;
    if ok { buf[at], buf[at + 1] := value % 256, value / 256; }
  }

  method Write32(buf: array<Byte>, value: int, at: nat) returns (ok: bool)
    requires at + 4 <= buf.Length
    modifies buf
    ensures ok == (0 <= value <= MAX32)
    ensures forall j :: 0 <= j < buf.Length && !(at <= j < at + 4) ==> buf[j] == old(buf[j])
    ensures ok ==> buf[at..at + 4] == U32(value)
  {
    ok := 0 <= value <= MAX32;
    if ok {
      buf[at], buf[at + 1], buf[at + 2], buf[at + 3] :=
        value % 256, value / 256 % 256, value / 0x1_0000 % 256, value / 0x100_0000;
    }
  }

  /** The checksum and the two sizes, which sit side by side in both headers. */
  method WriteSizes(buf: array<Byte>, crc: Word, size: int, at: nat) returns (ok: bool)
    requires at + 12 <= buf.Length
    modifies buf
    ensures ok == (0 <= size <= MAX32)
    ensures forall j :: 0 <= j < buf.Length && !(at <= j < at + 12) ==> buf[j] == old(buf[j])
    ensures ok ==> buf[at..at + 4] == U32(crc) && buf[at + 4..at + 8] == buf[at + 8..at + 12] == U32(size)
  {
    var _ := Write32(buf, crc, at);
    ok := Write32(buf, size, at + 4);
    if !ok { return; }
    ok := Write32(buf, size, at + 8);
  }

  lemma {:induction false} SlicesMakeLocal(b: seq<Byte>, crc: Word, size: int, nameLength: int)
    requires 0 <= size <= MAX32 && 0 <= nameLength <= MAX16 && |b| == 30
    requires b[0..4] == U32(LOCAL_SIGNATURE) && b[4..6] == U16(VERSION) && b[6..14] == Zeros(8)
    requires b[14..18] == U32(crc) && b[18..22] == U32(size) && b[22..26] == U32(size)
    requires b[26..28] == U16(nameLength) && b[28..30] == Zeros(2)
    ensures b == LocalHeader(crc, size, nameLength)
  {
    assert b == b[0..4] + b[4..6] + b[6..14] + b[14..18] + b[18..22] + b[22..26] + b[26..28] + b[28..30];
  }

  method MakeLocalHeader(crc: Word, size: int, nameLength: int) returns (r: Option<seq<Byte>>)
    ensures r.Some? <==> 0 <= size <= MAX32 && 0 <= nameLength <= MAX16
    ensures r.Some? ==> r.value == LocalHeader(crc, size, nameLength)
  {
    var local := Alloc(30);
    var _ := Write32(local, LOCAL_SIGNATURE, 0);
    var _ := Write16(local, VERSION, 4);
    var ok := WriteSizes(local, crc, size, 14);
    if !ok { return None; }
    ok := Write16(local, nameLength, 26);
    if !ok { return None; }
    SlicesMakeLocal(local[..], crc, size, nameLength);
    r := Some(local[..]);
  }

  method WriteCentralPrefix(buf: array<Byte>)
    requires buf.Length >= 8
    modifies buf
    ensures forall j :: 8 <= j < buf.Length ==> buf[j] == old(buf[j])
    ensures buf[..8] == CentralPrefix()
  {
    var _ := Write32(buf, CENTRAL_SIGNATURE, 0);
    var _ := Write16(buf, VERSION, 4);
    var _ := Write16(buf, VERSION, 6);
  }

  method WriteCentralStart(buf: array<Byte>, crc: Word, size: int, nameLength: int) returns (ok: bool)
    requires buf.Length >= 30 && forall j :: 0 <= j < 30 ==> buf[j] == 0
    modifies buf
    ensures ok == (0 <= size <= MAX32 && 0 <= nameLength <= MAX16)
    ensures forall j :: 30 <= j < buf.Length ==> buf[j] == old(buf[j])
    ensures ok ==> buf[..30] == CentralStart(crc, size, nameLength)
  {
    WriteCentralPrefix(buf);
    ok := WriteSizes(buf, crc, size, 16);
    if !ok { return; }
    ok := Write16(buf, nameLength, 28);
  }

  method MakeCentralHeader(crc: Word, size: int, nameLength: int, offset: int) returns (r: Option<seq<Byte>>)
    ensures r.Some? <==> 0 <= size <= MAX32 && 0 <= nameLength <= MAX16 && 0 <= offset <= MAX32
    ensures r.Some? ==> r.value == CentralHeader(crc, size, nameLength, offset)
  {
    var central := Alloc(46);
    var ok := WriteCentralStart(central, crc, size, nameLength);
    if !ok { return None; }
    ok := Write32(central, offset, 42);
    if !ok { return None; }
    r := Some(central[..]);
  }

  lemma {:induction false} SlicesMakeEnd(b: seq<Byte>, count: int, dirSize: int, dirOffset: int)
    requires 0 <= count <= MAX16 && 0 <= dirSize <= MAX32 && 0 <= dirOffset <= MAX32 && |b| == 22
    requires b[0..4] == U32(END_SIGNATURE) && b[4..8] == Zeros(4) && b[8..10] == U16(count) && b[10..12] == U16(count)
    requires b[12..16] == U32(dirSize) && b[16..20] == U32(dirOffset) && b[20..22] == Zeros(2)
    ensures b == EndRecord(count, dirSize, dirOffset)
  {
    assert b == b[0..4] + b[4..8] + b[8..10] + b[10..12] + b[12..16] + b[16..20] + b[20..22];
  }

  method MakeEndRecord(count: int, dirSize: int, dirOffset: int) returns (r: Option<seq<Byte>>)
    ensures r.Some? <==> 0 <= count <= MAX16 && 0 <= dirSize <= MAX32 && 0 <= dirOffset <= MAX32
    ensures r.Some? ==> r.value == EndRecord(count, dirSize, dirOffset)
  {
    var end := Alloc(22);
    var _ := Write32(end, END_SIGNATURE, 0);
    var ok := Write16(end, count, 8);
    if !ok { return None; }
    ok := Write16(end, count, 10);
    ok := Write32(end, dirSize, 12);
    if !ok { return None; }
    ok := Write32(end, dirOffset, 16);
    if !ok { return None; }
    SlicesMakeEnd(end[..], count, dirSize, dirOffset);
    r := Some(end[..]);
  }

  // --- The archive ----------------------------------------------------------------------

  predicate FileFits(f: File) { |f.name| <= MAX16 && |f.data| <= MAX32 }

  function LocalEntry(crc: Checksum, f: File): (r: seq<Byte>)
    requires FileFits(f)
    ensures |r| == LocalSize(f)
  {
    LocalHeader(crc(f.data), |f.data|, |f.name|) + f.name + f.data
  }

  function LocalSize(f: File): nat { 30 + |f.name| + |f.data| }

  function LocalsSize(files: seq<File>): nat {
    if files == [] then 0 else LocalsSize(files[..|files| - 1]) + LocalSize(files[|files| - 1])
  }

  function DirSize(files: seq<File>): nat {
    if files == [] then 0 else DirSize(files[..|files| - 1]) + 46 + |files[|files| - 1].name|
  }

  /** Every value that goes into a 16- or 32-bit field fits it. */
  predicate Fits(files: seq<File>) {
    && |files| <= MAX16
    && (forall k :: 0 <= k < |files| ==> FileFits(files[k]))
    && LocalsSize(files) <= MAX32 && DirSize(files) <= MAX32
  }

  /** The same, except for what only the end record holds. */
  predicate EntriesFit(files: seq<File>) {
    && (forall k :: 0 <= k < |files| ==> FileFits(files[k]))
    && (forall k :: 0 <= k < |files| ==> LocalsSize(files[..k]) <= MAX32)
  }

  /** The buffers laid end to end. */
  function Flat(parts: seq<seq<Byte>>): seq<Byte> {
    if parts == [] then [] else Flat(parts[..|parts| - 1]) + parts[|parts| - 1]
  }

  function LocalParts(crc: Checksum, files: seq<File>): seq<seq<Byte>>
    requires EntriesFit(files)
  {
    seq(|files|, k requires 0 <= k < |files| => LocalEntry(crc, files[k]))
  }

  function CentralEntry(crc: Checksum, f: File, offset: nat): (r: seq<Byte>)
    requires FileFits(f) && offset <= MAX32
    ensures |r| == 46 + |f.name|
  {
    CentralHeader(crc(f.data), |f.data|, |f.name|, offset) + f.name
  }

  function CentralParts(crc: Checksum, files: seq<File>): seq<seq<Byte>>
    requires EntriesFit(files)
  {
    seq(|files|, k requires 0 <= k < |files| => CentralEntry(crc, files[k], LocalsSize(files[..k])))
  }

  /** The local parts, the directory and what ends the archive. */
  function Laid(crc: Checksum, files: seq<File>, end: seq<Byte>): seq<Byte>
    requires EntriesFit(files)
  {
    Flat(LocalParts(crc, files)) + Flat(CentralParts(crc, files)) + end
  }

  function Archive(crc: Checksum, files: seq<File>): seq<Byte>
    requires Fits(files) && EntriesFit(files)
  {
    Laid(crc, files, EndRecord(|files|, DirSize(files), LocalsSize(files)))
  }

  lemma {:induction false} LocalsSizeMonotone(files: seq<File>, k: nat)
    requires k <= |files|
    ensures LocalsSize(files[..k]) <= LocalsSize(files)
  {
    if k < |files| {
      var front := files[..|files| - 1];
      LocalsSizeMonotone(front, k);
      assert front[..k] == files[..k];
    } else {
      assert files[..k] == files;
    }
  }

  lemma {:induction false} FitsIsEntriesFit(files: seq<File>)
    ensures Fits(files) <==>
      EntriesFit(files) && |files| <= MAX16 && LocalsSize(files) <= MAX32 && DirSize(files) <= MAX32
  {
    forall k | 0 <= k < |files| ensures LocalsSize(files[..k]) <= LocalsSize(files) { LocalsSizeMonotone(files, k); }
  }

  /** The first `i` entries are written. */
  ghost predicate Written(crc: Checksum, files: seq<File>, i: nat, locals: seq<seq<Byte>>, centrals: seq<seq<Byte>>,
      offset: nat) {
    && i <= |files| && EntriesFit(files[..i]) && offset == LocalsSize(files[..i])
    && locals == LocalParts(crc, files[..i]) && centrals == CentralParts(crc, files[..i])
  }

  lemma {:induction false} NothingWritten(crc: Checksum, files: seq<File>)
    ensures Written(crc, files, 0, [], [], 0)
  {
  }

  lemma {:induction false} WrittenNext(crc: Checksum, files: seq<File>, i: nat, locals: seq<seq<Byte>>,
      centrals: seq<seq<Byte>>, offset: nat)
    requires i < |files| && Written(crc, files, i, locals, centrals, offset) && FileFits(files[i]) && offset <= MAX32
    ensures Written(crc, files, i + 1, locals + [LocalEntry(crc, files[i])],
      centrals + [CentralEntry(crc, files[i], offset)], offset + LocalSize(files[i]))
  {
    EntriesFitSnoc(files, i);
    PartsSnoc(crc, files, i);
  }

  /** One turn of the loop; it fails where a field does not hold its value. */
  method WriteEntry(crc: Checksum, f: File, offset: nat) returns (r: Option<(seq<Byte>, seq<Byte>)>)
    ensures r.Some? <==> FileFits(f) && offset <= MAX32
    ensures r.Some? ==> r.value == (LocalEntry(crc, f), CentralEntry(crc, f, offset))
  {
    var local := MakeLocalHeader(crc(f.data), |f.data|, |f.name|);
    if local.None? { return None; }
    var central := MakeCentralHeader(crc(f.data), |f.data|, |f.name|, offset);
    if central.None? { return None; }
    return Some((local.value + f.name + f.data, central.value + f.name));
  }

  lemma {:induction false} UnfitEntry(files: seq<File>, i: nat)
    requires i < |files| && !(FileFits(files[i]) && LocalsSize(files[..i]) <= MAX32)
    ensures !Fits(files)
  {
    FitsIsEntriesFit(files);
  }

  /** The writer: an archive exactly when everything fits, otherwise the runtime throws. */
  method Store(crc: Checksum, files: seq<File>) returns (r: Option<seq<Byte>>)
    ensures r.Some? <==> Fits(files)
    ensures r.Some? ==> EntriesFit(files) && r.value == Archive(crc, files)
  {
    var locals, centrals: seq<seq<Byte>> := [], [];
    var offset: nat := 0;
    NothingWritten(crc, files);
    for i := 0 to |files|
      invariant Written(crc, files, i, locals, centrals, offset)
    {
      var entry := WriteEntry(crc, files[i], offset);
      if entry.None? {
        UnfitEntry(files, i);
        return None;
      }
      WrittenNext(crc, files, i, locals, centrals, offset);
      locals := locals + [entry.value.0];
      centrals := centrals + [entry.value.1];
      offset := offset + LocalSize(files[i]);
    }
    r := Close(crc, files, locals, centrals, offset);
  }

  /** The directory and the end record. */
  method Close(crc: Checksum, files: seq<File>, locals: seq<seq<Byte>>, centrals: seq<seq<Byte>>, offset: nat)
    returns (r: Option<seq<Byte>>)
    requires Written(crc, files, |files|, locals, centrals, offset)
    ensures r.Some? <==> Fits(files)
    ensures r.Some? ==> EntriesFit(files) && r.value == Archive(crc, files)
  {
    assert files[..|files|] == files;
    FitsIsEntriesFit(files);
    var dir := Flat(centrals);
    AllPartSizes(crc, files);
    var end := MakeEndRecord(|files|, |dir|, offset);
    if end.None? { return None; }
    return Some(Flat(locals) + dir + end.value);
  }

  lemma {:induction false} CentralPartsSnoc(crc: Checksum, files: seq<File>, i: nat)
    requires i < |files| && EntriesFit(files[..i + 1]) && EntriesFit(files[..i])
    requires FileFits(files[i]) && LocalsSize(files[..i]) <= MAX32
    ensures CentralParts(crc, files[..i + 1]) ==
            CentralParts(crc, files[..i]) + [CentralEntry(crc, files[i], LocalsSize(files[..i]))]
  {
    var more, fewer := CentralParts(crc, files[..i + 1]), CentralParts(crc, files[..i]);
    assert files[..i + 1][..i] == files[..i] && files[..i + 1][i] == files[i];
    forall k | 0 <= k < i ensures more[k] == fewer[k] {
      assert files[..i + 1][..k] == files[..i][..k] && files[..i + 1][k] == files[..i][k];
    }
  }

  lemma {:induction false} LocalPartsSnoc(crc: Checksum, files: seq<File>, i: nat)
    requires i < |files| && EntriesFit(files[..i + 1]) && EntriesFit(files[..i]) && FileFits(files[i])
    ensures LocalParts(crc, files[..i + 1]) == LocalParts(crc, files[..i]) + [LocalEntry(crc, files[i])]
  {
  }

  lemma {:induction false} PartsSnoc(crc: Checksum, files: seq<File>, i: nat)
    requires i < |files| && EntriesFit(files[..i + 1]) && EntriesFit(files[..i])
    requires FileFits(files[i]) && LocalsSize(files[..i]) <= MAX32
    ensures LocalsSize(files[..i + 1]) == LocalsSize(files[..i]) + LocalSize(files[i])
    ensures LocalParts(crc, files[..i + 1]) == LocalParts(crc, files[..i]) + [LocalEntry(crc, files[i])]
    ensures CentralParts(crc, files[..i + 1]) ==
            CentralParts(crc, files[..i]) + [CentralEntry(crc, files[i], LocalsSize(files[..i]))]
  {
    assert files[..i + 1][..i] == files[..i];
    LocalPartsSnoc(crc, files, i);
    CentralPartsSnoc(crc, files, i);
  }

  lemma {:induction false} EntriesFitSnoc(files: seq<File>, i: nat)
    requires i < |files| && EntriesFit(files[..i]) && FileFits(files[i]) && LocalsSize(files[..i]) <= MAX32
    ensures EntriesFit(files[..i + 1])
  {
    var g := files[..i + 1];
    forall k | 0 <= k < |g| ensures FileFits(g[k]) {
      if k < i { assert files[..i][k] == g[k]; }
    }
    forall k | 0 <= k < |g| ensures LocalsSize(g[..k]) <= MAX32 {
      assert g[..k] == files[..k];
      if k < i { assert files[..i][..k] == files[..k]; }
    }
  }

  lemma {:induction false} LocalSizesAdd(parts: seq<seq<Byte>>, files: seq<File>, k: nat)
    requires |parts| == |files| && k <= |files|
    requires forall i :: 0 <= i < |files| ==> |parts[i]| == LocalSize(files[i])
    ensures |Flat(parts[..k])| == LocalsSize(files[..k])
  {
    if k > 0 {
      LocalSizesAdd(parts, files, k - 1);
      assert parts[..k][..k - 1] == parts[..k - 1] && files[..k][..k - 1] == files[..k - 1];
    }
  }

  lemma {:induction false} CentralSizesAdd(parts: seq<seq<Byte>>, files: seq<File>, k: nat)
    requires |parts| == |files| && k <= |files|
    requires forall i :: 0 <= i < |files| ==> |parts[i]| == 46 + |files[i].name|
    ensures |Flat(parts[..k])| == DirSize(files[..k])
  {
    if k > 0 {
      CentralSizesAdd(parts, files, k - 1);
      assert parts[..k][..k - 1] == parts[..k - 1] && files[..k][..k - 1] == files[..k - 1];
    }
  }

  lemma {:induction false} PartLengths(crc: Checksum, files: seq<File>)
    requires EntriesFit(files)
    ensures forall i :: 0 <= i < |files| ==> |LocalParts(crc, files)[i]| == LocalSize(files[i])
    ensures forall i :: 0 <= i < |files| ==> |CentralParts(crc, files)[i]| == 46 + |files[i].name|
  {
  }

  lemma {:induction false} PartSizes(crc: Checksum, files: seq<File>, k: nat)
    requires EntriesFit(files) && k <= |files|
    ensures |Flat(LocalParts(crc, files)[..k])| == LocalsSize(files[..k])
    ensures |Flat(CentralParts(crc, files)[..k])| == DirSize(files[..k])
  {
    PartLengths(crc, files);
    LocalSizesAdd(LocalParts(crc, files), files, k);
    CentralSizesAdd(CentralParts(crc, files), files, k);
  }

  lemma {:induction false} AllPartSizes(crc: Checksum, files: seq<File>)
    requires EntriesFit(files)
    ensures |Flat(LocalParts(crc, files))| == LocalsSize(files)
    ensures |Flat(CentralParts(crc, files))| == DirSize(files)
  {
    PartSizes(crc, files, |files|);
    assert LocalParts(crc, files)[..|files|] == LocalParts(crc, files) && files[..|files|] == files;
    assert CentralParts(crc, files)[..|files|] == CentralParts(crc, files);
  }

  // --- The reader -------------------------------------------------------------------------

  /** What a reader of version 2.0 of the format can extract by copying: no encryption, no data
      descriptor, no compression. */
  predicate Plain(version: nat, flags: nat, compression: nat) {
    10 <= version <= 20 && flags == 0 && compression == 0
  }

  /** The stored file behind a local header, checked against the directory entry. */
  function ReadLocal(crc: Checksum, b: seq<Byte>, at: nat, name: seq<Byte>, size: nat, sum: nat): Option<File> {
    if at + 30 > |b| || Read32(b, at) != 0x04034b50 then None
    else if !Plain(Read16(b, at + 4), Read16(b, at + 6), Read16(b, at + 8)) then None
    else
      var nameAt := at + 30;
      var dataAt := nameAt + Read16(b, at + 26) + Read16(b, at + 28);
      if Read32(b, at + 14) != sum || Read32(b, at + 18) != size || Read32(b, at + 22) != size then None
      else if dataAt + size > |b| || b[nameAt..nameAt + Read16(b, at + 26)] != name then None
      else
        var data := b[dataAt..dataAt + size];
        if crc(data) != sum then None else Some(File(name, data))
  }

  /** One directory entry: checksum, size, name, local offset, and where the next one starts. */
  datatype Entry = Entry(sum: nat, size: nat, name: seq<Byte>, offset: nat, next: nat)

  /** Refuses what is not stored: anything but method 0, or two sizes that differ. */
  function ParseEntry(b: seq<Byte>, at: nat): Option<Entry> {
    if at + 46 > |b| || Read32(b, at) != 0x02014b50 then None
    else if !Plain(Read16(b, at + 6), Read16(b, at + 8), Read16(b, at + 10)) then None
    else if Read32(b, at + 20) != Read32(b, at + 24) || Read16(b, at + 34) != 0 then None
    else
      var nameEnd := at + 46 + Read16(b, at + 28);
      if nameEnd > |b| then None
      else Some(Entry(Read32(b, at + 16), Read32(b, at + 20), b[at + 46..nameEnd], Read32(b, at + 42),
                      nameEnd + Read16(b, at + 30) + Read16(b, at + 32)))
  }

  /** The file an entry leads to and where the next entry starts. */
  function ReadEntry(crc: Checksum, b: seq<Byte>, at: nat): Option<(File, nat)> {
    var entry := ParseEntry(b, at);
    if entry.None? then None
    else
      var e := entry.value;
      var file := ReadLocal(crc, b, e.offset, e.name, e.size, e.sum);
      if file.None? then None else Some((file.value, e.next))
  }

  type Reader = nat -> Option<(File, nat)>

  function EntryReader(crc: Checksum, b: seq<Byte>): Reader {
    (at: nat) => ReadEntry(crc, b, at)
  }

  /** Walk `count` directory entries from `at`; they must end exactly at `limit`. */
  function ReadDirectory(read: Reader, at: nat, count: nat, limit: nat): Option<seq<File>>
    decreases count
  {
    if count == 0 then if at == limit then Some([]) else None
    else
      var entry := read(at);
      if entry.None? then None
      else
        var rest := ReadDirectory(read, entry.value.1, count - 1, limit);
        if rest.None? then None else Some([entry.value.0] + rest.value)
  }

  /** The end record: entry count, directory size and directory offset. */
  function ParseEnd(b: seq<Byte>, at: nat): Option<(nat, nat, nat)>
    requires at + 22 <= |b|
  {
    if Read32(b, at) != 0x06054b50 || Read16(b, at + 4) != 0 || Read16(b, at + 6) != 0 then None
    else if Read16(b, at + 20) != 0 || Read16(b, at + 8) != Read16(b, at + 10) then None
    else Some((Read16(b, at + 10), Read32(b, at + 12), Read32(b, at + 16)))
  }

  /** Start from the end-of-central-directory record, without a comment. */
  function ReadArchiveWith(read: Reader, b: seq<Byte>): Option<seq<File>> {
    var at := |b| - 22;
    if at < 0 then None
    else
      var end := ParseEnd(b, at);
      if end.None? || end.value.2 + end.value.1 != at then None
      else ReadDirectory(read, end.value.2, end.value.0, at)
  }

  function ReadArchive(crc: Checksum, b: seq<Byte>): Option<seq<File>> {
    ReadArchiveWith(EntryReader(crc, b), b)
  }

  // --- Reading back -----------------------------------------------------------------------

  /** `piece` sits in `b` at `at`. */
  ghost predicate Holds(b: seq<Byte>, at: nat, piece: seq<Byte>) {
    at + |piece| <= |b| && b[at..at + |piece|] == piece
  }

  lemma {:induction false} HoldsPart(b: seq<Byte>, at: nat, before: seq<Byte>, piece: seq<Byte>, after: seq<Byte>)
    requires Holds(b, at, before + piece + after)
    ensures Holds(b, at + |before|, piece)
  {
    var whole := before + piece + after;
    forall k | 0 <= k < |piece| ensures b[at + |before| + k] == piece[k] {
      assert b[at..at + |whole|][|before| + k] == whole[|before| + k] == piece[k];
    }
  }

  lemma {:induction false} Holds16(b: seq<Byte>, at: nat, v: int)
    requires 0 <= v <= MAX16 && Holds(b, at, U16(v))
    ensures Read16(b, at) == v
  {
    Read16Back(v);
    var s := b[at..at + 2];
    assert s[0] == b[at] && s[1] == b[at + 1];
  }

  lemma {:induction false} Holds32(b: seq<Byte>, at: nat, v: int)
    requires 0 <= v <= MAX32 && Holds(b, at, U32(v))
    ensures Read32(b, at) == v
  {
    Read32Back(v);
    var s := b[at..at + 4];
    assert s[0] == b[at] && s[1] == b[at + 1] && s[2] == b[at + 2] && s[3] == b[at + 3];
  }

  /** A field of a record that sits in the archive. */
  lemma {:induction false} Field16(b: seq<Byte>, at: nat, h: seq<Byte>, k: nat, v: int)
    requires 0 <= v <= MAX16 && Holds(b, at, h) && k + 2 <= |h| && h[k..k + 2] == U16(v)
    ensures Read16(b, at + k) == v
  {
    assert h == h[..k] + h[k..k + 2] + h[k + 2..];
    HoldsPart(b, at, h[..k], h[k..k + 2], h[k + 2..]);
    Holds16(b, at + k, v);
  }

  lemma {:induction false} Field32(b: seq<Byte>, at: nat, h: seq<Byte>, k: nat, v: int)
    requires 0 <= v <= MAX32 && Holds(b, at, h) && k + 4 <= |h| && h[k..k + 4] == U32(v)
    ensures Read32(b, at + k) == v
  {
    assert h == h[..k] + h[k..k + 4] + h[k + 4..];
    HoldsPart(b, at, h[..k], h[k..k + 4], h[k + 4..]);
    Holds32(b, at + k, v);
  }

  lemma {:induction false} LocalHeaderParts(crc: Word, size: int, nameLength: int)
    requires 0 <= size <= MAX32 && 0 <= nameLength <= MAX16
    ensures var h := LocalHeader(crc, size, nameLength);
      && h[0..4] == U32(LOCAL_SIGNATURE) && h[4..6] == U16(20) && h[6..8] == U16(0) && h[8..10] == U16(0)
      && h[10..14] == U32(0) && h[14..18] == U32(crc) && h[18..22] == U32(size) && h[22..26] == U32(size)
      && h[26..28] == U16(nameLength) && h[28..30] == U16(0)
  {
  }

  /** A local header, field by field, at the offsets of section 4.3.7. */
  lemma {:induction false} LocalFields(b: seq<Byte>, at: nat, crc: Word, size: int, nameLength: int)
    requires 0 <= size <= MAX32 && 0 <= nameLength <= MAX16
    requires Holds(b, at, LocalHeader(crc, size, nameLength))
    ensures Read32(b, at) == 0x04034b50
    ensures Read16(b, at + 4) == 20 && Read16(b, at + 6) == 0 && Read16(b, at + 8) == 0 && Read32(b, at + 10) == 0
    ensures Read32(b, at + 14) == crc && Read32(b, at + 18) == size && Read32(b, at + 22) == size
    ensures Read16(b, at + 26) == nameLength && Read16(b, at + 28) == 0
  {
    var h := LocalHeader(crc, size, nameLength);
    LocalHeaderParts(crc, size, nameLength);
    Field32(b, at, h, 0, LOCAL_SIGNATURE);
    Field16(b, at, h, 4, 20);
    Field16(b, at, h, 6, 0);
    Field16(b, at, h, 8, 0);
    Field32(b, at, h, 10, 0);
    Field32(b, at, h, 14, crc);
    Field32(b, at, h, 18, size);
    Field32(b, at, h, 22, size);
    Field16(b, at, h, 26, nameLength);
    Field16(b, at, h, 28, 0);
  }

  lemma {:induction false} CentralStartParts(crc: Word, size: int, nameLength: int)
    requires 0 <= size <= MAX32 && 0 <= nameLength <= MAX16
    ensures var h := CentralStart(crc, size, nameLength);
      && h[0..4] == U32(CENTRAL_SIGNATURE) && h[4..6] == U16(20) && h[6..8] == U16(20)
      && h[8..10] == U16(0) && h[10..12] == U16(0) && h[12..16] == U32(0)
      && h[16..20] == U32(crc) && h[20..24] == U32(size) && h[24..28] == U32(size) && h[28..30] == U16(nameLength)
  {
    var p := CentralPrefix();
    assert p[0..4] == U32(CENTRAL_SIGNATURE) && p[4..6] == U16(20) && p[6..8] == U16(20);
  }

  /** The first half of a directory entry, field by field, at the offsets of section 4.3.12. */
  lemma {:induction false} CentralStartFields(b: seq<Byte>, at: nat, crc: Word, size: int, nameLength: int)
    requires 0 <= size <= MAX32 && 0 <= nameLength <= MAX16
    requires Holds(b, at, CentralStart(crc, size, nameLength))
    ensures Read32(b, at) == 0x02014b50 && Read16(b, at + 4) == 20 && Read16(b, at + 6) == 20
    ensures Read16(b, at + 8) == 0 && Read16(b, at + 10) == 0 && Read32(b, at + 12) == 0
    ensures Read32(b, at + 16) == crc && Read32(b, at + 20) == size && Read32(b, at + 24) == size
    ensures Read16(b, at + 28) == nameLength
  {
    var h := CentralStart(crc, size, nameLength);
    CentralStartParts(crc, size, nameLength);
    Field32(b, at, h, 0, CENTRAL_SIGNATURE);
    Field16(b, at, h, 4, 20);
    Field16(b, at, h, 6, 20);
    Field16(b, at, h, 8, 0);
    Field16(b, at, h, 10, 0);
    Field32(b, at, h, 12, 0);
    Field32(b, at, h, 16, crc);
    Field32(b, at, h, 20, size);
    Field32(b, at, h, 24, size);
    Field16(b, at, h, 28, nameLength);
  }

  lemma {:induction false} CentralRestParts(offset: int)
    requires 0 <= offset <= MAX32
    ensures var h := Zeros(12) + U32(offset);
      && h[0..2] == U16(0) && h[2..4] == U16(0) && h[4..6] == U16(0) && h[6..8] == U16(0) && h[8..12] == U32(0)
      && h[12..16] == U32(offset)
  {
  }

  /** The second half: no extra field, no comment, disk 0, no attributes, and the local offset. */
  lemma {:induction false} CentralRestFields(b: seq<Byte>, at: nat, offset: int)
    requires 0 <= offset <= MAX32 && Holds(b, at, Zeros(12) + U32(offset))
    ensures Read16(b, at) == 0 && Read16(b, at + 2) == 0 && Read16(b, at + 4) == 0 && Read16(b, at + 6) == 0
    ensures Read32(b, at + 8) == 0 && Read32(b, at + 12) == offset
  {
    var h := Zeros(12) + U32(offset);
    CentralRestParts(offset);
    Field16(b, at, h, 0, 0);
    Field16(b, at, h, 2, 0);
    Field16(b, at, h, 4, 0);
    Field16(b, at, h, 6, 0);
    Field32(b, at, h, 8, 0);
    Field32(b, at, h, 12, offset);
  }

  /** A directory entry, half by half. */
  lemma {:induction false} CentralHalves(b: seq<Byte>, at: nat, crc: Word, size: int, nameLength: int, offset: int)
    requires 0 <= size <= MAX32 && 0 <= nameLength <= MAX16 && 0 <= offset <= MAX32
    requires Holds(b, at, CentralHeader(crc, size, nameLength, offset))
    ensures Holds(b, at, CentralStart(crc, size, nameLength)) && Holds(b, at + 30, Zeros(12) + U32(offset))
  {
    var x, y := CentralStart(crc, size, nameLength), Zeros(12) + U32(offset);
    assert CentralHeader(crc, size, nameLength, offset) == [] + x + y;
    HoldsPart(b, at, [], x, y);
    assert CentralHeader(crc, size, nameLength, offset) == x + y + [];
    HoldsPart(b, at, x, y, []);
  }

  lemma {:induction false} EndRecordParts(count: int, dirSize: int, dirOffset: int)
    requires 0 <= count <= MAX16 && 0 <= dirSize <= MAX32 && 0 <= dirOffset <= MAX32
    ensures var h := EndRecord(count, dirSize, dirOffset);
      && h[0..4] == U32(END_SIGNATURE) && h[4..6] == U16(0) && h[6..8] == U16(0)
      && h[8..10] == U16(count) && h[10..12] == U16(count)
      && h[12..16] == U32(dirSize) && h[16..20] == U32(dirOffset) && h[20..22] == U16(0)
  {
  }

  /** The end record, field by field, at the offsets of section 4.3.16. */
  lemma {:induction false} EndFields(b: seq<Byte>, at: nat, count: int, dirSize: int, dirOffset: int)
    requires 0 <= count <= MAX16 && 0 <= dirSize <= MAX32 && 0 <= dirOffset <= MAX32
    requires Holds(b, at, EndRecord(count, dirSize, dirOffset))
    ensures Read32(b, at) == 0x06054b50 && Read16(b, at + 4) == 0 && Read16(b, at + 6) == 0
    ensures Read16(b, at + 8) == count && Read16(b, at + 10) == count
    ensures Read32(b, at + 12) == dirSize && Read32(b, at + 16) == dirOffset && Read16(b, at + 20) == 0
  {
    var h := EndRecord(count, dirSize, dirOffset);
    EndRecordParts(count, dirSize, dirOffset);
    Field32(b, at, h, 0, END_SIGNATURE);
    Field16(b, at, h, 4, 0);
    Field16(b, at, h, 6, 0);
    Field16(b, at, h, 8, count);
    Field16(b, at, h, 10, count);
    Field32(b, at, h, 12, dirSize);
    Field32(b, at, h, 16, dirOffset);
    Field16(b, at, h, 20, 0);
  }

  lemma {:induction false} ParseEndBack(b: seq<Byte>, at: nat, count: int, dirSize: int, dirOffset: int)
    requires 0 <= count <= MAX16 && 0 <= dirSize <= MAX32 && 0 <= dirOffset <= MAX32
    requires Holds(b, at, EndRecord(count, dirSize, dirOffset))
    ensures ParseEnd(b, at) == Some((count, dirSize, dirOffset))
  {
    EndFields(b, at, count, dirSize, dirOffset);
  }

  /** Every buffer sits where the ones before it end. */
  lemma {:induction false} FlatHolds(parts: seq<seq<Byte>>, k: nat)
    requires k < |parts|
    ensures Holds(Flat(parts), |Flat(parts[..k])|, parts[k])
  {
    var front := parts[..|parts| - 1];
    if k < |front| {
      FlatHolds(front, k);
      assert front[..k] == parts[..k];
    }
  }

  /** What holds in the first or the second of three parts holds in the whole. */
  lemma {:induction false} HoldsExtend(x: seq<Byte>, y: seq<Byte>, z: seq<Byte>, at: nat, piece: seq<Byte>)
    ensures Holds(x, at, piece) ==> Holds(x + y + z, at, piece)
    ensures Holds(y, at, piece) ==> Holds(x + y + z, |x| + at, piece)
  {
    var all := x + y + z;
    if Holds(x, at, piece) { assert all[at..at + |piece|] == x[at..at + |piece|]; }
    if Holds(y, at, piece) { assert all[|x| + at..|x| + at + |piece|] == y[at..at + |piece|]; }
  }

  lemma {:induction false} HoldsThree(b: seq<Byte>, at: nat, x: seq<Byte>, y: seq<Byte>, z: seq<Byte>)
    requires Holds(b, at, x + y + z)
    ensures Holds(b, at, x) && Holds(b, at + |x|, y) && Holds(b, at + |x| + |y|, z)
  {
    assert x + y + z == [] + x + (y + z) && x + y + z == (x + y) + z + [];
    HoldsPart(b, at, [], x, y + z);
    HoldsPart(b, at, x, y, z);
    HoldsPart(b, at, x + y, z, []);
  }

  lemma {:induction false} ReadLocalFrom(crc: Checksum, b: seq<Byte>, at: nat, f: File)
    requires at + 30 <= |b| && Read32(b, at) == 0x04034b50
    requires Plain(Read16(b, at + 4), Read16(b, at + 6), Read16(b, at + 8))
    requires Read32(b, at + 14) == crc(f.data) && Read32(b, at + 18) == |f.data| == Read32(b, at + 22)
    requires Read16(b, at + 26) == |f.name| && Read16(b, at + 28) == 0
    requires Holds(b, at + 30, f.name) && Holds(b, at + 30 + |f.name|, f.data)
    ensures ReadLocal(crc, b, at, f.name, |f.data|, crc(f.data)) == Some(f)
  {
  }

  lemma {:induction false} ReadLocalBack(crc: Checksum, b: seq<Byte>, at: nat, f: File)
    requires FileFits(f) && Holds(b, at, LocalEntry(crc, f))
    ensures ReadLocal(crc, b, at, f.name, |f.data|, crc(f.data)) == Some(f)
  {
    var header := LocalHeader(crc(f.data), |f.data|, |f.name|);
    HoldsThree(b, at, header, f.name, f.data);
    LocalFields(b, at, crc(f.data), |f.data|, |f.name|);
    ReadLocalFrom(crc, b, at, f);
  }

  lemma {:induction false} ParseEntryFrom(b: seq<Byte>, at: nat, sum: nat, size: nat, name: seq<Byte>, offset: nat)
    requires at + 46 <= |b| && Read32(b, at) == 0x02014b50
    requires Plain(Read16(b, at + 6), Read16(b, at + 8), Read16(b, at + 10))
    requires Read32(b, at + 16) == sum && Read32(b, at + 20) == size == Read32(b, at + 24)
    requires Read16(b, at + 28) == |name| && Read16(b, at + 30) == 0 == Read16(b, at + 32)
    requires Read16(b, at + 34) == 0 && Read32(b, at + 42) == offset && Holds(b, at + 46, name)
    ensures ParseEntry(b, at) == Some(Entry(sum, size, name, offset, at + 46 + |name|))
  {
  }

  lemma {:induction false} ParseEntryBack(crc: Checksum, b: seq<Byte>, at: nat, f: File, offset: nat)
    requires FileFits(f) && offset <= MAX32 && Holds(b, at, CentralEntry(crc, f, offset))
    ensures ParseEntry(b, at) == Some(Entry(crc(f.data), |f.data|, f.name, offset, at + 46 + |f.name|))
  {
    var header := CentralHeader(crc(f.data), |f.data|, |f.name|, offset);
    assert CentralEntry(crc, f, offset) == [] + header + f.name;
    HoldsPart(b, at, [], header, f.name);
    assert CentralEntry(crc, f, offset) == header + f.name + [];
    HoldsPart(b, at, header, f.name, []);
    CentralHalves(b, at, crc(f.data), |f.data|, |f.name|, offset);
    CentralStartFields(b, at, crc(f.data), |f.data|, |f.name|);
    CentralRestFields(b, at + 30, offset);
    ParseEntryFrom(b, at, crc(f.data), |f.data|, f.name, offset);
  }

  lemma {:induction false} ReadEntryFrom(crc: Checksum, b: seq<Byte>, at: nat, e: Entry, f: File)
    requires ParseEntry(b, at) == Some(e) && ReadLocal(crc, b, e.offset, e.name, e.size, e.sum) == Some(f)
    ensures ReadEntry(crc, b, at) == Some((f, e.next))
  {
  }

  /** Buffers laid end to end, first the local ones, then the directory. */
  lemma {:induction false} LaidOutHolds(locals: seq<seq<Byte>>, centrals: seq<seq<Byte>>, end: seq<Byte>, k: nat)
    requires k < |locals| == |centrals|
    ensures var b := Flat(locals) + Flat(centrals) + end;
      && Holds(b, |Flat(locals[..k])|, locals[k])
      && Holds(b, |Flat(locals)| + |Flat(centrals[..k])|, centrals[k])
  {
    FlatHolds(locals, k);
    FlatHolds(centrals, k);
    HoldsExtend(Flat(locals), Flat(centrals), end, |Flat(locals[..k])|, locals[k]);
    HoldsExtend(Flat(locals), Flat(centrals), end, |Flat(centrals[..k])|, centrals[k]);
  }

  /** Where entry `k` of the directory starts. */
  function EntryAt(files: seq<File>, k: nat): nat
    requires k <= |files|
  {
    LocalsSize(files) + DirSize(files[..k])
  }

  /** Entry `k` leads to file `k` and on to entry `k + 1`. */
  ghost predicate Gives(read: Reader, files: seq<File>, k: nat)
    requires k < |files|
  {
    read(EntryAt(files, k)) == Some((files[k], EntryAt(files, k + 1)))
  }

  lemma {:induction false} EntryStep(files: seq<File>, k: nat)
    requires k < |files|
    ensures EntryAt(files, k + 1) == EntryAt(files, k) + 46 + |files[k].name|
  {
    assert files[..k + 1][..k] == files[..k];
  }

  lemma {:induction false} PartsAt(crc: Checksum, files: seq<File>, k: nat)
    requires EntriesFit(files) && k < |files|
    ensures k < |LocalParts(crc, files)| == |CentralParts(crc, files)|
    ensures LocalParts(crc, files)[k] == LocalEntry(crc, files[k])
    ensures CentralParts(crc, files)[k] == CentralEntry(crc, files[k], LocalsSize(files[..k]))
  {
  }

  lemma {:induction false} LaidOutAt(locals: seq<seq<Byte>>, centrals: seq<seq<Byte>>, end: seq<Byte>, k: nat,
      localAt: nat, centralAt: nat, local: seq<Byte>, central: seq<Byte>)
    requires k < |locals| == |centrals| && locals[k] == local && centrals[k] == central
    requires localAt == |Flat(locals[..k])| && centralAt == |Flat(locals)| + |Flat(centrals[..k])|
    ensures Holds(Flat(locals) + Flat(centrals) + end, localAt, local)
    ensures Holds(Flat(locals) + Flat(centrals) + end, centralAt, central)
  {
    LaidOutHolds(locals, centrals, end, k);
  }

  lemma {:induction false} ArchiveHoldsParts(crc: Checksum, files: seq<File>, end: seq<Byte>, k: nat,
      local: seq<Byte>, central: seq<Byte>)
    requires EntriesFit(files) && k < |files|
    requires local == LocalParts(crc, files)[k] && central == CentralParts(crc, files)[k]
    ensures Holds(Laid(crc, files, end), LocalsSize(files[..k]), local)
    ensures Holds(Laid(crc, files, end), EntryAt(files, k), central)
  {
    PartSizes(crc, files, k);
    AllPartSizes(crc, files);
    LaidOutAt(LocalParts(crc, files), CentralParts(crc, files), end, k, LocalsSize(files[..k]), EntryAt(files, k),
      local, central);
  }

  /** What the directory says of file `k`. */
  function EntryOf(crc: Checksum, files: seq<File>, k: nat): Entry
    requires k < |files|
  {
    var f := files[k];
    Entry(crc(f.data), |f.data|, f.name, LocalsSize(files[..k]), EntryAt(files, k) + 46 + |f.name|)
  }

  lemma {:induction false} HeldParses(crc: Checksum, files: seq<File>, b: seq<Byte>, k: nat)
    requires EntriesFit(files) && k < |files|
    requires Holds(b, EntryAt(files, k), CentralEntry(crc, files[k], LocalsSize(files[..k])))
    ensures ParseEntry(b, EntryAt(files, k)) == Some(EntryOf(crc, files, k))
  {
    ParseEntryBack(crc, b, EntryAt(files, k), files[k], LocalsSize(files[..k]));
  }

  lemma {:induction false} ArchiveParses(crc: Checksum, files: seq<File>, end: seq<Byte>, k: nat)
    requires EntriesFit(files) && k < |files|
    ensures ParseEntry(Laid(crc, files, end), EntryAt(files, k)) == Some(EntryOf(crc, files, k))
  {
    PartsAt(crc, files, k);
    ArchiveHoldsParts(crc, files, end, k, LocalParts(crc, files)[k], CentralParts(crc, files)[k]);
    HeldParses(crc, files, Laid(crc, files, end), k);
  }

  lemma {:induction false} ArchiveReadsLocal(crc: Checksum, files: seq<File>, end: seq<Byte>, k: nat)
    requires EntriesFit(files) && k < |files|
    ensures var e := EntryOf(crc, files, k);
      ReadLocal(crc, Laid(crc, files, end), e.offset, e.name, e.size, e.sum) == Some(files[k])
  {
    PartsAt(crc, files, k);
    ArchiveHoldsParts(crc, files, end, k, LocalParts(crc, files)[k], CentralParts(crc, files)[k]);
    ReadLocalBack(crc, Laid(crc, files, end), LocalsSize(files[..k]), files[k]);
  }

  lemma {:induction false} ReadGives(crc: Checksum, files: seq<File>, b: seq<Byte>, k: nat)
    requires k < |files| && ParseEntry(b, EntryAt(files, k)) == Some(EntryOf(crc, files, k))
    requires var e := EntryOf(crc, files, k); ReadLocal(crc, b, e.offset, e.name, e.size, e.sum) == Some(files[k])
    ensures Gives(EntryReader(crc, b), files, k)
  {
    ReadEntryFrom(crc, b, EntryAt(files, k), EntryOf(crc, files, k), files[k]);
    EntryStep(files, k);
  }

  lemma {:induction false} ArchiveGives(crc: Checksum, files: seq<File>, end: seq<Byte>, k: nat)
    requires EntriesFit(files) && k < |files|
    ensures Gives(EntryReader(crc, Laid(crc, files, end)), files, k)
  {
    ArchiveParses(crc, files, end, k);
    ArchiveReadsLocal(crc, files, end, k);
    ReadGives(crc, files, Laid(crc, files, end), k);
  }

  /** Reading the directory from entry `j` on gives the files from `j` on. */
  lemma {:induction false} ReadDirectoryBack(read: Reader, files: seq<File>, j: nat)
    requires j <= |files|
    requires forall k :: 0 <= k < |files| ==> Gives(read, files, k)
    ensures ReadDirectory(read, EntryAt(files, j), |files| - j, EntryAt(files, |files|)) == Some(files[j..])
    decreases |files| - j
  {
    if j < |files| {
      assert Gives(read, files, j);
      ReadDirectoryBack(read, files, j + 1);
      assert files[j..] == [files[j]] + files[j + 1..];
    }
  }

  lemma {:induction false} EntryEnds(files: seq<File>)
    ensures EntryAt(files, 0) == LocalsSize(files)
    ensures EntryAt(files, |files|) == LocalsSize(files) + DirSize(files)
  {
    assert files[..0] == [] && files[..|files|] == files;
  }

  lemma {:induction false} LaidEnds(crc: Checksum, files: seq<File>, end: seq<Byte>)
    requires EntriesFit(files)
    ensures |Laid(crc, files, end)| == LocalsSize(files) + DirSize(files) + |end|
    ensures Holds(Laid(crc, files, end), LocalsSize(files) + DirSize(files), end)
  {
    AllPartSizes(crc, files);
  }

  lemma {:induction false} ArchiveEnd(crc: Checksum, files: seq<File>, b: seq<Byte>, end: seq<Byte>)
    requires Fits(files) && EntriesFit(files) && b == Laid(crc, files, end)
    requires end == EndRecord(|files|, DirSize(files), LocalsSize(files))
    ensures |b| == LocalsSize(files) + DirSize(files) + 22
    ensures ParseEnd(b, |b| - 22) == Some((|files|, DirSize(files), LocalsSize(files)))
  {
    var count, dirSize, dirOffset := |files|, DirSize(files), LocalsSize(files);
    LaidEnds(crc, files, end);
    ParseEndBack(b, dirOffset + dirSize, count, dirSize, dirOffset);
  }

  lemma {:induction false} ReadFromEnd(read: Reader, files: seq<File>, b: seq<Byte>)
    requires |b| == LocalsSize(files) + DirSize(files) + 22
    requires ParseEnd(b, |b| - 22) == Some((|files|, DirSize(files), LocalsSize(files)))
    requires forall k :: 0 <= k < |files| ==> Gives(read, files, k)
    ensures ReadArchiveWith(read, b) == Some(files)
  {
    EntryEnds(files);
    ReadDirectoryBack(read, files, 0);
    assert files[0..] == files;
  }

  lemma {:induction false} ArchiveGivesAll(crc: Checksum, files: seq<File>, b: seq<Byte>)
    requires Fits(files) && EntriesFit(files) && b == Archive(crc, files)
    ensures forall k :: 0 <= k < |files| ==> Gives(EntryReader(crc, b), files, k)
  {
    forall k | 0 <= k < |files| ensures Gives(EntryReader(crc, b), files, k) {
      ArchiveGives(crc, files, EndRecord(|files|, DirSize(files), LocalsSize(files)), k);
    }
  }

  /** Round trip: a reader that starts at the end record, walks the directory and follows every
      local offset gets back exactly the files, in order. */
  lemma {:induction false} RoundTrip(crc: Checksum, files: seq<File>)
    requires Fits(files)
    ensures EntriesFit(files) && ReadArchive(crc, Archive(crc, files)) == Some(files)
  {
    FitsIsEntriesFit(files);
    var b := Archive(crc, files);
    ArchiveEnd(crc, files, b, EndRecord(|files|, DirSize(files), LocalsSize(files)));
    ArchiveGivesAll(crc, files, b);
    ReadFromEnd(EntryReader(crc, b), files, b);
  }
}
