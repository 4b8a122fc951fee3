/** The .zip writer of the diagnostic bundle (app/src/core/src/zip.rs), and a reader of the format of section
    4.3 of PKWARE APPNOTE.TXT it is proved against. */
module Zip {
  import opened Options
  import opened Bytes

  const UTF8: u16 := 0x0800
  const VERSION: u16 := 20
  const LOCAL: u32 := 0x0403_4b50
  const CENTRAL: u32 := 0x0201_4b50
  const END: u32 := 0x0605_4b50

  /** The compressor and checksum, which are libraries. A failed deflate gives no bytes. */
  datatype Codec = Codec(deflate: seq<byte> -> seq<byte>, inflate: seq<byte> -> seq<byte>, crc: seq<byte> -> u32)

  ghost predicate Undoes(c: Codec) {
    forall d: seq<byte> :: c.deflate(d) != [] ==> c.inflate(c.deflate(d)) == d
  }

  datatype File = File(name: seq<byte>, data: seq<byte>)

  // ---- Writing ----

  /** The fields a local and a central header share. */
  datatype Meta = Meta(
    version: u16, flags: u16, method_: u16, time: u16, date: u16,
    crc: u32, packed: u32, size: u32, nameLen: u16, extraLen: u16)

  datatype Entry = Entry(name: seq<byte>, method_: u16, crc: u32, packed: u32, size: u32, offset: u32)

  function As16(n: nat): u16 { n % 0x1_0000 }

  function As32(n: nat): u32 { n % 0x1_0000_0000 }

  predicate Packs(c: Codec, data: seq<byte>) { c.deflate(data) != [] && |c.deflate(data)| < |data| }

  /** Stored when deflate does not help. */
  function Body(c: Codec, data: seq<byte>): seq<byte> { if Packs(c, data) then c.deflate(data) else data }

  function EntryOf(c: Codec, f: File, offset: nat): Entry {
    Entry(f.name, if Packs(c, f.data) then 8 else 0, c.crc(f.data),
          As32(|Body(c, f.data)|), As32(|f.data|), As32(offset))
  }

  function MetaOf(e: Entry, dos: (u16, u16)): Meta {
    Meta(VERSION, UTF8, e.method_, dos.0, dos.1, e.crc, e.packed, e.size, As16(|e.name|), 0)
  }

  function MetaBytes(m: Meta): (s: seq<byte>)
    ensures |s| == 26
  {
    (Put16(m.version) + Put16(m.flags) + Put16(m.method_) + Put16(m.time) + Put16(m.date))
    + (Put32(m.crc) + Put32(m.packed) + Put32(m.size) + Put16(m.nameLen) + Put16(m.extraLen))
  }

  function LocalBytes(e: Entry, dos: (u16, u16), body: seq<byte>): seq<byte> {
    Put32(LOCAL) + MetaBytes(MetaOf(e, dos)) + e.name + body
  }

  function CentralBytes(e: Entry, dos: (u16, u16)): seq<byte> {
    Put32(CENTRAL) + Put16(VERSION) + MetaBytes(MetaOf(e, dos))
    + (Put16(0) + Put16(0) + Put16(0) + Put32(0) + Put32(e.offset)) + e.name
  }

  function EndBytes(n: u16, size: u32, start: u32): (s: seq<byte>)
    ensures |s| == 22
  {
    Put32(END) + Put16(0) + Put16(0) + Put16(n) + Put16(n) + Put32(size) + Put32(start) + Put16(0)
  }

  function Locals(c: Codec, dos: (u16, u16), files: seq<File>): seq<byte> {
    if files == [] then []
    else
      var front, f := files[..|files| - 1], files[|files| - 1];
      var before := Locals(c, dos, front);
      before + LocalBytes(EntryOf(c, f, |before|), dos, Body(c, f.data))
  }

  function Entries(c: Codec, dos: (u16, u16), files: seq<File>): (es: seq<Entry>)
    ensures |es| == |files|
  {
    if files == [] then []
    else
      var front, f := files[..|files| - 1], files[|files| - 1];
      Entries(c, dos, front) + [EntryOf(c, f, |Locals(c, dos, front)|)]
  }

  function Directory(dos: (u16, u16), es: seq<Entry>): seq<byte> {
    if es == [] then [] else Directory(dos, es[..|es| - 1]) + CentralBytes(es[|es| - 1], dos)
  }

  function Archive(c: Codec, dos: (u16, u16), files: seq<File>): seq<byte> {
    var locals := Locals(c, dos, files);
    var directory := Directory(dos, Entries(c, dos, files));
    var start := As32(|locals|);
    locals + directory
    + EndBytes(As16(|files|), (As32(|locals| + |directory|) - start) % 0x1_0000_0000, start)
  }

  // ---- Reading ----

  datatype Local = Local(meta: Meta, name: seq<byte>, body: seq<byte>)

  /** An entry as a reader finds it. */
  datatype Found = Found(name: seq<byte>, flags: u16, time: u16, date: u16, crc: u32, size: u32, data: seq<byte>)

  datatype Read = Read(found: Found, next: nat)

  function ReadMeta(z: seq<byte>, at: nat): Meta
    requires at + 26 <= |z|
  {
    Meta(Le16(z, at), Le16(z, at + 2), Le16(z, at + 4), Le16(z, at + 6), Le16(z, at + 8),
         Le32(z, at + 10), Le32(z, at + 14), Le32(z, at + 18), Le16(z, at + 22), Le16(z, at + 24))
  }

  function ReadLocal(z: seq<byte>, at: nat): Option<Local> {
    if at + 30 > |z| || Le32(z, at) != LOCAL then None
    else
      var m := ReadMeta(z, at + 4);
      var nameEnd: nat := at + 30 + m.nameLen;
      var start: nat := nameEnd + m.extraLen;
      if start + m.packed > |z| then None else Some(Local(m, z[at + 30..nameEnd], z[start..start + m.packed]))
  }

  /** The content of an entry, if its method is known and its size and CRC are right. */
  function Unpack(c: Codec, m: Meta, body: seq<byte>): Option<seq<byte>> {
    var data := if m.method_ == 8 then c.inflate(body) else body;
    if (m.method_ == 0 || m.method_ == 8) && |data| == m.size && c.crc(data) == m.crc then Some(data) else None
  }

  /** One entry of the directory, with its local header, which has to agree; and where the next begins. */
  function ReadEntry(c: Codec, z: seq<byte>, at: nat): Option<Read> {
    if at + 46 > |z| || Le32(z, at) != CENTRAL then None
    else
      var m := ReadMeta(z, at + 6);
      var next: nat := at + 46 + m.nameLen + m.extraLen + Le16(z, at + 32);
      if next > |z| then None
      else
        var name := z[at + 46..at + 46 + m.nameLen];
        match ReadLocal(z, Le32(z, at + 42))
        case None => None
        case Some(local) =>
          if local.meta != m || local.name != name then None
          else
            match Unpack(c, m, local.body)
            case None => None
            case Some(data) => Some(Read(Found(name, m.flags, m.time, m.date, m.crc, m.size, data), next))
  }

  /** n entries from `at`, which have to end at `end`. */
  function ReadEntries(c: Codec, z: seq<byte>, at: nat, end: nat, n: nat): Option<seq<Found>>
    decreases n
  {
    if n == 0 then (if at == end then Some([]) else None)
    else
      var r := ReadEntry(c, z, at);
      if r.None? then None
      else
        var rest := ReadEntries(c, z, r.value.next, end, n - 1);
        if rest.None? then None else Some([r.value.found] + rest.value)
  }

  /** End record, then directory, then local headers. */
  function ReadArchive(c: Codec, z: seq<byte>): Option<seq<Found>> {
    if |z| < 22 then None
    else
      var e: nat := |z| - 22;
      if Le32(z, e) != END || Le16(z, e + 20) != 0 then None
      else
        var start: nat, size: nat := Le32(z, e + 16), Le32(z, e + 12);
        if Le16(z, e + 8) != Le16(z, e + 10) || start + size != e then None
        else ReadEntries(c, z, start, e, Le16(z, e + 10))
  }

  // ---- Headers read back ----

  lemma MetaHalves(m: Meta)
    ensures var s := MetaBytes(m);
            && s[0..2] == Put16(m.version) && s[2..4] == Put16(m.flags) && s[4..6] == Put16(m.method_)
            && s[6..8] == Put16(m.time) && s[8..10] == Put16(m.date)
            && s[10..14] == Put32(m.crc) && s[14..18] == Put32(m.packed) && s[18..22] == Put32(m.size)
            && s[22..24] == Put16(m.nameLen) && s[24..26] == Put16(m.extraLen)
  {
    hide Put16, Put32;
    var a := Put16(m.version) + Put16(m.flags) + Put16(m.method_) + Put16(m.time) + Put16(m.date);
    var b := Put32(m.crc) + Put32(m.packed) + Put32(m.size) + Put16(m.nameLen) + Put16(m.extraLen);
    assert MetaBytes(m) == a + b;
  }

  lemma MetaRead(z: seq<byte>, at: nat, m: Meta)
    requires at + 26 <= |z| && z[at..at + 26] == MetaBytes(m)
    ensures ReadMeta(z, at) == m
  {
    hide Put16, Put32, MetaBytes, Le16, Le32;
    var s := MetaBytes(m);
    MetaHalves(m);
    Field16(z, at, s, 0, m.version);
    Field16(z, at, s, 2, m.flags);
    Field16(z, at, s, 4, m.method_);
    Field16(z, at, s, 6, m.time);
    Field16(z, at, s, 8, m.date);
    Field32(z, at, s, 10, m.crc);
    Field32(z, at, s, 14, m.packed);
    Field32(z, at, s, 18, m.size);
    Field16(z, at, s, 22, m.nameLen);
    Field16(z, at, s, 24, m.extraLen);
  }

  lemma LocalRead(z: seq<byte>, at: nat, e: Entry, dos: (u16, u16), body: seq<byte>)
    requires |e.name| < 0x1_0000 && e.packed == |body|
    requires at + |LocalBytes(e, dos, body)| <= |z|
    requires z[at..at + |LocalBytes(e, dos, body)|] == LocalBytes(e, dos, body)
    ensures ReadLocal(z, at) == Some(Local(MetaOf(e, dos), e.name, body))
  {
    hide Put32, MetaBytes, Le32, ReadMeta;
    var h, m, n := LocalBytes(e, dos, body), MetaOf(e, dos), |e.name|;
    assert h[0..4] == Put32(LOCAL) && h[4..30] == MetaBytes(m) && h[30..30 + n] == e.name && h[30 + n..] == body;
    Field32(z, at, h, 0, LOCAL);
    Slice(z, at, h, 4, 30);
    MetaRead(z, at + 4, m);
    Slice(z, at, h, 30, 30 + n);
    Slice(z, at, h, 30 + n, |h|);
  }

  lemma CentralLayout(e: Entry, dos: (u16, u16))
    ensures var h := CentralBytes(e, dos);
            && |h| == 46 + |e.name| && h[0..4] == Put32(CENTRAL) && h[6..32] == MetaBytes(MetaOf(e, dos))
            && h[32..34] == Put16(0) && h[42..46] == Put32(e.offset) && h[46..] == e.name
  {
    hide Put16, Put32, MetaBytes;
    var tail := Put16(0) + Put16(0) + Put16(0) + Put32(0) + Put32(e.offset);
    assert tail[0..2] == Put16(0) && tail[10..14] == Put32(e.offset);
    var h := CentralBytes(e, dos);
    assert h[32..46] == tail;
    assert h[32..34] == h[32..46][0..2] && h[42..46] == h[32..46][10..14];
  }

  /** A directory entry is read with its local header, wherever the two stand. */
  lemma EntryRead(c: Codec, z: seq<byte>, at: nat, f: File, offset: nat, dos: (u16, u16))
    requires Undoes(c) && |f.name| < 0x1_0000 && |f.data| < 0x1_0000_0000 && offset < 0x1_0000_0000
    requires var h := CentralBytes(EntryOf(c, f, offset), dos); at + |h| <= |z| && z[at..at + |h|] == h
    requires var l := LocalBytes(EntryOf(c, f, offset), dos, Body(c, f.data));
             offset + |l| <= |z| && z[offset..offset + |l|] == l
    ensures ReadEntry(c, z, at) ==
            Some(Read(Found(f.name, UTF8, dos.0, dos.1, c.crc(f.data), |f.data|, f.data),
                      at + |CentralBytes(EntryOf(c, f, offset), dos)|))
  {
    hide Put16, Put32, MetaBytes, Le16, Le32, ReadMeta, LocalBytes, CentralBytes, ReadLocal, Unpack;
    var e := EntryOf(c, f, offset);
    var h, m := CentralBytes(e, dos), MetaOf(e, dos);
    CentralLayout(e, dos);
    Field32(z, at, h, 0, CENTRAL);
    Slice(z, at, h, 6, 32);
    MetaRead(z, at + 6, m);
    Field16(z, at, h, 32, 0);
    Field32(z, at, h, 42, offset);
    Slice(z, at, h, 46, |h|);
    LocalRead(z, offset, e, dos, Body(c, f.data));
    Unpacked(c, f, offset, dos);
  }

  lemma Unpacked(c: Codec, f: File, offset: nat, dos: (u16, u16))
    requires Undoes(c) && |f.data| < 0x1_0000_0000
    ensures Unpack(c, MetaOf(EntryOf(c, f, offset), dos), Body(c, f.data)) == Some(f.data)
  {
  }

  /** The signatures, version 2.0, which deflate needs, and the UTF-8 flag as bytes; comments and extra fields
      are empty. */
  lemma HeaderBytes(e: Entry, dos: (u16, u16), body: seq<byte>, n: u16, size: u32, start: u32)
    ensures var l := LocalBytes(e, dos, body);
            |l| >= 30 && l[..8] == [0x50, 0x4B, 3, 4, 20, 0, 0, 8] && l[28..30] == [0, 0]
    ensures var h := CentralBytes(e, dos);
            |h| >= 46 && h[..10] == [0x50, 0x4B, 1, 2, 20, 0, 20, 0, 0, 8] && h[30..42] == seq(12, _ => 0)
    ensures var z := EndBytes(n, size, start);
            z[..8] == [0x50, 0x4B, 5, 6, 0, 0, 0, 0] && z[8..10] == z[10..12] == Put16(n) && z[20..] == [0, 0]
  {
    hide Put16;
    MetaEnds(MetaOf(e, dos));
    SignatureBytes();
    LocalHead(e, dos, body);
    CentralHead(e, dos);
    EndHead(n, size, start);
  }

  lemma SignatureBytes()
    ensures Put32(LOCAL) == [0x50, 0x4B, 3, 4] && Put32(CENTRAL) == [0x50, 0x4B, 1, 2]
    ensures Put32(END) == [0x50, 0x4B, 5, 6]
    ensures Put16(20) == [20, 0] && Put16(UTF8) == [0, 8] && Put16(0) == [0, 0] && Put32(0) == [0, 0, 0, 0]
  {
  }

  lemma MetaEnds(m: Meta)
    ensures var s := MetaBytes(m); s[..4] == Put16(m.version) + Put16(m.flags) && s[24..] == Put16(m.extraLen)
  {
    hide Put16, Put32;
  }

  lemma LocalHead(e: Entry, dos: (u16, u16), body: seq<byte>)
    ensures var l, m := LocalBytes(e, dos, body), MetaBytes(MetaOf(e, dos));
            |l| >= 30 && l[..8] == Put32(LOCAL) + m[..4] && l[28..30] == m[24..]
  {
    hide Put32, MetaBytes;
  }

  lemma CentralHead(e: Entry, dos: (u16, u16))
    ensures var h, m := CentralBytes(e, dos), MetaBytes(MetaOf(e, dos));
            && |h| >= 46 && h[..10] == Put32(CENTRAL) + Put16(VERSION) + m[..4]
            && h[30..42] == m[24..] + (Put16(0) + Put16(0) + Put16(0) + Put32(0))
  {
    hide Put16, Put32, MetaBytes;
  }

  lemma EndHead(n: u16, size: u32, start: u32)
    ensures var z := EndBytes(n, size, start);
            && z[..8] == Put32(END) + Put16(0) + Put16(0) && z[8..10] == z[10..12] == Put16(n)
            && z[20..] == Put16(0)
  {
    hide Put16, Put32;
  }

  /** A body is the file or, if that is smaller, what deflate made of it; so it is larger than neither. */
  lemma BodyNoLarger(c: Codec, f: File, offset: nat)
    ensures Body(c, f.data) == f.data || Body(c, f.data) == c.deflate(f.data)
    ensures |Body(c, f.data)| <= |f.data| && (c.deflate(f.data) != [] ==> |Body(c, f.data)| <= |c.deflate(f.data)|)
    ensures |f.data| < 0x1_0000_0000 ==> EntryOf(c, f, offset).packed <= EntryOf(c, f, offset).size
  {
  }

  // ---- The whole archive ----

  lemma {:induction false} LocalAt(c: Codec, dos: (u16, u16), files: seq<File>, k: nat)
    requires k < |files|
    ensures var offset := |Locals(c, dos, files[..k])|;
            var l := LocalBytes(EntryOf(c, files[k], offset), dos, Body(c, files[k].data));
            offset + |l| <= |Locals(c, dos, files)| && Locals(c, dos, files)[offset..offset + |l|] == l
    decreases |files|
  {
    hide LocalBytes, EntryOf, Body;
    var n := |files| - 1;
    var front := files[..n];
    if k < n {
      LocalAt(c, dos, front, k);
      assert front[..k] == files[..k] && front[k] == files[k];
    }
  }

  lemma {:induction false} CentralAt(dos: (u16, u16), es: seq<Entry>, k: nat)
    requires k < |es|
    ensures var at, h := |Directory(dos, es[..k])|, CentralBytes(es[k], dos);
            && at + |h| <= |Directory(dos, es)| && Directory(dos, es)[at..at + |h|] == h
            && |Directory(dos, es[..k + 1])| == at + |h|
    decreases |es|
  {
    hide CentralBytes;
    var n := |es| - 1;
    var front := es[..n];
    assert es[..k + 1][..k] == es[..k];
    if k < n {
      CentralAt(dos, front, k);
      assert front[..k] == es[..k] && front[..k + 1] == es[..k + 1] && front[k] == es[k];
    } else {
      assert es[..k + 1] == es;
    }
  }

  lemma {:induction false} EntryAt(c: Codec, dos: (u16, u16), files: seq<File>, k: nat)
    requires k < |files|
    ensures Entries(c, dos, files)[k] == EntryOf(c, files[k], |Locals(c, dos, files[..k])|)
    decreases |files|
  {
    hide EntryOf, Locals;
    var n := |files| - 1;
    if k < n {
      EntryAt(c, dos, files[..n], k);
      assert files[..n][..k] == files[..k];
    }
  }

  /** The limits of an archive without ZIP64. */
  predicate Fits(c: Codec, dos: (u16, u16), files: seq<File>) {
    && |files| < 0x1_0000
    && (forall i :: 0 <= i < |files| ==> |files[i].name| < 0x1_0000 && |files[i].data| < 0x1_0000_0000)
    && |Locals(c, dos, files)| + |Directory(dos, Entries(c, dos, files))| < 0x1_0000_0000
  }

  function Expected(c: Codec, dos: (u16, u16), files: seq<File>): seq<Found>
    requires forall i :: 0 <= i < |files| ==> |files[i].data| < 0x1_0000_0000
  {
    seq(|files|, i requires 0 <= i < |files| =>
      Found(files[i].name, UTF8, dos.0, dos.1, c.crc(files[i].data), |files[i].data|, files[i].data))
  }

  lemma {:induction false} EntriesFrom(c: Codec, dos: (u16, u16), files: seq<File>, z: seq<byte>, k: nat)
    requires Undoes(c) && Fits(c, dos, files) && k <= |files|
    requires Locals(c, dos, files) + Directory(dos, Entries(c, dos, files)) <= z
    ensures var start, es := |Locals(c, dos, files)|, Entries(c, dos, files);
            ReadEntries(c, z, start + |Directory(dos, es[..k])|, start + |Directory(dos, es)|, |files| - k)
            == Some(Expected(c, dos, files)[k..])
    decreases |files| - k
  {
    hide Locals, Entries, Directory, ReadEntry, LocalBytes, CentralBytes, EntryOf, Body, Undoes;
    var locals, es := Locals(c, dos, files), Entries(c, dos, files);
    var directory := Directory(dos, es);
    if k == |files| {
      assert es[..k] == es;
    } else {
      var at, offset := |locals| + |Directory(dos, es[..k])|, |Locals(c, dos, files[..k])|;
      EntryAt(c, dos, files, k);
      CentralAt(dos, es, k);
      LocalAt(c, dos, files, k);
      var h, l := CentralBytes(es[k], dos), LocalBytes(es[k], dos, Body(c, files[k].data));
      Found2(z, locals, directory, at - |locals|, h);
      Found1(z, locals, directory, offset, l);
      EntryRead(c, z, at, files[k], offset, dos);
      EntriesFrom(c, dos, files, z, k + 1);
      assert Expected(c, dos, files)[k..] == [Expected(c, dos, files)[k]] + Expected(c, dos, files)[k + 1..];
    }
  }

  lemma Found1(z: seq<byte>, a: seq<byte>, b: seq<byte>, i: nat, h: seq<byte>)
    requires a + b <= z && i + |h| <= |a| && a[i..i + |h|] == h
    ensures i + |h| <= |z| && z[i..i + |h|] == h
  {
    assert z[i..i + |h|] == (a + b)[i..i + |h|] == a[i..i + |h|];
  }

  lemma Found2(z: seq<byte>, a: seq<byte>, b: seq<byte>, i: nat, h: seq<byte>)
    requires a + b <= z && i + |h| <= |b| && b[i..i + |h|] == h
    ensures |a| + i + |h| <= |z| && z[|a| + i..|a| + i + |h|] == h
  {
    assert z[|a| + i..|a| + i + |h|] == (a + b)[|a| + i..|a| + i + |h|] == b[i..i + |h|];
  }

  lemma EndRead(z: seq<byte>, n: u16, size: u32, start: u32)
    requires |z| >= 22 && z[|z| - 22..] == EndBytes(n, size, start)
    ensures var e: nat := |z| - 22;
            && Le32(z, e) == END && Le16(z, e + 20) == 0 && Le16(z, e + 8) == n && Le16(z, e + 10) == n
            && Le32(z, e + 12) == size && Le32(z, e + 16) == start
  {
    hide Put16, Put32, Le16, Le32;
    var e, h := |z| - 22, EndBytes(n, size, start);
    assert z[e..e + 22] == h;
    assert h[0..4] == Put32(END) && h[8..10] == Put16(n) && h[10..12] == Put16(n);
    assert h[12..16] == Put32(size) && h[16..20] == Put32(start) && h[20..22] == Put16(0);
    Field32(z, e, h, 0, END);
    Field16(z, e, h, 8, n);
    Field16(z, e, h, 10, n);
    Field32(z, e, h, 12, size);
    Field32(z, e, h, 16, start);
    Field16(z, e, h, 20, 0);
  }

  /** Reading an archive gives back every name, CRC, size and content, in order; the reader also finds each
      local header equal to its directory entry. */
  lemma RoundTrip(c: Codec, dos: (u16, u16), files: seq<File>)
    requires Undoes(c) && Fits(c, dos, files)
    ensures ReadArchive(c, Archive(c, dos, files)) == Some(Expected(c, dos, files))
  {
    hide Locals, Entries, Directory, ReadEntries, EndBytes, Le16, Le32, Undoes, Expected;
    var z := Archive(c, dos, files);
    var locals, es := Locals(c, dos, files), Entries(c, dos, files);
    var directory := Directory(dos, es);
    var end := EndBytes(|files|, |directory|, |locals|);
    assert z == locals + directory + end;
    assert z[|z| - 22..] == end;
    EndRead(z, |files|, |directory|, |locals|);
    EntriesFrom(c, dos, files, z, 0);
    assert es[..0] == [];
    NoDirectory(dos, es[..0]);
    assert Expected(c, dos, files)[0..] == Expected(c, dos, files);
  }

  lemma NoDirectory(dos: (u16, u16), es: seq<Entry>)
    requires es == []
    ensures Directory(dos, es) == []
  {
  }
}
