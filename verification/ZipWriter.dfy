/** The archive under construction (app/src/core/src/zip.rs, `ZipWriter`). */
module ZipWriters {
  import opened Bytes
  import opened Zip

  class ZipWriter {
    const codec: Codec
    const dos: (u16, u16)
    var out: seq<byte>
    var entries: seq<Entry>
    ghost var files: seq<File>

    ghost predicate Valid()
      reads this
    {
      out == Locals(codec, dos, files) && entries == Entries(codec, dos, files)
    }

    constructor (codec: Codec, dos: (u16, u16))
      ensures Valid() && files == [] && this.codec == codec && this.dos == dos
    {
      this.codec, this.dos := codec, dos;
      out, entries, files := [], [], [];
    }

    /** The fields both kinds of header carry. */
    method PutMeta(e: Entry)
      modifies this`out
      ensures out == old(out) + MetaBytes(MetaOf(e, dos))
    {
      hide Put16, Put32;
      ghost var start := out;
      out := out + Put16(VERSION);
      out := out + Put16(UTF8);
      out := out + Put16(e.method_);
      out := out + Put16(dos.0);
      out := out + Put16(dos.1);
      assert out == start + (Put16(VERSION) + Put16(UTF8) + Put16(e.method_) + Put16(dos.0) + Put16(dos.1));
      ghost var half := out;
      out := out + Put32(e.crc);
      out := out + Put32(e.packed);
      out := out + Put32(e.size);
      out := out + Put16(As16(|e.name|));
      out := out + Put16(0);
      assert out == half + (Put32(e.crc) + Put32(e.packed) + Put32(e.size) + Put16(As16(|e.name|)) + Put16(0));
    }

    method Add(name: seq<byte>, data: seq<byte>)
      requires Valid()
      modifies this
      ensures Valid() && files == old(files) + [File(name, data)]
    {
      hide LocalBytes, Locals, Entries;
      var deflated := codec.deflate(data);
      var useful := deflated != [] && |deflated| < |data|;
      var body := if useful then deflated else data;
      var e := Entry(name, if useful then 8 else 0, codec.crc(data), As32(|body|), As32(|data|), As32(|out|));
      OneMore(codec, dos, files, File(name, data));
      PutLocal(e, body);
      entries := entries + [e];
      files := files + [File(name, data)];
    }

    method PutLocal(e: Entry, body: seq<byte>)
      modifies this`out
      ensures out == old(out) + LocalBytes(e, dos, body)
    {
      hide Put32, MetaBytes;
      out := out + Put32(LOCAL);
      PutMeta(e);
      out := out + e.name;
      out := out + body;
    }

    /** The archive's bytes: local entries, the directory and the end record, of all files added. */
    method Finish() returns (z: seq<byte>)
      requires Valid()
      modifies this`out
      ensures z == Archive(codec, dos, files)
    {
      hide EndBytes, CentralBytes, Locals, Entries;
      var start := As32(|out|);
      ghost var locals := out;
      var i := 0;
      assert out == locals + Directory(dos, entries[..0]);
      while i < |entries|
        invariant 0 <= i <= |entries|
        invariant out == locals + Directory(dos, entries[..i])
      {
        assert entries[..i + 1][..i] == entries[..i];
        PutCentral(entries[i]);
        i := i + 1;
      }
      assert entries[..i] == entries;
      var size := (As32(|out|) - start) % 0x1_0000_0000;
      var n := As16(|entries|);
      PutEnd(n, size, start);
      z := out;
    }

    method PutEnd(n: u16, size: u32, start: u32)
      modifies this`out
      ensures out == old(out) + EndBytes(n, size, start)
    {
      hide Put16, Put32;
      out := out + Put32(END);
      out := out + Put16(0);
      out := out + Put16(0);
      out := out + Put16(n);
      out := out + Put16(n);
      out := out + Put32(size);
      out := out + Put32(start);
      out := out + Put16(0);
    }

    method PutCentral(e: Entry)
      modifies this`out
      ensures out == old(out) + CentralBytes(e, dos)
    {
      hide Put16, Put32, MetaBytes;
      ghost var start := out;
      out := out + Put32(CENTRAL);
      out := out + Put16(VERSION);
      PutMeta(e);
      ghost var shared := out;
      out := out + Put16(0);
      out := out + Put16(0);
      out := out + Put16(0);
      out := out + Put32(0);
      out := out + Put32(e.offset);
      assert out == shared + (Put16(0) + Put16(0) + Put16(0) + Put32(0) + Put32(e.offset));
      out := out + e.name;
    }
  }

  lemma OneMore(c: Codec, dos: (u16, u16), files: seq<File>, f: File)
    ensures var before := Locals(c, dos, files);
            && Locals(c, dos, files + [f]) == before + LocalBytes(EntryOf(c, f, |before|), dos, Body(c, f.data))
            && Entries(c, dos, files + [f]) == Entries(c, dos, files) + [EntryOf(c, f, |before|)]
  {
    hide LocalBytes, EntryOf, Body;
    assert (files + [f])[..|files|] == files;
  }
}
