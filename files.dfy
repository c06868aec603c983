/** The part of java.io.File the storage adapters use: a path, its name and parent,
    and a file system whose entries are directories or regular files of bytes. */
module Files {
  import opened Results
  import opened Binary

  /** A path: absolute or relative, and its name components. */
  datatype Path = Path(absolute: bool, parts: seq<string>)

  const Root: Path := Path(true, [])

  /** File.getName: the last component, "" for the root. */
  function Name(p: Path): string {
    if p.parts == [] then "" else p.parts[|p.parts| - 1]
  }

  /** File.getParentFile: null for the root and for a relative path of one component. */
  function Parent(p: Path): (r: Option<Path>)
    ensures r.Some? ==> p.parts != [] && r.value.absolute == p.absolute && r.value.parts == p.parts[..|p.parts| - 1]
    ensures r.None? <==> p.parts == [] || (!p.absolute && |p.parts| == 1)
  {
    if p.parts == [] || (!p.absolute && |p.parts| == 1) then None
    else Some(Path(p.absolute, p.parts[..|p.parts| - 1]))
  }

  datatype Entry =
    | Directory
    | RegularFile(data: seq<byte>, readable: bool, writable: bool)

  type Entries = map<Path, Entry>

  /** exists() && isFile && canRead(). */
  predicate IsReadableFile(entries: Entries, p: Path) {
    p in entries && entries[p].RegularFile? && entries[p].readable
  }

  /** exists() && isDirectory: the root always is one. */
  predicate IsDirectory(entries: Entries, p: Path) {
    p == Root || (p in entries && entries[p].Directory?)
  }

  /** Whether the file can be opened for writing (writeText, RandomAccessFile "rw")
      once its parent is known to be a directory: it is absent, and is created, or is a
      writable regular file. Otherwise FileNotFoundException. */
  predicate CanOpenForWrite(entries: Entries, p: Path) {
    p !in entries || (entries[p].RegularFile? && entries[p].writable)
  }

  /** The file system after the content of p is replaced by data: an existing file
      keeps its permissions, a new one is readable and writable. */
  function WithData(entries: Entries, p: Path, data: seq<byte>): (r: Entries)
    ensures p in r && r[p].RegularFile? && r[p].data == data
    ensures r.Keys == entries.Keys + {p}
    ensures forall q :: q in entries && q != p ==> r[q] == entries[q]
    ensures p in entries && entries[p].RegularFile? ==>
              r[p].readable == entries[p].readable && r[p].writable == entries[p].writable
  {
    if p in entries && entries[p].RegularFile? then entries[p := entries[p].(data := data)]
    else entries[p := RegularFile(data, true, true)]
  }

  /** Replacing the content twice is replacing it once with the second content. */
  lemma {:induction false} WithDataTwice(entries: Entries, p: Path, a: seq<byte>, b: seq<byte>)
    ensures WithData(WithData(entries, p, a), p, b) == WithData(entries, p, b)
  {
  }

  /** A file written where it could be opened is readable afterwards unless it
      already existed without read permission. */
  lemma {:induction false} WithDataReadable(entries: Entries, p: Path, data: seq<byte>)
    requires p !in entries || (entries[p].RegularFile? && entries[p].readable)
    ensures IsReadableFile(WithData(entries, p, data), p)
    ensures WithData(entries, p, data)[p].data == data
  {
  }

  /** The file system after bytes are written at the end of the regular file p. */
  function Appended(entries: Entries, p: Path, bytes: seq<byte>): (r: Entries)
    requires p in entries && entries[p].RegularFile?
    ensures p in r && r[p].RegularFile? && r[p].data == entries[p].data + bytes
    ensures r.Keys == entries.Keys && forall q :: q in entries && q != p ==> r[q] == entries[q]
  {
    entries[p := entries[p].(data := entries[p].data + bytes)]
  }

  lemma {:induction false} AppendedNothing(entries: Entries, p: Path)
    requires p in entries && entries[p].RegularFile?
    ensures Appended(entries, p, []) == entries
  {
    assert entries[p].data + [] == entries[p].data;
    assert entries[p].(data := entries[p].data) == entries[p];
  }

  /** Two writes at the end are one write of both. */
  lemma {:induction false} AppendedTwice(entries: Entries, p: Path, a: seq<byte>, b: seq<byte>)
    requires p in entries && entries[p].RegularFile?
    ensures Appended(Appended(entries, p, a), p, b) == Appended(entries, p, a + b)
  {
    assert entries[p].data + a + b == entries[p].data + (a + b);
  }

  /** Writing at the end of a file just emptied gives the file those bytes. */
  lemma {:induction false} AppendedToEmpty(entries: Entries, p: Path, bytes: seq<byte>)
    ensures Appended(WithData(entries, p, []), p, bytes) == WithData(entries, p, bytes)
  {
    assert [] + bytes == bytes;
  }

  /** What a write call returns and the file system it leaves. */
  datatype WriteEffect = WriteEffect(result: Result<()>, entries: Entries)

  /** The disk the adapters read and write. */
  class FileSystem {
    var entries: Entries

    constructor (entries: Entries)
      ensures this.entries == entries
    {
      this.entries := entries;
    }

    /** A write through an open file handle whose pointer is at the end of the file. */
    method Append(p: Path, bytes: seq<byte>)
      requires p in entries && entries[p].RegularFile?
      modifies this
      ensures entries == Appended(old(entries), p, bytes)
    {
      entries := entries[p := entries[p].(data := entries[p].data + bytes)];
    }
  }
}
