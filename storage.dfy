/** EquipoStorageImpl: the adapter is chosen by the suffix of the file name. Reading
    falls back to the binary adapter; writing does nothing for an unknown suffix and
    reports Ok whatever the adapter returned, unless the adapter throws. The JSON and
    XML adapters are library wrappers: what they return and leave is a parameter. */
module Storage {
  import opened Results
  import opened Models
  import opened Files
  import opened StorageCsv
  import opened StorageBin
  import opened Mapper

  datatype Format = Csv | Json | Xml | Bin

  function Suffix(f: Format): string {
    match f
    case Csv => ".csv"
    case Json => ".json"
    case Xml => ".xml"
    case Bin => ".bin"
  }

  /** String.endsWith. */
  predicate EndsWith(s: string, suffix: string) {
    |suffix| <= |s| && s[|s| - |suffix|..] == suffix
  }

  /** The last two characters of a name tell the four suffixes apart. */
  lemma {:induction false} SuffixesExclusive(name: string, f: Format, g: Format)
    requires EndsWith(name, Suffix(f)) && EndsWith(name, Suffix(g))
    ensures f == g
  {
    var n := |name|;
    var sf, sg := Suffix(f), Suffix(g);
    assert name[n - 1] == name[n - |sf|..][|sf| - 1] == sf[|sf| - 1];
    assert name[n - 1] == name[n - |sg|..][|sg| - 1] == sg[|sg| - 1];
    assert name[n - 2] == name[n - |sf|..][|sf| - 2] == sf[|sf| - 2];
    assert name[n - 2] == name[n - |sg|..][|sg| - 2] == sg[|sg| - 2];
  }

  lemma {:induction false} AtMostOneSuffix(name: string)
    ensures forall f: Format, g: Format :: EndsWith(name, Suffix(f)) && EndsWith(name, Suffix(g)) ==> f == g
  {
    forall f: Format, g: Format | EndsWith(name, Suffix(f)) && EndsWith(name, Suffix(g)) {
      SuffixesExclusive(name, f, g);
    }
  }

  /** The adapter fileRead calls: the one whose suffix the name ends with, the
      binary adapter when none does. */
  function ReadFormat(name: string): (f: Format)
    ensures EndsWith(name, Suffix(f)) || f == Bin
    ensures forall g: Format :: EndsWith(name, Suffix(g)) ==> f == g
  {
    AtMostOneSuffix(name);
    if EndsWith(name, Suffix(Csv)) then Csv
    else if EndsWith(name, Suffix(Json)) then Json
    else if EndsWith(name, Suffix(Xml)) then Xml
    else Bin
  }

  /** The adapter fileWrite calls, if any: the one whose suffix the name ends with. */
  function WriteFormat(name: string): (r: Option<Format>)
    ensures r.Some? ==> EndsWith(name, Suffix(r.value))
    ensures r.None? <==> forall g: Format :: !EndsWith(name, Suffix(g))
    ensures forall g: Format :: EndsWith(name, Suffix(g)) ==> r == Some(g)
  {
    AtMostOneSuffix(name);
    if EndsWith(name, Suffix(Csv)) then Some(Csv)
    else if EndsWith(name, Suffix(Json)) then Some(Json)
    else if EndsWith(name, Suffix(Xml)) then Some(Xml)
    else if EndsWith(name, Suffix(Bin)) then Some(Bin)
    else None
  }

  /** The asymmetry of the two dispatches: they agree wherever writing has an
      adapter, and reading falls back to the binary adapter where it has none. */
  lemma {:induction false} ReadAndWriteFormats(name: string)
    ensures WriteFormat(name).Some? ==> ReadFormat(name) == WriteFormat(name).value
    ensures WriteFormat(name).None? ==> ReadFormat(name) == Bin && !EndsWith(name, Suffix(Bin))
  {
    if WriteFormat(name).None? {
      assert !EndsWith(name, Suffix(Bin));
    }
  }

  /** What fileRead returns: the chosen adapter's result, unchanged. */
  function StorageReadResult(entries: Entries, path: Path, now: Timestamp,
                             json: Result<seq<Integrante>>, xml: Result<seq<Integrante>>): (r: Result<seq<Integrante>>)
    ensures EndsWith(Name(path), Suffix(Csv)) ==> r == CsvRead(entries, path, now)
    ensures EndsWith(Name(path), Suffix(Json)) ==> r == json
    ensures EndsWith(Name(path), Suffix(Xml)) ==> r == xml
    ensures !EndsWith(Name(path), Suffix(Csv)) && !EndsWith(Name(path), Suffix(Json)) && !EndsWith(Name(path), Suffix(Xml)) ==>
              r == BinReadResult(entries, path, now)
  {
    var f := ReadFormat(Name(path));
    assert EndsWith(Name(path), Suffix(f)) || f == Bin;
    match f
    case Csv => CsvRead(entries, path, now)
    case Json => json
    case Xml => xml
    case Bin => BinReadResult(entries, path, now)
  }

  /** fileRead. */
  method StorageRead(entries: Entries, path: Path, now: Timestamp,
                     json: Result<seq<Integrante>>, xml: Result<seq<Integrante>>) returns (r: Result<seq<Integrante>>)
    ensures r == StorageReadResult(entries, path, now, json, xml)
  {
    match ReadFormat(Name(path))
    case Csv => r := CsvRead(entries, path, now);
    case Json => r := json;
    case Xml => r := xml;
    case Bin => r := BinRead(entries, path, now);
  }

  /** `return Ok(Unit)` after the call: the adapter's GestionErrors value is dropped,
      an exception it throws escapes. */
  function Discarded(e: WriteEffect): (d: WriteEffect)
    ensures d.entries == e.entries
    ensures d.result == (if e.result.Thrown? then e.result else Ok(()))
  {
    if e.result.Thrown? then e else WriteEffect(Ok(()), e.entries)
  }

  /** What fileWrite returns and leaves. */
  function StorageWritten(entries: Entries, rs: seq<Integrante>, path: Path,
                          json: WriteEffect, xml: WriteEffect): (e: WriteEffect)
    ensures !e.result.Err?
    ensures e.result.Thrown? ==> WriteFormat(Name(path)).Some?
    ensures WriteFormat(Name(path)).None? ==> e == WriteEffect(Ok(()), entries)
    ensures EndsWith(Name(path), Suffix(Csv)) ==> e == Discarded(CsvWritten(entries, rs, path))
    ensures EndsWith(Name(path), Suffix(Json)) ==> e == Discarded(json)
    ensures EndsWith(Name(path), Suffix(Xml)) ==> e == Discarded(xml)
    ensures EndsWith(Name(path), Suffix(Bin)) ==> e == Discarded(BinWritten(entries, rs, path))
  {
    match WriteFormat(Name(path))
    case None => WriteEffect(Ok(()), entries)
    case Some(Csv) => Discarded(CsvWritten(entries, rs, path))
    case Some(Json) => Discarded(json)
    case Some(Xml) => Discarded(xml)
    case Some(Bin) => Discarded(BinWritten(entries, rs, path))
  }

  /** fileWrite. */
  method StorageWrite(fs: FileSystem, rs: seq<Integrante>, path: Path, json: WriteEffect, xml: WriteEffect)
    returns (r: Result<()>)
    modifies fs
    ensures WriteEffect(r, fs.entries) == StorageWritten(old(fs.entries), rs, path, json, xml)
  {
    match WriteFormat(Name(path))
    case None =>
      r := Ok(());
    case Some(Csv) =>
      var e := CsvWrite(fs, rs, path);
      r := Discarded(WriteEffect(e, fs.entries)).result;
    case Some(Json) =>
      fs.entries := json.entries;
      r := Discarded(json).result;
    case Some(Xml) =>
      fs.entries := xml.entries;
      r := Discarded(xml).result;
    case Some(Bin) =>
      var e := BinWrite(fs, rs, path);
      r := Discarded(WriteEffect(e, fs.entries)).result;
  }

  /** A missing parent directory is a StorageError of the CSV and binary adapters,
      which fileWrite turns into Ok with nothing written. */
  lemma {:induction false} MissingParentIsOk(entries: Entries, rs: seq<Integrante>, path: Path, json: WriteEffect, xml: WriteEffect)
    requires EndsWith(Name(path), Suffix(Csv)) || EndsWith(Name(path), Suffix(Bin))
    requires Parent(path).Some? && !IsDirectory(entries, Parent(path).value)
    ensures StorageWritten(entries, rs, path, json, xml) == WriteEffect(Ok(()), entries)
  {
  }

  /** Writing members to a .csv or .bin file the adapter can create or open, and
      reading the file back, gives the members again, their data equal (NaN aside)
      and both timestamps the reading's `now`, as long as their texts fit the format. */
  lemma {:induction false} StorageReadOfWrite(entries: Entries, rs: seq<Integrante>, path: Path, now: Timestamp,
                           json: WriteEffect, xml: WriteEffect,
                           jsonRead: Result<seq<Integrante>>, xmlRead: Result<seq<Integrante>>)
    requires EndsWith(Name(path), Suffix(Csv)) ==> forall i :: 0 <= i < |rs| ==> IsCsvSafe(rs[i])
    requires EndsWith(Name(path), Suffix(Bin)) ==> AllBinSafe(rs)
    requires EndsWith(Name(path), Suffix(Csv)) || EndsWith(Name(path), Suffix(Bin))
    requires Parent(path).Some? && IsDirectory(entries, Parent(path).value)
    requires path !in entries || (entries[path].RegularFile? && entries[path].readable && entries[path].writable)
    ensures var e := StorageWritten(entries, rs, path, json, xml);
      e.result == Ok(()) && StorageReadResult(e.entries, path, now, jsonRead, xmlRead) == Ok(Reloaded(rs, now))
  {
    var name := Name(path);
    AtMostOneSuffix(name);
    if EndsWith(name, Suffix(Csv)) {
      assert !EndsWith(name, Suffix(Json)) && !EndsWith(name, Suffix(Xml));
      CsvReadOfWrite(entries, path, rs, now);
    } else {
      assert !EndsWith(name, Suffix(Csv)) && !EndsWith(name, Suffix(Json)) && !EndsWith(name, Suffix(Xml));
      BinWriteOutcome(rs);
      BinReadOfWrite(entries, path, rs, now);
    }
  }
}
