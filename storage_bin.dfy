/** EquipoStorageBIN.kt: each member's DTO written field after field with
    RandomAccessFile's DataOutput methods, with no count, no separator and no
    header. After the eight common fields the rol text decides what follows: the
    six player fields for "Jugador", the especialidad for anything else. */
module StorageBin {
  import opened Results
  import opened Binary
  import opened Unicode
  import opened Dates
  import opened Models
  import opened Records
  import opened Mapper
  import opened Files

  // ---- the values handed to the DataOutput methods ----

  /** The argument of one write call. NullField is a null passed where a value was
      expected: `!!` on it, or writeUTF of it, throws NullPointerException. */
  datatype Field =
    | LongField(l: int64)
    | UtfField(s: string)
    | DoubleField(x: Double)
    | IntField(n: int32)
    | NullField

  function UtfOf(o: Option<string>): Field {
    if o.Some? then UtfField(o.value) else NullField
  }

  function DoubleOf(o: Option<Double>): Field {
    if o.Some? then DoubleField(o.value) else NullField
  }

  function IntOf(o: Option<int32>): Field {
    if o.Some? then IntField(o.value) else NullField
  }

  /** writeLong id, writeUTF of the four texts, writeDouble salario, writeUTF pais and rol. */
  function CommonFields(d: IntegranteDto): seq<Field> {
    [LongField(d.id), UtfField(d.nombre), UtfField(d.apellidos), UtfField(d.fechaNacimiento),
     UtfField(d.fechaIncorporacion), DoubleField(d.salario), UtfField(d.pais), UtfField(d.rol)]
  }

  /** writeUTF posicion, writeInt dorsal!!, writeDouble altura!! and peso!!, writeInt goles!! and partidos!!. */
  function PlayerFields(d: IntegranteDto): seq<Field> {
    [UtfOf(d.posicion), IntOf(d.dorsal), DoubleOf(d.altura), DoubleOf(d.peso), IntOf(d.goles), IntOf(d.partidosJugados)]
  }

  /** writeUTF especialidad. */
  function CoachFields(d: IntegranteDto): seq<Field> {
    [UtfOf(d.especialidad)]
  }

  /** The write calls fileWrite makes for one DTO, in order. */
  function RecordFields(d: IntegranteDto): seq<Field> {
    CommonFields(d) + (if d.rol == "Jugador" then PlayerFields(d) else CoachFields(d))
  }

  /** What one write call emits, or the exception it throws before emitting anything. */
  function FieldBytes(f: Field): (r: Result<seq<byte>>)
    ensures r.Ok? <==> !f.NullField? && (f.UtfField? ==> FitsUtf(f.s))
    ensures !r.Ok? ==> r == Thrown(NullPointer) || r == Thrown(UtfDataFormat)
  {
    match f
    case LongField(l) => Ok(WriteLong(l))
    case UtfField(s) => WriteUtf(s)
    case DoubleField(x) => Ok(WriteDouble(x))
    case IntField(n) => Ok(WriteInt(n))
    case NullField => Thrown(NullPointer)
  }

  /** How a run of write calls ends: Ok when every call succeeds, otherwise the
      exception of the first call that throws (OutcomeOk, OutcomeIsFirstFailure). */
  function Outcome(fs: seq<Field>): Result<()> {
    if fs == [] then Ok(())
    else if !FieldBytes(fs[0]).Ok? then FieldBytes(fs[0]).PropagateFailure()
    else Outcome(fs[1..])
  }

  /** The bytes a run of write calls leaves in the file: the output of every call up
      to the first that throws. */
  function Emitted(fs: seq<Field>): seq<byte> {
    if fs == [] || !FieldBytes(fs[0]).Ok? then [] else FieldBytes(fs[0]).value + Emitted(fs[1..])
  }

  function Flatten(recs: seq<seq<Field>>): seq<Field> {
    if recs == [] then [] else recs[0] + Flatten(recs[1..])
  }

  /** Every write call fileWrite makes for rs: each member's DTO, in list order. */
  function BinFields(rs: seq<Integrante>): seq<Field> {
    Flatten(MapSeq(MapSeq(rs, ToDto), RecordFields))
  }

  /** The content of the file fileWrite leaves. */
  function BinBytes(rs: seq<Integrante>): seq<byte> {
    Emitted(BinFields(rs))
  }

  // ---- writing ----

  /** RandomAccessFile "rw" opens an absent file, creating it, or a regular file that
      may be both read and written; otherwise FileNotFoundException. */
  predicate CanOpenReadWrite(entries: Entries, p: Path) {
    p !in entries || (entries[p].RegularFile? && entries[p].readable && entries[p].writable)
  }

  /** The outcomes of fileWrite, as one value. */
  function BinWritten(entries: Entries, rs: seq<Integrante>, path: Path): WriteEffect {
    if Parent(path).None? then WriteEffect(Thrown(NullPointer), entries)
    else if !IsDirectory(entries, Parent(path).value) then WriteEffect(Err(StorageError(ParentDirectoryMissing)), entries)
    else if !CanOpenReadWrite(entries, path) then WriteEffect(Thrown(FileNotFound), entries)
    else WriteEffect(Outcome(BinFields(rs)), WithData(entries, path, BinBytes(rs)))
  }

  /** fileWrite. The parent directory is checked first (getParentFile is null for a
      bare relative name, and `.exists()` on it throws); then the file is opened,
      emptied by setLength(0), and every member's fields are written. A write that
      throws ends fileWrite with its exception and leaves what was written before it. */
  method BinWrite(fs: FileSystem, rs: seq<Integrante>, path: Path) returns (r: Result<()>)
    modifies fs
    ensures Parent(path).None? ==> r == Thrown(NullPointer) && fs.entries == old(fs.entries)
    ensures Parent(path).Some? && !IsDirectory(old(fs.entries), Parent(path).value) ==>
              r == Err(StorageError(ParentDirectoryMissing)) && fs.entries == old(fs.entries)
    ensures Parent(path).Some? && IsDirectory(old(fs.entries), Parent(path).value)
            && !CanOpenReadWrite(old(fs.entries), path) ==>
              r == Thrown(FileNotFound) && fs.entries == old(fs.entries)
    ensures Parent(path).Some? && IsDirectory(old(fs.entries), Parent(path).value)
            && CanOpenReadWrite(old(fs.entries), path) ==>
              r == Outcome(BinFields(rs)) && fs.entries == WithData(old(fs.entries), path, BinBytes(rs))
    ensures WriteEffect(r, fs.entries) == BinWritten(old(fs.entries), rs, path)
  {
    var parent := Parent(path);
    if parent.None? {
      return Thrown(NullPointer);
    }
    if !IsDirectory(fs.entries, parent.value) {
      return Err(StorageError(ParentDirectoryMissing));
    }
    if !CanOpenReadWrite(fs.entries, path) {
      return Thrown(FileNotFound);
    }
    var dtos := MapSeq(rs, ToDto);
    var recs := MapSeq(dtos, RecordFields);
    fs.entries := WithData(fs.entries, path, []);
    r := WriteRecords(fs, path, recs);
    AppendedToEmpty(old(fs.entries), path, BinBytes(rs));
  }

  /** The loop of fileWrite: the write calls of each record in turn, at the end of
      the file; the first call that throws stops the loop. */
  method WriteRecords(fs: FileSystem, path: Path, recs: seq<seq<Field>>) returns (r: Result<()>)
    requires path in fs.entries && fs.entries[path].RegularFile?
    modifies fs
    ensures r == Outcome(Flatten(recs))
    ensures fs.entries == Appended(old(fs.entries), path, Emitted(Flatten(recs)))
  {
    assert recs[..0] == [] && Flatten([]) == [];
    AppendedNothing(fs.entries, path);
    r := Ok(());
    var i := 0;
    while i < |recs|
      invariant 0 <= i <= |recs|
      invariant Outcome(Flatten(recs[..i])) == Ok(()) && r == Ok(())
      invariant fs.entries == Appended(old(fs.entries), path, Emitted(Flatten(recs[..i])))
    {
      WrittenStep(recs, i);
      AppendedTwice(old(fs.entries), path, Emitted(Flatten(recs[..i])), Emitted(recs[i]));
      r := WriteFields(fs, path, recs[i]);
      if !r.Ok? {
        WrittenStop(recs, i);
        return;
      }
      assert r.value == ();
      i := i + 1;
    }
    assert recs[..|recs|] == recs;
  }

  /** The write calls of one record, one after another: each writes its bytes, or
      throws and ends the record. */
  method WriteFields(fs: FileSystem, path: Path, rec: seq<Field>) returns (r: Result<()>)
    requires path in fs.entries && fs.entries[path].RegularFile?
    modifies fs
    ensures r == Outcome(rec)
    ensures fs.entries == Appended(old(fs.entries), path, Emitted(rec))
  {
    assert rec[..0] == [];
    AppendedNothing(fs.entries, path);
    var j := 0;
    while j < |rec|
      invariant 0 <= j <= |rec|
      invariant Outcome(rec[..j]) == Ok(())
      invariant fs.entries == Appended(old(fs.entries), path, Emitted(rec[..j]))
    {
      var bytes := FieldBytes(rec[j]);
      if !bytes.Ok? {
        FieldStop(rec, j);
        return bytes.PropagateFailure();
      }
      FieldStep(rec, j);
      AppendedTwice(old(fs.entries), path, Emitted(rec[..j]), bytes.value);
      fs.Append(path, bytes.value);
      j := j + 1;
    }
    assert rec[..|rec|] == rec;
    return Ok(());
  }

  /** Call j runs after the calls before it. */
  lemma {:induction false} FieldStep(rec: seq<Field>, j: nat)
    requires j < |rec| && Outcome(rec[..j]) == Ok(()) && FieldBytes(rec[j]).Ok?
    ensures Emitted(rec[..j + 1]) == Emitted(rec[..j]) + FieldBytes(rec[j]).value
    ensures Outcome(rec[..j + 1]) == Ok(())
  {
    assert rec[..j + 1] == rec[..j] + [rec[j]];
    EmittedAppend(rec[..j], [rec[j]]);
    OutcomeAppend(rec[..j], [rec[j]]);
    assert [rec[j]][1..] == [];
  }

  /** Once call j throws, its exception ends the run and nothing more is written. */
  lemma {:induction false} FieldStop(rec: seq<Field>, j: nat)
    requires j < |rec| && Outcome(rec[..j]) == Ok(()) && !FieldBytes(rec[j]).Ok?
    ensures Emitted(rec) == Emitted(rec[..j])
    ensures Outcome(rec) == FieldBytes(rec[j]).PropagateFailure()
  {
    assert rec == rec[..j] + rec[j..];
    EmittedAppend(rec[..j], rec[j..]);
    OutcomeAppend(rec[..j], rec[j..]);
    assert rec[j..][0] == rec[j];
    assert Emitted(rec[..j]) + [] == Emitted(rec[..j]);
  }

  /** Record i's write calls run after those of the records before it. */
  lemma {:induction false} WrittenStep(recs: seq<seq<Field>>, i: nat)
    requires i < |recs| && Outcome(Flatten(recs[..i])).Ok?
    ensures Emitted(Flatten(recs[..i + 1])) == Emitted(Flatten(recs[..i])) + Emitted(recs[i])
    ensures Outcome(Flatten(recs[..i + 1])) == Outcome(recs[i])
  {
    FlattenAppend(recs[..i], [recs[i]]);
    assert recs[..i + 1] == recs[..i] + [recs[i]];
    FlattenOne(recs[i]);
    EmittedAppend(Flatten(recs[..i]), recs[i]);
    OutcomeAppend(Flatten(recs[..i]), recs[i]);
  }

  /** Once a write call throws, the records after it write nothing. */
  lemma {:induction false} WrittenStop(recs: seq<seq<Field>>, i: nat)
    requires i < |recs| && !Outcome(Flatten(recs[..i + 1])).Ok?
    ensures Emitted(Flatten(recs)) == Emitted(Flatten(recs[..i + 1]))
    ensures Outcome(Flatten(recs)) == Outcome(Flatten(recs[..i + 1]))
  {
    FlattenAppend(recs[..i + 1], recs[i + 1..]);
    assert recs[..i + 1] + recs[i + 1..] == recs;
    EmittedAppend(Flatten(recs[..i + 1]), Flatten(recs[i + 1..]));
    OutcomeAppend(Flatten(recs[..i + 1]), Flatten(recs[i + 1..]));
  }

  // ---- reading ----

  /** The type a read call expects. */
  datatype Kind = LongKind | UtfKind | DoubleKind | IntKind

  function KindOf(f: Field): Kind
    requires !f.NullField?
  {
    match f
    case LongField(_) => LongKind
    case UtfField(_) => UtfKind
    case DoubleField(_) => DoubleKind
    case IntField(_) => IntKind
  }

  /** readLong, readUTF, readDouble or readInt: the value and the bytes after it;
      EOFException when the bytes run out, UTFDataFormatException for a malformed
      string. */
  function ReadField(k: Kind, bs: seq<byte>): (r: Result<(Field, seq<byte>)>)
    ensures !r.Err?
    ensures r.Ok? ==> !r.value.0.NullField? && KindOf(r.value.0) == k
    ensures r.Ok? ==> |r.value.1| < |bs| && r.value.1 == bs[|bs| - |r.value.1|..]
  {
    match k
    case LongKind => var (l, rest) :- ReadLong(bs); Ok((LongField(l), rest))
    case UtfKind => var (s, rest) :- ReadUtf(bs); Ok((UtfField(s), rest))
    case DoubleKind => var (x, rest) :- ReadDouble(bs); Ok((DoubleField(x), rest))
    case IntKind => var (n, rest) :- ReadInt(bs); Ok((IntField(n), rest))
  }

  /** Read calls of the given kinds, one after another; the first that throws decides. */
  function ReadFields(ks: seq<Kind>, bs: seq<byte>): (r: Result<(seq<Field>, seq<byte>)>)
    ensures !r.Err?
    ensures r.Ok? ==> IsLayout(r.value.0, ks)
    ensures r.Ok? ==> |r.value.1| <= |bs| && r.value.1 == bs[|bs| - |r.value.1|..]
    ensures r.Ok? && ks != [] ==> |r.value.1| < |bs|
  {
    if ks == [] then Ok(([], bs))
    else
      var head := ReadField(ks[0], bs);
      if !head.Ok? then head.PropagateFailure()
      else
        var tail := ReadFields(ks[1..], head.value.1);
        if !tail.Ok? then tail.PropagateFailure()
        else
          assert tail.value.1 == bs[|bs| - |tail.value.1|..];
          Ok(([head.value.0] + tail.value.0, tail.value.1))
  }

  const CommonLayout: seq<Kind> := [LongKind, UtfKind, UtfKind, UtfKind, UtfKind, DoubleKind, UtfKind, UtfKind]
  const PlayerLayout: seq<Kind> := [UtfKind, IntKind, DoubleKind, DoubleKind, IntKind, IntKind]
  const CoachLayout: seq<Kind> := [UtfKind]

  /** Fields read as the kinds ks: as many, each of its kind. */
  predicate IsLayout(fs: seq<Field>, ks: seq<Kind>) {
    |fs| == |ks| && forall i :: 0 <= i < |ks| ==> !fs[i].NullField? && KindOf(fs[i]) == ks[i]
  }

  /** What follows the common fields: the player fields when rol is "Jugador", the
      especialidad otherwise. */
  function TailLayout(rol: string): seq<Kind> {
    if rol == "Jugador" then PlayerLayout else CoachLayout
  }

  /** One pass of fileRead's loop: the eight common fields, then the fields the rol
      text calls for. */
  function ReadRecord(bs: seq<byte>): (r: Result<(IntegranteDto, seq<byte>)>)
    ensures !r.Err?
    ensures r.Ok? ==> |r.value.1| < |bs| && r.value.1 == bs[|bs| - |r.value.1|..]
  {
    var (c, rest) :- ReadFields(CommonLayout, bs);
    var (t, rest2) :- ReadFields(TailLayout(c[7].s), rest);
    assert rest2 == bs[|bs| - |rest2|..];
    Ok((RecordDto(c, t), rest2))
  }

  /** The DTO built from the fields read: especialidad null for a player, the six
      player fields null for anyone else. */
  function RecordDto(c: seq<Field>, t: seq<Field>): (d: IntegranteDto)
    requires IsLayout(c, CommonLayout) && IsLayout(t, TailLayout(c[7].s))
    ensures d.rol == c[7].s
    ensures d.rol == "Jugador" ==>
      d.especialidad.None? && d.posicion.Some? && d.dorsal.Some? && d.altura.Some? && d.peso.Some?
      && d.goles.Some? && d.partidosJugados.Some?
    ensures d.rol != "Jugador" ==>
      d.especialidad.Some? && d.posicion.None? && d.dorsal.None? && d.altura.None? && d.peso.None?
      && d.goles.None? && d.partidosJugados.None?
  {
    if c[7].s == "Jugador" then
      IntegranteDto(c[0].l, c[1].s, c[2].s, c[3].s, c[4].s, c[5].x, c[6].s, c[7].s,
                    None, Some(t[0].s), Some(t[1].n), Some(t[2].x), Some(t[3].x), Some(t[4].n), Some(t[5].n))
    else
      IntegranteDto(c[0].l, c[1].s, c[2].s, c[3].s, c[4].s, c[5].x, c[6].s, c[7].s,
                    Some(t[0].s), None, None, None, None, None, None)
  }

  /** The DTOs a file holds: records until the bytes are used up; a record cut short
      or malformed throws. */
  function DecodeAll(bs: seq<byte>): (r: Result<seq<IntegranteDto>>)
    ensures !r.Err?
    decreases |bs|
  {
    if bs == [] then Ok([])
    else
      var (d, rest) :- ReadRecord(bs);
      var ds :- DecodeAll(rest);
      Ok([d] + ds)
  }

  /** `equipo.map { it.toModel() }`: the DTOs mapped in order, the first that throws
      deciding the outcome. */
  function DtosToModels(ds: seq<IntegranteDto>, now: Timestamp): (r: Result<seq<Integrante>>)
    ensures !r.Err?
    ensures r.Ok? <==> forall i :: 0 <= i < |ds| ==> DtoToModel(ds[i], now).Ok?
    ensures r.Ok? ==> |r.value| == |ds| && forall i :: 0 <= i < |ds| ==> DtoToModel(ds[i], now) == Ok(r.value[i])
  {
    Collect(MapSeq(ds, d => DtoToModel(d, now)))
  }

  /** What fileRead returns: StorageError unless the path names a readable regular
      file; otherwise the members of the DTOs the file decodes to, the first
      exception of either step deciding. */
  function BinReadResult(entries: Entries, path: Path, now: Timestamp): (r: Result<seq<Integrante>>)
    ensures !IsReadableFile(entries, path) ==> r == Err(StorageError(NotAReadableFile))
    ensures IsReadableFile(entries, path) ==> !r.Err?
    ensures IsReadableFile(entries, path) && r.Ok? ==>
      var ds := DecodeAll(entries[path].data);
      ds.Ok? && |r.value| == |ds.value|
      && forall i :: 0 <= i < |r.value| ==> DtoToModel(ds.value[i], now) == Ok(r.value[i])
  {
    if !IsReadableFile(entries, path) then Err(StorageError(NotAReadableFile))
    else
      var ds :- DecodeAll(entries[path].data);
      DtosToModels(ds, now)
  }

  /** DTOs already read, in front of what the rest of the file decodes to. */
  function Prepend(ds: seq<IntegranteDto>, r: Result<seq<IntegranteDto>>): Result<seq<IntegranteDto>> {
    if r.Ok? then Ok(ds + r.value) else r
  }

  /** One record read from the front of non-empty bytes: it is prepended to the
      rest, or its exception is the outcome. */
  lemma {:induction false} DecodeAllStep(bs: seq<byte>)
    requires bs != []
    ensures ReadRecord(bs).Ok? ==> DecodeAll(bs) == Prepend([ReadRecord(bs).value.0], DecodeAll(ReadRecord(bs).value.1))
    ensures !ReadRecord(bs).Ok? ==> DecodeAll(bs) == ReadRecord(bs).PropagateFailure()
  {
  }

  lemma {:induction false} PrependNothing(r: Result<seq<IntegranteDto>>)
    ensures Prepend([], r) == r
  {
    if r.Ok? {
      assert [] + r.value == r.value;
    }
  }

  lemma {:induction false} PrependTwice(a: seq<IntegranteDto>, b: seq<IntegranteDto>, r: Result<seq<IntegranteDto>>)
    ensures Prepend(a, Prepend(b, r)) == Prepend(a + b, r)
  {
    if r.Ok? {
      assert a + (b + r.value) == (a + b) + r.value;
    }
  }

  /** The read loop of fileRead: records are read while the file pointer is before
      the end of the file, and the first exception ends the loop. */
  method ReadDtos(data: seq<byte>) returns (r: Result<seq<IntegranteDto>>)
    ensures r == DecodeAll(data)
  {
    var equipo: seq<IntegranteDto> := [];
    var pos := 0;
    assert data[0..] == data;
    PrependNothing(DecodeAll(data));
    while pos < |data|
      invariant 0 <= pos <= |data|
      invariant DecodeAll(data) == Prepend(equipo, DecodeAll(data[pos..]))
      decreases |data| - pos
    {
      var rec := ReadRecord(data[pos..]);
      DecodeAllStep(data[pos..]);
      if !rec.Ok? {
        return rec.PropagateFailure();
      }
      var rest := rec.value.1;
      assert data[pos..][|data[pos..]| - |rest|..] == data[|data| - |rest|..];
      PrependTwice(equipo, [rec.value.0], DecodeAll(rest));
      equipo := equipo + [rec.value.0];
      pos := |data| - |rest|;
    }
    assert data[pos..] == [] && equipo + [] == equipo;
    r := Ok(equipo);
  }

  /** fileRead: the guard, the read loop, then every DTO mapped to its member. */
  method BinRead(entries: Entries, path: Path, now: Timestamp) returns (r: Result<seq<Integrante>>)
    ensures r == BinReadResult(entries, path, now)
  {
    if !IsReadableFile(entries, path) {
      return Err(StorageError(NotAReadableFile));
    }
    var ds :- ReadDtos(entries[path].data);
    r := DtosToModels(ds, now);
  }

  // ---- properties of the write calls ----

  /** The run ends well exactly when every call succeeds. */
  lemma {:induction false} OutcomeOk(fs: seq<Field>)
    ensures Outcome(fs).Ok? <==> Writable(fs)
  {
    if fs != [] {
      OutcomeOk(fs[1..]);
      WritableCons(fs);
    }
  }

  /** Otherwise it ends with the exception of the first call that throws. */
  lemma {:induction false} OutcomeIsFirstFailure(fs: seq<Field>)
    ensures !Outcome(fs).Ok? ==>
      exists i :: 0 <= i < |fs| && Writable(fs[..i]) && !FieldBytes(fs[i]).Ok?
                  && Outcome(fs) == FieldBytes(fs[i]).PropagateFailure()
  {
    if fs != [] {
      if !FieldBytes(fs[0]).Ok? {
        assert Writable(fs[..0]);
      } else if !Outcome(fs).Ok? {
        OutcomeIsFirstFailure(fs[1..]);
        var i :| 0 <= i < |fs[1..]| && Writable(fs[1..][..i]) && !FieldBytes(fs[1..][i]).Ok?
                 && Outcome(fs[1..]) == FieldBytes(fs[1..][i]).PropagateFailure();
        assert fs[..i + 1] == [fs[0]] + fs[1..][..i];
        WritableAppend([fs[0]], fs[1..][..i]);
        assert fs[1..][i] == fs[i + 1];
      }
    }
  }

  lemma {:induction false} WritableCons(fs: seq<Field>)
    requires fs != []
    ensures Writable(fs) <==> FieldBytes(fs[0]).Ok? && Writable(fs[1..])
  {
    assert fs == [fs[0]] + fs[1..];
    WritableAppend([fs[0]], fs[1..]);
  }

  lemma {:induction false} FlattenOne(rec: seq<Field>)
    ensures Flatten([rec]) == rec
  {
    assert [rec][1..] == [];
  }

  lemma {:induction false} FlattenAppend(a: seq<seq<Field>>, b: seq<seq<Field>>)
    ensures Flatten(a + b) == Flatten(a) + Flatten(b)
  {
    if a == [] {
      assert a + b == b;
    } else {
      assert (a + b)[0] == a[0] && (a + b)[1..] == a[1..] + b;
      FlattenAppend(a[1..], b);
    }
  }

  /** Two runs of write calls in a row: the second runs only if the first ended well. */
  lemma {:induction false} EmittedAppend(a: seq<Field>, b: seq<Field>)
    ensures Emitted(a + b) == if Outcome(a).Ok? then Emitted(a) + Emitted(b) else Emitted(a)
  {
    if a == [] {
      assert a + b == b;
    } else {
      assert (a + b)[0] == a[0] && (a + b)[1..] == a[1..] + b;
      EmittedAppend(a[1..], b);
    }
  }

  lemma {:induction false} OutcomeAppend(a: seq<Field>, b: seq<Field>)
    ensures Outcome(a + b) == if Outcome(a).Ok? then Outcome(b) else Outcome(a)
  {
    if a == [] {
      assert a + b == b;
    } else {
      assert (a + b)[0] == a[0] && (a + b)[1..] == a[1..] + b;
      OutcomeAppend(a[1..], b);
    }
  }

  /** Every call of the run succeeds. */
  predicate Writable(fs: seq<Field>) {
    forall i :: 0 <= i < |fs| ==> FieldBytes(fs[i]).Ok?
  }

  /** No call of the run is handed a null. */
  predicate NoNull(fs: seq<Field>) {
    forall i :: 0 <= i < |fs| ==> !fs[i].NullField?
  }

  lemma {:induction false} WritableAppend(a: seq<Field>, b: seq<Field>)
    ensures Writable(a + b) <==> Writable(a) && Writable(b)
    ensures NoNull(a + b) <==> NoNull(a) && NoNull(b)
  {
    forall i | 0 <= i < |b| ensures (a + b)[|a| + i] == b[i] {
    }
    forall i | 0 <= i < |a| ensures (a + b)[i] == a[i] {
    }
  }

  /** A run without nulls can only throw UTFDataFormatException. */
  lemma NoNullOutcome(fs: seq<Field>)
    requires NoNull(fs)
    ensures Outcome(fs) == if Writable(fs) then Ok(()) else Thrown(UtfDataFormat)
  {
    OutcomeOk(fs);
    OutcomeIsFirstFailure(fs);
  }

  /** The common fields are never null, and succeed exactly when their texts fit. */
  lemma {:induction false} CommonWritable(d: IntegranteDto)
    ensures NoNull(CommonFields(d))
    ensures Writable(CommonFields(d)) <==>
      FitsUtf(d.nombre) && FitsUtf(d.apellidos) && FitsUtf(d.fechaNacimiento)
      && FitsUtf(d.fechaIncorporacion) && FitsUtf(d.pais) && FitsUtf(d.rol)
  {
    var c := CommonFields(d);
    assert c[1] == UtfField(d.nombre) && c[2] == UtfField(d.apellidos) && c[3] == UtfField(d.fechaNacimiento)
           && c[4] == UtfField(d.fechaIncorporacion) && c[6] == UtfField(d.pais) && c[7] == UtfField(d.rol);
  }

  /** The player fields succeed exactly when all six are present and posicion fits. */
  lemma {:induction false} PlayerWritable(d: IntegranteDto)
    ensures Writable(PlayerFields(d)) <==>
      d.posicion.Some? && FitsUtf(d.posicion.value) && d.dorsal.Some? && d.altura.Some?
      && d.peso.Some? && d.goles.Some? && d.partidosJugados.Some?
  {
    var t := PlayerFields(d);
    assert t[0] == UtfOf(d.posicion) && t[1] == IntOf(d.dorsal) && t[2] == DoubleOf(d.altura)
           && t[3] == DoubleOf(d.peso) && t[4] == IntOf(d.goles) && t[5] == IntOf(d.partidosJugados);
  }

  lemma {:induction false} CoachWritable(d: IntegranteDto)
    ensures Writable(CoachFields(d)) <==> d.especialidad.Some? && FitsUtf(d.especialidad.value)
  {
    assert CoachFields(d)[0] == UtfOf(d.especialidad);
  }

  /** The writes that must succeed for a member: its three free texts must fit
      writeUTF's 65535-byte limit. */
  predicate IsBinSafe(x: Integrante) {
    FitsUtf(x.nombre) && FitsUtf(x.apellidos) && FitsUtf(x.pais)
  }

  predicate AllBinSafe(rs: seq<Integrante>) {
    forall i :: 0 <= i < |rs| ==> IsBinSafe(rs[i])
  }

  lemma {:induction false} AllBinSafeCons(rs: seq<Integrante>)
    requires rs != []
    ensures AllBinSafe(rs) <==> IsBinSafe(rs[0]) && AllBinSafe(rs[1..])
  {
    assert forall i :: 1 <= i < |rs| ==> rs[1..][i - 1] == rs[i];
  }

  /** The texts fileWrite generates itself always fit writeUTF. */
  lemma {:induction false} GeneratedTextFits(x: Integrante)
    ensures FitsUtf(DateText(x.fechaNacimiento)) && FitsUtf(DateText(x.fechaIncorporacion))
    ensures FitsUtf(Rol(x)) && FitsUtf("")
    ensures x.Jugador? ==> FitsUtf(PosicionName(x.posicion))
    ensures x.Entrenador? ==> FitsUtf(EspecialidadName(x.especialidad))
  {
    DateTextLength(x.fechaNacimiento);
    DateTextLength(x.fechaIncorporacion);
    ShortFitsUtf(DateText(x.fechaNacimiento));
    ShortFitsUtf(DateText(x.fechaIncorporacion));
    ShortFitsUtf(Rol(x));
    ShortFitsUtf("");
    if x.Jugador? {
      ShortFitsUtf(PosicionName(x.posicion));
    } else {
      ShortFitsUtf(EspecialidadName(x.especialidad));
    }
  }

  /** The write calls for a member's DTO are never handed a null, and all succeed
      exactly when the member's texts fit. */
  lemma {:induction false} RecordWritable(x: Integrante)
    ensures NoNull(RecordFields(ToDto(x)))
    ensures Writable(RecordFields(ToDto(x))) <==> IsBinSafe(x)
  {
    var d := ToDto(x);
    var t := if d.rol == "Jugador" then PlayerFields(d) else CoachFields(d);
    GeneratedTextFits(x);
    CommonWritable(d);
    WritableAppend(CommonFields(d), t);
    if x.Jugador? {
      PlayerWritable(d);
      assert NoNull(t) by { assert Writable(t) ==> NoNull(t); }
    } else {
      CoachWritable(d);
      assert NoNull(t) by { assert Writable(t) ==> NoNull(t); }
    }
  }

  /** A member's write calls end well exactly when its texts fit; otherwise with
      UTFDataFormatException. */
  lemma {:induction false} RecordOutcome(x: Integrante)
    ensures Outcome(RecordFields(ToDto(x))) == if IsBinSafe(x) then Ok(()) else Thrown(UtfDataFormat)
  {
    RecordWritable(x);
    NoNullOutcome(RecordFields(ToDto(x)));
  }

  lemma {:induction false} BinFieldsCons(rs: seq<Integrante>)
    requires rs != []
    ensures BinFields(rs) == RecordFields(ToDto(rs[0])) + BinFields(rs[1..])
  {
    assert MapSeq(rs, ToDto)[1..] == MapSeq(rs[1..], ToDto);
    assert MapSeq(MapSeq(rs, ToDto), RecordFields)[1..] == MapSeq(MapSeq(rs[1..], ToDto), RecordFields);
  }

  /** fileWrite ends well exactly when every member's texts fit; otherwise it throws
      UTFDataFormatException. */
  lemma {:induction false} BinWriteOutcome(rs: seq<Integrante>)
    ensures Outcome(BinFields(rs)).Ok? <==> AllBinSafe(rs)
    ensures !Outcome(BinFields(rs)).Ok? ==> Outcome(BinFields(rs)) == Thrown(UtfDataFormat)
  {
    if rs != [] {
      BinFieldsCons(rs);
      RecordOutcome(rs[0]);
      OutcomeAppend(RecordFields(ToDto(rs[0])), BinFields(rs[1..]));
      BinWriteOutcome(rs[1..]);
      AllBinSafeCons(rs);
    }
  }

  // ---- the round trip ----

  /** The value a read call gives back for a written one: a double comes back
      canonical (writeDouble goes through doubleToLongBits). */
  function Canon(f: Field): Field {
    if f.DoubleField? then DoubleField(Canonical(f.x)) else f
  }

  function KindsOf(fs: seq<Field>): (ks: seq<Kind>)
    requires NoNull(fs)
    ensures |ks| == |fs| && forall i :: 0 <= i < |fs| ==> ks[i] == KindOf(fs[i])
  {
    if fs == [] then [] else [KindOf(fs[0])] + KindsOf(fs[1..])
  }

  lemma {:induction false} ReadFieldOfWrite(f: Field, rest: seq<byte>)
    requires FieldBytes(f).Ok?
    ensures ReadField(KindOf(f), FieldBytes(f).value + rest) == Ok((Canon(f), rest))
  {
    match f
    case LongField(l) => ReadLongOfWrite(l, rest);
    case UtfField(s) => ReadUtfOfWrite(s, rest);
    case DoubleField(x) => ReadDoubleOfWrite(x, rest);
    case IntField(n) => ReadIntOfWrite(n, rest);
  }

  /** A run of successful write calls is read back by the matching read calls, each
      value as written (doubles canonical), leaving exactly the bytes after it. */
  lemma {:induction false} ReadFieldsOfEmitted(fs: seq<Field>, rest: seq<byte>)
    requires Writable(fs)
    ensures NoNull(fs)
    ensures ReadFields(KindsOf(fs), Emitted(fs) + rest) == Ok((MapSeq(fs, Canon), rest))
  {
    assert NoNull(fs);
    if fs != [] {
      var tail := Emitted(fs[1..]);
      assert Emitted(fs) + rest == FieldBytes(fs[0]).value + (tail + rest);
      ReadFieldOfWrite(fs[0], tail + rest);
      assert forall i :: 1 <= i < |fs| ==> fs[1..][i - 1] == fs[i];
      ReadFieldsOfEmitted(fs[1..], rest);
      assert KindsOf(fs)[1..] == KindsOf(fs[1..]);
      assert MapSeq(fs, Canon) == [Canon(fs[0])] + MapSeq(fs[1..], Canon);
    }
  }

  function CanonicalOption(o: Option<Double>): Option<Double> {
    if o.Some? then Some(Canonical(o.value)) else None
  }

  /** The DTO fileRead builds from the bytes written for d: the doubles canonical,
      and null in the fields the record's layout does not hold. */
  function Stored(d: IntegranteDto): IntegranteDto {
    if d.rol == "Jugador" then
      d.(salario := Canonical(d.salario), especialidad := None,
         altura := CanonicalOption(d.altura), peso := CanonicalOption(d.peso))
    else
      d.(salario := Canonical(d.salario), posicion := None, dorsal := None, altura := None,
         peso := None, goles := None, partidosJugados := None)
  }

  /** The fields of the common part and of the rest, as read back. */
  lemma {:induction false} ReadCommon(d: IntegranteDto, more: seq<byte>)
    requires Writable(CommonFields(d))
    ensures ReadFields(CommonLayout, Emitted(CommonFields(d)) + more) == Ok((MapSeq(CommonFields(d), Canon), more))
    ensures IsLayout(MapSeq(CommonFields(d), Canon), CommonLayout)
    ensures MapSeq(CommonFields(d), Canon)[7] == UtfField(d.rol)
  {
    var c := CommonFields(d);
    ReadFieldsOfEmitted(c, more);
    CommonKinds(d);
  }

  lemma {:induction false} CommonKinds(d: IntegranteDto)
    ensures NoNull(CommonFields(d)) && KindsOf(CommonFields(d)) == CommonLayout
  {
    var c := CommonFields(d);
    assert !c[0].NullField? && !c[1].NullField? && !c[2].NullField? && !c[3].NullField?;
    assert !c[4].NullField? && !c[5].NullField? && !c[6].NullField? && !c[7].NullField?;
    var ks := KindsOf(c);
    assert ks[0] == LongKind && ks[1] == UtfKind && ks[2] == UtfKind && ks[3] == UtfKind;
    assert ks[4] == UtfKind && ks[5] == DoubleKind && ks[6] == UtfKind && ks[7] == UtfKind;
  }

  lemma {:induction false} ReadTail(d: IntegranteDto, t: seq<Field>, rest: seq<byte>)
    requires t == if d.rol == "Jugador" then PlayerFields(d) else CoachFields(d)
    requires Writable(t)
    ensures ReadFields(TailLayout(d.rol), Emitted(t) + rest) == Ok((MapSeq(t, Canon), rest))
    ensures IsLayout(MapSeq(t, Canon), TailLayout(d.rol))
    ensures d.rol == "Jugador" ==> d.altura.Some? && d.peso.Some?
  {
    ReadFieldsOfEmitted(t, rest);
    if d.rol == "Jugador" {
      PlayerKinds(d);
    } else {
      assert KindsOf(t) == CoachLayout;
    }
  }

  lemma {:induction false} PlayerKinds(d: IntegranteDto)
    requires Writable(PlayerFields(d))
    ensures NoNull(PlayerFields(d)) && KindsOf(PlayerFields(d)) == PlayerLayout
    ensures d.altura.Some? && d.peso.Some?
  {
    PlayerWritable(d);
    var ks := KindsOf(PlayerFields(d));
    assert ks[0] == UtfKind && ks[1] == IntKind && ks[2] == DoubleKind;
    assert ks[3] == DoubleKind && ks[4] == IntKind && ks[5] == IntKind;
  }

  lemma {:induction false} RecordDtoOfCanon(d: IntegranteDto)
    requires IsLayout(MapSeq(CommonFields(d), Canon), CommonLayout)
    requires IsLayout(MapSeq(if d.rol == "Jugador" then PlayerFields(d) else CoachFields(d), Canon), TailLayout(d.rol))
    requires d.rol == "Jugador" ==> d.altura.Some? && d.peso.Some?
    ensures MapSeq(CommonFields(d), Canon)[7].s == d.rol
    ensures RecordDto(MapSeq(CommonFields(d), Canon),
                      MapSeq(if d.rol == "Jugador" then PlayerFields(d) else CoachFields(d), Canon)) == Stored(d)
  {
    var c := MapSeq(CommonFields(d), Canon);
    assert c[7] == UtfField(d.rol);
  }

  /** A writable record is its common fields' bytes, then its tail's, each part
      writable on its own. */
  lemma {:induction false} RecordParts(d: IntegranteDto, rest: seq<byte>)
    requires Writable(RecordFields(d))
    ensures Writable(CommonFields(d))
    ensures Writable(if d.rol == "Jugador" then PlayerFields(d) else CoachFields(d))
    ensures Emitted(RecordFields(d)) + rest
            == Emitted(CommonFields(d)) + (Emitted(if d.rol == "Jugador" then PlayerFields(d) else CoachFields(d)) + rest)
  {
    var c := CommonFields(d);
    var t := if d.rol == "Jugador" then PlayerFields(d) else CoachFields(d);
    WritableAppend(c, t);
    OutcomeOk(c);
    EmittedAppend(c, t);
  }

  lemma {:induction false} ReadRecordOfWrite(d: IntegranteDto, rest: seq<byte>)
    requires Writable(RecordFields(d))
    ensures ReadRecord(Emitted(RecordFields(d)) + rest) == Ok((Stored(d), rest))
  {
    var t := if d.rol == "Jugador" then PlayerFields(d) else CoachFields(d);
    RecordParts(d, rest);
    ReadCommon(d, Emitted(t) + rest);
    ReadTail(d, t, rest);
    RecordDtoOfCanon(d);
  }

  /** A member's DTO read back gives the member: its data equal up to NaN, both
      timestamps the reading's `now`. */
  lemma {:induction false} DtoToModelOfStored(x: Integrante, now: Timestamp)
    ensures DtoToModel(Stored(ToDto(x)), now) == Ok(Restamped(CanonicalDoubles(x), now, now))
  {
    ToDateOfDateText(x.fechaNacimiento);
    ToDateOfDateText(x.fechaIncorporacion);
    match x
    case Jugador(_, _, _, _, _, _, _, _, _, _, _, _, _, _, _) =>
      PosicionValueOfName(x.posicion, PosicionName(x.posicion));
    case Entrenador(_, _, _, _, _, _, _, _, _, _) =>
      EspecialidadValueOfName(x.especialidad, EspecialidadName(x.especialidad));
  }

  /** The file fileWrite leaves for writable members: the first member's record, then
      the rest's. */
  lemma {:induction false} BinBytesCons(rs: seq<Integrante>)
    requires rs != [] && IsBinSafe(rs[0])
    ensures BinBytes(rs) == Emitted(RecordFields(ToDto(rs[0]))) + BinBytes(rs[1..])
  {
    var a := RecordFields(ToDto(rs[0]));
    BinFieldsCons(rs);
    RecordWritable(rs[0]);
    OutcomeOk(a);
    EmittedAppend(a, BinFields(rs[1..]));
  }

  /** Decoding that file reads the first member's record back, then the rest's. */
  lemma {:induction false} DecodeAllCons(rs: seq<Integrante>)
    requires rs != [] && IsBinSafe(rs[0])
    ensures DecodeAll(BinBytes(rs)) == Prepend([Stored(ToDto(rs[0]))], DecodeAll(BinBytes(rs[1..])))
  {
    var d := ToDto(rs[0]);
    BinBytesCons(rs);
    RecordWritable(rs[0]);
    ReadRecordOfWrite(d, BinBytes(rs[1..]));
    DecodeAllStep(BinBytes(rs));
  }

  lemma {:induction false} DecodeAllOfBinBytes(rs: seq<Integrante>)
    requires AllBinSafe(rs)
    ensures DecodeAll(BinBytes(rs)) == Ok(MapSeq(rs, x => Stored(ToDto(x))))
  {
    if rs != [] {
      AllBinSafeCons(rs);
      DecodeAllCons(rs);
      DecodeAllOfBinBytes(rs[1..]);
      assert MapSeq(rs, x => Stored(ToDto(x))) == [Stored(ToDto(rs[0]))] + MapSeq(rs[1..], x => Stored(ToDto(x)));
    }
  }

  /** Reading back what fileWrite wrote gives the same members in the same order,
      their data equal (NaN aside) and both timestamps the reading's `now`, as long
      as every member's texts fit writeUTF. */
  lemma {:induction false} BinReadOfWrite(entries: Entries, path: Path, rs: seq<Integrante>, now: Timestamp)
    requires AllBinSafe(rs)
    requires path !in entries || (entries[path].RegularFile? && entries[path].readable)
    ensures BinReadResult(WithData(entries, path, BinBytes(rs)), path, now) == Ok(Reloaded(rs, now))
  {
    WithDataReadable(entries, path, BinBytes(rs));
    DecodeAllOfBinBytes(rs);
    DtosToModelsOfStored(rs, now);
  }

  /** The DTOs read back map to the reloaded members. */
  lemma {:induction false} DtosToModelsOfStored(rs: seq<Integrante>, now: Timestamp)
    ensures DtosToModels(MapSeq(rs, x => Stored(ToDto(x))), now) == Ok(Reloaded(rs, now))
  {
    var ds := MapSeq(rs, x => Stored(ToDto(x)));
    forall i | 0 <= i < |rs| ensures DtoToModel(ds[i], now) == Ok(Reloaded(rs, now)[i]) {
      DtoToModelOfStored(rs[i], now);
    }
    var r := DtosToModels(ds, now);
    assert r.Ok?;
    assert r.value == Reloaded(rs, now);
  }
}
