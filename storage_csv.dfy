/** EquipoStorageCSV.kt: a header line, then one comma-separated line per member,
    in UTF-8. No field is quoted, so text holding ',' or a line break does not
    survive the trip. */
module StorageCsv {
  import opened Results
  import opened Binary
  import opened Text
  import opened Unicode
  import opened Dates
  import opened Models
  import opened Records
  import opened Mapper
  import opened Files

  /** The column names of the header fileWrite writes, in order. */
  const Columns: seq<string> :=
    ["id", "nombre", "apellidos", "fecha_nacimiento", "fecha_incorporacion", "salario", "pais", "rol",
     "especialidad", "posicion", "dorsal", "altura", "peso", "goles", "partidos_jugados"]

  /** The header line: the column names joined by ','. */
  const HeaderLine: string := Join(Columns, ',')

  // ---- writing ----

  /** The fields of the line fileWrite appends for x, from its string template:
      a player has "" as especialidad, a coach "" in the six player columns. */
  function CsvFields(x: Integrante): (fs: seq<string>)
    ensures |fs| == |Columns| && fs[7] == Rol(x)
    ensures x.Jugador? ==> fs[8] == ""
    ensures x.Entrenador? ==> fs[8] == EspecialidadName(x.especialidad) && forall k :: 9 <= k < 15 ==> fs[k] == ""
  {
    if x.Jugador? then
      [IntText(x.id), x.nombre, x.apellidos, DateText(x.fechaNacimiento), DateText(x.fechaIncorporacion),
       DoubleText(x.salario), x.pais, "Jugador", "", PosicionName(x.posicion), IntText(x.dorsal),
       DoubleText(x.altura), DoubleText(x.peso), IntText(x.goles), IntText(x.partidosJugados)]
    else
      [IntText(x.id), x.nombre, x.apellidos, DateText(x.fechaNacimiento), DateText(x.fechaIncorporacion),
       DoubleText(x.salario), x.pais, "Entrenador", EspecialidadName(x.especialidad), "", "", "", "", "", ""]
  }

  function CsvLine(x: Integrante): string {
    Join(CsvFields(x), ',')
  }

  /** The line of each member, in list order. */
  function RecordLines(rs: seq<Integrante>): seq<string> {
    MapSeq(rs, CsvLine)
  }

  /** The content fileWrite leaves: the header and each member's line, each ended by
      "\n", encoded in UTF-8. */
  function CsvBytes(rs: seq<Integrante>): seq<byte> {
    Utf8(Unlines([HeaderLine] + RecordLines(rs)))
  }

  /** The text of the file once the header h and the first n lines are written. */
  function CsvText(h: string, ls: seq<string>, n: nat): string
    requires n <= |ls|
  {
    Unlines([h] + ls[..n])
  }

  lemma {:induction false} CsvTextStart(h: string, ls: seq<string>)
    ensures CsvText(h, ls, 0) == h + "\n"
  {
    assert [h] + ls[..0] == [h];
    assert Unlines([h]) == h + "\n" + Unlines([]);
  }

  /** Appending line n extends the text by that line and "\n". */
  lemma {:induction false} CsvTextStep(h: string, ls: seq<string>, n: nat)
    requires n < |ls|
    ensures Utf8(CsvText(h, ls, n + 1)) == Utf8(CsvText(h, ls, n)) + Utf8(ls[n] + "\n")
  {
    assert [h] + ls[..n + 1] == ([h] + ls[..n]) + [ls[n]];
    UnlinesAppend([h] + ls[..n], ls[n]);
    assert CsvText(h, ls, n + 1) == CsvText(h, ls, n) + (ls[n] + "\n");
    Utf8Append(CsvText(h, ls, n), ls[n] + "\n");
  }

  /** The four outcomes of fileWrite, as one value. */
  function CsvWritten(entries: Entries, rs: seq<Integrante>, path: Path): WriteEffect {
    if Parent(path).None? then WriteEffect(Thrown(NullPointer), entries)
    else if !IsDirectory(entries, Parent(path).value) then WriteEffect(Err(StorageError(ParentDirectoryMissing)), entries)
    else if !CanOpenForWrite(entries, path) then WriteEffect(Thrown(FileNotFound), entries)
    else WriteEffect(Ok(()), WithData(entries, path, CsvBytes(rs)))
  }

  /** fileWrite. The parent directory is checked first (getParentFile is null for a
      bare relative name, and `.exists()` on it throws); then the header and the
      lines are written. */
  method CsvWrite(fs: FileSystem, rs: seq<Integrante>, path: Path) returns (r: Result<()>)
    modifies fs
    ensures Parent(path).None? ==> r == Thrown(NullPointer) && fs.entries == old(fs.entries)
    ensures Parent(path).Some? && !IsDirectory(old(fs.entries), Parent(path).value) ==>
              r == Err(StorageError(ParentDirectoryMissing)) && fs.entries == old(fs.entries)
    ensures Parent(path).Some? && IsDirectory(old(fs.entries), Parent(path).value)
            && !CanOpenForWrite(old(fs.entries), path) ==>
              r == Thrown(FileNotFound) && fs.entries == old(fs.entries)
    ensures Parent(path).Some? && IsDirectory(old(fs.entries), Parent(path).value)
            && CanOpenForWrite(old(fs.entries), path) ==>
              r == Ok(()) && fs.entries == WithData(old(fs.entries), path, CsvBytes(rs))
    ensures WriteEffect(r, fs.entries) == CsvWritten(old(fs.entries), rs, path)
  {
    var parent := Parent(path);
    if parent.None? {
      return Thrown(NullPointer);
    }
    if !IsDirectory(fs.entries, parent.value) {
      return Err(StorageError(ParentDirectoryMissing));
    }
    if !CanOpenForWrite(fs.entries, path) {
      return Thrown(FileNotFound);
    }
    var lines := RecordLines(rs);
    WriteLines(fs, path, HeaderLine, lines);
    assert lines[..|lines|] == lines;
    return Ok(());
  }

  /** writeText of the header h, which replaces the file, then appendText of each
      line, in order. */
  method WriteLines(fs: FileSystem, path: Path, h: string, ls: seq<string>)
    modifies fs
    ensures fs.entries == WithData(old(fs.entries), path, Utf8(CsvText(h, ls, |ls|)))
  {
    fs.entries := WithData(fs.entries, path, Utf8(h + "\n"));
    CsvTextStart(h, ls);
    var i := 0;
    while i < |ls|
      invariant 0 <= i <= |ls|
      invariant fs.entries == WithData(old(fs.entries), path, Utf8(CsvText(h, ls, i)))
    {
      CsvTextStep(h, ls, i);
      WithDataTwice(old(fs.entries), path, Utf8(CsvText(h, ls, i)), Utf8(CsvText(h, ls, i + 1)));
      fs.entries := WithData(fs.entries, path, fs.entries[path].data + Utf8(ls[i] + "\n"));
      i := i + 1;
    }
  }

  // ---- reading ----

  /** The DTO one line builds. The constructor's arguments are evaluated in column
      order: id and salario by toLong and toDouble (which throw NumberFormatException),
      every missing column by IndexOutOfBoundsException, the player numbers by
      toIntOrNull and toDoubleOrNull (an empty column is null). */
  function LineToDto(line: string): (r: Result<IntegranteDto>)
    ensures var f := Split(line, ',');
      r.Ok? ==> |f| >= 15 && ParseInt64(f[0]) == Some(r.value.id)
                && r.value.nombre == f[1] && r.value.apellidos == f[2]
                && r.value.fechaNacimiento == f[3] && r.value.fechaIncorporacion == f[4]
                && ParseDouble(f[5]) == Some(r.value.salario) && r.value.pais == f[6] && r.value.rol == f[7]
                && r.value.especialidad == Some(f[8]) && r.value.posicion == Some(f[9])
                && r.value.dorsal == ParseInt32(f[10]) && r.value.altura == ParseDouble(f[11])
                && r.value.peso == ParseDouble(f[12]) && r.value.goles == ParseInt32(f[13])
                && r.value.partidosJugados == ParseInt32(f[14])
    ensures var f := Split(line, ',');
      !r.Ok? <==> ParseInt64(f[0]).None? || |f| < 6 || ParseDouble(f[5]).None? || |f| < 15
    ensures var f := Split(line, ',');
      !r.Ok? ==> r == (if ParseInt64(f[0]).None? || (|f| >= 6 && ParseDouble(f[5]).None?)
                       then Thrown(NumberFormat) else Thrown(IndexOutOfBounds))
  {
    var f := Split(line, ',');
    var id :- ToLong(f[0]);
    if |f| < 6 then Thrown(IndexOutOfBounds)
    else
      var salario :- ToDouble(f[5]);
      if |f| < 15 then Thrown(IndexOutOfBounds)
      else
        Ok(IntegranteDto(id, f[1], f[2], f[3], f[4], salario, f[6], f[7], Some(f[8]), Some(f[9]),
                         ParseInt32(f[10]), ParseDouble(f[11]), ParseDouble(f[12]),
                         ParseInt32(f[13]), ParseInt32(f[14])))
  }

  /** One line to a member: its DTO, then IntegranteDTO.toModel. */
  function LineToModel(line: string, now: Timestamp): (r: Result<Integrante>)
    ensures !r.Err?
  {
    var d :- LineToDto(line);
    DtoToModel(d, now)
  }

  /** The lines mapped in order; the first line that throws decides the outcome. */
  function LinesToModels(ls: seq<string>, now: Timestamp): (r: Result<seq<Integrante>>)
    ensures !r.Err?
    ensures r.Ok? <==> forall i :: 0 <= i < |ls| ==> LineToModel(ls[i], now).Ok?
    ensures r.Ok? ==> |r.value| == |ls| && forall i :: 0 <= i < |ls| ==> LineToModel(ls[i], now) == Ok(r.value[i])
    ensures !r.Ok? ==> exists i :: 0 <= i < |ls| && !LineToModel(ls[i], now).Ok? && r == LineToModel(ls[i], now).PropagateFailure()
                                   && forall j :: 0 <= j < i ==> LineToModel(ls[j], now).Ok?
  {
    Collect(MapSeq(ls, l => LineToModel(l, now)))
  }

  /** List.drop(1). */
  function DropFirst(ls: seq<string>): (r: seq<string>)
    ensures ls == [] ==> r == []
    ensures ls != [] ==> r == ls[1..]
  {
    if ls == [] then [] else ls[1..]
  }

  /** fileRead: StorageError unless the path names a readable regular file; then the
      UTF-8 text is split into lines, the first line (the header) is dropped and
      every other line becomes one member. */
  function CsvRead(entries: Entries, path: Path, now: Timestamp): (r: Result<seq<Integrante>>)
    ensures !IsReadableFile(entries, path) ==> r == Err(StorageError(NotAReadableFile))
    ensures IsReadableFile(entries, path) ==> !r.Err?
    ensures IsReadableFile(entries, path) && r.Ok? ==>
      var ls := Lines(Utf8Decode(entries[path].data));
      |r.value| == |DropFirst(ls)|
      && forall i :: 0 <= i < |r.value| ==> LineToModel(ls[i + 1], now) == Ok(r.value[i])
  {
    if !IsReadableFile(entries, path) then Err(StorageError(NotAReadableFile))
    else LinesToModels(DropFirst(Lines(Utf8Decode(entries[path].data))), now)
  }

  // ---- the round trip ----

  /** Upper- and lower-case letters and '_' only. */
  predicate IsWord(s: string) {
    forall i :: 0 <= i < |s| ==> 'a' <= s[i] <= 'z' || 'A' <= s[i] <= 'Z' || s[i] == '_'
  }

  lemma {:induction false} WordIsPlain(s: string)
    requires IsWord(s)
    ensures IsPlainText(s)
  {
  }

  lemma {:induction false} PosicionNameIsPlain(p: Posicion)
    ensures IsPlainText(PosicionName(p))
  {
    var n := PosicionName(p);
    match p
    case CENTROCAMPISTA => assert IsWord(n);
    case DELANTERO => assert IsWord(n);
    case PORTERO => assert IsWord(n);
    case DEFENSA => assert IsWord(n);
    WordIsPlain(n);
  }

  lemma {:induction false} EspecialidadNameIsPlain(e: Especialidad)
    ensures IsPlainText(EspecialidadName(e))
  {
    var n := EspecialidadName(e);
    match e
    case ENTRENADOR_ASISTENTE => assert IsWord(n);
    case ENTRENADOR_PORTEROS => assert IsWord(n);
    case ENTRENADOR_PRINCIPAL => assert IsWord(n);
    WordIsPlain(n);
  }

  /** The constant names a line can hold are plain. */
  lemma {:induction false} NamesArePlain(x: Integrante)
    ensures IsPlainText(Rol(x)) && IsPlainText("")
    ensures x.Jugador? ==> IsPlainText(PosicionName(x.posicion))
    ensures x.Entrenador? ==> IsPlainText(EspecialidadName(x.especialidad))
  {
    if x.Jugador? {
      PosicionNameIsPlain(x.posicion);
      assert IsWord("Jugador");
    } else {
      EspecialidadNameIsPlain(x.especialidad);
      assert IsWord("Entrenador");
    }
    WordIsPlain(Rol(x));
  }

  /** The text the line writes for a number or a date is plain. */
  lemma {:induction false} GeneratedTextIsPlain(x: Integrante)
    ensures IsPlainText(IntText(x.id)) && IsPlainText(DoubleText(x.salario))
    ensures IsPlainText(DateText(x.fechaNacimiento)) && IsPlainText(DateText(x.fechaIncorporacion))
    ensures x.Jugador? ==>
      IsPlainText(IntText(x.dorsal))
      && IsPlainText(DoubleText(x.altura)) && IsPlainText(DoubleText(x.peso))
      && IsPlainText(IntText(x.goles)) && IsPlainText(IntText(x.partidosJugados))
  {
    IntTextIsPlain(x.id);
    IntTextIsPlain(DoubleToLongBits(x.salario));
    DateTextIsPlain(x.fechaNacimiento);
    DateTextIsPlain(x.fechaIncorporacion);
    if x.Jugador? {
      IntTextIsPlain(x.dorsal);
      IntTextIsPlain(DoubleToLongBits(x.altura));
      IntTextIsPlain(DoubleToLongBits(x.peso));
      IntTextIsPlain(x.goles);
      IntTextIsPlain(x.partidosJugados);
    }
  }

  /** Fifteen plain fields make a list of plain fields. */
  lemma {:induction false} FifteenArePlain(a0: string, a1: string, a2: string, a3: string, a4: string, a5: string,
                        a6: string, a7: string, a8: string, a9: string, a10: string, a11: string,
                        a12: string, a13: string, a14: string)
    requires IsPlainText(a0) && IsPlainText(a1) && IsPlainText(a2) && IsPlainText(a3) && IsPlainText(a4)
             && IsPlainText(a5) && IsPlainText(a6) && IsPlainText(a7) && IsPlainText(a8) && IsPlainText(a9)
             && IsPlainText(a10) && IsPlainText(a11) && IsPlainText(a12) && IsPlainText(a13) && IsPlainText(a14)
    ensures var fs := [a0, a1, a2, a3, a4, a5, a6, a7, a8, a9, a10, a11, a12, a13, a14];
            forall k :: 0 <= k < |fs| ==> IsPlainText(fs[k])
  {
  }

  /** In a safe member no field of its line holds ',' or a line break. */
  lemma {:induction false} CsvFieldsArePlain(x: Integrante)
    requires IsCsvSafe(x)
    ensures forall k :: 0 <= k < 15 ==> IsPlainText(CsvFields(x)[k])
  {
    GeneratedTextIsPlain(x);
    NamesArePlain(x);
    if x.Jugador? {
      FifteenArePlain(IntText(x.id), x.nombre, x.apellidos, DateText(x.fechaNacimiento), DateText(x.fechaIncorporacion),
                      DoubleText(x.salario), x.pais, Rol(x), "", PosicionName(x.posicion), IntText(x.dorsal),
                      DoubleText(x.altura), DoubleText(x.peso), IntText(x.goles), IntText(x.partidosJugados));
    } else {
      FifteenArePlain(IntText(x.id), x.nombre, x.apellidos, DateText(x.fechaNacimiento), DateText(x.fechaIncorporacion),
                      DoubleText(x.salario), x.pais, Rol(x), EspecialidadName(x.especialidad), "", "", "", "", "", "");
    }
  }

  lemma {:induction false} HeaderIsOneLine()
    ensures NoLineBreak(HeaderLine)
  {
    forall k | 0 <= k < |Columns| ensures NoLineBreak(Columns[k]) {
      var c := Columns[k];
      assert forall i :: 0 <= i < |c| ==> 'a' <= c[i] <= 'z' || c[i] == '_';
    }
    JoinNoLineBreak(Columns, ',');
  }

  lemma {:induction false} CsvLineIsOneLine(x: Integrante)
    requires IsCsvSafe(x)
    ensures NoLineBreak(CsvLine(x))
  {
    CsvFieldsArePlain(x);
    var fs := CsvFields(x);
    assert forall j :: 0 <= j < |fs| ==> NoLineBreak(fs[j]);
    JoinNoLineBreak(fs, ',');
  }

  /** Fifteen plain fields joined into a line read back as those fields. */
  lemma {:induction false} LineToDtoOfFifteen(a0: string, a1: string, a2: string, a3: string, a4: string, a5: string,
                           a6: string, a7: string, a8: string, a9: string, a10: string, a11: string,
                           a12: string, a13: string, a14: string)
    requires IsPlainText(a0) && IsPlainText(a1) && IsPlainText(a2) && IsPlainText(a3) && IsPlainText(a4)
             && IsPlainText(a5) && IsPlainText(a6) && IsPlainText(a7) && IsPlainText(a8) && IsPlainText(a9)
             && IsPlainText(a10) && IsPlainText(a11) && IsPlainText(a12) && IsPlainText(a13) && IsPlainText(a14)
    requires ParseInt64(a0).Some? && ParseDouble(a5).Some?
    ensures LineToDto(Join([a0, a1, a2, a3, a4, a5, a6, a7, a8, a9, a10, a11, a12, a13, a14], ',')) ==
      Ok(IntegranteDto(ParseInt64(a0).value, a1, a2, a3, a4, ParseDouble(a5).value, a6, a7, Some(a8), Some(a9),
                       ParseInt32(a10), ParseDouble(a11), ParseDouble(a12), ParseInt32(a13), ParseInt32(a14)))
  {
    var fs := [a0, a1, a2, a3, a4, a5, a6, a7, a8, a9, a10, a11, a12, a13, a14];
    FifteenArePlain(a0, a1, a2, a3, a4, a5, a6, a7, a8, a9, a10, a11, a12, a13, a14);
    SplitOfJoin(fs, ',');
  }

  /** A safe member's line gives back its DTO, the doubles up to NaN. */
  lemma {:induction false} LineToDtoOfCsvLine(x: Integrante)
    requires IsCsvSafe(x)
    ensures LineToDto(CsvLine(x)) == Ok(ToDto(CanonicalDoubles(x)))
  {
    GeneratedTextIsPlain(x);
    NamesArePlain(x);
    ParseInt64OfIntText(x.id);
    ParseDoubleOfDoubleText(x.salario);
    ParseOfEmpty();
    if x.Jugador? {
      ParseInt32OfIntText(x.dorsal);
      ParseDoubleOfDoubleText(x.altura);
      ParseDoubleOfDoubleText(x.peso);
      ParseInt32OfIntText(x.goles);
      ParseInt32OfIntText(x.partidosJugados);
      LineToDtoOfFifteen(IntText(x.id), x.nombre, x.apellidos, DateText(x.fechaNacimiento), DateText(x.fechaIncorporacion),
                         DoubleText(x.salario), x.pais, "Jugador", "", PosicionName(x.posicion), IntText(x.dorsal),
                         DoubleText(x.altura), DoubleText(x.peso), IntText(x.goles), IntText(x.partidosJugados));
    } else {
      LineToDtoOfFifteen(IntText(x.id), x.nombre, x.apellidos, DateText(x.fechaNacimiento), DateText(x.fechaIncorporacion),
                         DoubleText(x.salario), x.pais, "Entrenador", EspecialidadName(x.especialidad), "", "", "", "", "", "");
    }
  }

  lemma {:induction false} LineToModelOfCsvLine(x: Integrante, now: Timestamp)
    requires IsCsvSafe(x)
    ensures LineToModel(CsvLine(x), now) == Ok(Restamped(CanonicalDoubles(x), now, now))
  {
    LineToDtoOfCsvLine(x);
    DtoToModelOfToDto(CanonicalDoubles(x), now);
  }

  lemma {:induction false} LinesToModelsOfRecordLines(rs: seq<Integrante>, now: Timestamp)
    requires forall i :: 0 <= i < |rs| ==> IsCsvSafe(rs[i])
    ensures LinesToModels(RecordLines(rs), now) == Ok(Reloaded(rs, now))
  {
    var ls := RecordLines(rs);
    forall i | 0 <= i < |rs| ensures LineToModel(ls[i], now) == Ok(Reloaded(rs, now)[i]) {
      LineToModelOfCsvLine(rs[i], now);
    }
    var r := LinesToModels(ls, now);
    assert r.Ok?;
    assert r.value == Reloaded(rs, now);
  }

  /** Reading back what fileWrite wrote gives the same members in the same order,
      their data equal (NaN aside) and both timestamps the reading's `now`, as long
      as no text field holds ',' or a line break. */
  lemma {:induction false} CsvReadOfWrite(entries: Entries, path: Path, rs: seq<Integrante>, now: Timestamp)
    requires forall i :: 0 <= i < |rs| ==> IsCsvSafe(rs[i])
    requires path !in entries || (entries[path].RegularFile? && entries[path].readable)
    ensures CsvRead(WithData(entries, path, CsvBytes(rs)), path, now) == Ok(Reloaded(rs, now))
  {
    var ls := [HeaderLine] + RecordLines(rs);
    WithDataReadable(entries, path, CsvBytes(rs));
    Utf8DecodeOfUtf8(Unlines(ls));
    forall k | 0 <= k < |ls| ensures NoLineBreak(ls[k]) {
      if k == 0 {
        HeaderIsOneLine();
      } else {
        CsvLineIsOneLine(rs[k - 1]);
      }
    }
    LinesOfUnlines(ls);
    assert DropFirst(ls) == RecordLines(rs);
    LinesToModelsOfRecordLines(rs, now);
  }

  /** An Entrenador's line holds its especialidad in column 8 and leaves the six
      player columns empty, which read back as null. */
  lemma {:induction false} EntrenadorLineHasNoPlayerFields(x: Integrante)
    requires x.Entrenador? && IsCsvSafe(x)
    ensures var d := LineToDto(CsvLine(x));
      d.Ok? && d.value.rol == "Entrenador" && d.value.especialidad == Some(EspecialidadName(x.especialidad))
      && d.value.dorsal.None? && d.value.altura.None? && d.value.peso.None?
      && d.value.goles.None? && d.value.partidosJugados.None?
  {
    LineToDtoOfCsvLine(x);
  }

  /** A Jugador's line leaves column 8 empty and holds all six player numbers, which
      read back as the member's own. */
  lemma {:induction false} JugadorLineHasNoEspecialidad(x: Integrante)
    requires x.Jugador? && IsCsvSafe(x)
    ensures var d := LineToDto(CsvLine(x));
      d.Ok? && d.value.rol == "Jugador" && d.value.especialidad == Some("")
      && d.value.posicion == Some(PosicionName(x.posicion)) && d.value.dorsal == Some(x.dorsal)
      && d.value.goles == Some(x.goles) && d.value.partidosJugados == Some(x.partidosJugados)
      && d.value.altura.Some? && d.value.peso.Some?
  {
    LineToDtoOfCsvLine(x);
  }
}
