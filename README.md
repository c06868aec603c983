# NewTeam roster core, modelled in Dafny

NewTeam keeps the roster of a football club: players (`Jugador`) and coaches
(`Entrenador`), both kinds of `Integrante`. This project models the core of the
Kotlin application and proves properties of the model:

- **validator** (`IntegranteValidator`): the chain of field checks, where the first
  failure wins, and `validarJugador`, whose result `validar` drops;
- **mappers** (`IntegranteMapper`): database rows, DTOs and XML DTOs to members and
  back, with the `!!`, `valueOf`, `LocalDate.parse` and `toInt` failures as exceptions;
- **copy helpers** (`Extensions`): `Jugador.copy` and `Entrenador.copy`, which put one
  timestamp into both `createdAt` and `updatedAt`;
- **CSV adapter** (`EquipoStorageCSV`): a header plus one unquoted comma-separated line
  per member, in UTF-8;
- **binary adapter** (`EquipoStorageBIN`): `RandomAccessFile` field-by-field writes
  (`writeLong`, `writeUTF` in Java's modified UTF-8, `writeDouble`, `writeInt`) and
  the read loop that runs until the file pointer reaches the length;
- **format dispatcher** (`EquipoStorageImpl`): the adapter is chosen by file-name
  suffix;
- **repository** (`EquipoRepositoryImpl`): a class over the table and its identity
  counter;
- **service** (`EquipoServiceImpl`): a class over the repository and a cache of
  members by id.

The model is layered one module per concern:
- `Results` holds the `Result` type (Ok, a `GestionErrors` value, or an escaping JVM
  exception).
- `Binary`, `Unicode`, `Text` and `Dates` model the JDK behaviour the adapters rely
  on: big-endian integers, IEEE doubles as bit patterns, UTF-16, modified UTF-8 and
  UTF-8, number text, and ISO 8601 calendar dates as `LocalDate` writes and parses
  them.
- `Models` and `Records` hold the entities.
- `Files` models the file system as a map from paths to directories or byte files.
- The rest follow the source files.

The state-changing parts take the source's imperative form:
- the CSV and binary writers are methods over a `FileSystem` object;
- the binary reader is a `while` loop over the bytes;
- the repository and the service are classes whose methods change their fields.

Every such method is proved against a specification function. Lemmas about those
functions give the round trips:
- read after write, for the CSV and binary files;
- `toModel` after `toDto`, `toXmlDTO` and `toEntity`;
- parse after print, for numbers and dates.

They also give the repository's find/save/delete laws, the first-failure order of
the validator and the exclusiveness of the file suffixes.

The model follows the code as written and keeps every discarded result:
- `validar` ignores `validarJugador`;
- `save` ignores `validar`;
- `update` writes the old row back;
- the dispatcher's `fileWrite` returns Ok for an adapter's StorageError.

## Model

| member | source | states |
|---|---|---|
| Results.Collect | src/main/kotlin/org/example/newteam/gestion/storage/EquipoStorageBIN.kt:78 | `list.map { it.toModel() }` where a throw escapes: Ok exactly when every element is Ok, then their values in order; otherwise the failure of an element that failed |
| Binary.ReadInt | src/main/kotlin/org/example/newteam/gestion/storage/EquipoStorageBIN.kt:51 | readInt succeeds exactly when four bytes remain, and consumes exactly four |
| Binary.ReadIntOfWrite | src/main/kotlin/org/example/newteam/gestion/storage/EquipoStorageBIN.kt:114 | readInt of what writeInt wrote gives the same 32-bit value and the bytes after it |
| Binary.ReadLong | src/main/kotlin/org/example/newteam/gestion/storage/EquipoStorageBIN.kt:41 | readLong succeeds exactly when eight bytes remain, and consumes exactly eight |
| Binary.ReadLongOfWrite | src/main/kotlin/org/example/newteam/gestion/storage/EquipoStorageBIN.kt:105 | readLong of what writeLong wrote gives the same 64-bit id and the bytes after it |
| Binary.ReadDouble | src/main/kotlin/org/example/newteam/gestion/storage/EquipoStorageBIN.kt:46 | readDouble succeeds exactly when eight bytes remain, and consumes exactly eight |
| Binary.ReadDoubleOfWrite | src/main/kotlin/org/example/newteam/gestion/storage/EquipoStorageBIN.kt:110 | readDouble of what writeDouble wrote gives the same double, every NaN read back as the canonical NaN |
| Unicode.WriteUtf | src/main/kotlin/org/example/newteam/gestion/storage/EquipoStorageBIN.kt:106 | writeUTF succeeds exactly when the modified UTF-8 form is under 65536 bytes, writing a 2-byte length and that form; otherwise it throws UTFDataFormatException |
| Unicode.ReadUtf | src/main/kotlin/org/example/newteam/gestion/storage/EquipoStorageBIN.kt:42 | readUTF consumes at least the 2-byte length and leaves a suffix of its input |
| Unicode.ReadUtfOfWrite | src/main/kotlin/org/example/newteam/gestion/storage/EquipoStorageBIN.kt:42 | readUTF of what writeUTF wrote gives the same string and the bytes after it |
| Unicode.FromUtf16OfToUtf16 | src/main/kotlin/org/example/newteam/gestion/storage/EquipoStorageBIN.kt:106 | a string goes to UTF-16 code units and back unchanged |
| Unicode.Mutf8DecodeOfMutf8 | src/main/kotlin/org/example/newteam/gestion/storage/EquipoStorageBIN.kt:42 | modified UTF-8 decoding inverts its encoding on every sequence of code units |
| Unicode.UtfSizeBound | src/main/kotlin/org/example/newteam/gestion/storage/EquipoStorageBIN.kt:106 | the encoded length of a string is at most six bytes per character |
| Unicode.Utf8DecodeOfUtf8 | src/main/kotlin/org/example/newteam/gestion/storage/EquipoStorageCSV.kt:33 | readLines' UTF-8 decoding inverts writeText's UTF-8 encoding on every string |
| Unicode.Utf8Append | src/main/kotlin/org/example/newteam/gestion/storage/EquipoStorageCSV.kt:73 | the UTF-8 bytes of two texts appended are the bytes of each, appended, as appendText needs |
| Text.SplitOfJoin | src/main/kotlin/org/example/newteam/gestion/storage/EquipoStorageCSV.kt:35 | `split(",")` of fields joined by ',' gives those fields back when none holds a ',' |
| Text.LinesOfUnlines | src/main/kotlin/org/example/newteam/gestion/storage/EquipoStorageCSV.kt:33 | readLines of lines each ended by "\n" and free of line breaks gives those lines back |
| Text.ToLong | src/main/kotlin/org/example/newteam/gestion/storage/EquipoStorageCSV.kt:38 | toLong gives a value or throws NumberFormatException |
| Text.ParseInt64OfIntText | src/main/kotlin/org/example/newteam/gestion/storage/EquipoStorageCSV.kt:38 | toLong of the decimal text of a 64-bit id gives that id |
| Text.ParseInt32OfIntText | src/main/kotlin/org/example/newteam/gestion/storage/EquipoStorageCSV.kt:48 | toIntOrNull of the decimal text of a 32-bit number gives that number |
| Text.ParseOfEmpty | src/main/kotlin/org/example/newteam/gestion/storage/EquipoStorageCSV.kt:48-52 | an empty column does not parse as a number, so toIntOrNull gives null for a coach's player columns |
| Text.ToDouble | src/main/kotlin/org/example/newteam/gestion/storage/EquipoStorageCSV.kt:43 | toDouble gives a value or throws NumberFormatException |
| Text.ParseDoubleOfDoubleText | src/main/kotlin/org/example/newteam/gestion/storage/EquipoStorageCSV.kt:43 | the text a double is written as parses back to that double, NaN canonical |
| Text.IntTextIsPlain | src/main/kotlin/org/example/newteam/gestion/storage/EquipoStorageCSV.kt:73 | the decimal text of a number holds no ',' and no line break |
| Text.ToInt | src/main/kotlin/org/example/newteam/gestion/mapper/IntegranteMapper.kt:101 | toInt gives a value or throws NumberFormatException |
| Dates.IsBeforeTotal | src/main/kotlin/org/example/newteam/gestion/validator/IntegranteValidator.kt:34-42 | the date comparisons the validator makes form a strict total order |
| Dates.ToDate | src/main/kotlin/org/example/newteam/gestion/mapper/IntegranteMapper.kt:61 | LocalDate.parse gives a date or throws DateTimeParseException |
| Dates.ParseDateOfDateText | src/main/kotlin/org/example/newteam/gestion/mapper/IntegranteMapper.kt:61 | LocalDate.parse of the ISO text of any date, years beyond four digits and negative years included, gives that date |
| Dates.ToDateOfDateText | src/main/kotlin/org/example/newteam/gestion/mapper/IntegranteMapper.kt:61-62 | the dates a DTO carries as text come back as the same dates |
| Dates.DateTextLength | src/main/kotlin/org/example/newteam/gestion/storage/EquipoStorageBIN.kt:108-109 | the ISO text of a date is at most 16 characters long |
| Dates.DateTextIsPlain | src/main/kotlin/org/example/newteam/gestion/storage/EquipoStorageCSV.kt:73 | the ISO text of a date holds no ',' and no line break |
| Models.PosicionValueOf | src/main/kotlin/org/example/newteam/gestion/models/Posicion.kt:6-8 | Posicion.valueOf gives a constant or throws IllegalArgumentException |
| Models.PosicionValueOfName | src/main/kotlin/org/example/newteam/gestion/mapper/IntegranteMapper.kt:65 | Posicion.valueOf of a constant's name gives that constant, and only its name does |
| Models.EspecialidadValueOf | src/main/kotlin/org/example/newteam/gestion/models/Especialidad.kt:6-8 | Especialidad.valueOf gives a constant or throws IllegalArgumentException |
| Models.EspecialidadValueOfName | src/main/kotlin/org/example/newteam/gestion/mapper/IntegranteMapper.kt:82 | Especialidad.valueOf of a constant's name gives that constant, and only its name does |
| Mapper.Unwrap | src/main/kotlin/org/example/newteam/gestion/mapper/IntegranteMapper.kt:65-70 | `!!` gives the value it is handed, and throws NullPointerException on null |
| Mapper.EntityToModel | src/main/kotlin/org/example/newteam/gestion/mapper/IntegranteMapper.kt:13-49 | a row becomes a Jugador exactly when rol is "Jugador", with the row's common fields and both its timestamps; it succeeds exactly when the variant's fields are present and its enum name is valid, and otherwise throws NullPointerException or IllegalArgumentException |
| Mapper.DtoToVariant | src/main/kotlin/org/example/newteam/gestion/mapper/IntegranteMapper.kt:56-84 | once the dates are read: Ok exactly when the variant's fields are present with a constant's name, and then a Jugador exactly when rol is "Jugador", each player field or the especialidad the DTO's; otherwise NPE or IllegalArgumentException |
| Mapper.DtoToModel | src/main/kotlin/org/example/newteam/gestion/mapper/IntegranteMapper.kt:55-85 | Ok exactly when both dates parse and the variant's fields are present with a constant's name; then a Jugador exactly when rol is "Jugador", with the DTO's id, names, salario, pais, parsed dates, posicion by valueOf, dorsal, altura, peso, goles and partidos (or especialidad by valueOf), both timestamps `now`; otherwise DateTimeParse, NPE or IllegalArgumentException |
| Mapper.XmlToJugador | src/main/kotlin/org/example/newteam/gestion/mapper/IntegranteMapper.kt:91-106 | Ok exactly when every player field is present, posicion a constant's name and each number well formed; then a Jugador with the DTO's common fields, posicion by valueOf and each number the parse of its text; otherwise NPE, IllegalArgument or NumberFormatException |
| Mapper.XmlToModel | src/main/kotlin/org/example/newteam/gestion/mapper/IntegranteMapper.kt:90-120 | Ok exactly when both dates parse and the variant's fields read; then the variant by rol, the common fields, the parsed dates, every player field the parse of its text (or especialidad by valueOf), both timestamps `now`; otherwise DateTimeParse, NPE, IllegalArgument or NumberFormatException |
| Mapper.ToDto | src/main/kotlin/org/example/newteam/gestion/mapper/IntegranteMapper.kt:173-214 | the DTO carries the member's rol and id; a player's has especialidad "" and its posicion's name, a coach's has its especialidad's name and posicion "" |
| Mapper.ToXmlDto | src/main/kotlin/org/example/newteam/gestion/mapper/IntegranteMapper.kt:126-167 | the XML DTO carries rol and id; a player's has especialidad "" and the decimal text of its dorsal, a coach's its especialidad's name |
| Mapper.ToEntity | src/main/kotlin/org/example/newteam/gestion/repositories/EquipoRepositoryImpl.kt:38-39 | the row carries the member's rol, common fields and both timestamps |
| Mapper.EntityToModelOfToEntity | src/main/kotlin/org/example/newteam/gestion/repositories/EquipoRepositoryImpl.kt:38-44 | a member stored as a row and read back is the same member |
| Mapper.DtoToModelOfToDto | src/main/kotlin/org/example/newteam/gestion/mapper/IntegranteMapper.kt:55-85 | toDto then toModel gives the same member, both timestamps `now` |
| Mapper.XmlToModelOfToXmlDto | src/main/kotlin/org/example/newteam/gestion/mapper/IntegranteMapper.kt:90-167 | toXmlDTO then toModel gives the same member, both timestamps `now`, a player's altura and peso NaN-canonical |
| Mapper.Reloaded | src/main/kotlin/org/example/newteam/gestion/storage/EquipoStorageCSV.kt:33-53 | what a reading gives for written members: each member with canonical doubles and both timestamps `now`, in order |
| Extensions.CopyJugador | src/main/kotlin/org/example/newteam/gestion/extensions/Extensions.kt:29-64 | the copy is a Jugador whose createdAt and updatedAt are both timeStamp |
| Extensions.CopyEntrenador | src/main/kotlin/org/example/newteam/gestion/extensions/Extensions.kt:78-103 | the copy is an Entrenador whose createdAt and updatedAt are both timeStamp |
| Extensions.Stamp | src/main/kotlin/org/example/newteam/gestion/repositories/EquipoRepositoryImpl.kt:35-39 | `copy(timeStamp = t)`: the same variant, every data field kept, both timestamps t |
| Extensions.CopyJugadorDefaults | src/main/kotlin/org/example/newteam/gestion/extensions/Extensions.kt:29-64 | a copy taking every default equals the original but for the two timestamps, createdAt reset too |
| Extensions.CopyEntrenadorDefaults | src/main/kotlin/org/example/newteam/gestion/extensions/Extensions.kt:78-103 | the same for a coach |
| Extensions.CopyJugadorDorsal | src/main/kotlin/org/example/newteam/gestion/extensions/Extensions.kt:39-58 | overriding only newDorsal changes the dorsal and no other data field |
| Extensions.CopyEntrenadorEspecialidad | src/main/kotlin/org/example/newteam/gestion/extensions/Extensions.kt:87-101 | a coach's copy keeps especialidad unless a new one is passed, and then has the new one |
| Validator.ValidarJugador | src/main/kotlin/org/example/newteam/gestion/validator/IntegranteValidator.kt:66-90 | validarJugador returns the player unchanged or an InvalidoError |
| Validator.Validar | src/main/kotlin/org/example/newteam/gestion/validator/IntegranteValidator.kt:23-59 | validar returns the member unchanged or an InvalidoError |
| Validator.FirstFailure | src/main/kotlin/org/example/newteam/gestion/validator/IntegranteValidator.kt:26-52 | no reason exactly when no check fails; otherwise the reason of a failing check that every check before it passes |
| Validator.ValidarIsFirstFailure | src/main/kotlin/org/example/newteam/gestion/validator/IntegranteValidator.kt:26-58 | validar is the first failure among the seven common checks, in the source's order |
| Validator.ValidarJugadorIsFirstFailure | src/main/kotlin/org/example/newteam/gestion/validator/IntegranteValidator.kt:69-89 | validarJugador is the first failure among its five checks, in order |
| Validator.ValidarAccepts | src/main/kotlin/org/example/newteam/gestion/validator/IntegranteValidator.kt:23-59 | validar is Ok exactly when names and pais are not blank, neither date is after today, joining is not before birth and salario is not below zero; Ok holds the very same member, and each failure names the first failing check |
| Validator.ValidarBoundaries | src/main/kotlin/org/example/newteam/gestion/validator/IntegranteValidator.kt:34-46 | birth and join equal to today, join equal to birth and salario zero are all accepted |
| Validator.ValidarIgnoresPlayerFields | src/main/kotlin/org/example/newteam/gestion/validator/IntegranteValidator.kt:54-58 | for a player whose common fields pass, validar is Ok whatever its dorsal, altura, peso, goles and partidos, because validarJugador's result is dropped |
| Validator.ValidarOverridesValidarJugador | src/main/kotlin/org/example/newteam/gestion/validator/IntegranteValidator.kt:54-58 | for every player, validar accepts while validarJugador rejects exactly when all common checks pass and some player check fails |
| Validator.ValidarJugadorAccepts | src/main/kotlin/org/example/newteam/gestion/validator/IntegranteValidator.kt:66-90 | validarJugador is Ok exactly when 1 <= dorsal <= 99, 0.0 <= altura <= 3.0 and peso, goles and partidos are not negative; each failure names the first failing check |
| Validator.ValidarJugadorBoundaries | src/main/kotlin/org/example/newteam/gestion/validator/IntegranteValidator.kt:69-75 | dorsal 1 and 99 and altura 0.0 and 3.0 are accepted; dorsal 0 and 100 are rejected |
| Files.Parent | src/main/kotlin/org/example/newteam/gestion/storage/EquipoStorageCSV.kt:64 | getParentFile: the path without its last part; null for a root or a bare relative name |
| Files.WithData | src/main/kotlin/org/example/newteam/gestion/storage/EquipoStorageCSV.kt:68 | writeText: the file holds exactly the new bytes, every other entry is unchanged, and the file's permissions are kept |
| Files.WithDataTwice | src/main/kotlin/org/example/newteam/gestion/storage/EquipoStorageCSV.kt:68-77 | writing a file twice leaves only the second content |
| Files.Appended | src/main/kotlin/org/example/newteam/gestion/storage/EquipoStorageBIN.kt:105-129 | the file's content grows by the bytes, nothing else changes |
| Files.AppendedTwice | src/main/kotlin/org/example/newteam/gestion/storage/EquipoStorageBIN.kt:105-129 | two appends in a row are one append of both runs of bytes |
| Files.AppendedToEmpty | src/main/kotlin/org/example/newteam/gestion/storage/EquipoStorageBIN.kt:101 | setLength(0) followed by appends leaves exactly the appended bytes |
| Files.FileSystem.Append | src/main/kotlin/org/example/newteam/gestion/storage/EquipoStorageBIN.kt:105 | one write call: the file's bytes grow by what it emits |
| StorageCsv.CsvFields | src/main/kotlin/org/example/newteam/gestion/storage/EquipoStorageCSV.kt:73-77 | 15 columns, column 7 the rol; a player's column 8 is empty, a coach's holds its especialidad and columns 9 to 14 are empty |
| StorageCsv.CsvWrite | src/main/kotlin/org/example/newteam/gestion/storage/EquipoStorageCSV.kt:61-81 | a bare relative name throws NullPointerException, a missing parent directory returns StorageError; a file that cannot be opened throws FileNotFoundException; each of these leaves the files untouched. Otherwise the file holds exactly the header and one line per member, in list order, as UTF-8 |
| StorageCsv.WriteLines | src/main/kotlin/org/example/newteam/gestion/storage/EquipoStorageCSV.kt:68-79 | writeText of the header then appendText of each line leaves exactly the header and those lines, each ended by "\n" |
| StorageCsv.CsvTextStep | src/main/kotlin/org/example/newteam/gestion/storage/EquipoStorageCSV.kt:73-77 | appending one more line adds exactly its UTF-8 bytes to the file |
| StorageCsv.HeaderIsOneLine | src/main/kotlin/org/example/newteam/gestion/storage/EquipoStorageCSV.kt:68 | the header holds no line break |
| StorageCsv.CsvLineIsOneLine | src/main/kotlin/org/example/newteam/gestion/storage/EquipoStorageCSV.kt:73-77 | a member whose texts hold no ',' or line break is written as exactly one line |
| StorageCsv.CsvFieldsArePlain | src/main/kotlin/org/example/newteam/gestion/storage/EquipoStorageCSV.kt:73-77 | then none of its 15 fields holds a ',' or a line break |
| StorageCsv.LineToDto | src/main/kotlin/org/example/newteam/gestion/storage/EquipoStorageCSV.kt:35-52 | the DTO's fields are the split columns, id and salario parsed and the five player numbers parsed or null; toLong or toDouble throwing gives NumberFormatException, fewer than 15 columns IndexOutOfBoundsException, in column order |
| StorageCsv.LineToModel | src/main/kotlin/org/example/newteam/gestion/storage/EquipoStorageCSV.kt:37-53 | a line gives a member or throws, never a GestionErrors |
| StorageCsv.LinesToModels | src/main/kotlin/org/example/newteam/gestion/storage/EquipoStorageCSV.kt:36-54 | Ok exactly when every line maps, then one member per line in order; otherwise the exception of the first line that throws |
| StorageCsv.DropFirst | src/main/kotlin/org/example/newteam/gestion/storage/EquipoStorageCSV.kt:34 | drop(1): the lines after the first, none for an empty file |
| StorageCsv.CsvRead | src/main/kotlin/org/example/newteam/gestion/storage/EquipoStorageCSV.kt:28-55 | StorageError unless the path is an existing, readable regular file; otherwise one member per line after the first, in order, or the exception a line throws |
| StorageCsv.LineToDtoOfCsvLine | src/main/kotlin/org/example/newteam/gestion/storage/EquipoStorageCSV.kt:35-53 | a member's line reads back as its DTO with canonical doubles |
| StorageCsv.LineToModelOfCsvLine | src/main/kotlin/org/example/newteam/gestion/storage/EquipoStorageCSV.kt:37-53 | a member's line reads back as the member, NaN aside, both timestamps `now` |
| StorageCsv.LinesToModelsOfRecordLines | src/main/kotlin/org/example/newteam/gestion/storage/EquipoStorageCSV.kt:36-54 | the lines of the members read back as the members, in order |
| StorageCsv.CsvReadOfWrite | src/main/kotlin/org/example/newteam/gestion/storage/EquipoStorageCSV.kt:28-81 | reading the file fileWrite leaves gives the same members in the same order, data equal up to NaN and both timestamps `now`, when no text field holds ',' or a line break |
| StorageCsv.EntrenadorLineHasNoPlayerFields | src/main/kotlin/org/example/newteam/gestion/storage/EquipoStorageCSV.kt:77 | a coach's line holds its especialidad in column 8, and its six player columns read as null |
| StorageCsv.JugadorLineHasNoEspecialidad | src/main/kotlin/org/example/newteam/gestion/storage/EquipoStorageCSV.kt:73 | a player's line has rol "Jugador", an empty column 8, and its player numbers read back |
| StorageBin.FieldBytes | src/main/kotlin/org/example/newteam/gestion/storage/EquipoStorageBIN.kt:105-129 | a write call succeeds exactly when it is not handed a null and, for writeUTF, the text fits; otherwise it throws NullPointerException or UTFDataFormatException |
| StorageBin.BinWrite | src/main/kotlin/org/example/newteam/gestion/storage/EquipoStorageBIN.kt:86-134 | a bare relative name throws NullPointerException, a missing parent directory returns StorageError, both before the file is opened; a file "rw" cannot open is FileNotFoundException; all leave the files untouched. Otherwise the file is truncated and holds the bytes of the write calls up to the first that throws, a throw is returned, and Ok when none does |
| StorageBin.WriteRecords | src/main/kotlin/org/example/newteam/gestion/storage/EquipoStorageBIN.kt:102-131 | the loop: the outcome and the appended bytes of every record's write calls, in list order, stopping at the first throw |
| StorageBin.WriteFields | src/main/kotlin/org/example/newteam/gestion/storage/EquipoStorageBIN.kt:105-129 | one record's write calls, in order, stopping at the first throw |
| StorageBin.FieldStop | src/main/kotlin/org/example/newteam/gestion/storage/EquipoStorageBIN.kt:105-129 | a write call that throws ends the run and nothing after it is written |
| StorageBin.WrittenStop | src/main/kotlin/org/example/newteam/gestion/storage/EquipoStorageBIN.kt:102-131 | once a record's write call throws, the records after it write nothing |
| StorageBin.OutcomeOk | src/main/kotlin/org/example/newteam/gestion/storage/EquipoStorageBIN.kt:102-131 | the run of write calls ends well exactly when every call succeeds |
| StorageBin.OutcomeIsFirstFailure | src/main/kotlin/org/example/newteam/gestion/storage/EquipoStorageBIN.kt:102-131 | otherwise it ends with the exception of the first call that throws and every call before it succeeds |
| StorageBin.NoNullOutcome | src/main/kotlin/org/example/newteam/gestion/storage/EquipoStorageBIN.kt:102-131 | a run handed no null can only end with UTFDataFormatException |
| StorageBin.RecordWritable | src/main/kotlin/org/example/newteam/gestion/storage/EquipoStorageBIN.kt:104-129 | the write calls for a member's DTO are never handed a null, and all succeed exactly when its nombre, apellidos and pais fit writeUTF |
| StorageBin.GeneratedTextFits | src/main/kotlin/org/example/newteam/gestion/storage/EquipoStorageBIN.kt:108-113 | the dates, rol, posicion and especialidad texts fileWrite generates always fit writeUTF |
| StorageBin.BinWriteOutcome | src/main/kotlin/org/example/newteam/gestion/storage/EquipoStorageBIN.kt:102-133 | fileWrite's writes end well exactly when every member's texts fit; otherwise with UTFDataFormatException |
| StorageBin.ReadField | src/main/kotlin/org/example/newteam/gestion/storage/EquipoStorageBIN.kt:41-55 | a read call gives a field of the kind asked for, consuming at least one byte, or throws EOFException or UTFDataFormatException |
| StorageBin.ReadFields | src/main/kotlin/org/example/newteam/gestion/storage/EquipoStorageBIN.kt:41-55 | read calls in order give fields of the kinds asked for, consuming a prefix of the bytes |
| StorageBin.ReadRecord | src/main/kotlin/org/example/newteam/gestion/storage/EquipoStorageBIN.kt:41-75 | one pass of the read loop consumes at least one byte, or throws |
| StorageBin.RecordDto | src/main/kotlin/org/example/newteam/gestion/storage/EquipoStorageBIN.kt:57-73 | the DTO carries the rol read; a player's has a null especialidad, any other record null player fields |
| StorageBin.DecodeAll | src/main/kotlin/org/example/newteam/gestion/storage/EquipoStorageBIN.kt:39-76 | the read loop yields DTOs or an exception, never a GestionErrors |
| StorageBin.DecodeAllStep | src/main/kotlin/org/example/newteam/gestion/storage/EquipoStorageBIN.kt:39-76 | a pass of the loop adds its DTO in front of what the rest of the file decodes to, or its exception ends the loop |
| StorageBin.ReadDtos | src/main/kotlin/org/example/newteam/gestion/storage/EquipoStorageBIN.kt:38-77 | the while loop over the file pointer returns what the file's bytes decode to |
| StorageBin.DtosToModels | src/main/kotlin/org/example/newteam/gestion/storage/EquipoStorageBIN.kt:78 | Ok exactly when every DTO maps, then the members in order |
| StorageBin.BinReadResult | src/main/kotlin/org/example/newteam/gestion/storage/EquipoStorageBIN.kt:31-79 | StorageError unless the path is an existing readable regular file; otherwise the DTOs decoded and mapped, or an exception |
| StorageBin.BinRead | src/main/kotlin/org/example/newteam/gestion/storage/EquipoStorageBIN.kt:31-79 | fileRead: the guard, the read loop and the mapping give BinReadResult |
| StorageBin.ReadFieldOfWrite | src/main/kotlin/org/example/newteam/gestion/storage/EquipoStorageBIN.kt:41-55 | a read call of the kind of a successful write call gives back its value, NaN canonical, and the bytes after it |
| StorageBin.ReadFieldsOfEmitted | src/main/kotlin/org/example/newteam/gestion/storage/EquipoStorageBIN.kt:41-55 | a run of successful write calls is read back by the matching read calls |
| StorageBin.ReadRecordOfWrite | src/main/kotlin/org/example/newteam/gestion/storage/EquipoStorageBIN.kt:41-75 | one record's bytes read back as its DTO, nulls where the reader puts them |
| StorageBin.DtoToModelOfStored | src/main/kotlin/org/example/newteam/gestion/storage/EquipoStorageBIN.kt:78 | a member's DTO read back gives the member, NaN aside, both timestamps `now` |
| StorageBin.DecodeAllOfBinBytes | src/main/kotlin/org/example/newteam/gestion/storage/EquipoStorageBIN.kt:39-76 | the loop reading the file fileWrite wrote gives each member's DTO back, in order, until the bytes run out |
| StorageBin.BinReadOfWrite | src/main/kotlin/org/example/newteam/gestion/storage/EquipoStorageBIN.kt:31-134 | reading the file fileWrite leaves gives the same members in the same order, data equal up to NaN and both timestamps `now`, when their texts fit |
| StorageBin.DtosToModelsOfStored | src/main/kotlin/org/example/newteam/gestion/storage/EquipoStorageBIN.kt:78 | the DTOs read back map to the reloaded members |
| Storage.SuffixesExclusive | src/main/kotlin/org/example/newteam/gestion/storage/EquipoStorageImpl.kt:32-45 | no name ends with two of the four suffixes |
| Storage.AtMostOneSuffix | src/main/kotlin/org/example/newteam/gestion/storage/EquipoStorageImpl.kt:59-72 | at most one suffix matches any name |
| Storage.ReadFormat | src/main/kotlin/org/example/newteam/gestion/storage/EquipoStorageImpl.kt:32-45 | the adapter read uses: the one whose suffix the name ends with, binary when none matches |
| Storage.WriteFormat | src/main/kotlin/org/example/newteam/gestion/storage/EquipoStorageImpl.kt:59-72 | the adapter write uses: the matching suffix, none exactly when no suffix matches |
| Storage.ReadAndWriteFormats | src/main/kotlin/org/example/newteam/gestion/storage/EquipoStorageImpl.kt:31-72 | read and write agree wherever write has an adapter; read falls back to binary where write does nothing |
| Storage.StorageReadResult | src/main/kotlin/org/example/newteam/gestion/storage/EquipoStorageImpl.kt:31-46 | fileRead gives the chosen adapter's result unchanged |
| Storage.StorageRead | src/main/kotlin/org/example/newteam/gestion/storage/EquipoStorageImpl.kt:31-46 | fileRead returns StorageReadResult |
| Storage.Discarded | src/main/kotlin/org/example/newteam/gestion/storage/EquipoStorageImpl.kt:73 | the adapter's error result is dropped for Ok; a throw escapes; the files are as the adapter left them |
| Storage.StorageWritten | src/main/kotlin/org/example/newteam/gestion/storage/EquipoStorageImpl.kt:58-74 | fileWrite never returns a GestionErrors; an unknown suffix writes nothing; each suffix gives its adapter's effect with the error dropped |
| Storage.StorageWrite | src/main/kotlin/org/example/newteam/gestion/storage/EquipoStorageImpl.kt:58-74 | fileWrite's result and files are StorageWritten |
| Storage.MissingParentIsOk | src/main/kotlin/org/example/newteam/gestion/storage/EquipoStorageImpl.kt:73 | a missing parent directory is reported by the adapter as StorageError, and fileWrite makes it Ok with nothing written |
| Storage.StorageReadOfWrite | src/main/kotlin/org/example/newteam/gestion/storage/EquipoStorageImpl.kt:31-74 | writing members to a .csv or .bin file and reading it back gives Ok and the reloaded members |
| Repository.Find | src/main/kotlin/org/example/newteam/gestion/repositories/EquipoRepositoryImpl.kt:104-107 | null exactly when the id has no row; otherwise the row's model, under that id |
| Repository.Saved | src/main/kotlin/org/example/newteam/gestion/repositories/EquipoRepositoryImpl.kt:35-44 | the member save returns: the generated id, the same data and variant, both timestamps the one `now` |
| Repository.SavedRow | src/main/kotlin/org/example/newteam/gestion/repositories/EquipoRepositoryImpl.kt:38-43 | the row save inserts maps back to that member |
| Repository.AfterSave | src/main/kotlin/org/example/newteam/gestion/repositories/EquipoRepositoryImpl.kt:32-47 | exactly one row added, under the fresh id, every other row kept; nothing added once the id counter is exhausted |
| Repository.SaveResult | src/main/kotlin/org/example/newteam/gestion/repositories/EquipoRepositoryImpl.kt:43-46 | the member read back under the fresh id, which Find then gives; SQLException once the counter is exhausted |
| Repository.AfterDelete | src/main/kotlin/org/example/newteam/gestion/repositories/EquipoRepositoryImpl.kt:63 | only that row removed; an absent id leaves the table as it was |
| Repository.EntityToModelUpdatedAt | src/main/kotlin/org/example/newteam/gestion/repositories/EquipoRepositoryImpl.kt:84 | copying the row with a new updatedAt changes only the model's updatedAt |
| Repository.UpdateResult | src/main/kotlin/org/example/newteam/gestion/repositories/EquipoRepositoryImpl.kt:76-87 | null exactly when the id has no row; otherwise the stored member with only updatedAt replaced |
| Repository.RowsBelow | src/main/kotlin/org/example/newteam/gestion/repositories/EquipoRepositoryImpl.kt:96 | the rows listed are in the table, each once, in ascending id order |
| Repository.RowsBelowComplete | src/main/kotlin/org/example/newteam/gestion/repositories/EquipoRepositoryImpl.kt:96 | every row of the table is listed |
| Repository.Listed | src/main/kotlin/org/example/newteam/gestion/repositories/EquipoRepositoryImpl.kt:94-97 | getAll: each listed member is what Find gives for its id, in ascending id order |
| Repository.ListedComplete | src/main/kotlin/org/example/newteam/gestion/repositories/EquipoRepositoryImpl.kt:94-97 | every member Find gives is listed |
| Repository.EquipoRepository.constructor | src/main/kotlin/org/example/newteam/gestion/repositories/EquipoRepositoryImpl.kt:19-20 | an empty table whose counter starts at 1 |
| Repository.EquipoRepository.Save | src/main/kotlin/org/example/newteam/gestion/repositories/EquipoRepositoryImpl.kt:32-47 | the table becomes AfterSave and the result is SaveResult |
| Repository.EquipoRepository.Delete | src/main/kotlin/org/example/newteam/gestion/repositories/EquipoRepositoryImpl.kt:54-66 | returns the pre-delete member or null; the table becomes AfterDelete |
| Repository.EquipoRepository.Update | src/main/kotlin/org/example/newteam/gestion/repositories/EquipoRepositoryImpl.kt:74-88 | returns UpdateResult; the row is written back unchanged, so the table is unchanged |
| Repository.EquipoRepository.GetAll | src/main/kotlin/org/example/newteam/gestion/repositories/EquipoRepositoryImpl.kt:94-97 | returns Listed |
| Repository.EquipoRepository.GetById | src/main/kotlin/org/example/newteam/gestion/repositories/EquipoRepositoryImpl.kt:104-107 | returns Find |
| Repository.SaveKeepsOthers | src/main/kotlin/org/example/newteam/gestion/repositories/EquipoRepositoryImpl.kt:43 | a save leaves what Find gives for every existing id |
| Repository.SaveThenFind | src/main/kotlin/org/example/newteam/gestion/repositories/EquipoRepositoryImpl.kt:43-44 | the saved member is found under its new id |
| Repository.SaveThenList | src/main/kotlin/org/example/newteam/gestion/repositories/EquipoRepositoryImpl.kt:43-44 | and is listed by getAll |
| Repository.DeleteThenFind | src/main/kotlin/org/example/newteam/gestion/repositories/EquipoRepositoryImpl.kt:54-66 | after a delete the id is absent and every other id is as before |
| Repository.DeleteIdempotent | src/main/kotlin/org/example/newteam/gestion/repositories/EquipoRepositoryImpl.kt:54-66 | deleting twice is deleting once |
| Repository.SaveAll | src/main/kotlin/org/example/newteam/gestion/service/EquipoServiceImpl.kt:42 | saving a list keeps the table well formed |
| Repository.SaveAllNextId | src/main/kotlin/org/example/newteam/gestion/service/EquipoServiceImpl.kt:42 | saving a list advances the counter by its length, up to exhaustion |
| Repository.SaveAllKeys | src/main/kotlin/org/example/newteam/gestion/service/EquipoServiceImpl.kt:42 | the ids after saving a list are the old ones and the fresh ids handed out |
| Repository.SaveAllKeeps | src/main/kotlin/org/example/newteam/gestion/service/EquipoServiceImpl.kt:42 | saving a list leaves every existing member |
| Repository.SaveAllRow | src/main/kotlin/org/example/newteam/gestion/service/EquipoServiceImpl.kt:42 | the i-th member of the list is stored under the i-th fresh id |
| Repository.SaveAllFinds | src/main/kotlin/org/example/newteam/gestion/service/EquipoServiceImpl.kt:42 | and found there |
| Repository.SaveAllExhausted | src/main/kotlin/org/example/newteam/gestion/service/EquipoServiceImpl.kt:42 | the saves after exhaustion change nothing |
| Service.SaveKeepsCoherent | src/main/kotlin/org/example/newteam/gestion/service/EquipoServiceImpl.kt:100-104 | a save leaves every cached member as the table holds it |
| Service.EquipoService.constructor | src/main/kotlin/org/example/newteam/gestion/service/EquipoServiceImpl.kt:24-28 | the service holds the repository and a cache that starts empty |
| Service.EquipoService.Import | src/main/kotlin/org/example/newteam/gestion/service/EquipoServiceImpl.kt:37-44 | on a read error the table is unchanged and the error returned; on success every member read is saved in list order and the read result returned, unless the save of one throws SQLException |
| Service.EquipoService.SaveEach | src/main/kotlin/org/example/newteam/gestion/service/EquipoServiceImpl.kt:42 | the forEach loop: the table becomes SaveAll of the list |
| Service.EquipoService.Export | src/main/kotlin/org/example/newteam/gestion/service/EquipoServiceImpl.kt:51-57 | the dispatcher's result and files for exactly the members getAll lists |
| Service.EquipoService.GetAll | src/main/kotlin/org/example/newteam/gestion/service/EquipoServiceImpl.kt:63-66 | returns the repository's list |
| Service.EquipoService.GetById | src/main/kotlin/org/example/newteam/gestion/service/EquipoServiceImpl.kt:75-92 | the repository's member or NotFoundError; a cache hit is returned as cached; a miss that the repository has is cached; NotFoundError leaves the cache unchanged |
| Service.EquipoService.Save | src/main/kotlin/org/example/newteam/gestion/service/EquipoServiceImpl.kt:100-104 | the member is saved whatever validar says, and the repository's result is returned |
| Service.EquipoService.Update | src/main/kotlin/org/example/newteam/gestion/service/EquipoServiceImpl.kt:116-129 | NotFoundError with the cache unchanged when the id has no row; otherwise the repository's result, the id no longer cached |
| Service.EquipoService.Delete | src/main/kotlin/org/example/newteam/gestion/service/EquipoServiceImpl.kt:138-150 | NotFoundError with the cache unchanged when the id has no row; otherwise the deleted member, the id no longer cached, the row gone |
| Service.EquipoService.Evict | src/main/kotlin/org/example/newteam/gestion/di/Dependencies.kt:67-70 | whichever entries the cache drops, the cached members stay those of the table |

## Left out

- JSON and XML adapters: they wrap kotlinx.serialization and xmlutil. What their `fileRead` returns and what their `fileWrite` leaves are parameters of the dispatcher and the service. Their own DTO mapping is modelled in `Mapper`.
- Floating point values: doubles are 64-bit patterns. The comparisons the validator makes (`< 0.0`, `in 0.0..3.0`) are defined on the bits, with NaN and -0.0 handled. Arithmetic is never needed.
- `Double.toString` / `toDouble` / `toDoubleOrNull` text: a stand-in, the decimal text of `doubleToLongBits`. Java's shortest-representation algorithm is not modelled. The stand-in keeps the property the round trips rely on: exact inversion except NaN, and no ',' or line break.
- Unicode.Utf8Decode: a string is a sequence of Unicode scalar values, so lone surrogates are not modelled. Malformed UTF-8 in a CSV file is replaced by U+FFFD one byte at a time, where the JDK decoder puts one U+FFFD per maximal ill-formed subsequence: for the bytes `E2 82 41` the JDK gives "\uFFFDA" and the model "\uFFFD\uFFFDA". Such bytes are never produced by writing, so the round trips are unaffected.
- Text to numbers accepts ASCII digits with an optional sign. Java's acceptance of other Unicode digits is not modelled.
- Clocks: `LocalDateTime.now()` is a `now` parameter and `LocalDate.now()` a `today` parameter. Each service call uses one `now`, where the source may read the clock more than once.
- `isDeleted`, `imagen` and `minutos_jugados`: the sources disagree on these three fields, and the model drops all three. `isDeleted` is declared by Entrenador.kt (line 29) and passed on by the mappers (IntegranteMapper.kt, lines 31 and 46) and the copy helpers (Extensions.kt, lines 37, 56, 86 and 100), yet IntegranteEntity declares no such field. `imagen` and `minutos_jugados` are declared by IntegranteEntity.kt (lines 41 and 44), IntegranteDTO.kt (lines 73 and 76), IntegranteXmlDTO.kt (lines 77 and 80) and required by Jugador.kt (lines 36 and 43), yet no mapper passes them.
- SQL and JDBI: the table is a map from id to row plus the identity counter. The counter is taken as 32-bit because `dao.save` returns an `Int`. Once it is exhausted, a save throws an SQL exception and inserts nothing.
- Repository.Listed: `getAll` has no ORDER BY. The model lists rows in ascending id order, which is an assumption about the database.
- Repository.EquipoRepository.constructor: the table starts empty. Rows written by other programs, or left by earlier runs, are not modelled.
- Mapper.ToEntity: `toEntity` is not part of this model's source files. It is defined as the row `IntegranteEntity.toModel` maps back to the same member.
- Service.EquipoService.Evict: Caffeine's size and time expiry become this one operation, which drops any set of ids. The choice of ids, which depends on the library and the clock, is not modelled.
- Storage.StorageRead: the JSON adapter's signatures do not match the storage interface, and that mismatch is not modelled. For a .json name the dispatcher's result is the parameter `json`.
- StorageBin.BinWrite: `"rw"` creates a missing file; an existing one must be a readable, writable regular file, else FileNotFoundException; `setLength(0)` then empties it. A write call that throws leaves the bytes written before it in the file, as `RandomAccessFile` does; what a failing write leaves on a real disk beyond that is not modelled.
- StorageCsv.CsvWrite: `appendText` is modelled line by line. The file is the header and the lines written so far as UTF-8. A failure in the middle of a write is not modelled.
- Validator.Validar: the verdict is computed and dropped in `validar` (for the player checks) and in the service (for the whole validation), as in the source. The model states the verdict but no caller uses it.
- Logging, the JavaFX controllers, view models, routing, the session, login with BCrypt, configuration files and dependency wiring are not modelled: they are UI, I/O and wiring with no logic of the core.
- Concurrency: the splash screen's threads are not modelled. Every operation runs alone.
- `ServiceImpl.kt` is a superseded revision and is not modelled. It calls `deleteLogical`, which the repository does not define.
- StorageCsv.CsvFields: records with a ',' or a line break in a text field do not survive the CSV round trip. The round-trip lemmas require such text to be absent, as no quoting exists.
