/** IntegranteMapper.kt: a member to its DTO, its XML DTO and its table row, and
    back. The `rol` text picks the variant on the way back: "Jugador" gives a
    Jugador, any other text an Entrenador. */
module Mapper {
  import opened Results
  import opened Binary
  import opened Text
  import opened Dates
  import opened Models
  import opened Records

  /** Kotlin's `!!`: NullPointerException on null. */
  function Unwrap<T>(o: Option<T>): (r: Result<T>)
    ensures o.Some? ==> r == Ok(o.value)
    ensures o.None? ==> r == Thrown(NullPointer)
  {
    match o
    case Some(v) => Ok(v)
    case None => Thrown(NullPointer)
  }

  predicate PosicionReadable(o: Option<string>) {
    o.Some? && PosicionValueOf(o.value).Ok?
  }

  predicate EspecialidadReadable(o: Option<string>) {
    o.Some? && EspecialidadValueOf(o.value).Ok?
  }

  /** The common fields of x are those of row e. */
  predicate SharesEntityFields(x: Integrante, e: IntegranteEntity) {
    x.id == e.id && x.nombre == e.nombre && x.apellidos == e.apellidos
    && x.fechaNacimiento == e.fechaNacimiento && x.fechaIncorporacion == e.fechaIncorporacion
    && x.salario == e.salario && x.pais == e.pais
  }

  /** IntegranteEntity.toModel: the row's own timestamps are kept. */
  function EntityToModel(e: IntegranteEntity): (r: Result<Integrante>)
    ensures r.Ok? ==> (r.value.Jugador? <==> e.rol == "Jugador")
    ensures r.Ok? ==> SharesEntityFields(r.value, e)
    ensures r.Ok? ==> r.value.createdAt == e.createdAt && r.value.updatedAt == e.updatedAt
    ensures r.Ok? <==>
      if e.rol == "Jugador" then
        PosicionReadable(e.posicion) && e.dorsal.Some? && e.altura.Some? && e.peso.Some?
        && e.goles.Some? && e.partidosJugados.Some?
      else EspecialidadReadable(e.especialidad)
    ensures !r.Ok? ==> r == Thrown(NullPointer) || r == Thrown(IllegalArgument)
  {
    if e.rol == "Jugador" then
      var posicionName :- Unwrap(e.posicion);
      var posicion :- PosicionValueOf(posicionName);
      var dorsal :- Unwrap(e.dorsal);
      var altura :- Unwrap(e.altura);
      var peso :- Unwrap(e.peso);
      var goles :- Unwrap(e.goles);
      var partidos :- Unwrap(e.partidosJugados);
      Ok(Jugador(e.id, e.nombre, e.apellidos, e.fechaNacimiento, e.fechaIncorporacion,
                 e.salario, e.pais, e.createdAt, e.updatedAt,
                 posicion, dorsal, altura, peso, goles, partidos))
    else
      var especialidadName :- Unwrap(e.especialidad);
      var especialidad :- EspecialidadValueOf(especialidadName);
      Ok(Entrenador(e.id, e.nombre, e.apellidos, e.fechaNacimiento, e.fechaIncorporacion,
                    e.salario, e.pais, e.createdAt, e.updatedAt, especialidad))
  }

  /** Both dates of a DTO or an XML DTO parse as dates. */
  predicate DatesReadable(fechaNacimiento: string, fechaIncorporacion: string) {
    ParseDate(fechaNacimiento).Some? && ParseDate(fechaIncorporacion).Some?
  }

  /** What IntegranteDTO.toModel needs of the variant's fields: present, with a
      constant's name for the enum. */
  predicate DtoVariantReadable(d: IntegranteDto) {
    if d.rol == "Jugador" then
      PosicionReadable(d.posicion) && d.dorsal.Some? && d.altura.Some? && d.peso.Some?
      && d.goles.Some? && d.partidosJugados.Some?
    else EspecialidadReadable(d.especialidad)
  }

  /** The variant half of IntegranteDTO.toModel, once the dates are read. */
  function DtoToVariant(d: IntegranteDto, nacimiento: Date, incorporacion: Date, now: Timestamp): (r: Result<Integrante>)
    ensures r.Ok? <==> DtoVariantReadable(d)
    ensures !r.Ok? ==> r == Thrown(NullPointer) || r == Thrown(IllegalArgument)
    ensures r.Ok? ==> (r.value.Jugador? <==> d.rol == "Jugador") && r.value.createdAt == now && r.value.updatedAt == now
    ensures r.Ok? ==> r.value.id == d.id && r.value.nombre == d.nombre && r.value.apellidos == d.apellidos
                      && r.value.salario == d.salario && r.value.pais == d.pais
                      && r.value.fechaNacimiento == nacimiento && r.value.fechaIncorporacion == incorporacion
    ensures r.Ok? && r.value.Jugador? ==>
      d.posicion.Some? && PosicionValueOf(d.posicion.value) == Ok(r.value.posicion)
      && d.dorsal == Some(r.value.dorsal) && d.altura == Some(r.value.altura) && d.peso == Some(r.value.peso)
      && d.goles == Some(r.value.goles) && d.partidosJugados == Some(r.value.partidosJugados)
    ensures r.Ok? && r.value.Entrenador? ==>
      d.especialidad.Some? && EspecialidadValueOf(d.especialidad.value) == Ok(r.value.especialidad)
  {
    if d.rol == "Jugador" then
      var posicionName :- Unwrap(d.posicion);
      var posicion :- PosicionValueOf(posicionName);
      var dorsal :- Unwrap(d.dorsal);
      var altura :- Unwrap(d.altura);
      var peso :- Unwrap(d.peso);
      var goles :- Unwrap(d.goles);
      var partidos :- Unwrap(d.partidosJugados);
      Ok(Jugador(d.id, d.nombre, d.apellidos, nacimiento, incorporacion, d.salario, d.pais,
                 now, now, posicion, dorsal, altura, peso, goles, partidos))
    else
      var especialidadName :- Unwrap(d.especialidad);
      var especialidad :- EspecialidadValueOf(especialidadName);
      Ok(Entrenador(d.id, d.nombre, d.apellidos, nacimiento, incorporacion, d.salario, d.pais,
                    now, now, especialidad))
  }

  /** IntegranteDTO.toModel: the DTO carries no timestamps, so both take the
      constructor's default, the current time `now`. */
  function DtoToModel(d: IntegranteDto, now: Timestamp): (r: Result<Integrante>)
    ensures r.Ok? <==> DatesReadable(d.fechaNacimiento, d.fechaIncorporacion) && DtoVariantReadable(d)
    ensures !r.Ok? ==> r == Thrown(DateTimeParse) || r == Thrown(NullPointer) || r == Thrown(IllegalArgument)
    ensures r.Ok? ==> (r.value.Jugador? <==> d.rol == "Jugador")
    ensures r.Ok? ==> r.value.id == d.id && r.value.nombre == d.nombre && r.value.apellidos == d.apellidos
                      && r.value.salario == d.salario && r.value.pais == d.pais
    ensures r.Ok? ==> r.value.createdAt == now && r.value.updatedAt == now
    ensures r.Ok? ==> ParseDate(d.fechaNacimiento) == Some(r.value.fechaNacimiento)
                      && ParseDate(d.fechaIncorporacion) == Some(r.value.fechaIncorporacion)
    ensures r.Ok? && r.value.Jugador? ==>
      d.posicion.Some? && PosicionValueOf(d.posicion.value) == Ok(r.value.posicion)
      && d.dorsal == Some(r.value.dorsal) && d.altura == Some(r.value.altura) && d.peso == Some(r.value.peso)
      && d.goles == Some(r.value.goles) && d.partidosJugados == Some(r.value.partidosJugados)
    ensures r.Ok? && r.value.Entrenador? ==>
      d.especialidad.Some? && EspecialidadValueOf(d.especialidad.value) == Ok(r.value.especialidad)
  {
    var nacimiento :- ToDate(d.fechaNacimiento);
    var incorporacion :- ToDate(d.fechaIncorporacion);
    DtoToVariant(d, nacimiento, incorporacion, now)
  }

  /** A nullable text field that toInt reads as a 32-bit number. */
  predicate IntReadable(o: Option<string>) {
    o.Some? && ParseInt32(o.value).Some?
  }

  /** A nullable text field that toDouble reads as a double. */
  predicate DoubleReadable(o: Option<string>) {
    o.Some? && ParseDouble(o.value).Some?
  }

  /** What the player half of IntegranteXmlDTO.toModel needs: every player
      field present, the posicion a constant's name, the numbers well formed. */
  predicate XmlJugadorReadable(d: IntegranteXmlDto) {
    PosicionReadable(d.posicion) && IntReadable(d.dorsal) && DoubleReadable(d.altura)
    && DoubleReadable(d.peso) && IntReadable(d.goles) && IntReadable(d.partidosJugados)
  }

  /** What IntegranteXmlDTO.toModel needs of an XML DTO. */
  predicate XmlReadable(d: IntegranteXmlDto) {
    DatesReadable(d.fechaNacimiento, d.fechaIncorporacion)
    && if d.rol == "Jugador" then XmlJugadorReadable(d) else EspecialidadReadable(d.especialidad)
  }

  /** Each player field of a successful XML result is what its text reads as. */
  predicate XmlJugadorFields(d: IntegranteXmlDto, x: Integrante)
    requires x.Jugador?
  {
    d.posicion.Some? && PosicionValueOf(d.posicion.value) == Ok(x.posicion)
    && d.dorsal.Some? && ParseInt32(d.dorsal.value) == Some(x.dorsal)
    && d.altura.Some? && ParseDouble(d.altura.value) == Some(x.altura)
    && d.peso.Some? && ParseDouble(d.peso.value) == Some(x.peso)
    && d.goles.Some? && ParseInt32(d.goles.value) == Some(x.goles)
    && d.partidosJugados.Some? && ParseInt32(d.partidosJugados.value) == Some(x.partidosJugados)
  }

  /** The player half of IntegranteXmlDTO.toModel, once the dates are read: each
      number is unwrapped with `!!` and parsed, in field order. */
  function XmlToJugador(d: IntegranteXmlDto, nacimiento: Date, incorporacion: Date, now: Timestamp): (r: Result<Integrante>)
    ensures r.Ok? <==> XmlJugadorReadable(d)
    ensures !r.Ok? ==> r == Thrown(NullPointer) || r == Thrown(IllegalArgument) || r == Thrown(NumberFormat)
    ensures r.Ok? ==> r.value.Jugador? && r.value.createdAt == now && r.value.updatedAt == now
    ensures r.Ok? ==> r.value.id == d.id && r.value.nombre == d.nombre && r.value.apellidos == d.apellidos
                      && r.value.salario == d.salario && r.value.pais == d.pais
                      && r.value.fechaNacimiento == nacimiento && r.value.fechaIncorporacion == incorporacion
    ensures r.Ok? ==> r.value.Jugador? && XmlJugadorFields(d, r.value)
  {
    var posicionName :- Unwrap(d.posicion);
    var posicion :- PosicionValueOf(posicionName);
    var dorsalText :- Unwrap(d.dorsal);
    var dorsal :- ToInt(dorsalText);
    var alturaText :- Unwrap(d.altura);
    var altura :- ToDouble(alturaText);
    var pesoText :- Unwrap(d.peso);
    var peso :- ToDouble(pesoText);
    var golesText :- Unwrap(d.goles);
    var goles :- ToInt(golesText);
    var partidosText :- Unwrap(d.partidosJugados);
    var partidos :- ToInt(partidosText);
    Ok(Jugador(d.id, d.nombre, d.apellidos, nacimiento, incorporacion, d.salario, d.pais,
               now, now, posicion, dorsal, altura, peso, goles, partidos))
  }

  /** IntegranteXmlDTO.toModel: as the DTO's, and the player numbers are parsed
      from their text with toInt and toDouble (NumberFormatException on bad text). */
  function XmlToModel(d: IntegranteXmlDto, now: Timestamp): (r: Result<Integrante>)
    ensures r.Ok? <==> XmlReadable(d)
    ensures !r.Ok? ==> r == Thrown(DateTimeParse) || r == Thrown(NullPointer)
                       || r == Thrown(IllegalArgument) || r == Thrown(NumberFormat)
    ensures r.Ok? ==> (r.value.Jugador? <==> d.rol == "Jugador")
    ensures r.Ok? ==> r.value.id == d.id && r.value.nombre == d.nombre && r.value.apellidos == d.apellidos
                      && r.value.salario == d.salario && r.value.pais == d.pais
    ensures r.Ok? ==> r.value.createdAt == now && r.value.updatedAt == now
    ensures r.Ok? ==> ParseDate(d.fechaNacimiento) == Some(r.value.fechaNacimiento)
                      && ParseDate(d.fechaIncorporacion) == Some(r.value.fechaIncorporacion)
    ensures r.Ok? && r.value.Jugador? ==> XmlJugadorFields(d, r.value)
    ensures r.Ok? && r.value.Entrenador? ==>
      d.especialidad.Some? && EspecialidadValueOf(d.especialidad.value) == Ok(r.value.especialidad)
  {
    var nacimiento :- ToDate(d.fechaNacimiento);
    var incorporacion :- ToDate(d.fechaIncorporacion);
    if d.rol == "Jugador" then
      XmlToJugador(d, nacimiento, incorporacion, now)
    else
      var especialidadName :- Unwrap(d.especialidad);
      var especialidad :- EspecialidadValueOf(especialidadName);
      Ok(Entrenador(d.id, d.nombre, d.apellidos, nacimiento, incorporacion, d.salario, d.pais,
                    now, now, especialidad))
  }

  /** Jugador.toDto and Entrenador.toDto. */
  function ToDto(x: Integrante): (d: IntegranteDto)
    ensures d.rol == Rol(x) && d.id == x.id
    ensures x.Jugador? ==> d.especialidad == Some("") && d.posicion == Some(PosicionName(x.posicion))
    ensures x.Entrenador? ==> d.especialidad == Some(EspecialidadName(x.especialidad)) && d.posicion == Some("")
                              && d.dorsal.None? && d.altura.None? && d.peso.None? && d.goles.None? && d.partidosJugados.None?
  {
    match x
    case Jugador(_, _, _, _, _, _, _, _, _, _, _, _, _, _, _) =>
      IntegranteDto(x.id, x.nombre, x.apellidos, DateText(x.fechaNacimiento), DateText(x.fechaIncorporacion),
                    x.salario, x.pais, "Jugador", Some(""), Some(PosicionName(x.posicion)),
                    Some(x.dorsal), Some(x.altura), Some(x.peso), Some(x.goles), Some(x.partidosJugados))
    case Entrenador(_, _, _, _, _, _, _, _, _, _) =>
      IntegranteDto(x.id, x.nombre, x.apellidos, DateText(x.fechaNacimiento), DateText(x.fechaIncorporacion),
                    x.salario, x.pais, "Entrenador", Some(EspecialidadName(x.especialidad)), Some(""),
                    None, None, None, None, None)
  }

  /** Jugador.toXmlDTO and Entrenador.toXmlDTO: player numbers as decimal text,
      and "" in every player field of a coach. */
  function ToXmlDto(x: Integrante): (d: IntegranteXmlDto)
    ensures d.rol == Rol(x) && d.id == x.id
    ensures x.Jugador? ==> d.especialidad == Some("") && d.dorsal == Some(IntText(x.dorsal))
                           && d.goles == Some(IntText(x.goles)) && d.partidosJugados == Some(IntText(x.partidosJugados))
    ensures x.Entrenador? ==> d.especialidad == Some(EspecialidadName(x.especialidad))
                              && d.posicion == Some("") && d.dorsal == Some("") && d.altura == Some("")
                              && d.peso == Some("") && d.goles == Some("") && d.partidosJugados == Some("")
  {
    match x
    case Jugador(_, _, _, _, _, _, _, _, _, _, _, _, _, _, _) =>
      IntegranteXmlDto(x.id, "Jugador", x.nombre, x.apellidos, DateText(x.fechaNacimiento), DateText(x.fechaIncorporacion),
                       x.salario, x.pais, Some(""), Some(PosicionName(x.posicion)),
                       Some(IntText(x.dorsal)), Some(DoubleText(x.altura)), Some(DoubleText(x.peso)),
                       Some(IntText(x.goles)), Some(IntText(x.partidosJugados)))
    case Entrenador(_, _, _, _, _, _, _, _, _, _) =>
      IntegranteXmlDto(x.id, "Entrenador", x.nombre, x.apellidos, DateText(x.fechaNacimiento), DateText(x.fechaIncorporacion),
                       x.salario, x.pais, Some(EspecialidadName(x.especialidad)), Some(""),
                       Some(""), Some(""), Some(""), Some(""), Some(""))
  }

  /** Integrante.toEntity. No definition of it is part of this model's sources; it
      is taken to be the row IntegranteEntity.toModel reads back as x. */
  function ToEntity(x: Integrante): (e: IntegranteEntity)
    ensures e.rol == Rol(x) && SharesEntityFields(x, e)
    ensures e.createdAt == x.createdAt && e.updatedAt == x.updatedAt
  {
    match x
    case Jugador(_, _, _, _, _, _, _, _, _, _, _, _, _, _, _) =>
      IntegranteEntity(x.id, x.nombre, x.apellidos, x.fechaNacimiento, x.fechaIncorporacion,
                       x.salario, x.pais, "Jugador", None, Some(PosicionName(x.posicion)),
                       Some(x.dorsal), Some(x.altura), Some(x.peso), Some(x.goles), Some(x.partidosJugados),
                       x.createdAt, x.updatedAt)
    case Entrenador(_, _, _, _, _, _, _, _, _, _) =>
      IntegranteEntity(x.id, x.nombre, x.apellidos, x.fechaNacimiento, x.fechaIncorporacion,
                       x.salario, x.pais, "Entrenador", Some(EspecialidadName(x.especialidad)), None,
                       None, None, None, None, None,
                       x.createdAt, x.updatedAt)
  }

  /** What the XML form gives back of a player's altura and peso: their text
      returns every NaN as the canonical NaN. */
  function CanonicalPlayerDoubles(x: Integrante): (r: Integrante)
    ensures (x.Entrenador? || (!IsNaN(x.altura) && !IsNaN(x.peso))) ==> r == x
    ensures x.Jugador? ==> r.Jugador? && (!IsNaN(r.altura) || r.altura == CanonicalNaN)
                           && (!IsNaN(r.peso) || r.peso == CanonicalNaN)
  {
    if x.Jugador? then x.(altura := Canonical(x.altura), peso := Canonical(x.peso)) else x
  }

  /** What the CSV and binary forms give back of every Double field (salario too):
      equal values, except that every NaN comes back as the canonical NaN. */
  function CanonicalDoubles(x: Integrante): (r: Integrante)
    ensures (!IsNaN(x.salario) && (x.Entrenador? || (!IsNaN(x.altura) && !IsNaN(x.peso)))) ==> r == x
    ensures SameData(CanonicalPlayerDoubles(x).(salario := r.salario), r)
    ensures !IsNaN(r.salario) || r.salario == CanonicalNaN
  {
    CanonicalPlayerDoubles(x).(salario := Canonical(x.salario))
  }

  /** The members a file written from rs reads back as: equal data up to NaN
      canonicalisation, both timestamps the reading's `now`. */
  function Reloaded(rs: seq<Integrante>, now: Timestamp): (r: seq<Integrante>)
    ensures |r| == |rs|
    ensures forall i :: 0 <= i < |rs| ==> r[i] == Restamped(CanonicalDoubles(rs[i]), now, now)
  {
    if rs == [] then [] else [Restamped(CanonicalDoubles(rs[0]), now, now)] + Reloaded(rs[1..], now)
  }

  // ---- round trips ----

  lemma {:induction false} EntityToModelOfToEntity(x: Integrante)
    ensures EntityToModel(ToEntity(x)) == Ok(x)
  {
    match x
    case Jugador(_, _, _, _, _, _, _, _, _, _, _, _, _, _, _) =>
      PosicionValueOfName(x.posicion, PosicionName(x.posicion));
    case Entrenador(_, _, _, _, _, _, _, _, _, _) =>
      EspecialidadValueOfName(x.especialidad, EspecialidadName(x.especialidad));
  }

  /** toDto then toModel gives back the member, all its data equal; only the
      timestamps are new. */
  lemma {:induction false} DtoToModelOfToDto(x: Integrante, now: Timestamp)
    ensures DtoToModel(ToDto(x), now) == Ok(Restamped(x, now, now))
  {
    ToDateOfDateText(x.fechaNacimiento);
    ToDateOfDateText(x.fechaIncorporacion);
    match x
    case Jugador(_, _, _, _, _, _, _, _, _, _, _, _, _, _, _) =>
      PosicionValueOfName(x.posicion, PosicionName(x.posicion));
    case Entrenador(_, _, _, _, _, _, _, _, _, _) =>
      EspecialidadValueOfName(x.especialidad, EspecialidadName(x.especialidad));
  }

  /** toXmlDTO then toModel: the integers come back exactly through their decimal
      text, the doubles up to NaN canonicalisation. */
  lemma {:induction false} XmlToModelOfToXmlDto(x: Integrante, now: Timestamp)
    ensures XmlToModel(ToXmlDto(x), now) == Ok(CanonicalPlayerDoubles(Restamped(x, now, now)))
  {
    ToDateOfDateText(x.fechaNacimiento);
    ToDateOfDateText(x.fechaIncorporacion);
    match x
    case Jugador(_, _, _, _, _, _, _, _, _, _, _, _, _, _, _) =>
      PosicionValueOfName(x.posicion, PosicionName(x.posicion));
      ParseInt32OfIntText(x.dorsal);
      ParseInt32OfIntText(x.goles);
      ParseInt32OfIntText(x.partidosJugados);
      ParseDoubleOfDoubleText(x.altura);
      ParseDoubleOfDoubleText(x.peso);
    case Entrenador(_, _, _, _, _, _, _, _, _, _) =>
      EspecialidadValueOfName(x.especialidad, EspecialidadName(x.especialidad));
  }
}
