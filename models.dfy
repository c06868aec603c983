/** The roster's model (Integrante.kt, Jugador.kt, Entrenador.kt, Posicion.kt,
    Especialidad.kt): a team member is a player or a coach sharing the common fields. */
module Models {
  import opened Results
  import opened Binary
  import opened Text
  import opened Dates

  datatype Posicion = CENTROCAMPISTA | DELANTERO | PORTERO | DEFENSA

  datatype Especialidad = ENTRENADOR_ASISTENTE | ENTRENADOR_PORTEROS | ENTRENADOR_PRINCIPAL

  /** Posicion.toString: the constant's name. */
  function PosicionName(p: Posicion): string {
    match p
    case CENTROCAMPISTA => "CENTROCAMPISTA"
    case DELANTERO => "DELANTERO"
    case PORTERO => "PORTERO"
    case DEFENSA => "DEFENSA"
  }

  /** Posicion.valueOf: IllegalArgumentException for a name no constant has. */
  function PosicionValueOf(s: string): (r: Result<Posicion>)
    ensures r.Ok? || r == Thrown(IllegalArgument)
  {
    if s == "CENTROCAMPISTA" then Ok(CENTROCAMPISTA)
    else if s == "DELANTERO" then Ok(DELANTERO)
    else if s == "PORTERO" then Ok(PORTERO)
    else if s == "DEFENSA" then Ok(DEFENSA)
    else Thrown(IllegalArgument)
  }

  function EspecialidadName(e: Especialidad): string {
    match e
    case ENTRENADOR_ASISTENTE => "ENTRENADOR_ASISTENTE"
    case ENTRENADOR_PORTEROS => "ENTRENADOR_PORTEROS"
    case ENTRENADOR_PRINCIPAL => "ENTRENADOR_PRINCIPAL"
  }

  function EspecialidadValueOf(s: string): (r: Result<Especialidad>)
    ensures r.Ok? || r == Thrown(IllegalArgument)
  {
    if s == "ENTRENADOR_ASISTENTE" then Ok(ENTRENADOR_ASISTENTE)
    else if s == "ENTRENADOR_PORTEROS" then Ok(ENTRENADOR_PORTEROS)
    else if s == "ENTRENADOR_PRINCIPAL" then Ok(ENTRENADOR_PRINCIPAL)
    else Thrown(IllegalArgument)
  }

  /** valueOf and toString are inverse: valueOf accepts exactly the names. */
  lemma {:induction false} PosicionValueOfName(p: Posicion, s: string)
    ensures PosicionValueOf(PosicionName(p)) == Ok(p)
    ensures PosicionValueOf(s) == Ok(p) <==> s == PosicionName(p)
  {
  }

  lemma {:induction false} EspecialidadValueOfName(e: Especialidad, s: string)
    ensures EspecialidadValueOf(EspecialidadName(e)) == Ok(e)
    ensures EspecialidadValueOf(s) == Ok(e) <==> s == EspecialidadName(e)
  {
  }

  /** A LocalDateTime; the model only compares timestamps and stores them. */
  datatype Timestamp = Timestamp(instant: int)

  /** An Integrante: a Jugador or an Entrenador with the fields they share. */
  datatype Integrante =
    | Jugador(id: int64, nombre: string, apellidos: string,
              fechaNacimiento: Date, fechaIncorporacion: Date,
              salario: Double, pais: string,
              createdAt: Timestamp, updatedAt: Timestamp,
              posicion: Posicion, dorsal: int32, altura: Double, peso: Double,
              goles: int32, partidosJugados: int32)
    | Entrenador(id: int64, nombre: string, apellidos: string,
                 fechaNacimiento: Date, fechaIncorporacion: Date,
                 salario: Double, pais: string,
                 createdAt: Timestamp, updatedAt: Timestamp,
                 especialidad: Especialidad)

  /** The `rol` a DTO or a row carries for this member. */
  function Rol(x: Integrante): string {
    if x.Jugador? then "Jugador" else "Entrenador"
  }

  /** x with both timestamps replaced. */
  function Restamped(x: Integrante, created: Timestamp, updated: Timestamp): (r: Integrante)
    ensures r.createdAt == created && r.updatedAt == updated
  {
    x.(createdAt := created, updatedAt := updated)
  }

  /** Equal in every field except the two timestamps. */
  predicate SameData(a: Integrante, b: Integrante) {
    Restamped(a, b.createdAt, b.updatedAt) == b
  }

  predicate IsPlainText(s: string) { Excludes(s, ',') && NoLineBreak(s) }

  /** The condition for a member to survive a CSV line: no text field holds a ','
      or a line break. */
  predicate IsCsvSafe(x: Integrante) {
    IsPlainText(x.nombre) && IsPlainText(x.apellidos) && IsPlainText(x.pais)
  }
}
