/** The flat records a member is mapped to (IntegranteDTO.kt, IntegranteXmlDTO.kt,
    IntegranteEntity.kt). A nullable Kotlin field is an Option. */
module Records {
  import opened Results
  import opened Binary
  import opened Dates
  import opened Models

  /** IntegranteDTO: dates as text, player numbers as nullable numbers. */
  datatype IntegranteDto = IntegranteDto(
    id: int64, nombre: string, apellidos: string,
    fechaNacimiento: string, fechaIncorporacion: string,
    salario: Double, pais: string, rol: string,
    especialidad: Option<string>, posicion: Option<string>,
    dorsal: Option<int32>, altura: Option<Double>, peso: Option<Double>,
    goles: Option<int32>, partidosJugados: Option<int32>)

  /** IntegranteXmlDTO: as the DTO, but every player field is nullable text. */
  datatype IntegranteXmlDto = IntegranteXmlDto(
    id: int64, rol: string, nombre: string, apellidos: string,
    fechaNacimiento: string, fechaIncorporacion: string,
    salario: Double, pais: string,
    especialidad: Option<string>, posicion: Option<string>,
    dorsal: Option<string>, altura: Option<string>, peso: Option<string>,
    goles: Option<string>, partidosJugados: Option<string>)

  /** IntegranteEntity: a row of the integrantes table. */
  datatype IntegranteEntity = IntegranteEntity(
    id: int64, nombre: string, apellidos: string,
    fechaNacimiento: Date, fechaIncorporacion: Date,
    salario: Double, pais: string, rol: string,
    especialidad: Option<string>, posicion: Option<string>,
    dorsal: Option<int32>, altura: Option<Double>, peso: Option<Double>,
    goles: Option<int32>, partidosJugados: Option<int32>,
    createdAt: Timestamp, updatedAt: Timestamp)
}
