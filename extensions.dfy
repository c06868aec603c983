/** Extensions.kt: the copy helpers. Every parameter defaults to the receiver's own
    field; whatever is passed, both timestamps of the copy are the one `timeStamp`
    (whose default, the current time, is a parameter here). */
module Extensions {
  import opened Binary
  import opened Dates
  import opened Models

  /** Jugador.copy. */
  function CopyJugador(x: Integrante, newId: int64, newNombre: string, newApellidos: string,
                       newNacimiento: Date, newIncorporacion: Date, newSalario: Double, newPais: string,
                       newPosicion: Posicion, newDorsal: int32, newAltura: Double, newPeso: Double,
                       newGoles: int32, newPartidos: int32, timeStamp: Timestamp): (r: Integrante)
    requires x.Jugador?
    ensures r.Jugador? && r.createdAt == timeStamp && r.updatedAt == timeStamp
  {
    Jugador(newId, newNombre, newApellidos, newNacimiento, newIncorporacion, newSalario, newPais,
            timeStamp, timeStamp, newPosicion, newDorsal, newAltura, newPeso, newGoles, newPartidos)
  }

  /** Entrenador.copy. */
  function CopyEntrenador(x: Integrante, newId: int64, newNombre: string, newApellidos: string,
                          newNacimiento: Date, newIncorporacion: Date, newSalario: Double, newPais: string,
                          newEspecialidad: Especialidad, timeStamp: Timestamp): (r: Integrante)
    requires x.Entrenador?
    ensures r.Entrenador? && r.createdAt == timeStamp && r.updatedAt == timeStamp
  {
    Entrenador(newId, newNombre, newApellidos, newNacimiento, newIncorporacion, newSalario, newPais,
               timeStamp, timeStamp, newEspecialidad)
  }

  /** `x.copy(timeStamp = t)`: every default taken, whichever variant x is. */
  function Stamp(x: Integrante, timeStamp: Timestamp): (r: Integrante)
    ensures SameData(x, r) && r.createdAt == timeStamp && r.updatedAt == timeStamp
    ensures r.Jugador? <==> x.Jugador?
  {
    if x.Jugador? then
      CopyJugador(x, x.id, x.nombre, x.apellidos, x.fechaNacimiento, x.fechaIncorporacion,
                  x.salario, x.pais, x.posicion, x.dorsal, x.altura, x.peso, x.goles,
                  x.partidosJugados, timeStamp)
    else
      CopyEntrenador(x, x.id, x.nombre, x.apellidos, x.fechaNacimiento, x.fechaIncorporacion,
                     x.salario, x.pais, x.especialidad, timeStamp)
  }

  /** A copy with every default keeps every data field; createdAt is reset too. */
  lemma {:induction false} CopyJugadorDefaults(x: Integrante, timeStamp: Timestamp)
    requires x.Jugador?
    ensures CopyJugador(x, x.id, x.nombre, x.apellidos, x.fechaNacimiento, x.fechaIncorporacion,
                        x.salario, x.pais, x.posicion, x.dorsal, x.altura, x.peso, x.goles,
                        x.partidosJugados, timeStamp)
            == Restamped(x, timeStamp, timeStamp)
  {
  }

  lemma {:induction false} CopyEntrenadorDefaults(x: Integrante, timeStamp: Timestamp)
    requires x.Entrenador?
    ensures CopyEntrenador(x, x.id, x.nombre, x.apellidos, x.fechaNacimiento, x.fechaIncorporacion,
                           x.salario, x.pais, x.especialidad, timeStamp)
            == Restamped(x, timeStamp, timeStamp)
  {
  }

  /** One override, newDorsal, changes the dorsal and no other data field. */
  lemma {:induction false} CopyJugadorDorsal(x: Integrante, newDorsal: int32, timeStamp: Timestamp)
    requires x.Jugador?
    ensures CopyJugador(x, x.id, x.nombre, x.apellidos, x.fechaNacimiento, x.fechaIncorporacion,
                        x.salario, x.pais, x.posicion, newDorsal, x.altura, x.peso, x.goles,
                        x.partidosJugados, timeStamp)
            == x.(createdAt := timeStamp, updatedAt := timeStamp, dorsal := newDorsal)
  {
  }

  /** The especialidad of a coach's copy is the old one unless a new one is given. */
  lemma {:induction false} CopyEntrenadorEspecialidad(x: Integrante, newId: int64, newNombre: string, newApellidos: string,
                                   newNacimiento: Date, newIncorporacion: Date, newSalario: Double,
                                   newPais: string, newEspecialidad: Especialidad, timeStamp: Timestamp)
    requires x.Entrenador?
    ensures CopyEntrenador(x, newId, newNombre, newApellidos, newNacimiento, newIncorporacion,
                           newSalario, newPais, x.especialidad, timeStamp).especialidad == x.especialidad
    ensures CopyEntrenador(x, newId, newNombre, newApellidos, newNacimiento, newIncorporacion,
                           newSalario, newPais, newEspecialidad, timeStamp).especialidad == newEspecialidad
  {
  }
}
