/** IntegranteValidator.kt: a chain of field checks, the first failing one decides
    the error. The current date is the parameter `today`. */
module Validator {
  import opened Results
  import opened Binary
  import opened Text
  import opened Dates
  import opened Models

  /** validarJugador: the player's own bounds. */
  function ValidarJugador(x: Integrante): (r: Result<Integrante>)
    requires x.Jugador?
    ensures r == Ok(x) || (r.Err? && r.error.InvalidoError?)
  {
    if !(1 <= x.dorsal <= 99) then Err(InvalidoError(DorsalOutOfRange))
    else if !IsWithinZeroToThree(x.altura) then Err(InvalidoError(AlturaOutOfRange))
    else if IsBelowZero(x.peso) then Err(InvalidoError(PesoNegative))
    else if x.goles < 0 then Err(InvalidoError(GolesNegative))
    else if x.partidosJugados < 0 then Err(InvalidoError(PartidosNegative))
    else Ok(x)
  }

  /** validar: the common checks; for a player validarJugador is called too, but
      what it returns is thrown away. */
  function Validar(x: Integrante, today: Date): (r: Result<Integrante>)
    ensures r == Ok(x) || (r.Err? && r.error.InvalidoError?)
  {
    if IsBlank(x.nombre) then Err(InvalidoError(NombreBlank))
    else if IsBlank(x.apellidos) then Err(InvalidoError(ApellidosBlank))
    else if IsBefore(today, x.fechaNacimiento) then Err(InvalidoError(NacimientoInFuture))
    else if IsBefore(today, x.fechaIncorporacion) then Err(InvalidoError(IncorporacionInFuture))
    else if IsBefore(x.fechaIncorporacion, x.fechaNacimiento) then Err(InvalidoError(IncorporacionBeforeNacimiento))
    else if IsBelowZero(x.salario) then Err(InvalidoError(SalarioNegative))
    else if IsBlank(x.pais) then Err(InvalidoError(PaisBlank))
    else
      var discarded := if x.Jugador? then ValidarJugador(x) else Ok(x);
      Ok(x)
  }

  // ---- the reference definition: a list of checks, the first failure wins ----

  /** A check: the error it reports and whether it fails. */
  type Check = (InvalidReason, bool)

  /** The reason of the first failing check, None when all pass. */
  function FirstFailure(checks: seq<Check>): (r: Option<InvalidReason>)
    ensures r.None? <==> forall i :: 0 <= i < |checks| ==> !checks[i].1
    ensures r.Some? ==> exists i :: 0 <= i < |checks| && checks[i].1 && checks[i].0 == r.value
                                    && forall j :: 0 <= j < i ==> !checks[j].1
  {
    if checks == [] then None
    else if checks[0].1 then Some(checks[0].0)
    else
      var r := FirstFailure(checks[1..]);
      r
  }

  /** The common checks of validar, in the order the source makes them. */
  function CommonChecks(x: Integrante, today: Date): (cs: seq<Check>)
    ensures |cs| == 7
  {
    [ (NombreBlank, IsBlank(x.nombre)),
      (ApellidosBlank, IsBlank(x.apellidos)),
      (NacimientoInFuture, IsBefore(today, x.fechaNacimiento)),
      (IncorporacionInFuture, IsBefore(today, x.fechaIncorporacion)),
      (IncorporacionBeforeNacimiento, IsBefore(x.fechaIncorporacion, x.fechaNacimiento)),
      (SalarioNegative, IsBelowZero(x.salario)),
      (PaisBlank, IsBlank(x.pais)) ]
  }

  /** The checks of validarJugador, in order. */
  function PlayerChecks(x: Integrante): (cs: seq<Check>)
    requires x.Jugador?
    ensures |cs| == 5
  {
    [ (DorsalOutOfRange, !(1 <= x.dorsal <= 99)),
      (AlturaOutOfRange, !IsWithinZeroToThree(x.altura)),
      (PesoNegative, IsBelowZero(x.peso)),
      (GolesNegative, x.goles < 0),
      (PartidosNegative, x.partidosJugados < 0) ]
  }

  /** The outcome a list of checks decides for x. */
  function Outcome(x: Integrante, checks: seq<Check>): Result<Integrante> {
    match FirstFailure(checks)
    case None => Ok(x)
    case Some(reason) => Err(InvalidoError(reason))
  }

  // ---- properties ----

  /** The first failing check decides, whatever follows it. */
  lemma {:induction false} FirstFailureAt(checks: seq<Check>, k: nat)
    requires k < |checks| && checks[k].1 && forall j :: 0 <= j < k ==> !checks[j].1
    ensures FirstFailure(checks) == Some(checks[k].0)
  {
    var r := FirstFailure(checks);
    var i :| 0 <= i < |checks| && checks[i].1 && checks[i].0 == r.value
             && forall j :: 0 <= j < i ==> !checks[j].1;
    assert !(i < k) && !(k < i);
  }

  /** validar is the first-failure rule over the common checks alone. */
  lemma {:induction false} ValidarIsFirstFailure(x: Integrante, today: Date)
    ensures Validar(x, today) == Outcome(x, CommonChecks(x, today))
  {
    var cs := CommonChecks(x, today);
    if cs[0].1 { FirstFailureAt(cs, 0); }
    else if cs[1].1 { FirstFailureAt(cs, 1); }
    else if cs[2].1 { FirstFailureAt(cs, 2); }
    else if cs[3].1 { FirstFailureAt(cs, 3); }
    else if cs[4].1 { FirstFailureAt(cs, 4); }
    else if cs[5].1 { FirstFailureAt(cs, 5); }
    else if cs[6].1 { FirstFailureAt(cs, 6); }
  }

  lemma {:induction false} ValidarJugadorIsFirstFailure(x: Integrante)
    requires x.Jugador?
    ensures ValidarJugador(x) == Outcome(x, PlayerChecks(x))
  {
    var cs := PlayerChecks(x);
    if cs[0].1 { FirstFailureAt(cs, 0); }
    else if cs[1].1 { FirstFailureAt(cs, 1); }
    else if cs[2].1 { FirstFailureAt(cs, 2); }
    else if cs[3].1 { FirstFailureAt(cs, 3); }
    else if cs[4].1 { FirstFailureAt(cs, 4); }
  }

  /** validar accepts exactly when every common check passes, and then returns x
      itself; it rejects with the reason of the first check that fails. */
  lemma {:induction false} ValidarAccepts(x: Integrante, today: Date)
    ensures Validar(x, today).Ok? <==>
      !IsBlank(x.nombre) && !IsBlank(x.apellidos)
      && !IsBefore(today, x.fechaNacimiento) && !IsBefore(today, x.fechaIncorporacion)
      && !IsBefore(x.fechaIncorporacion, x.fechaNacimiento)
      && !IsBelowZero(x.salario) && !IsBlank(x.pais)
    ensures Validar(x, today).Ok? ==> Validar(x, today).value == x
    ensures !Validar(x, today).Ok? ==>
      exists i :: 0 <= i < 7 && Validar(x, today) == Err(InvalidoError(CommonChecks(x, today)[i].0))
                  && CommonChecks(x, today)[i].1
                  && forall j :: 0 <= j < i ==> !CommonChecks(x, today)[j].1
  {
    ValidarIsFirstFailure(x, today);
  }

  /** The comparisons are strict: born today, joined today, joined the day of birth
      and a salary of 0.0 or -0.0 are all accepted. */
  lemma {:induction false} ValidarBoundaries(x: Integrante, today: Date)
    requires !IsBlank(x.nombre) && !IsBlank(x.apellidos) && !IsBlank(x.pais)
    requires x.fechaNacimiento == today && x.fechaIncorporacion == today
    requires x.salario == 0 || x.salario == SignBit
    ensures Validar(x, today) == Ok(x)
  {
    assert !IsNaN(x.salario);
  }

  /** A player whose common fields pass is accepted whatever its player fields are:
      the result of validarJugador never reaches the caller. */
  lemma {:induction false} ValidarIgnoresPlayerFields(x: Integrante, today: Date, posicion: Posicion, dorsal: int32,
                                   altura: Double, peso: Double, goles: int32, partidos: int32)
    requires x.Jugador? && FirstFailure(CommonChecks(x, today)).None?
    ensures Validar(x, today) == Ok(x)
    ensures var y := x.(posicion := posicion, dorsal := dorsal, altura := altura, peso := peso,
                         goles := goles, partidosJugados := partidos);
            Validar(y, today) == Ok(y)
  {
    var y := x.(posicion := posicion, dorsal := dorsal, altura := altura, peso := peso,
                goles := goles, partidosJugados := partidos);
    ValidarIsFirstFailure(x, today);
    assert CommonChecks(y, today) == CommonChecks(x, today);
    ValidarIsFirstFailure(y, today);
  }

  /** Where the two verdicts part: validar accepts a player that validarJugador
      rejects exactly when every common check passes and some player check fails. */
  lemma {:induction false} ValidarOverridesValidarJugador(x: Integrante, today: Date)
    requires x.Jugador?
    ensures Validar(x, today).Ok? && !ValidarJugador(x).Ok? <==>
            FirstFailure(CommonChecks(x, today)).None? && FirstFailure(PlayerChecks(x)).Some?
  {
    ValidarIsFirstFailure(x, today);
    ValidarJugadorIsFirstFailure(x);
  }

  /** validarJugador accepts exactly dorsal in 1..99, altura in 0.0..3.0 (both ends
      included), non-negative peso, goles and partidos, and returns x itself. */
  lemma {:induction false} ValidarJugadorAccepts(x: Integrante)
    requires x.Jugador?
    ensures ValidarJugador(x) == Ok(x) <==>
      1 <= x.dorsal <= 99 && IsWithinZeroToThree(x.altura) && !IsBelowZero(x.peso)
      && x.goles >= 0 && x.partidosJugados >= 0
    ensures !ValidarJugador(x).Ok? ==>
      exists i :: 0 <= i < 5 && ValidarJugador(x) == Err(InvalidoError(PlayerChecks(x)[i].0))
                  && PlayerChecks(x)[i].1
                  && forall j :: 0 <= j < i ==> !PlayerChecks(x)[j].1
  {
    ValidarJugadorIsFirstFailure(x);
  }

  /** The range ends are inside: dorsal 1 and 99, altura 0.0 and 3.0; dorsal 0 and
      100 are out. */
  lemma {:induction false} ValidarJugadorBoundaries(x: Integrante)
    requires x.Jugador? && x.peso == 0 && x.goles == 0 && x.partidosJugados == 0
    ensures (x.dorsal == 1 || x.dorsal == 99) && (x.altura == 0 || x.altura == Three)
            ==> ValidarJugador(x) == Ok(x)
    ensures (x.dorsal == 0 || x.dorsal == 100) ==> ValidarJugador(x) == Err(InvalidoError(DorsalOutOfRange))
  {
  }
}
