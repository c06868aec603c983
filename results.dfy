/** The failure values of the roster (GestionErrors.kt), the JVM exceptions that
    escape a call, and the result type every operation returns. */
module Results {

  /** Why IntegranteValidator rejects an integrante, one reason per check. */
  datatype InvalidReason =
    | NombreBlank
    | ApellidosBlank
    | NacimientoInFuture
    | IncorporacionInFuture
    | IncorporacionBeforeNacimiento
    | SalarioNegative
    | PaisBlank
    | DorsalOutOfRange
    | AlturaOutOfRange
    | PesoNegative
    | GolesNegative
    | PartidosNegative

  /** Why a storage adapter refuses a file. */
  datatype StorageReason =
    | NotAReadableFile        // missing, not a regular file, or no read permission
    | ParentDirectoryMissing  // the parent of the target is not an existing directory

  /** GestionErrors: the typed failures the source returns instead of throwing. */
  datatype GestionError =
    | InvalidoError(invalid: InvalidReason)
    | StorageError(storage: StorageReason)
    | NotFoundError(id: int)

  /** The JVM exceptions that the modelled code lets escape. */
  datatype Exception =
    | NullPointer        // `!!` on null, or a null parent directory
    | IllegalArgument    // Enum.valueOf of an unknown name
    | NumberFormat       // String.toInt / toLong / toDouble of malformed text
    | DateTimeParse      // LocalDate.parse of malformed text
    | IndexOutOfBounds   // a CSV line with too few fields
    | EndOfFile          // a binary record cut short
    | UtfDataFormat      // malformed modified UTF-8, or a string too long for writeUTF
    | FileNotFound       // opening a directory or a read-only file for writing
    | SqlError           // the database refuses an insert
    | Serialization      // the JSON or XML library rejects a document

  /** Ok and Err are the source's Result<T, GestionErrors>; Thrown is an exception
      that escapes the call. */
  datatype Result<+T> = Ok(value: T) | Err(error: GestionError) | Thrown(exception: Exception)
  {
    predicate IsFailure() { !Ok? }

    function PropagateFailure<U>(): Result<U>
      requires !Ok?
    {
      if Err? then Err(error) else Thrown(exception)
    }

    function Extract(): T
      requires Ok?
    {
      value
    }
  }

  /** List.map with a call that may fail: the values in order when every call
      succeeds, otherwise the failure of the first call that fails. */
  function Collect<T>(rs: seq<Result<T>>): (r: Result<seq<T>>)
    ensures r.Ok? <==> forall i :: 0 <= i < |rs| ==> rs[i].Ok?
    ensures r.Ok? ==> |r.value| == |rs| && forall i :: 0 <= i < |rs| ==> rs[i] == Ok(r.value[i])
    ensures !r.Ok? ==> exists i :: 0 <= i < |rs| && !rs[i].Ok? && r == rs[i].PropagateFailure()
                                   && forall j :: 0 <= j < i ==> rs[j].Ok?
  {
    if rs == [] then Ok([])
    else if !rs[0].Ok? then rs[0].PropagateFailure()
    else
      var tail := Collect(rs[1..]);
      assert forall i :: 1 <= i < |rs| ==> rs[1..][i - 1] == rs[i];
      if !tail.Ok? then tail.PropagateFailure() else Ok([rs[0].value] + tail.value)
  }

  /** List.map: f applied to each element, in order. */
  function MapSeq<A, B>(xs: seq<A>, f: A -> B): (ys: seq<B>)
    ensures |ys| == |xs| && forall i :: 0 <= i < |xs| ==> ys[i] == f(xs[i])
  {
    if xs == [] then [] else [f(xs[0])] + MapSeq(xs[1..], f)
  }

  /** A Kotlin nullable value: None is null. */
  datatype Option<+T> = None | Some(value: T)
}
