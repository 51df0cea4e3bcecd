/**
 * The 8-puzzle configuration reader (class LectorEstadosPuzzle): the
 * file's non-blank lines hold the sections [EstadoInicial] and
 * [EstadoObjetivo], each a matrix written one row per line with the cells
 * separated by commas or blanks. Reading the file itself is not modelled:
 * the reader starts from its lines.
 */
module LectoresPuzzle {
  import opened Comun
  import opened Tableros
  import opened Secciones

  /** The separators of a matrix row: ',' and ' ', empty entries removed. */
  const SEPARADORES_MATRIZ: set<char> := {',', ' '}

  function Elementos(linea: string): seq<string>
  {
    Tokens(linea, SEPARADORES_MATRIZ)
  }

  /** int.Parse on each element of a row, in order; the first failure is the row's error. */
  function Celdas(elementos: seq<string>): (r: Result<seq<int>, Excepcion>)
    ensures r.Ok? ==> |r.value| == |elementos|
    ensures r.Err? ==> r.error == FormatException || r.error == OverflowException
  {
    if elementos == [] then Ok([])
    else
      var n := |elementos| - 1;
      match Celdas(elementos[..n])
      case Err(e) => Err(e)
      case Ok(fila) =>
        match ParsearEntero(elementos[n])
        case Err(e) => Err(e)
        case Ok(v) => Ok(fila + [v])
  }

  /** A row that parses holds, cell by cell, the integers its elements denote. */
  lemma {:induction false} CeldasCorrectas(elementos: seq<string>)
    requires Celdas(elementos).Ok?
    ensures forall j :: 0 <= j < |elementos| ==> ParsearEntero(elementos[j]) == Ok(Celdas(elementos).value[j])
    decreases |elementos|
  {
    if elementos != [] {
      var n := |elementos| - 1;
      CeldasCorrectas(elementos[..n]);
      assert forall j :: 0 <= j < n ==> elementos[..n][j] == elementos[j];
    }
  }

  /** Once the cells of a prefix fail, the row fails with the same error. */
  lemma {:induction false} CeldasPrefijoError(elementos: seq<string>, j: int)
    requires 0 <= j <= |elementos| && Celdas(elementos[..j]).Err?
    ensures Celdas(elementos) == Celdas(elementos[..j])
    decreases |elementos| - j
  {
    if j < |elementos| {
      assert elementos[..j + 1][..j] == elementos[..j];
      CeldasPrefijoError(elementos, j + 1);
    } else {
      assert elementos[..j] == elementos;
    }
  }

  /**
   * The rows in order, each already split into its elements: each must
   * have as many elements as the first line (InvalidDataException
   * otherwise, before any of its cells is parsed), then its cells are
   * parsed.
   */
  function FilasDe(filasElementos: seq<seq<string>>, columnas: nat): (r: Result<seq<seq<int>>, Excepcion>)
    ensures r.Ok? ==> |r.value| == |filasElementos| && forall i :: 0 <= i < |r.value| ==> |r.value[i]| == columnas
    ensures r.Err? ==> r.error == InvalidDataException || r.error == FormatException || r.error == OverflowException
  {
    if filasElementos == [] then Ok([])
    else
      var n := |filasElementos| - 1;
      match FilasDe(filasElementos[..n], columnas)
      case Err(e) => Err(e)
      case Ok(filas) =>
        var elementos := filasElementos[n];
        if |elementos| != columnas then Err(InvalidDataException)
        else
          match Celdas(elementos)
          case Err(e) => Err(e)
          case Ok(fila) => Ok(filas + [fila])
  }

  /** Rows that parse all have the first line's width and hold their parsed cells. */
  lemma {:induction false} FilasCorrectas(filasElementos: seq<seq<string>>, columnas: nat)
    requires FilasDe(filasElementos, columnas).Ok?
    ensures forall i :: 0 <= i < |filasElementos| ==>
      |filasElementos[i]| == columnas && Celdas(filasElementos[i]) == Ok(FilasDe(filasElementos, columnas).value[i])
    decreases |filasElementos|
  {
    if filasElementos != [] {
      var n := |filasElementos| - 1;
      FilasCorrectas(filasElementos[..n], columnas);
      assert forall i :: 0 <= i < n ==> filasElementos[..n][i] == filasElementos[i];
    }
  }

  /** Once a prefix of the rows fails, the matrix fails with the same error. */
  lemma {:induction false} FilasPrefijoError(filasElementos: seq<seq<string>>, columnas: nat, i: int)
    requires 0 <= i <= |filasElementos| && FilasDe(filasElementos[..i], columnas).Err?
    ensures FilasDe(filasElementos, columnas) == FilasDe(filasElementos[..i], columnas)
    decreases |filasElementos| - i
  {
    if i < |filasElementos| {
      assert filasElementos[..i + 1][..i] == filasElementos[..i];
      FilasPrefijoError(filasElementos, columnas, i + 1);
    } else {
      assert filasElementos[..i] == filasElementos;
    }
  }

  /**
   * When every row's cells parse, the rows make a matrix exactly when each
   * has the given width, and otherwise fail with InvalidDataException.
   */
  lemma {:induction false} FilasInconsistentes(filasElementos: seq<seq<string>>, columnas: nat)
    requires forall i :: 0 <= i < |filasElementos| ==> Celdas(filasElementos[i]).Ok?
    ensures FilasDe(filasElementos, columnas).Ok? <==> forall i :: 0 <= i < |filasElementos| ==> |filasElementos[i]| == columnas
    ensures FilasDe(filasElementos, columnas).Err? ==> FilasDe(filasElementos, columnas).error == InvalidDataException
    decreases |filasElementos|
  {
    if filasElementos != [] {
      var n := |filasElementos| - 1;
      assert forall i :: 0 <= i < n ==> filasElementos[..n][i] == filasElementos[i];
      FilasInconsistentes(filasElementos[..n], columnas);
    }
  }

  /**
   * ParsearMatriz: every line split into its elements, the first line
   * fixing the number of columns; an empty list has no first line
   * (ArgumentOutOfRangeException).
   */
  function MatrizDe(lineas: seq<string>): (r: Result<Tablero, Excepcion>)
    ensures r.Err? && r.error == ArgumentOutOfRangeException <==> lineas == []
    ensures r.Ok? ==> |r.value.filas| == |lineas| && r.value.columnas == |Elementos(lineas[0])|
  {
    if lineas == [] then Err(ArgumentOutOfRangeException)
    else
      var filasElementos := Mapear(Elementos, lineas);
      var columnas := |filasElementos[0]|;
      match FilasDe(filasElementos, columnas)
      case Err(e) => Err(e)
      case Ok(filas) => Ok(Matriz(columnas, filas))
  }

  /** Cell (i, j) of a matrix read is element j of line i parsed as an integer. */
  lemma {:induction false} MatrizCorrecta(lineas: seq<string>)
    requires MatrizDe(lineas).Ok?
    ensures var t := MatrizDe(lineas).value;
      forall i, j :: Dentro(t, i, j) ==> |Elementos(lineas[i])| == t.columnas && ParsearEntero(Elementos(lineas[i])[j]) == Ok(t.filas[i][j])
  {
    var t := MatrizDe(lineas).value;
    var filasElementos := Mapear(Elementos, lineas);
    FilasCorrectas(filasElementos, t.columnas);
    forall i | 0 <= i < |lineas| ensures forall j :: 0 <= j < t.columnas ==> ParsearEntero(Elementos(lineas[i])[j]) == Ok(t.filas[i][j]) {
      CeldasCorrectas(filasElementos[i]);
    }
  }

  /**
   * When every cell parses, a non-empty list of lines is a matrix exactly
   * when every line has as many elements as the first, and otherwise fails
   * with InvalidDataException.
   */
  lemma {:induction false} MatrizInconsistente(lineas: seq<string>)
    requires lineas != []
    requires forall i :: 0 <= i < |lineas| ==> Celdas(Elementos(lineas[i])).Ok?
    ensures MatrizDe(lineas).Ok? <==> forall i :: 0 <= i < |lineas| ==> |Elementos(lineas[i])| == |Elementos(lineas[0])|
    ensures MatrizDe(lineas).Err? ==> MatrizDe(lineas).error == InvalidDataException
  {
    FilasInconsistentes(Mapear(Elementos, lineas), |Elementos(lineas[0])|);
  }

  // ---------------------------------------------------------------------
  // Writing a board and reading it back
  // ---------------------------------------------------------------------

  /** A row written with its cells joined by ','. */
  function LineaDe(fila: seq<int>): string
  {
    Unir(",", Mapear(IntToString, fila))
  }

  lemma {:induction false} ElementosDeLinea(fila: seq<int>)
    ensures Elementos(LineaDe(fila)) == Mapear(IntToString, fila)
  {
    var ps := Mapear(IntToString, fila);
    forall k, i | 0 <= k < |ps| && 0 <= i < |ps[k]| ensures ps[k][i] !in SEPARADORES_MATRIZ {
      IntToStringForma(fila[k]);
    }
    forall k | 0 <= k < |ps| ensures ps[k] != [] {
      IntToStringForma(fila[k]);
    }
    if ps != [] {
      CamposDeUnirEn(ps, ',', SEPARADORES_MATRIZ);
      SinVaciosNoVacios(ps);
    } else {
      assert LineaDe(fila) == "";
    }
  }

  lemma {:induction false} CeldasDeTexto(fila: seq<int>)
    requires forall j :: 0 <= j < |fila| ==> EsInt32(fila[j])
    ensures Celdas(Mapear(IntToString, fila)) == Ok(fila)
    decreases |fila|
  {
    if fila != [] {
      var n := |fila| - 1;
      CeldasDeTexto(fila[..n]);
      assert Mapear(IntToString, fila)[..n] == Mapear(IntToString, fila[..n]);
      ParsearEnteroDeTexto(fila[n]);
      assert fila[..n] + [fila[n]] == fila;
    }
  }

  /** The lines of a board whose cells are 32-bit integers. */
  ghost predicate CeldasInt32(t: Tablero)
  {
    forall i, j :: Dentro(t, i, j) ==> EsInt32(t.filas[i][j])
  }

  /** Rows of the given width whose cells all parse make the matrix of the parsed rows. */
  lemma {:induction false} FilasDeCeldas(filasElementos: seq<seq<string>>, filas: seq<seq<int>>, columnas: nat)
    requires |filasElementos| == |filas|
    requires forall i :: 0 <= i < |filas| ==> |filasElementos[i]| == columnas && Celdas(filasElementos[i]) == Ok(filas[i])
    ensures FilasDe(filasElementos, columnas) == Ok(filas)
    decreases |filas|
  {
    if filas != [] {
      var n := |filas| - 1;
      FilasDeCeldas(filasElementos[..n], filas[..n], columnas);
      assert filas[..n] + [filas[n]] == filas;
    }
  }

  lemma {:induction false} FilasDeTexto(filas: seq<seq<int>>, columnas: nat)
    requires forall i :: 0 <= i < |filas| ==> |filas[i]| == columnas
    requires forall i, j :: 0 <= i < |filas| && 0 <= j < columnas ==> EsInt32(filas[i][j])
    ensures FilasDe(Mapear(Elementos, Mapear(LineaDe, filas)), columnas) == Ok(filas)
  {
    var fe := Mapear(Elementos, Mapear(LineaDe, filas));
    forall i | 0 <= i < |filas| ensures |fe[i]| == columnas && Celdas(fe[i]) == Ok(filas[i]) {
      ElementosDeLinea(filas[i]);
      CeldasDeTexto(filas[i]);
    }
    FilasDeCeldas(fe, filas, columnas);
  }

  /** A board written one row per line, cells joined by ',', reads back as the same board. */
  lemma {:induction false} MatrizDeTexto(t: Tablero)
    requires |t.filas| > 0 && CeldasInt32(t)
    ensures MatrizDe(Mapear(LineaDe, t.filas)) == Ok(t)
  {
    ElementosDeLinea(t.filas[0]);
    FilasDeTexto(t.filas, t.columnas);
  }

  // ---------------------------------------------------------------------
  // ParsearMatriz over an int[,]
  // ---------------------------------------------------------------------

  /** One more row, given the rows before it. */
  lemma {:induction false} FilasPaso(filasElementos: seq<seq<string>>, columnas: nat, i: int, hechas: seq<seq<int>>)
    requires 0 <= i < |filasElementos| && FilasDe(filasElementos[..i], columnas) == Ok(hechas)
    ensures var elementos := filasElementos[i];
      FilasDe(filasElementos[..i + 1], columnas) ==
        if |elementos| != columnas then Err(InvalidDataException)
        else if Celdas(elementos).Err? then Err(Celdas(elementos).error)
        else Ok(hechas + [Celdas(elementos).value])
  {
    assert filasElementos[..i + 1][..i] == filasElementos[..i];
  }

  /** The matrix read from non-empty lines is the first line's width together with the rows, or their error. */
  lemma {:induction false} MatrizDeFilas(lineas: seq<string>, filasElementos: seq<seq<string>>, columnas: nat)
    requires lineas != [] && filasElementos == Mapear(Elementos, lineas) && columnas == |Elementos(lineas[0])|
    ensures FilasDe(filasElementos, columnas).Err? ==> MatrizDe(lineas) == Err(FilasDe(filasElementos, columnas).error)
    ensures FilasDe(filasElementos, columnas).Ok? ==> MatrizDe(lineas) == Ok(Matriz(columnas, FilasDe(filasElementos, columnas).value))
  {
  }

  /** ParsearMatriz: a new int[filas, columnas] filled row by row. */
  method ParsearMatriz(lineas: seq<string>) returns (r: Result<array2<int>, Excepcion>)
    ensures r.Ok? ==> fresh(r.value)
    ensures ContenidoResultado(r) == MatrizDe(lineas)
  {
    if |lineas| == 0 {
      return Err(ArgumentOutOfRangeException);
    }
    var filas := |lineas|;
    var elementosPrimeraLinea := Tokens(lineas[0], SEPARADORES_MATRIZ);
    var columnas := |elementosPrimeraLinea|;
    var matriz := new int[filas, columnas];
    ghost var filasElementos := Mapear(Elementos, lineas);
    ghost var hechas: seq<seq<int>> := [];
    for i := 0 to filas
      invariant FilasDe(filasElementos[..i], columnas) == Ok(hechas)
      invariant forall x, y :: 0 <= x < i && 0 <= y < columnas ==> matriz[x, y] == hechas[x][y]
    {
      var elementos := Tokens(lineas[i], SEPARADORES_MATRIZ);
      assert elementos == filasElementos[i];
      FilasPaso(filasElementos, columnas, i, hechas);
      if |elementos| != columnas {
        FilasPrefijoError(filasElementos, columnas, i + 1);
        MatrizDeFilas(lineas, filasElementos, columnas);
        return Err(InvalidDataException);
      }
      var fallo := LlenarFila(matriz, i, elementos);
      if fallo.Some? {
        FilasPrefijoError(filasElementos, columnas, i + 1);
        MatrizDeFilas(lineas, filasElementos, columnas);
        return Err(fallo.value);
      }
      hechas := hechas + [Celdas(elementos).value];
    }
    assert filasElementos[..filas] == filasElementos;
    MatrizDeFilas(lineas, filasElementos, columnas);
    ContenidoDe(matriz, Matriz(columnas, hechas));
    return Ok(matriz);
  }

  /** One row of ParsearMatriz: matriz[i, j] = int.Parse(elementos[j]) for every j, stopping at the first failure. */
  method LlenarFila(matriz: array2<int>, i: int, elementos: seq<string>) returns (fallo: Option<Excepcion>)
    requires 0 <= i < matriz.Length0 && |elementos| == matriz.Length1
    modifies matriz
    ensures fallo.None? <==> Celdas(elementos).Ok?
    ensures fallo.Some? ==> Celdas(elementos) == Err(fallo.value)
    ensures fallo.None? ==> forall y :: 0 <= y < matriz.Length1 ==> matriz[i, y] == Celdas(elementos).value[y]
    ensures forall x, y :: 0 <= x < matriz.Length0 && x != i && 0 <= y < matriz.Length1 ==> matriz[x, y] == old(matriz[x, y])
  {
    ghost var fila: seq<int> := [];
    for j := 0 to |elementos|
      invariant Celdas(elementos[..j]) == Ok(fila)
      invariant forall y :: 0 <= y < j ==> matriz[i, y] == fila[y]
      invariant forall x, y :: 0 <= x < matriz.Length0 && x != i && 0 <= y < matriz.Length1 ==> matriz[x, y] == old(matriz[x, y])
    {
      assert elementos[..j + 1][..j] == elementos[..j];
      var v := ParsearEntero(elementos[j]);
      if v.Err? {
        CeldasPrefijoError(elementos, j + 1);
        return Some(v.error);
      }
      matriz[i, j] := v.value;
      fila := fila + [v.value];
    }
    assert elementos[..|elementos|] == elementos;
    return None;
  }

  // ---------------------------------------------------------------------
  // The reader
  // ---------------------------------------------------------------------

  const ESTADO_INICIAL: string := "[EstadoInicial]"
  const ESTADO_OBJETIVO: string := "[EstadoObjetivo]"

  /**
   * The constructor over the file's lines: blank lines dropped, both
   * sections read, then both parsed as matrices.
   */
  function LecturaPuzzle(lineasArchivo: seq<string>): (r: Result<(Tablero, Tablero), Excepcion>)
    ensures r.Ok? ==> |r.value.0.filas| >= 1 && |r.value.1.filas| >= 1
  {
    var lineas := SinLineasEnBlanco(lineasArchivo);
    match Seccion(lineas, ESTADO_INICIAL)
    case Err(e) => Err(e)
    case Ok(inicialLineas) =>
      match Seccion(lineas, ESTADO_OBJETIVO)
      case Err(e) => Err(e)
      case Ok(objetivoLineas) =>
        match MatrizDe(inicialLineas)
        case Err(e) => Err(e)
        case Ok(inicial) =>
          match MatrizDe(objetivoLineas)
          case Err(e) => Err(e)
          case Ok(objetivo) => Ok((inicial, objetivo))
  }

  /** A file missing either section header is refused with InvalidDataException. */
  lemma {:induction false} LecturaPuzzleSinSeccion(lineasArchivo: seq<string>, seccion: string)
    requires seccion == ESTADO_INICIAL || seccion == ESTADO_OBJETIVO
    requires forall l :: l in lineasArchivo ==> Trim(l) != seccion
    ensures LecturaPuzzle(lineasArchivo) == Err(InvalidDataException)
  {
    var lineas := SinLineasEnBlanco(lineasArchivo);
    var ts := Mapear(Trim, lineas);
    assert forall j :: 0 <= j < |ts| ==> lineas[j] in lineasArchivo;
    SinCabecera(ts, seccion);
  }

  /** LectorEstadosPuzzle: the two matrices read from a configuration file. */
  class LectorEstadosPuzzle {
    const estadoInicial: array2<int>
    const estadoObjetivo: array2<int>

    constructor(inicial: array2<int>, objetivo: array2<int>)
      ensures estadoInicial == inicial && estadoObjetivo == objetivo
    {
      estadoInicial := inicial;
      estadoObjetivo := objetivo;
    }

    /** The constructor over the file's lines; an exception it would throw is the error. */
    static method Leer(lineasArchivo: seq<string>) returns (r: Result<LectorEstadosPuzzle, Excepcion>)
      ensures r.Err? <==> LecturaPuzzle(lineasArchivo).Err?
      ensures r.Err? ==> r.error == LecturaPuzzle(lineasArchivo).error
      ensures r.Ok? ==> fresh(r.value) && fresh(r.value.estadoInicial) && fresh(r.value.estadoObjetivo)
      ensures r.Ok? ==> (Contenido(r.value.estadoInicial), Contenido(r.value.estadoObjetivo)) == LecturaPuzzle(lineasArchivo).value
    {
      var lineas := SinLineasEnBlanco(lineasArchivo);
      var inicialLineas := LeerSeccion(lineas, ESTADO_INICIAL);
      if inicialLineas.Err? {
        return Err(inicialLineas.error);
      }
      var objetivoLineas := LeerSeccion(lineas, ESTADO_OBJETIVO);
      if objetivoLineas.Err? {
        return Err(objetivoLineas.error);
      }
      var inicial := ParsearMatriz(inicialLineas.value);
      if inicial.Err? {
        return Err(inicial.error);
      }
      var objetivo := ParsearMatriz(objetivoLineas.value);
      if objetivo.Err? {
        return Err(objetivo.error);
      }
      var lector := new LectorEstadosPuzzle(inicial.value, objetivo.value);
      return Ok(lector);
    }
  }
}
