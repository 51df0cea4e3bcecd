/**
 * The 8-puzzle agent: its action (a direction for the blank), its
 * successor record, and the generator that tries the four directions on a
 * 3x3 board, cloning the board and swapping two cells for each legal one.
 */
module AgentesPuzzle {
  import opened Comun
  import opened Tableros

  /** AccionPuzzle: the direction the blank moves in, stored as given. */
  datatype AccionPuzzle = AccionPuzzle(direccion: string)
  {
    /** "Mover espacio en blanco " followed by the direction. */
    function ToString(): string
    {
      PREFIJO + direccion
    }
  }

  const PREFIJO: string := "Mover espacio en blanco "

  /** The rendering keeps the direction: it can be read back after the fixed prefix. */
  lemma {:induction false} ToStringDireccion(a: AccionPuzzle)
    ensures |a.ToString()| == |PREFIJO| + |a.direccion|
    ensures a.ToString()[..|PREFIJO|] == PREFIJO && a.ToString()[|PREFIJO|..] == a.direccion
  {
  }

  /** Different actions render differently. */
  lemma {:induction false} ToStringInyectiva(a: AccionPuzzle, b: AccionPuzzle)
    requires a.ToString() == b.ToString()
    ensures a == b
  {
    ToStringDireccion(a);
    ToStringDireccion(b);
  }

  lemma {:induction false} ToStringEjemplo()
    ensures AccionPuzzle("arriba").ToString() == "Mover espacio en blanco arriba"
  {
  }

  /** SucesorPuzzle: the action applied and the board it produces. */
  datatype SucesorPuzzle = SucesorPuzzle(accion: AccionPuzzle, estado: Tablero)

  /** The four directions in the order the generator's dictionary enumerates them. */
  const DIRECCIONES: seq<string> := ["arriba", "abajo", "izquierda", "derecha"]

  /** The generator's dictionary of offsets (dFila, dColumna), in insertion order. */
  const MOVIMIENTOS: seq<(string, (int, int))> :=
    [("arriba", (-1, 0)), ("abajo", (1, 0)), ("izquierda", (0, -1)), ("derecha", (0, 1))]

  /** The dictionary's offsets are those of the blank-move switch. */
  lemma {:induction false} MovimientosDesplazamiento(k: int)
    requires 0 <= k < |MOVIMIENTOS|
    ensures |MOVIMIENTOS| == |DIRECCIONES| && MOVIMIENTOS[k].0 == DIRECCIONES[k]
    ensures Desplazamiento(MOVIMIENTOS[k].0) == Some(MOVIMIENTOS[k].1)
  {
  }

  predicate Es3x3(t: Tablero)
  {
    |t.filas| == 3 && t.columnas == 3
  }

  /** The successor for one direction: the moved board when the move is legal, none otherwise. */
  function Paso(t: Tablero, d: string): seq<SucesorPuzzle>
  {
    match Mover(t, d)
    case Ok(u) => [SucesorPuzzle(AccionPuzzle(d), u)]
    case Err(_) => []
  }

  /** The successors tried for the directions ds, in order. */
  function SucesoresDesde(t: Tablero, ds: seq<string>): seq<SucesorPuzzle>
  {
    if ds == [] then [] else SucesoresDesde(t, ds[..|ds| - 1]) + Paso(t, ds[|ds| - 1])
  }

  /** The successors of a board: one per legal direction, in dictionary order. */
  function SucesoresPuzzle(t: Tablero): seq<SucesorPuzzle>
  {
    SucesoresDesde(t, DIRECCIONES)
  }

  lemma {:induction false} SucesoresDesdeMiembro(t: Tablero, ds: seq<string>, s: SucesorPuzzle)
    ensures s in SucesoresDesde(t, ds) <==> s.accion.direccion in ds && Mover(t, s.accion.direccion) == Ok(s.estado)
  {
    if ds != [] {
      SucesoresDesdeMiembro(t, ds[..|ds| - 1], s);
      assert ds == ds[..|ds| - 1] + [ds[|ds| - 1]];
    }
  }

  /** A successor is exactly a legal move in one of the four directions, with the board it produces. */
  lemma {:induction false} SucesoresCaracterizados(t: Tablero, s: SucesorPuzzle)
    ensures s in SucesoresPuzzle(t) <==> s.accion.direccion in DIRECCIONES && Mover(t, s.accion.direccion) == Ok(s.estado)
  {
    SucesoresDesdeMiembro(t, DIRECCIONES, s);
  }

  /**
   * On a 3x3 board, direction k yields a successor iff the blank plus its
   * offset lies in 0..2 on both axes; a board without a 0 has none.
   */
  lemma {:induction false} SucesorSiiDentro(t: Tablero, k: int)
    requires Es3x3(t) && 0 <= k < |MOVIMIENTOS|
    ensures (exists s :: s in SucesoresPuzzle(t) && s.accion.direccion == MOVIMIENTOS[k].0) <==>
      (0 <= Blanco(t).0 + MOVIMIENTOS[k].1.0 < 3 && 0 <= Blanco(t).1 + MOVIMIENTOS[k].1.1 < 3)
    ensures Blanco(t) == (-1, -1) ==> SucesoresPuzzle(t) == []
  {
    MovimientosDesplazamiento(k);
    var d := MOVIMIENTOS[k].0;
    if Mover(t, d).Ok? {
      SucesoresCaracterizados(t, SucesorPuzzle(AccionPuzzle(d), Mover(t, d).value));
    } else {
      forall s | s in SucesoresPuzzle(t) ensures s.accion.direccion != d {
        SucesoresCaracterizados(t, s);
      }
    }
    if Blanco(t) == (-1, -1) && SucesoresPuzzle(t) != [] {
      SucesoresCaracterizados(t, SucesoresPuzzle(t)[0]);
    }
  }

  /** On a board with one blank, the opposite direction leads back from every successor. */
  lemma {:induction false} SucesoresReversibles(t: Tablero, s: SucesorPuzzle)
    requires AlSumoUnBlanco(t) && s in SucesoresPuzzle(t)
    ensures Mover(s.estado, Opuesta(s.accion.direccion)) == Ok(t)
    ensures multiset(Aplanar(s.estado.filas)) == multiset(Aplanar(t.filas))
  {
    SucesoresCaracterizados(t, s);
    MoverInverso(t, s.accion.direccion);
    MoverMultiset(t, s.accion.direccion);
  }

  /** AgentePuzzle: a private clone of a 3x3 board and its successor generator. */
  class AgentePuzzle {
    const estadoActual: array2<int>

    constructor(estadoInicial: array2<int>)
      ensures fresh(estadoActual) && Contenido(estadoActual) == Contenido(estadoInicial)
    {
      var copia := Clonar(estadoInicial);
      estadoActual := copia;
    }

    /**
     * The blank search, then for each dictionary entry a clone with the
     * blank and its neighbour swapped when the neighbour lies in 0..2 on
     * both axes. The generator indexes 0..2 unconditionally, so the board
     * must be 3x3.
     */
    method GenerarSucesores() returns (sucesores: seq<SucesorPuzzle>)
      requires estadoActual.Length0 == 3 && estadoActual.Length1 == 3
      ensures sucesores == SucesoresPuzzle(Contenido(estadoActual))
    {
      ghost var t := Contenido(estadoActual);
      sucesores := [];
      var filaBlanco, colBlanco := BuscarBlanco(estadoActual);
      var movimientos := MOVIMIENTOS;
      for k := 0 to |movimientos|
        invariant sucesores == SucesoresDesde(t, DIRECCIONES[..k])
      {
        MovimientosDesplazamiento(k);
        assert DIRECCIONES[..k + 1] == DIRECCIONES[..k] + [DIRECCIONES[k]];
        var (nombre, (dFila, dColumna)) := movimientos[k];
        var paso := SucesorEn(estadoActual, filaBlanco, colBlanco, nombre, dFila, dColumna);
        sucesores := sucesores + paso;
      }
      assert DIRECCIONES[..|movimientos|] == DIRECCIONES;
    }
  }

  /** One dictionary entry: the swapped clone when the target lies in 0..2 on both axes. */
  method SucesorEn(estado: array2<int>, filaBlanco: int, colBlanco: int, nombre: string, dFila: int, dColumna: int)
    returns (paso: seq<SucesorPuzzle>)
    requires estado.Length0 == 3 && estado.Length1 == 3
    requires (filaBlanco, colBlanco) == Blanco(Contenido(estado))
    requires Desplazamiento(nombre) == Some((dFila, dColumna))
    ensures paso == Paso(Contenido(estado), nombre)
  {
    ghost var t := Contenido(estado);
    var nuevaFila := filaBlanco + dFila;
    var nuevaCol := colBlanco + dColumna;
    paso := [];
    if nuevaFila >= 0 && nuevaFila < 3 && nuevaCol >= 0 && nuevaCol < 3 {
      var nuevoEstado := ClonarIntercambiado(estado, filaBlanco, colBlanco, nuevaFila, nuevaCol);
      var accion := AccionPuzzle(nombre);
      PonerConmuta(t, filaBlanco, colBlanco, t.filas[nuevaFila][nuevaCol], nuevaFila, nuevaCol, 0);
      paso := [SucesorPuzzle(accion, Contenido(nuevoEstado))];
    }
  }

  /** The clone with the blank at (fb, cb) given the value at (nf, nc), then (nf, nc) set to 0. */
  method ClonarIntercambiado(estado: array2<int>, fb: int, cb: int, nf: int, nc: int) returns (nuevoEstado: array2<int>)
    requires 0 <= fb < estado.Length0 && 0 <= cb < estado.Length1
    requires 0 <= nf < estado.Length0 && 0 <= nc < estado.Length1
    ensures fresh(nuevoEstado)
    ensures Contenido(nuevoEstado) == Poner(Poner(Contenido(estado), fb, cb, estado[nf, nc]), nf, nc, 0)
  {
    ghost var t := Contenido(estado);
    nuevoEstado := Clonar(estado);
    nuevoEstado[fb, cb] := nuevoEstado[nf, nc];
    nuevoEstado[nf, nc] := 0;
    ContenidoDe(nuevoEstado, Poner(Poner(t, fb, cb, t.filas[nf][nc]), nf, nc, 0));
  }
}
