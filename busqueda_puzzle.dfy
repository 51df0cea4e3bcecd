/**
 * BusquedaPuzzle: the A* search of the 8-puzzle, with the misplaced-tile
 * heuristic, board equality and the string key of a board. Unlike the
 * blocks-world search it keeps no best-g map: every successor whose key is
 * not closed is pushed, duplicates included, and each node carries its own
 * copy of the plan.
 */
module BusquedaPuzzle {
  import opened Comun
  import opened Tableros
  import opened AgentesPuzzle

  datatype ResultadoBusquedaPuzzle = ResultadoBusquedaPuzzle(plan: seq<AccionPuzzle>, costoTotal: int)

  /** NodoPuzzle: a board, the plan that reached it, its cost G and heuristic H. */
  datatype NodoPuzzle = NodoPuzzle(tablero: Tablero, plan: seq<AccionPuzzle>, g: int, h: int)
  {
    function F(): int { g + h }
  }

  /** How the search ends: a plan, an exception, or fuel exhausted. */
  datatype SalidaPuzzle =
    | Solucion(resultado: ResultadoBusquedaPuzzle)
    | Fallo(error: Excepcion)
    | SinTerminar

  // ---------------------------------------------------------------------
  // Misplaced-tile heuristic
  // ---------------------------------------------------------------------

  /** Reading cell (i, j) of the goal is only attempted for a non-zero cell, and must be in range. */
  predicate Legible(e: Tablero, o: Tablero, i: int, j: int)
    requires Dentro(e, i, j)
  {
    e.filas[i][j] == 0 || Dentro(o, i, j)
  }

  /** A cell that does not count: the blank, or a tile equal to the goal's cell. */
  predicate BienColocada(e: Tablero, o: Tablero, i: int, j: int)
    requires Dentro(e, i, j)
  {
    e.filas[i][j] != 0 ==> Dentro(o, i, j) && e.filas[i][j] == o.filas[i][j]
  }

  /** One step of the loop: h grows for a non-zero cell that differs from the goal. */
  function CeldaMal(e: Tablero, o: Tablero, i: int, j: int): Result<int, Excepcion>
    requires Dentro(e, i, j)
  {
    if e.filas[i][j] == 0 then Ok(0)
    else if !Dentro(o, i, j) then Err(IndexOutOfRangeException)
    else if e.filas[i][j] != o.filas[i][j] then Ok(1)
    else Ok(0)
  }

  /** The first error, or the sum. */
  function Sumar(a: Result<int, Excepcion>, b: Result<int, Excepcion>): Result<int, Excepcion>
  {
    if a.Err? then a else if b.Err? then b else Ok(a.value + b.value)
  }

  /** The count over cells 0..j-1 of row i. */
  function HeuristicaFila(e: Tablero, o: Tablero, i: int, j: nat): (r: Result<int, Excepcion>)
    requires 0 <= i < |e.filas| && j <= e.columnas
    ensures r.Ok? <==> forall y :: 0 <= y < j ==> Legible(e, o, i, y)
    ensures r.Err? ==> r.error == IndexOutOfRangeException
    ensures r.Ok? ==> 0 <= r.value <= j
    ensures r == Ok(0) <==> forall y :: 0 <= y < j ==> BienColocada(e, o, i, y)
  {
    if j == 0 then Ok(0)
    else
      var r := Sumar(HeuristicaFila(e, o, i, j - 1), CeldaMal(e, o, i, j - 1));
      assert (forall y :: 0 <= y < j ==> Legible(e, o, i, y)) <==>
        (forall y :: 0 <= y < j - 1 ==> Legible(e, o, i, y)) && Legible(e, o, i, j - 1);
      assert (forall y :: 0 <= y < j ==> BienColocada(e, o, i, y)) <==>
        (forall y :: 0 <= y < j - 1 ==> BienColocada(e, o, i, y)) && BienColocada(e, o, i, j - 1);
      r
  }

  /** The count over rows 0..i-1, row by row. */
  function HeuristicaFilas(e: Tablero, o: Tablero, i: nat): (r: Result<int, Excepcion>)
    requires i <= |e.filas|
    ensures r.Ok? <==> forall x, y :: 0 <= x < i && 0 <= y < e.columnas ==> Legible(e, o, x, y)
    ensures r.Err? ==> r.error == IndexOutOfRangeException
    ensures r.Ok? ==> 0 <= r.value <= i * e.columnas
    ensures r == Ok(0) <==> forall x, y :: 0 <= x < i && 0 <= y < e.columnas ==> BienColocada(e, o, x, y)
  {
    if i == 0 then Ok(0)
    else
      var r := Sumar(HeuristicaFilas(e, o, i - 1), HeuristicaFila(e, o, i - 1, e.columnas));
      assert r.Ok? ==> r.value <= (i - 1) * e.columnas + e.columnas;
      r
  }

  /**
   * BusquedaPuzzle.CalcularHeuristica: the number of non-zero cells that
   * differ from the goal's cell, between 0 and rows * columns, and 0
   * exactly when every tile is in place; IndexOutOfRangeException when a
   * non-zero cell has no counterpart in the goal.
   */
  function Heuristica(e: Tablero, o: Tablero): (r: Result<int, Excepcion>)
    ensures r.Ok? <==> forall x, y :: Dentro(e, x, y) ==> Legible(e, o, x, y)
    ensures r.Err? ==> r.error == IndexOutOfRangeException
    ensures r.Ok? ==> 0 <= r.value <= |e.filas| * e.columnas
    ensures r == Ok(0) <==> forall x, y :: Dentro(e, x, y) ==> BienColocada(e, o, x, y)
  {
    HeuristicaFilas(e, o, |e.filas|)
  }

  /** The goal itself scores 0, and boards of the goal's shape never throw. */
  lemma {:induction false} HeuristicaObjetivo(e: Tablero, o: Tablero)
    ensures Heuristica(o, o) == Ok(0)
    ensures e.columnas == o.columnas && |e.filas| == |o.filas| ==> Heuristica(e, o).Ok?
  {
  }

  /** The nested loops with the h++ counter. */
  method CalcularHeuristica(estado: Tablero, objetivo: Tablero) returns (r: Result<int, Excepcion>)
    ensures r == Heuristica(estado, objetivo)
  {
    var filas := |estado.filas|;
    var h := 0;
    for i := 0 to filas
      invariant HeuristicaFilas(estado, objetivo, i) == Ok(h)
    {
      var fila := RecorrerFila(estado, objetivo, i, h);
      if fila.Err? {
        return fila;
      }
      h := fila.value;
    }
    return Ok(h);
  }

  /** The inner loop over row i, carrying h on from the rows before it. */
  method RecorrerFila(estado: Tablero, objetivo: Tablero, i: int, h0: int) returns (r: Result<int, Excepcion>)
    requires 0 <= i < |estado.filas|
    ensures r == Sumar(Ok(h0), HeuristicaFila(estado, objetivo, i, estado.columnas))
  {
    var columnas := estado.columnas;
    var h := h0;
    for j := 0 to columnas
      invariant Sumar(Ok(h0), HeuristicaFila(estado, objetivo, i, j)) == Ok(h)
    {
      if estado.filas[i][j] != 0 {
        if !(i < |objetivo.filas| && j < objetivo.columnas) {
          assert !Legible(estado, objetivo, i, j);
          return Err(IndexOutOfRangeException);
        }
        if estado.filas[i][j] != objetivo.filas[i][j] {
          h := h + 1;
        }
      }
    }
    return Ok(h);
  }

  // ---------------------------------------------------------------------
  // Board equality and key
  // ---------------------------------------------------------------------

  /** TablerosIguales: false on any difference of shape, otherwise cell by cell. */
  method TablerosIguales(a: Tablero, b: Tablero) returns (r: bool)
    ensures r <==> a == b
  {
    var filas := |a.filas|;
    var columnas := a.columnas;
    if filas != |b.filas| || columnas != b.columnas {
      return false;
    }
    for i := 0 to filas
      invariant forall x, y :: 0 <= x < i && 0 <= y < columnas ==> a.filas[x][y] == b.filas[x][y]
    {
      for j := 0 to columnas
        invariant forall x, y :: 0 <= x < i && 0 <= y < columnas ==> a.filas[x][y] == b.filas[x][y]
        invariant forall y :: 0 <= y < j ==> a.filas[i][y] == b.filas[i][y]
      {
        if a.filas[i][j] != b.filas[i][j] {
          return false;
        }
      }
    }
    TableroIgual(a, b);
    return true;
  }

  /** The key of a board: its cells in row-major order, written in decimal and joined by commas. */
  function Clave(t: Tablero): string
  {
    Unir(",", Mapear(IntToString, Aplanar(t.filas)))
  }

  /** Boards of the same shape with the same key are the same board. */
  lemma {:induction false} ClaveInyectiva(a: Tablero, b: Tablero)
    requires a.columnas == b.columnas && |a.filas| == |b.filas|
    requires Clave(a) == Clave(b)
    ensures a == b
  {
    var xa, xb := Aplanar(a.filas), Aplanar(b.filas);
    var pa, pb := Mapear(IntToString, xa), Mapear(IntToString, xb);
    forall k, i | 0 <= k < |pa| && 0 <= i < |pa[k]| ensures pa[k][i] != ',' {
      IntToStringForma(xa[k]);
    }
    forall k, i | 0 <= k < |pb| && 0 <= i < |pb[k]| ensures pb[k][i] != ',' {
      IntToStringForma(xb[k]);
    }
    if pa != [] && pb != [] {
      CamposDeUnirEn(pa, ',', {','});
      CamposDeUnirEn(pb, ',', {','});
      assert pa == pb;
      forall k | 0 <= k < |xa| ensures xa[k] == xb[k] {
        IntToStringInyectiva(xa[k], xb[k]);
      }
    } else if pa != [] {
      IntToStringForma(xa[0]);
      CamposDeUnirEn(pa, ',', {','});
    } else if pb != [] {
      IntToStringForma(xb[0]);
      CamposDeUnirEn(pb, ',', {','});
    }
    AplanarInyectiva(a, b);
  }

  /** TableroToString: the cells collected row by row, then string.Join(","). */
  method TableroToString(tablero: Tablero) returns (s: string)
    ensures s == Clave(tablero)
  {
    var filas := |tablero.filas|;
    var columnas := tablero.columnas;
    var elems: seq<string> := [];
    for i := 0 to filas
      invariant elems == Mapear(IntToString, Aplanar(tablero.filas[..i]))
    {
      for j := 0 to columnas
        invariant elems == Mapear(IntToString, Aplanar(tablero.filas[..i]) + tablero.filas[i][..j])
      {
        assert tablero.filas[i][..j + 1] == tablero.filas[i][..j] + [tablero.filas[i][j]];
        elems := elems + [IntToString(tablero.filas[i][j])];
      }
      assert tablero.filas[i][..columnas] == tablero.filas[i];
      AplanarPrefijo(tablero.filas, i);
    }
    assert tablero.filas[..filas] == tablero.filas;
    s := Unir(",", elems);
  }

  // ---------------------------------------------------------------------
  // Paths
  // ---------------------------------------------------------------------

  /** The plan leads from the initial board to t, each step a successor offered by gen. */
  ghost predicate Llega(inicial: Tablero, plan: seq<AccionPuzzle>, t: Tablero, gen: Tablero -> seq<SucesorPuzzle>)
    decreases |plan|
  {
    if plan == [] then t == inicial
    else
      exists previo: Tablero ::
        Llega(inicial, plan[..|plan| - 1], previo, gen) && SucesorPuzzle(plan[|plan| - 1], t) in gen(previo)
  }

  /** What a node in the queue is: G is its plan's length, the plan reaches its board, H is its heuristic. */
  ghost predicate NodoBien(n: NodoPuzzle, inicial: Tablero, objetivo: Tablero, gen: Tablero -> seq<SucesorPuzzle>)
  {
    n.g == |n.plan| && Llega(inicial, n.plan, n.tablero, gen) && Heuristica(n.tablero, objetivo) == Ok(n.h)
  }

  /** The plan applied with OperacionesPuzzle.AplicarAccion, stopping at the first exception. */
  function Ejecutar(inicial: Tablero, plan: seq<AccionPuzzle>): Result<Tablero, Excepcion>
  {
    if plan == [] then Ok(inicial)
    else match Ejecutar(inicial, plan[..|plan| - 1])
      case Ok(t) => Mover(t, plan[|plan| - 1].direccion)
      case Err(e) => Err(e)
  }

  /** With the agent's generator, a plan that reaches a board is one that OperacionesPuzzle executes to it. */
  lemma {:induction false} LlegaEjecuta(inicial: Tablero, plan: seq<AccionPuzzle>, t: Tablero)
    requires Llega(inicial, plan, t, SucesoresPuzzle)
    ensures Ejecutar(inicial, plan) == Ok(t)
    decreases |plan|
  {
    if plan != [] {
      var previo: Tablero :| Llega(inicial, plan[..|plan| - 1], previo, SucesoresPuzzle) &&
        SucesorPuzzle(plan[|plan| - 1], t) in SucesoresPuzzle(previo);
      LlegaEjecuta(inicial, plan[..|plan| - 1], previo);
      SucesoresCaracterizados(previo, SucesorPuzzle(plan[|plan| - 1], t));
    }
  }

  // ---------------------------------------------------------------------
  // Expansion
  // ---------------------------------------------------------------------

  /** The successors whose key is not in the closed set, duplicates included, in order. */
  function Abiertos(sucesores: seq<SucesorPuzzle>, cerrados: set<string>): (r: seq<SucesorPuzzle>)
    ensures forall s :: s in r <==> s in sucesores && Clave(s.estado) !in cerrados
  {
    if sucesores == [] then []
    else
      var s := sucesores[|sucesores| - 1];
      assert sucesores == sucesores[..|sucesores| - 1] + [s];
      Abiertos(sucesores[..|sucesores| - 1], cerrados) + (if Clave(s.estado) in cerrados then [] else [s])
  }

  /** The node for a successor: one more step, the action appended to a copy of the plan. */
  function Hijo(current: NodoPuzzle, s: SucesorPuzzle, h: int): NodoPuzzle
  {
    NodoPuzzle(s.estado, current.plan + [s.accion], current.g + 1, h)
  }

  /** The nodes the foreach pushes for the successors, or the exception a heuristic throws. */
  function ExpansionPuzzle(current: NodoPuzzle, sucesores: seq<SucesorPuzzle>, objetivo: Tablero, cerrados: set<string>)
    : Result<seq<NodoPuzzle>, Excepcion>
  {
    if sucesores == [] then Ok([])
    else
      var previo := ExpansionPuzzle(current, sucesores[..|sucesores| - 1], objetivo, cerrados);
      var s := sucesores[|sucesores| - 1];
      if previo.Err? || Clave(s.estado) in cerrados then previo
      else match Heuristica(s.estado, objetivo)
        case Err(e) => Err(e)
        case Ok(h) => Ok(previo.value + [Hijo(current, s, h)])
  }

  /** The last successor either is skipped or adds one entry to the open ones. */
  lemma {:induction false} AbiertosUltimo(sucesores: seq<SucesorPuzzle>, cerrados: set<string>)
    requires sucesores != []
    ensures var n := |sucesores| - 1;
      Abiertos(sucesores, cerrados) ==
        Abiertos(sucesores[..n], cerrados) + (if Clave(sucesores[n].estado) in cerrados then [] else [sucesores[n]])
  {
  }

  /** The only exception of the expansion is the heuristic's. */
  lemma {:induction false} ExpansionError(current: NodoPuzzle, sucesores: seq<SucesorPuzzle>, objetivo: Tablero, cerrados: set<string>)
    ensures var r := ExpansionPuzzle(current, sucesores, objetivo, cerrados);
      r.Err? ==> r.error == IndexOutOfRangeException
    decreases |sucesores|
  {
    if sucesores != [] {
      ExpansionError(current, sucesores[..|sucesores| - 1], objetivo, cerrados);
    }
  }

  /** The expansion succeeds exactly when the heuristic of every open successor does. */
  lemma {:induction false} ExpansionSii(current: NodoPuzzle, sucesores: seq<SucesorPuzzle>, objetivo: Tablero, cerrados: set<string>)
    ensures var abiertos := Abiertos(sucesores, cerrados);
      ExpansionPuzzle(current, sucesores, objetivo, cerrados).Ok? <==>
        forall k :: 0 <= k < |abiertos| ==> Heuristica(abiertos[k].estado, objetivo).Ok?
    decreases |sucesores|
  {
    if sucesores != [] {
      var n := |sucesores| - 1;
      ExpansionSii(current, sucesores[..n], objetivo, cerrados);
      AbiertosUltimo(sucesores, cerrados);
    }
  }

  /** A successful expansion pushes one child per open successor, in order. */
  lemma {:induction false} ExpansionHijos(current: NodoPuzzle, sucesores: seq<SucesorPuzzle>, objetivo: Tablero, cerrados: set<string>)
    requires ExpansionPuzzle(current, sucesores, objetivo, cerrados).Ok?
    ensures var r := ExpansionPuzzle(current, sucesores, objetivo, cerrados).value;
      var abiertos := Abiertos(sucesores, cerrados);
      && |r| == |abiertos|
      && forall k :: 0 <= k < |abiertos| ==>
           Heuristica(abiertos[k].estado, objetivo).Ok? &&
           r[k] == Hijo(current, abiertos[k], Heuristica(abiertos[k].estado, objetivo).value)
    decreases |sucesores|
  {
    ExpansionSii(current, sucesores, objetivo, cerrados);
    if sucesores != [] {
      var n := |sucesores| - 1;
      ExpansionHijos(current, sucesores[..n], objetivo, cerrados);
      AbiertosUltimo(sucesores, cerrados);
    }
  }

  /**
   * Every successor whose key is not closed is pushed, in order and
   * duplicates included, as a child with g + 1, the plan extended by its
   * action and its heuristic; closed ones are skipped; the only exception
   * is the heuristic's.
   */
  lemma {:induction false} ExpansionCaracterizada(current: NodoPuzzle, sucesores: seq<SucesorPuzzle>, objetivo: Tablero, cerrados: set<string>)
    ensures var r := ExpansionPuzzle(current, sucesores, objetivo, cerrados);
      var abiertos := Abiertos(sucesores, cerrados);
      && (r.Err? ==> r.error == IndexOutOfRangeException)
      && (r.Ok? <==> forall k :: 0 <= k < |abiertos| ==> Heuristica(abiertos[k].estado, objetivo).Ok?)
      && (r.Ok? ==> |r.value| == |abiertos|)
      && (r.Ok? ==>
            forall k :: 0 <= k < |abiertos| ==>
              r.value[k] == Hijo(current, abiertos[k], Heuristica(abiertos[k].estado, objetivo).value))
  {
    ExpansionError(current, sucesores, objetivo, cerrados);
    ExpansionSii(current, sucesores, objetivo, cerrados);
    if ExpansionPuzzle(current, sucesores, objetivo, cerrados).Ok? {
      ExpansionHijos(current, sucesores, objetivo, cerrados);
    }
  }

  /** The pushed children of a well-formed node expanded with gen are well formed. */
  lemma {:induction false} ExpansionBien(current: NodoPuzzle, objetivo: Tablero, cerrados: set<string>,
                      inicial: Tablero, gen: Tablero -> seq<SucesorPuzzle>)
    requires NodoBien(current, inicial, objetivo, gen)
    requires ExpansionPuzzle(current, gen(current.tablero), objetivo, cerrados).Ok?
    ensures forall n :: n in ExpansionPuzzle(current, gen(current.tablero), objetivo, cerrados).value ==>
      NodoBien(n, inicial, objetivo, gen)
  {
    var sucesores := gen(current.tablero);
    var ns := ExpansionPuzzle(current, sucesores, objetivo, cerrados).value;
    var abiertos := Abiertos(sucesores, cerrados);
    ExpansionCaracterizada(current, sucesores, objetivo, cerrados);
    forall n | n in ns ensures NodoBien(n, inicial, objetivo, gen) {
      var k :| 0 <= k < |ns| && ns[k] == n;
      var s := abiertos[k];
      assert s in sucesores;
      assert n.plan[..|n.plan| - 1] == current.plan;
      assert SucesorPuzzle(n.plan[|n.plan| - 1], n.tablero) == s;
    }
  }

  /** The foreach over the successors: closed keys skipped, every other one pushed. */
  method ExpandirSucesores(current: NodoPuzzle, sucesores: seq<SucesorPuzzle>, objetivo: Tablero,
                           closedSet: set<string>, openSet0: multiset<NodoPuzzle>)
    returns (openSet: multiset<NodoPuzzle>, fallo: Option<Excepcion>)
    ensures var r := ExpansionPuzzle(current, sucesores, objetivo, closedSet);
      && (r.Err? ==> fallo == Some(r.error))
      && (r.Ok? ==> fallo == None && openSet == openSet0 + multiset(r.value))
  {
    openSet := openSet0;
    ghost var encolados: seq<NodoPuzzle> := [];
    for i := 0 to |sucesores|
      invariant ExpansionPuzzle(current, sucesores[..i], objetivo, closedSet) == Ok(encolados)
      invariant openSet == openSet0 + multiset(encolados)
    {
      var suc := sucesores[i];
      ExpansionPaso(current, sucesores, i, objetivo, closedSet, encolados);
      var hash := TableroToString(suc.estado);
      if hash in closedSet {
        continue;
      }
      var g := current.g + 1;
      var h := CalcularHeuristica(suc.estado, objetivo);
      if h.Err? {
        ExpansionPrefijoError(current, sucesores, i + 1, objetivo, closedSet);
        return openSet, Some(h.error);
      }
      var nodoSucesor := NodoPuzzle(suc.estado, current.plan + [suc.accion], g, h.value);
      assert nodoSucesor == Hijo(current, suc, h.value);
      openSet := openSet + multiset{nodoSucesor};
      encolados := encolados + [nodoSucesor];
    }
    assert sucesores[..|sucesores|] == sucesores;
    fallo := None;
  }

  /** One more successor, given the expansion of the ones before it. */
  lemma {:induction false} ExpansionPaso(current: NodoPuzzle, sucesores: seq<SucesorPuzzle>, i: int, objetivo: Tablero,
                      cerrados: set<string>, encolados: seq<NodoPuzzle>)
    requires 0 <= i < |sucesores|
    requires ExpansionPuzzle(current, sucesores[..i], objetivo, cerrados) == Ok(encolados)
    ensures var s := sucesores[i];
      var h := Heuristica(s.estado, objetivo);
      ExpansionPuzzle(current, sucesores[..i + 1], objetivo, cerrados) ==
        if Clave(s.estado) in cerrados then Ok(encolados)
        else if h.Err? then Err(h.error)
        else Ok(encolados + [Hijo(current, s, h.value)])
  {
    assert sucesores[..i + 1][..i] == sucesores[..i];
  }

  /** Once a prefix of the successors throws, the whole expansion throws the same. */
  lemma {:induction false} ExpansionPrefijoError(current: NodoPuzzle, sucesores: seq<SucesorPuzzle>, i: nat,
                                                 objetivo: Tablero, cerrados: set<string>)
    requires i <= |sucesores|
    requires ExpansionPuzzle(current, sucesores[..i], objetivo, cerrados).Err?
    ensures ExpansionPuzzle(current, sucesores, objetivo, cerrados) == ExpansionPuzzle(current, sucesores[..i], objetivo, cerrados)
    decreases |sucesores| - i
  {
    if i < |sucesores| {
      assert sucesores[..i + 1][..i] == sucesores[..i];
      ExpansionPrefijoError(current, sucesores, i + 1, objetivo, cerrados);
    } else {
      assert sucesores[..i] == sucesores;
    }
  }

  // ---------------------------------------------------------------------
  // The search
  // ---------------------------------------------------------------------

  /**
   * BusquedaPuzzle.EncontrarSolucion. The generator is a parameter; the
   * queue is a multiset from which any node of least F is taken; at most
   * maxPasos nodes are taken. An empty queue ends in the "no solution"
   * InvalidOperationException; a heuristic that throws ends the search.
   */
  method EncontrarSolucion(estadoInicial: Tablero, estadoObjetivo: Tablero,
                           generadorSucesores: Tablero -> seq<SucesorPuzzle>, maxPasos: nat)
    returns (r: SalidaPuzzle, ghost final: NodoPuzzle)
    ensures r.Solucion? ==>
      && NodoBien(final, estadoInicial, estadoObjetivo, generadorSucesores)
      && final.tablero == estadoObjetivo
      && r.resultado == ResultadoBusquedaPuzzle(final.plan, final.g)
    ensures r.Fallo? ==> r.error == InvalidOperationException || r.error == IndexOutOfRangeException
    ensures Heuristica(estadoInicial, estadoObjetivo).Err? ==> r == Fallo(IndexOutOfRangeException)
    ensures maxPasos > 0 && estadoInicial == estadoObjetivo ==> r == Solucion(ResultadoBusquedaPuzzle([], 0))
  {
    var openSet: multiset<NodoPuzzle> := multiset{};
    var closedSet: set<string> := {};
    var h0 := CalcularHeuristica(estadoInicial, estadoObjetivo);
    if h0.Err? {
      return Fallo(h0.error), NodoPuzzle(estadoInicial, [], 0, 0);
    }
    var nodoInicial := NodoPuzzle(estadoInicial, [], 0, h0.value);
    openSet := openSet + multiset{nodoInicial};
    final := nodoInicial;
    var restantes := maxPasos;
    ghost var primera := true;
    while |openSet| > 0 && restantes > 0
      invariant forall m :: m in openSet ==> NodoBien(m, estadoInicial, estadoObjetivo, generadorSucesores)
      invariant primera ==> openSet == multiset{nodoInicial} && restantes == maxPasos
      invariant primera || estadoInicial != estadoObjetivo
      decreases restantes
    {
      restantes := restantes - 1;
      HayMinimo(openSet, (n: NodoPuzzle) => n.F());
      var current :| current in openSet && forall m :: m in openSet ==> current.F() <= m.F();
      openSet := openSet - multiset{current};
      ghost var eraPrimera := primera;
      primera := false;

      var iguales := TablerosIguales(current.tablero, estadoObjetivo);
      if iguales {
        return Solucion(ResultadoBusquedaPuzzle(current.plan, current.g)), current;
      }
      assert eraPrimera ==> current == nodoInicial;

      var clave := TableroToString(current.tablero);
      closedSet := closedSet + {clave};

      var sucesores := generadorSucesores(current.tablero);
      ghost var openSet0 := openSet;
      var fallo;
      openSet, fallo := ExpandirSucesores(current, sucesores, estadoObjetivo, closedSet, openSet);
      if fallo.Some? {
        ExpansionCaracterizada(current, sucesores, estadoObjetivo, closedSet);
        return Fallo(fallo.value), current;
      }
      ExpansionBien(current, estadoObjetivo, closedSet, estadoInicial, generadorSucesores);
    }
    if |openSet| == 0 {
      r := Fallo(InvalidOperationException);
    } else {
      r := SinTerminar;
    }
  }

  /** A solution found with the agent's generator is a plan that OperacionesPuzzle executes to the goal, at cost its length. */
  lemma {:induction false} SolucionEjecutable(inicial: Tablero, objetivo: Tablero, final: NodoPuzzle)
    requires NodoBien(final, inicial, objetivo, SucesoresPuzzle) && final.tablero == objetivo
    ensures Ejecutar(inicial, final.plan) == Ok(objetivo)
    ensures final.g == |final.plan|
  {
    LlegaEjecuta(inicial, final.plan, final.tablero);
  }
}
