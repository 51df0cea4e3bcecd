/**
 * MundoPuzzle: the puzzle world that holds the board being played, checks
 * the fixed goal layout and applies moves given in any letter case.
 */
module MundosPuzzle {
  import opened Comun
  import opened Tableros
  import opened AgentesPuzzle
  import OperacionesPuzzle

  /** The value the goal layout expects at flat index k of n cells: 1, 2, ..., n - 1 and then 0. */
  function Esperado(k: int, n: int): int
  {
    if k == n - 1 then 0 else k + 1
  }

  /** The goal layout: in row-major order the cells are 1 .. n-1 and the last one is 0. */
  predicate EsObjetivo(t: Tablero)
  {
    var cs := Aplanar(t.filas);
    forall k :: 0 <= k < |cs| ==> cs[k] == Esperado(k, |cs|)
  }

  /** Cell (i, j) sits at flat index |rows before i| + j, and it is the last cell iff it is the bottom-right one. */
  lemma {:induction false} CeldaAplanada(t: Tablero, i: int, j: int)
    requires Dentro(t, i, j)
    ensures var k := |Aplanar(t.filas[..i])| + j;
      k < |Aplanar(t.filas)| && Aplanar(t.filas)[k] == t.filas[i][j] &&
      (k == |Aplanar(t.filas)| - 1 <==> i == |t.filas| - 1 && j == t.columnas - 1)
  {
    AplanarPartido(t.filas, i);
    AplanarVacio(t, i + 1);
  }

  lemma {:induction false} ObjetivoEjemplos()
    ensures EsObjetivo(Matriz(3, [[1, 2, 3], [4, 5, 6], [7, 8, 0]]))
    ensures !EsObjetivo(Matriz(3, [[1, 2, 3], [4, 5, 6], [0, 7, 8]]))
    ensures EsObjetivo(Matriz(0, []))
  {
    var t: Tablero := Matriz(3, [[1, 2, 3], [4, 5, 6], [7, 8, 0]]);
    assert Aplanar(t.filas) == [1, 2, 3, 4, 5, 6, 7, 8, 0];
    var u: Tablero := Matriz(3, [[1, 2, 3], [4, 5, 6], [0, 7, 8]]);
    assert Aplanar(u.filas) == [1, 2, 3, 4, 5, 6, 0, 7, 8];
    assert Aplanar(u.filas)[6] != Esperado(6, 9);
  }

  /** The goal layout has exactly one blank, in the bottom-right cell. */
  lemma {:induction false} ObjetivoUnBlanco(t: Tablero)
    requires EsObjetivo(t) && |t.filas| > 0 && t.columnas > 0
    ensures Blanco(t) == (|t.filas| - 1, t.columnas - 1)
    ensures AlSumoUnBlanco(t)
  {
    var (fi, cj) := (|t.filas| - 1, t.columnas - 1);
    forall i, j | Dentro(t, i, j) && (i, j) != (fi, cj) ensures t.filas[i][j] != 0 {
      CeldaAplanada(t, i, j);
    }
    CeldaAplanada(t, fi, cj);
    BlancoUnico(t, fi, cj);
  }

  class MundoPuzzle {
    var tablero: array2<int>

    /** The world keeps its own clone of the initial board. */
    constructor(estadoInicial: array2<int>)
      ensures fresh(tablero) && Contenido(tablero) == Contenido(estadoInicial)
    {
      var copia := Clonar(estadoInicial);
      tablero := copia;
    }

    /**
     * The row-major scan with the valorEsperado counter: the bottom-right
     * cell must be 0 and every other cell the next expected value.
     */
    method EsEstadoObjetivo() returns (b: bool)
      ensures b <==> EsObjetivo(Contenido(tablero))
    {
      ghost var t := Contenido(tablero);
      ghost var cs := Aplanar(t.filas);
      ghost var n := |cs|;
      var filas := tablero.Length0;
      var columnas := tablero.Length1;
      var valorEsperado := 1;
      ghost var k := 0;
      for i := 0 to filas
        invariant k == |Aplanar(t.filas[..i])| && k <= n
        invariant k < n ==> valorEsperado == k + 1
        invariant forall m :: 0 <= m < k ==> cs[m] == Esperado(m, n)
      {
        for j := 0 to columnas
          invariant k == |Aplanar(t.filas[..i])| + j && k <= n
          invariant k < n ==> valorEsperado == k + 1
          invariant forall m :: 0 <= m < k ==> cs[m] == Esperado(m, n)
        {
          CeldaAplanada(t, i, j);
          if i == filas - 1 && j == columnas - 1 {
            if tablero[i, j] != 0 {
              return false;
            }
          } else {
            if tablero[i, j] != valorEsperado {
              return false;
            }
            valorEsperado := valorEsperado + 1;
          }
          k := k + 1;
        }
        AplanarPrefijo(t.filas, i);
      }
      assert t.filas[..filas] == t.filas;
      return true;
    }

    /**
     * The same blank move as OperacionesPuzzle.AplicarAccion, after
     * lower-casing the direction; the world's own board is not in any
     * modifies clause, so it is unchanged.
     */
    method AplicarAccion(accion: AccionPuzzle) returns (r: Result<array2<int>, Excepcion>)
      ensures r.Ok? ==> fresh(r.value)
      ensures ContenidoResultado(r) == Mover(Contenido(tablero), Minusculas(accion.direccion))
    {
      r := OperacionesPuzzle.AplicarAccion(tablero, AccionPuzzle(Minusculas(accion.direccion)));
    }
  }

  /** Upper-case directions are accepted here but not by OperacionesPuzzle. */
  lemma {:induction false} MinusculasEjemplo(t: Tablero)
    ensures Mover(t, Minusculas("ARRIBA")) == Mover(t, "arriba")
    ensures Mover(t, "ARRIBA") == Err(ArgumentException)
  {
    assert Minusculas("ARRIBA") == "arriba";
  }
}
