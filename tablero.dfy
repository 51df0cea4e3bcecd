/**
 * The 8-puzzle board. An int[,] is modelled two ways: as the array itself
 * where the source clones it and writes cells in place, and as the value
 * Tablero (its rows, row-major) that specifies those methods and that the
 * search compares, keys and stores. The blank is the cell holding 0.
 */
module Tableros {
  import opened Comun

  /** The value of an int[,]: its column count and its rows. */
  datatype Matriz = Matriz(columnas: nat, filas: seq<seq<int>>)

  predicate Rectangular(m: Matriz)
  {
    forall i :: 0 <= i < |m.filas| ==> |m.filas[i]| == m.columnas
  }

  /** A rectangular matrix: GetLength(0) rows of GetLength(1) cells. */
  type Tablero = m: Matriz | Rectangular(m) witness Matriz(0, [])

  predicate Dentro(t: Tablero, i: int, j: int)
  {
    0 <= i < |t.filas| && 0 <= j < t.columnas
  }

  /** Two boards of the same shape with the same cells are the same board. */
  lemma {:induction false} TableroIgual(a: Tablero, b: Tablero)
    requires a.columnas == b.columnas && |a.filas| == |b.filas|
    requires forall i, j :: Dentro(a, i, j) ==> a.filas[i][j] == b.filas[i][j]
    ensures a == b
  {
    assert forall i :: 0 <= i < |a.filas| ==> a.filas[i] == b.filas[i];
  }

  // ---------------------------------------------------------------------
  // Row-major order
  // ---------------------------------------------------------------------

  /** The cells in row-major order, the order of the nested i/j loops. */
  function Aplanar(filas: seq<seq<int>>): seq<int>
  {
    if filas == [] then [] else filas[0] + Aplanar(filas[1..])
  }

  lemma {:induction false} AplanarConcat(a: seq<seq<int>>, b: seq<seq<int>>)
    ensures Aplanar(a + b) == Aplanar(a) + Aplanar(b)
  {
    if a != [] {
      assert (a + b)[0] == a[0];
      assert (a + b)[1..] == a[1..] + b;
      AplanarConcat(a[1..], b);
    } else {
      assert a + b == b;
    }
  }

  /** The rows visited so far, then the next one. */
  lemma {:induction false} AplanarPrefijo(filas: seq<seq<int>>, i: int)
    requires 0 <= i < |filas|
    ensures Aplanar(filas[..i + 1]) == Aplanar(filas[..i]) + filas[i]
  {
    assert filas[..i + 1] == filas[..i] + [filas[i]];
    AplanarConcat(filas[..i], [filas[i]]);
  }

  /** A board flattens to its rows before i, row i and the rows after it. */
  lemma {:induction false} AplanarPartido(filas: seq<seq<int>>, i: int)
    requires 0 <= i < |filas|
    ensures Aplanar(filas) == Aplanar(filas[..i]) + filas[i] + Aplanar(filas[i + 1..])
  {
    assert filas == filas[..i] + ([filas[i]] + filas[i + 1..]);
    AplanarConcat(filas[..i], [filas[i]] + filas[i + 1..]);
  }

  lemma {:induction false} AplanarInyectivaFilas(x: seq<seq<int>>, y: seq<seq<int>>, c: nat)
    requires |x| == |y|
    requires forall i :: 0 <= i < |x| ==> |x[i]| == c && |y[i]| == c
    requires Aplanar(x) == Aplanar(y)
    ensures x == y
  {
    if x != [] {
      assert x[0] == Aplanar(x)[..c] == y[0];
      assert Aplanar(x[1..]) == Aplanar(x)[c..] == Aplanar(y[1..]);
      AplanarInyectivaFilas(x[1..], y[1..], c);
      assert x == [x[0]] + x[1..] && y == [y[0]] + y[1..];
    }
  }

  /** Boards of the same shape with the same cells in row-major order are equal. */
  lemma {:induction false} AplanarInyectiva(a: Tablero, b: Tablero)
    requires a.columnas == b.columnas && |a.filas| == |b.filas|
    requires Aplanar(a.filas) == Aplanar(b.filas)
    ensures a == b
  {
    AplanarInyectivaFilas(a.filas, b.filas, a.columnas);
  }

  /** With at least one column, only the empty list of rows has no cells. */
  lemma {:induction false} AplanarVacio(t: Tablero, i: int)
    requires t.columnas > 0 && 0 <= i <= |t.filas|
    ensures Aplanar(t.filas[i..]) == [] <==> i == |t.filas|
  {
    if i < |t.filas| {
      assert t.filas[i..][0] == t.filas[i];
    }
  }

  // ---------------------------------------------------------------------
  // The blank
  // ---------------------------------------------------------------------

  /** The column of the first 0 of a row, or -1 (the inner search loop). */
  function CeroEnFila(fila: seq<int>): (r: int)
    ensures -1 <= r < |fila|
    ensures r >= 0 ==> fila[r] == 0 && forall j :: 0 <= j < r ==> fila[j] != 0
    ensures r == -1 ==> forall j :: 0 <= j < |fila| ==> fila[j] != 0
  {
    if fila == [] then -1
    else if fila[0] == 0 then 0
    else
      var r := CeroEnFila(fila[1..]);
      if r == -1 then -1 else r + 1
  }

  /** The first 0 in row-major order, or (-1, -1) when there is none. */
  function BlancoEn(filas: seq<seq<int>>): (r: (int, int))
    ensures r == (-1, -1) || (0 <= r.0 < |filas| && 0 <= r.1 < |filas[r.0]| && filas[r.0][r.1] == 0)
    ensures r == (-1, -1) ==> forall i, j :: 0 <= i < |filas| && 0 <= j < |filas[i]| ==> filas[i][j] != 0
    ensures r != (-1, -1) ==>
      (forall i, j :: 0 <= i < r.0 && 0 <= j < |filas[i]| ==> filas[i][j] != 0) &&
      forall j :: 0 <= j < r.1 ==> filas[r.0][j] != 0
  {
    if filas == [] then (-1, -1)
    else
      var c := CeroEnFila(filas[0]);
      if c >= 0 then (0, c)
      else
        var r := BlancoEn(filas[1..]);
        if r == (-1, -1) then (-1, -1) else (r.0 + 1, r.1)
  }

  function Blanco(t: Tablero): (int, int)
  {
    BlancoEn(t.filas)
  }

  /** No 0 other than the blank: the boards the puzzle is played on. */
  ghost predicate AlSumoUnBlanco(t: Tablero)
  {
    forall i, j :: Dentro(t, i, j) && t.filas[i][j] == 0 ==> (i, j) == Blanco(t)
  }

  // ---------------------------------------------------------------------
  // Moving the blank
  // ---------------------------------------------------------------------

  /** The switch on the direction: the blank's offset, or None for the default case. */
  function Desplazamiento(direccion: string): (r: Option<(int, int)>)
    ensures r.Some? ==> r.value in {(-1, 0), (1, 0), (0, -1), (0, 1)}
  {
    if direccion == "arriba" then Some((-1, 0))
    else if direccion == "abajo" then Some((1, 0))
    else if direccion == "izquierda" then Some((0, -1))
    else if direccion == "derecha" then Some((0, 1))
    else None
  }

  /** The direction that undoes a move. */
  function Opuesta(direccion: string): (r: string)
    ensures Desplazamiento(direccion).Some? ==>
      Desplazamiento(r).Some? &&
      Desplazamiento(r).value == (-Desplazamiento(direccion).value.0, -Desplazamiento(direccion).value.1)
  {
    if direccion == "arriba" then "abajo"
    else if direccion == "abajo" then "arriba"
    else if direccion == "izquierda" then "derecha"
    else if direccion == "derecha" then "izquierda"
    else direccion
  }

  /** The board with cell (i, j) set to v. */
  function Poner(t: Tablero, i: int, j: int, v: int): (r: Tablero)
    requires Dentro(t, i, j)
    ensures r.columnas == t.columnas && |r.filas| == |t.filas|
    ensures forall a, b :: Dentro(t, a, b) ==> r.filas[a][b] == if a == i && b == j then v else t.filas[a][b]
  {
    Matriz(t.columnas, t.filas[i := t.filas[i][j := v]])
  }

  /** Writes to two different cells commute. */
  lemma {:induction false} PonerConmuta(t: Tablero, i: int, j: int, v: int, k: int, l: int, w: int)
    requires Dentro(t, i, j) && Dentro(t, k, l) && (i, j) != (k, l)
    ensures Poner(Poner(t, i, j, v), k, l, w) == Poner(Poner(t, k, l, w), i, j, v)
  {
    TableroIgual(Poner(Poner(t, i, j, v), k, l, w), Poner(Poner(t, k, l, w), i, j, v));
  }

  /** Setting one cell trades one copy of its old value for one copy of v. */
  lemma {:induction false} PonerMultiset(t: Tablero, i: int, j: int, v: int)
    requires Dentro(t, i, j)
    ensures multiset(Aplanar(Poner(t, i, j, v).filas)) + multiset{t.filas[i][j]} ==
            multiset(Aplanar(t.filas)) + multiset{v}
  {
    var r := Poner(t, i, j, v);
    AplanarPartido(t.filas, i);
    AplanarPartido(r.filas, i);
    assert r.filas[..i] == t.filas[..i];
    assert r.filas[i + 1..] == t.filas[i + 1..];
    assert r.filas[i] == t.filas[i][j := v];
  }

  /**
   * Moving the blank in a direction (OperacionesPuzzle.AplicarAccion on
   * values): ArgumentException for a direction other than the four names,
   * InvalidOperationException when the target cell is off the board (always
   * the case when there is no blank, since one index stays -1); otherwise
   * the target becomes 0 and the old blank takes the target's value.
   */
  function Mover(t: Tablero, direccion: string): (r: Result<Tablero, Excepcion>)
    ensures r == Err(ArgumentException) <==> Desplazamiento(direccion).None?
    ensures r == Err(InvalidOperationException) <==>
      Desplazamiento(direccion).Some? &&
      !Dentro(t, Blanco(t).0 + Desplazamiento(direccion).value.0, Blanco(t).1 + Desplazamiento(direccion).value.1)
    ensures r.Err? ==> r.error == ArgumentException || r.error == InvalidOperationException
    ensures Blanco(t) == (-1, -1) ==> r.Err?
    ensures r.Ok? ==>
      var (fb, cb) := Blanco(t);
      var (nf, nc) := (fb + Desplazamiento(direccion).value.0, cb + Desplazamiento(direccion).value.1);
      Dentro(t, fb, cb) && Dentro(t, nf, nc) &&
      r.value.columnas == t.columnas && |r.value.filas| == |t.filas| &&
      r.value.filas[nf][nc] == 0 && r.value.filas[fb][cb] == t.filas[nf][nc] &&
      forall i, j :: Dentro(t, i, j) && (i, j) != (fb, cb) && (i, j) != (nf, nc) ==>
        r.value.filas[i][j] == t.filas[i][j]
  {
    match Desplazamiento(direccion)
    case None => Err(ArgumentException)
    case Some(d) =>
      var (fb, cb) := Blanco(t);
      var (nf, nc) := (fb + d.0, cb + d.1);
      if !Dentro(t, nf, nc) then Err(InvalidOperationException)
      else Ok(Poner(Poner(t, nf, nc, 0), fb, cb, t.filas[nf][nc]))
  }

  /** Writing 0 at (nf, nc) and its old value at a blank (fb, cb) keeps the multiset of cells. */
  lemma {:induction false} IntercambioMultiset(t: Tablero, fb: int, cb: int, nf: int, nc: int)
    requires Dentro(t, fb, cb) && Dentro(t, nf, nc) && t.filas[fb][cb] == 0
    ensures multiset(Aplanar(Poner(Poner(t, nf, nc, 0), fb, cb, t.filas[nf][nc]).filas)) == multiset(Aplanar(t.filas))
  {
    var u := Poner(t, nf, nc, 0);
    var w := Poner(u, fb, cb, t.filas[nf][nc]);
    PonerMultiset(t, nf, nc, 0);
    PonerMultiset(u, fb, cb, t.filas[nf][nc]);
    assert u.filas[fb][cb] == 0;
    var mw, mt := multiset(Aplanar(w.filas)), multiset(Aplanar(t.filas));
    assert mw + multiset{0} == mt + multiset{0};
    assert mw == (mw + multiset{0}) - multiset{0};
    assert mt == (mt + multiset{0}) - multiset{0};
  }

  /** A move keeps the multiset of cell values. */
  lemma {:induction false} MoverMultiset(t: Tablero, direccion: string)
    requires Mover(t, direccion).Ok?
    ensures multiset(Aplanar(Mover(t, direccion).value.filas)) == multiset(Aplanar(t.filas))
  {
    var d := Desplazamiento(direccion).value;
    var (fb, cb) := Blanco(t);
    var (nf, nc) := (fb + d.0, cb + d.1);
    IntercambioMultiset(t, fb, cb, nf, nc);
  }

  /** The first 0 in row-major order is the blank. */
  lemma {:induction false} PrimerCero(t: Tablero, i: int, j: int)
    requires Dentro(t, i, j) && t.filas[i][j] == 0
    requires forall a, b :: 0 <= a < i && 0 <= b < t.columnas ==> t.filas[a][b] != 0
    requires forall b :: 0 <= b < j ==> t.filas[i][b] != 0
    ensures Blanco(t) == (i, j)
  {
  }

  /** A board without a 0 has no blank. */
  lemma {:induction false} SinCero(t: Tablero)
    requires forall a, b :: Dentro(t, a, b) ==> t.filas[a][b] != 0
    ensures Blanco(t) == (-1, -1)
  {
  }

  /** The blank is where a move put it. */
  lemma {:induction false} BlancoUnico(t: Tablero, i: int, j: int)
    requires Dentro(t, i, j) && t.filas[i][j] == 0
    requires forall a, b :: Dentro(t, a, b) && (a, b) != (i, j) ==> t.filas[a][b] != 0
    ensures Blanco(t) == (i, j)
  {
    PrimerCero(t, i, j);
  }

  /** On a board with one blank, a move leaves the blank at its target. */
  lemma {:induction false} BlancoTrasMover(t: Tablero, direccion: string)
    requires AlSumoUnBlanco(t)
    requires Mover(t, direccion).Ok?
    ensures var d := Desplazamiento(direccion).value;
      Blanco(Mover(t, direccion).value) == (Blanco(t).0 + d.0, Blanco(t).1 + d.1)
  {
    var u := Mover(t, direccion).value;
    var d := Desplazamiento(direccion).value;
    var (fb, cb) := Blanco(t);
    var (nf, nc) := (fb + d.0, cb + d.1);
    assert t.filas[nf][nc] != 0;
    forall a, b | Dentro(u, a, b) && (a, b) != (nf, nc) ensures u.filas[a][b] != 0 {
      if (a, b) != (fb, cb) {
        assert u.filas[a][b] == t.filas[a][b];
      }
    }
    BlancoUnico(u, nf, nc);
  }

  /** On a board with one blank, the opposite direction undoes a legal move. */
  lemma {:induction false} MoverInverso(t: Tablero, direccion: string)
    requires AlSumoUnBlanco(t)
    requires Mover(t, direccion).Ok?
    ensures Mover(Mover(t, direccion).value, Opuesta(direccion)) == Ok(t)
  {
    var u := Mover(t, direccion).value;
    var d := Desplazamiento(direccion).value;
    var (fb, cb) := Blanco(t);
    var (nf, nc) := (fb + d.0, cb + d.1);
    BlancoTrasMover(t, direccion);
    var v := Mover(u, Opuesta(direccion));
    assert Desplazamiento(Opuesta(direccion)).value == (-d.0, -d.1);
    assert v.Ok?;
    forall a, b | Dentro(t, a, b) ensures v.value.filas[a][b] == t.filas[a][b] {
      if (a, b) != (fb, cb) && (a, b) != (nf, nc) {
        assert v.value.filas[a][b] == u.filas[a][b];
      }
    }
    TableroIgual(v.value, t);
  }

  /** A 3x2 board with two blanks in its middle row, and the same board after "abajo". */
  const DOS_BLANCOS: Tablero := Matriz(2, [[1, 2], [0, 0], [5, 6]])
  const DOS_BLANCOS_BAJADO: Tablero := Matriz(2, [[1, 2], [5, 0], [0, 6]])

  /** "abajo" moves the first blank, (1, 0), down. */
  lemma {:induction false} BajarDosBlancos()
    ensures Mover(DOS_BLANCOS, "abajo") == Ok(DOS_BLANCOS_BAJADO)
  {
    var t := DOS_BLANCOS;
    assert Blanco(t) == (1, 0) by {
      assert CeroEnFila(t.filas[0]) == -1;
    }
    assert Desplazamiento("abajo") == Some((1, 0));
    TableroIgual(Poner(Poner(t, 2, 0, 0), 1, 0, 5), DOS_BLANCOS_BAJADO);
  }

  /** Afterwards the first blank is (1, 1), and "arriba" moves that one up into the first row. */
  lemma {:induction false} SubirDosBlancos()
    ensures Mover(DOS_BLANCOS_BAJADO, "arriba").Ok? && Mover(DOS_BLANCOS_BAJADO, "arriba").value.filas[0][1] == 0
  {
    var u := DOS_BLANCOS_BAJADO;
    assert Blanco(u) == (1, 1) by {
      assert CeroEnFila(u.filas[0]) == -1;
    }
    assert Desplazamiento("arriba") == Some((-1, 0));
  }

  /** With two blanks the opposite move need not undo a move: the blank found first changes. */
  lemma {:induction false} VariosBlancosNoInvierte()
    ensures Mover(DOS_BLANCOS, "abajo").Ok? && Mover(Mover(DOS_BLANCOS, "abajo").value, "arriba") != Ok(DOS_BLANCOS)
  {
    BajarDosBlancos();
    SubirDosBlancos();
    assert DOS_BLANCOS.filas[0][1] == 2;
  }

  // ---------------------------------------------------------------------
  // The int[,] arrays
  // ---------------------------------------------------------------------

  /** The current value of an int[,]. */
  function Contenido(a: array2<int>): (t: Tablero)
    reads a
  {
    Matriz(a.Length1, seq(a.Length0, i requires 0 <= i < a.Length0 reads a =>
      seq(a.Length1, j requires 0 <= j < a.Length1 reads a => a[i, j])))
  }

  /** An array whose cells are those of t has t as its value. */
  lemma {:induction false} ContenidoDe(a: array2<int>, t: Tablero)
    requires a.Length0 == |t.filas| && a.Length1 == t.columnas
    requires forall i, j :: Dentro(t, i, j) ==> a[i, j] == t.filas[i][j]
    ensures Contenido(a) == t
  {
    TableroIgual(Contenido(a), t);
  }

  /** The value of a returned array, or the exception. */
  function ContenidoResultado(r: Result<array2<int>, Excepcion>): Result<Tablero, Excepcion>
    reads if r.Ok? then {r.value} else {}
  {
    match r
    case Ok(a) => Ok(Contenido(a))
    case Err(e) => Err(e)
  }

  /** (int[,])a.Clone(): a fresh array with the same cells. */
  method Clonar(a: array2<int>) returns (b: array2<int>)
    ensures fresh(b) && Contenido(b) == Contenido(a)
  {
    b := new int[a.Length0, a.Length1]((i, j) reads a =>
      if 0 <= i < a.Length0 && 0 <= j < a.Length1 then a[i, j] else 0);
    ContenidoDe(b, Contenido(a));
  }

  /**
   * The nested search loops for the blank, breaking out of both at the
   * first 0 and leaving (-1, -1) when there is none.
   */
  method BuscarBlanco(a: array2<int>) returns (filaBlanco: int, colBlanco: int)
    ensures (filaBlanco, colBlanco) == Blanco(Contenido(a))
  {
    ghost var t := Contenido(a);
    filaBlanco, colBlanco := -1, -1;
    var i := 0;
    while i < a.Length0
      invariant 0 <= i <= a.Length0
      invariant filaBlanco == -1 && colBlanco == -1
      invariant forall x, y :: 0 <= x < i && 0 <= y < a.Length1 ==> t.filas[x][y] != 0
    {
      var j := 0;
      while j < a.Length1
        invariant 0 <= j <= a.Length1
        invariant filaBlanco == -1 && colBlanco == -1
        invariant forall y :: 0 <= y < j ==> t.filas[i][y] != 0
      {
        if a[i, j] == 0 {
          filaBlanco, colBlanco := i, j;
          PrimerCero(t, i, j);
          break;
        }
        j := j + 1;
      }
      if filaBlanco != -1 {
        break;
      }
      i := i + 1;
    }
    if filaBlanco == -1 {
      SinCero(t);
    }
  }
}
