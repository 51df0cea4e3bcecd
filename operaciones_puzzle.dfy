/**
 * OperacionesPuzzle.AplicarAccion: the blank move on an int[,], applied to
 * a clone so that the caller's board is left as it was.
 */
module OperacionesPuzzle {
  import opened Comun
  import opened Tableros
  import opened AgentesPuzzle

  /**
   * Clone, find the blank, offset it by the (case-sensitive) direction and
   * swap it with the target cell; ArgumentException for an unknown
   * direction, InvalidOperationException for a target off the board. The
   * input array is not in any modifies clause, so it is unchanged.
   */
  method AplicarAccion(estadoActual: array2<int>, accion: AccionPuzzle) returns (r: Result<array2<int>, Excepcion>)
    ensures r.Ok? ==> fresh(r.value)
    ensures ContenidoResultado(r) == Mover(Contenido(estadoActual), accion.direccion)
  {
    ghost var t := Contenido(estadoActual);
    var nuevoEstado := Clonar(estadoActual);
    var filaBlanco, colBlanco := BuscarBlanco(nuevoEstado);
    r := MoverBlanco(nuevoEstado, filaBlanco, colBlanco, accion.direccion);
    assert Contenido(estadoActual) == t;
  }

  /** From the blank (filaBlanco, colBlanco) of the clone: the switch, the bounds check and the swap in place. */
  method MoverBlanco(nuevoEstado: array2<int>, filaBlanco: int, colBlanco: int, direccion: string)
    returns (r: Result<array2<int>, Excepcion>)
    requires (filaBlanco, colBlanco) == Blanco(Contenido(nuevoEstado))
    modifies nuevoEstado
    ensures r.Ok? ==> r.value == nuevoEstado
    ensures ContenidoResultado(r) == Mover(old(Contenido(nuevoEstado)), direccion)
  {
    ghost var t := Contenido(nuevoEstado);
    var filas := nuevoEstado.Length0;
    var columnas := nuevoEstado.Length1;
    var nuevaFila, nuevaCol, conocida := Destino(filaBlanco, colBlanco, direccion);
    if !conocida {
      return Err(ArgumentException);
    }
    MoverHacia(t, direccion, filaBlanco, colBlanco, nuevaFila, nuevaCol);
    if nuevaFila < 0 || nuevaFila >= filas || nuevaCol < 0 || nuevaCol >= columnas {
      return Err(InvalidOperationException);
    }
    assert nuevoEstado[nuevaFila, nuevaCol] == t.filas[nuevaFila][nuevaCol];
    Intercambiar(nuevoEstado, filaBlanco, colBlanco, nuevaFila, nuevaCol);
    return Ok(nuevoEstado);
  }

  /** The if-chain on the direction: the target cell of the blank, or false for an unknown direction. */
  method Destino(filaBlanco: int, colBlanco: int, direccion: string) returns (nuevaFila: int, nuevaCol: int, conocida: bool)
    ensures conocida <==> Desplazamiento(direccion).Some?
    ensures conocida ==> (nuevaFila - filaBlanco, nuevaCol - colBlanco) == Desplazamiento(direccion).value
  {
    nuevaFila, nuevaCol, conocida := filaBlanco, colBlanco, true;
    if direccion == "arriba" {
      nuevaFila := filaBlanco - 1;
    } else if direccion == "abajo" {
      nuevaFila := filaBlanco + 1;
    } else if direccion == "izquierda" {
      nuevaCol := colBlanco - 1;
    } else if direccion == "derecha" {
      nuevaCol := colBlanco + 1;
    } else {
      conocida := false;
    }
  }

  /** A known direction moves the blank (fb, cb) to (nf, nc), or throws when (nf, nc) is off the board. */
  lemma {:induction false} MoverHacia(t: Tablero, direccion: string, fb: int, cb: int, nf: int, nc: int)
    requires (fb, cb) == Blanco(t) && Desplazamiento(direccion) == Some((nf - fb, nc - cb))
    ensures Dentro(t, nf, nc) ==> Mover(t, direccion) == Ok(Poner(Poner(t, nf, nc, 0), fb, cb, t.filas[nf][nc]))
    ensures !Dentro(t, nf, nc) ==> Mover(t, direccion) == Err(InvalidOperationException)
  {
  }

  /** The swap: temp := target; target := 0; blank := temp. */
  method Intercambiar(nuevoEstado: array2<int>, filaBlanco: int, colBlanco: int, nuevaFila: int, nuevaCol: int)
    requires 0 <= filaBlanco < nuevoEstado.Length0 && 0 <= colBlanco < nuevoEstado.Length1
    requires 0 <= nuevaFila < nuevoEstado.Length0 && 0 <= nuevaCol < nuevoEstado.Length1
    modifies nuevoEstado
    ensures Contenido(nuevoEstado) ==
      Poner(Poner(old(Contenido(nuevoEstado)), nuevaFila, nuevaCol, 0), filaBlanco, colBlanco, old(nuevoEstado[nuevaFila, nuevaCol]))
  {
    ghost var t := Contenido(nuevoEstado);
    var temp := nuevoEstado[nuevaFila, nuevaCol];
    nuevoEstado[nuevaFila, nuevaCol] := 0;
    nuevoEstado[filaBlanco, colBlanco] := temp;
    ContenidoDe(nuevoEstado, Poner(Poner(t, nuevaFila, nuevaCol, 0), filaBlanco, colBlanco, t.filas[nuevaFila][nuevaCol]));
  }

  /** Directions are matched case-sensitively. */
  lemma {:induction false} DireccionSensible(t: Tablero)
    ensures Mover(t, "Arriba") == Err(ArgumentException)
  {
  }
}
