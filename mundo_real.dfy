/**
 * The physical blocks world (class MundoReal): the current state, the block
 * names, and the check the constructor makes that every block standing on
 * another block rests, through its chain of supports, on the table.
 *
 * Where the source depends on the order in which the Dictionary enumerates
 * its entries (FirstOrDefault, foreach with an early return), the state is a
 * Diccionario, which carries that order explicitly.
 */
module Mundo {
  import opened Comun
  import opened Predicados

  /** A true on(bloque, _) entry: the first such entry is the block's support. */
  predicate EsSoporte(valores: Estado, p: Predicado, bloque: string)
  {
    p.nombre == "on" && p.argumentos[0] == bloque && Vale(valores, p)
  }

  /** A true on(_, bloqueBase) entry: a block standing on bloqueBase. */
  predicate EsEncima(valores: Estado, p: Predicado, bloqueBase: string)
  {
    p.nombre == "on" && p.argumentos[1] == bloqueBase && Vale(valores, p)
  }

  /** An "on" atom has exactly its two arguments. */
  lemma {:induction false} OnArgumentos(p: Predicado)
    requires p.nombre == "on"
    ensures p == On(p.argumentos[0], p.argumentos[1])
  {
    assert p.argumentos == [p.argumentos[0], p.argumentos[1]];
  }

  /**
   * The FirstOrDefault of EstadoSobreMesa: the base of the first entry, in
   * enumeration order, that is a true on(bloque, _); None for the default pair.
   */
  function Soporte(ps: seq<Predicado>, valores: Estado, bloque: string): (r: Option<string>)
    ensures r.None? <==> forall i :: 0 <= i < |ps| ==> !EsSoporte(valores, ps[i], bloque)
    ensures r.Some? ==> Vale(valores, On(bloque, r.value))
  {
    if ps == [] then None
    else if EsSoporte(valores, ps[0], bloque) then
      OnArgumentos(ps[0]);
      Some(ps[0].argumentos[1])
    else
      var r := Soporte(ps[1..], valores, bloque);
      assert forall i :: 1 <= i < |ps| ==> ps[i] == ps[1..][i - 1];
      r
  }

  /** The answer comes from the first matching entry in enumeration order. */
  lemma {:induction false} SoportePrimero(ps: seq<Predicado>, valores: Estado, bloque: string)
    requires Soporte(ps, valores, bloque).Some?
    ensures var v := Soporte(ps, valores, bloque).value;
      exists i :: 0 <= i < |ps| && ps[i] == On(bloque, v) &&
        forall j :: 0 <= j < i ==> !EsSoporte(valores, ps[j], bloque)
    decreases |ps|
  {
    var v := Soporte(ps, valores, bloque).value;
    if EsSoporte(valores, ps[0], bloque) {
      OnArgumentos(ps[0]);
      assert ps[0] == On(bloque, v);
    } else {
      SoportePrimero(ps[1..], valores, bloque);
      var i :| 0 <= i < |ps[1..]| && ps[1..][i] == On(bloque, v)
        && forall j :: 0 <= j < i ==> !EsSoporte(valores, ps[1..][j], bloque);
      assert ps[i + 1] == On(bloque, v);
      assert forall j :: 0 <= j < i + 1 ==> !EsSoporte(valores, ps[j], bloque) by {
        forall j | 0 <= j < i + 1 ensures !EsSoporte(valores, ps[j], bloque) {
          if j > 0 {
            assert ps[j] == ps[1..][j - 1];
          }
        }
      }
    }
  }

  /** With every entry enumerated, a block has no support exactly when no on(bloque, _) atom is true. */
  lemma {:induction false} SoporteCompleto(d: Diccionario, bloque: string)
    requires DiccionarioValido(d)
    ensures Soporte(d.orden, d.valores, bloque).None? <==> forall y :: !Vale(d.valores, On(bloque, y))
  {
    if Soporte(d.orden, d.valores, bloque).None? {
      forall y ensures !Vale(d.valores, On(bloque, y)) {
        if On(bloque, y) in d.valores {
          var i :| 0 <= i < |d.orden| && d.orden[i] == On(bloque, y);
          assert !EsSoporte(d.valores, d.orden[i], bloque);
        }
      }
    }
  }

  /**
   * EstadoSobreMesa: the table is supported; a block without a support is
   * not; otherwise the answer is that of its support. The source recurses
   * without bound: on a cyclic chain the call stack overflows, and the
   * StackOverflowException, which cannot be caught, ends the process. Here
   * each recursive call spends one unit of fuel and None means the fuel ran
   * out.
   */
  function SobreMesa(d: Diccionario, bloque: string, fuel: nat): (r: Option<bool>)
    ensures bloque == MESA ==> r == Some(true)
    ensures bloque != MESA && fuel > 0 && Soporte(d.orden, d.valores, bloque).None? ==> r == Some(false)
    decreases fuel
  {
    if bloque == MESA then Some(true)
    else if fuel == 0 then None
    else
      match Soporte(d.orden, d.valores, bloque)
      case None => Some(false)
      case Some(base) => SobreMesa(d, base, fuel - 1)
  }

  /** More fuel never changes an answer already reached. */
  lemma {:induction false} SobreMesaMonotona(d: Diccionario, bloque: string, fuel: nat, mas: nat)
    requires fuel <= mas && SobreMesa(d, bloque, fuel).Some?
    ensures SobreMesa(d, bloque, mas) == SobreMesa(d, bloque, fuel)
    decreases fuel
  {
    if bloque != MESA {
      match Soporte(d.orden, d.valores, bloque)
      case None =>
      case Some(base) => SobreMesaMonotona(d, base, fuel - 1, mas - 1);
    }
  }

  /**
   * Two blocks supporting each other: no fuel is enough for an answer. This is
   * the model of the source's stack overflow, which ends the process.
   */
  lemma {:induction false} CicloNoTermina(d: Diccionario, a: string, b: string, fuel: nat)
    requires a != MESA && b != MESA
    requires Soporte(d.orden, d.valores, a) == Some(b) && Soporte(d.orden, d.valores, b) == Some(a)
    ensures SobreMesa(d, a, fuel) == None && SobreMesa(d, b, fuel) == None
    decreases fuel
  {
    if fuel > 0 {
      CicloNoTermina(d, a, b, fuel - 1);
    }
  }

  /** The outcome of ValidarEstadoInicial: no exception; the ArgumentException for an entry; or no answer. */
  datatype Validacion = Valido | SinSoporte(atomo: Predicado) | NoTermina

  /** An entry ValidarEstadoInicial checks: a true on(x, y) with y not the table. */
  predicate Revisable(valores: Estado, p: Predicado)
  {
    p.nombre == "on" && Vale(valores, p) && p.argumentos[1] != MESA
  }

  /** The foreach of ValidarEstadoInicial over the entries ps, stopping at the first failure. */
  function ValidarEntradas(ps: seq<Predicado>, d: Diccionario, fuel: nat): (r: Validacion)
    ensures r == Valido <==>
      forall i :: 0 <= i < |ps| && Revisable(d.valores, ps[i]) ==> SobreMesa(d, ps[i].argumentos[1], fuel) == Some(true)
    ensures r.SinSoporte? ==>
      r.atomo in ps && Revisable(d.valores, r.atomo) && SobreMesa(d, r.atomo.argumentos[1], fuel) == Some(false)
    ensures r == NoTermina ==>
      exists i :: 0 <= i < |ps| && Revisable(d.valores, ps[i]) && SobreMesa(d, ps[i].argumentos[1], fuel) == None
  {
    if ps == [] then Valido
    else
      var resto := ValidarEntradas(ps[1..], d, fuel);
      assert forall i :: 1 <= i < |ps| ==> ps[i] == ps[1..][i - 1];
      var p := ps[0];
      if Revisable(d.valores, p) then
        match SobreMesa(d, p.argumentos[1], fuel)
        case Some(true) => resto
        case Some(false) => SinSoporte(p)
        case None => NoTermina
      else resto
  }

  /** ValidarEstadoInicial over the whole dictionary. */
  function Validar(d: Diccionario, fuel: nat): Validacion
  {
    ValidarEntradas(d.orden, d, fuel)
  }

  /** The state is accepted exactly when the base of every true on(x, y), y not the table, reaches the table. */
  lemma {:induction false} ValidarCorrecta(d: Diccionario, fuel: nat)
    requires DiccionarioValido(d)
    ensures Validar(d, fuel) == Valido <==>
      forall x, y :: Vale(d.valores, On(x, y)) && y != MESA ==> SobreMesa(d, y, fuel) == Some(true)
  {
    if Validar(d, fuel) == Valido {
      forall x, y | Vale(d.valores, On(x, y)) && y != MESA ensures SobreMesa(d, y, fuel) == Some(true) {
        var i :| 0 <= i < |d.orden| && d.orden[i] == On(x, y);
        assert Revisable(d.valores, d.orden[i]);
      }
    } else {
      var i :| 0 <= i < |d.orden| && Revisable(d.valores, d.orden[i])
        && SobreMesa(d, d.orden[i].argumentos[1], fuel) != Some(true);
      OnArgumentos(d.orden[i]);
    }
  }

  /** on(A, B) and on(B, A): the support chain of A never reaches the table. */
  lemma {:induction false} CicloEjemplo()
    ensures var d := Diccionario([On("A", "B"), On("B", "A")], map[On("A", "B") := true, On("B", "A") := true]);
      forall fuel: nat :: Validar(d, fuel) == NoTermina
  {
    var d := Diccionario([On("A", "B"), On("B", "A")], map[On("A", "B") := true, On("B", "A") := true]);
    assert EsSoporte(d.valores, d.orden[1], "B");
    assert !EsSoporte(d.valores, d.orden[0], "B");
    assert Soporte(d.orden, d.valores, "B") == Some("A");
    assert EsSoporte(d.valores, d.orden[0], "A");
    assert Soporte(d.orden, d.valores, "A") == Some("B");
    forall fuel: nat ensures Validar(d, fuel) == NoTermina {
      CicloNoTermina(d, "A", "B", fuel);
      assert Revisable(d.valores, d.orden[0]);
    }
  }

  /** on(A, B) with nothing under B: the ArgumentException names on(A, B). */
  lemma {:induction false} SinSoporteEjemplo()
    ensures var d := Diccionario([On("A", "B")], map[On("A", "B") := true]);
      Validar(d, 1) == SinSoporte(On("A", "B"))
  {
    var d := Diccionario([On("A", "B")], map[On("A", "B") := true]);
    assert !EsSoporte(d.valores, d.orden[0], "B");
    assert Soporte(d.orden, d.valores, "B") == None;
    assert Revisable(d.valores, d.orden[0]);
  }

  /** on(A, B) and on(B, mesa): a two-block tower is accepted. */
  lemma {:induction false} TorreEjemplo()
    ensures var d := Diccionario([On("A", "B"), On("B", MESA)], map[On("A", "B") := true, On("B", MESA) := true]);
      Validar(d, 1) == Valido
  {
    var d := Diccionario([On("A", "B"), On("B", MESA)], map[On("A", "B") := true, On("B", MESA) := true]);
    assert !EsSoporte(d.valores, d.orden[0], "B");
    assert EsSoporte(d.valores, d.orden[1], "B");
    assert Soporte(d.orden, d.valores, "B") == Some(MESA);
    assert !Revisable(d.valores, d.orden[1]);
  }

  /** The first true on(_, bloqueBase) entry, in enumeration order, gives the block above; None is null. */
  function Encima(ps: seq<Predicado>, valores: Estado, bloqueBase: string): (r: Option<string>)
    ensures r.None? <==> forall i :: 0 <= i < |ps| ==> !EsEncima(valores, ps[i], bloqueBase)
    ensures r.Some? ==> Vale(valores, On(r.value, bloqueBase))
  {
    if ps == [] then None
    else if EsEncima(valores, ps[0], bloqueBase) then
      OnArgumentos(ps[0]);
      Some(ps[0].argumentos[0])
    else
      var r := Encima(ps[1..], valores, bloqueBase);
      assert forall i :: 1 <= i < |ps| ==> ps[i] == ps[1..][i - 1];
      r
  }

  /** The answer comes from the first matching entry in enumeration order. */
  lemma {:induction false} EncimaPrimero(ps: seq<Predicado>, valores: Estado, bloqueBase: string)
    requires Encima(ps, valores, bloqueBase).Some?
    ensures var v := Encima(ps, valores, bloqueBase).value;
      exists i :: 0 <= i < |ps| && ps[i] == On(v, bloqueBase) &&
        forall j :: 0 <= j < i ==> !EsEncima(valores, ps[j], bloqueBase)
    decreases |ps|
  {
    var v := Encima(ps, valores, bloqueBase).value;
    if EsEncima(valores, ps[0], bloqueBase) {
      OnArgumentos(ps[0]);
      assert ps[0] == On(v, bloqueBase);
    } else {
      EncimaPrimero(ps[1..], valores, bloqueBase);
      var i :| 0 <= i < |ps[1..]| && ps[1..][i] == On(v, bloqueBase)
        && forall j :: 0 <= j < i ==> !EsEncima(valores, ps[1..][j], bloqueBase);
      assert ps[i + 1] == On(v, bloqueBase);
      assert forall j :: 0 <= j < i + 1 ==> !EsEncima(valores, ps[j], bloqueBase) by {
        forall j | 0 <= j < i + 1 ensures !EsEncima(valores, ps[j], bloqueBase) {
          if j > 0 {
            assert ps[j] == ps[1..][j - 1];
          }
        }
      }
    }
  }

  /** With every entry enumerated, null means no on(_, bloqueBase) atom is true. */
  lemma {:induction false} EncimaCompleto(d: Diccionario, bloqueBase: string)
    requires DiccionarioValido(d)
    ensures Encima(d.orden, d.valores, bloqueBase).None? <==> forall x :: !Vale(d.valores, On(x, bloqueBase))
  {
    if Encima(d.orden, d.valores, bloqueBase).None? {
      forall x ensures !Vale(d.valores, On(x, bloqueBase)) {
        if On(x, bloqueBase) in d.valores {
          var i :| 0 <= i < |d.orden| && d.orden[i] == On(x, bloqueBase);
          assert !EsEncima(d.valores, d.orden[i], bloqueBase);
        }
      }
    }
  }

  class MundoReal {
    /** Estado: the current state, with its enumeration order. */
    var estado: Diccionario
    /** Bloques: the block names. */
    const bloques: seq<string>

    /**
     * The field assignments of the constructor. The state is a value, so the
     * copy the constructor makes cannot alias the caller's dictionary.
     */
    constructor(bloques: seq<string>, estadoInicial: Diccionario)
      ensures this.estado == estadoInicial && this.bloques == bloques
    {
      this.estado := estadoInicial;
      this.bloques := bloques;
    }

    /** new MundoReal(bloques, estadoInicial): the object, and whether ValidarEstadoInicial lets it through. */
    static method Crear(bloques: seq<string>, estadoInicial: Diccionario, fuel: nat) returns (m: MundoReal, v: Validacion)
      ensures fresh(m) && m.estado == estadoInicial && m.bloques == bloques
      ensures v == Validar(estadoInicial, fuel)
    {
      m := new MundoReal(bloques, estadoInicial);
      v := m.ValidarEstadoInicial(fuel);
    }

    /** ValidarEstadoInicial: the foreach over the entries; each EstadoSobreMesa call gets the same fuel. */
    method ValidarEstadoInicial(fuel: nat) returns (v: Validacion)
      ensures v == Validar(estado, fuel)
    {
      var i := 0;
      while i < |estado.orden|
        invariant 0 <= i <= |estado.orden|
        invariant Validar(estado, fuel) == ValidarEntradas(estado.orden[i..], estado, fuel)
      {
        var p := estado.orden[i];
        assert estado.orden[i..][1..] == estado.orden[i + 1..];
        if p.nombre == "on" && Vale(estado.valores, p) {
          var baseActual := p.argumentos[1];
          if baseActual != MESA {
            var soportado := SobreMesa(estado, baseActual, fuel);
            if soportado == None {
              return NoTermina;
            } else if soportado == Some(false) {
              return SinSoporte(p);
            }
          }
        }
        i := i + 1;
      }
      v := Valido;
    }

    /** BuscarBloqueArriba: the foreach returning the first block found on bloqueBase, or null. */
    method BuscarBloqueArriba(bloqueBase: string) returns (r: Option<string>)
      ensures r == Encima(estado.orden, estado.valores, bloqueBase)
    {
      var i := 0;
      while i < |estado.orden|
        invariant 0 <= i <= |estado.orden|
        invariant Encima(estado.orden, estado.valores, bloqueBase) == Encima(estado.orden[i..], estado.valores, bloqueBase)
      {
        var p := estado.orden[i];
        assert estado.orden[i..][1..] == estado.orden[i + 1..];
        if p.nombre == "on" && p.argumentos[1] == bloqueBase && Vale(estado.valores, p) {
          return Some(p.argumentos[0]);
        }
        i := i + 1;
      }
      r := None;
    }
  }
}
