/**
 * The planning agent (class Agente): the successor generator of the blocks
 * world, the STRIPS precondition check, the copy of the real world's state it
 * plans on, and Planificar, which hands the generator to the A* search.
 */
module Agentes {
  import opened Comun
  import opened Predicados
  import opened Acciones
  import opened Sucesores
  import opened OperacionesBloques
  import opened BusquedaAEstrella
  import opened Mundo

  /** bloques.Concat(new[] {"mesa"}): the candidate bases and destinations, in order. */
  function Posiciones(bloques: seq<string>): seq<string>
  {
    bloques + [MESA]
  }

  /**
   * EsMovimientoValido: the block is on desde, nothing is on the block, and
   * the destination is the table or clear. Nothing says hacia differs from bloque.
   */
  function EsMovimientoValido(e: Estado, bloque: string, desde: string, hacia: string): (r: bool)
    ensures r <==> Vale(e, On(bloque, desde)) && Vale(e, Clear(bloque)) && (hacia == MESA || Vale(e, Clear(hacia)))
  {
    if !Vale(e, On(bloque, desde)) then false
    else if !Vale(e, Clear(bloque)) then false
    else if hacia != MESA && !Vale(e, Clear(hacia)) then false
    else true
  }

  /** The inner foreach with break: the first position p, in order, with on(bloque, p) true. */
  function BaseActual(e: Estado, bloque: string, ps: seq<string>): (r: Option<string>)
    ensures r.None? <==> forall i :: 0 <= i < |ps| ==> !Vale(e, On(bloque, ps[i]))
    ensures r.Some? ==>
      exists i :: 0 <= i < |ps| && ps[i] == r.value && Vale(e, On(bloque, ps[i])) &&
        forall j :: 0 <= j < i ==> !Vale(e, On(bloque, ps[j]))
  {
    if ps == [] then None
    else if Vale(e, On(bloque, ps[0])) then Some(ps[0])
    else
      var r := BaseActual(e, bloque, ps[1..]);
      assert forall i :: 1 <= i < |ps| ==> ps[i] == ps[1..][i - 1];
      if r.Some? then
        var i :| 0 <= i < |ps[1..]| && ps[1..][i] == r.value && Vale(e, On(bloque, ps[1..][i])) &&
          forall j :: 0 <= j < i ==> !Vale(e, On(bloque, ps[1..][j]));
        assert ps[i + 1] == r.value;
        r
      else r
  }

  /** The foreach over destinations: every destination other than the base whose move is valid, in order. */
  function Movimientos(e: Estado, bloque: string, base: string, destinos: seq<string>): seq<Sucesor>
    decreases |destinos|
  {
    if destinos == [] then []
    else
      var previos := Movimientos(e, bloque, base, destinos[..|destinos| - 1]);
      var destino := destinos[|destinos| - 1];
      if destino != base && EsMovimientoValido(e, bloque, base, destino) then
        var accion := Accion(bloque, base, destino);
        previos + [Sucesor(accion, AplicarAccion(e, accion), 1)]
      else previos
  }

  /** The successors of one block: none unless it is clear and has a base. */
  function SucesoresDeBloque(e: Estado, bloque: string, bloques: seq<string>): seq<Sucesor>
  {
    if !Vale(e, Clear(bloque)) then []
    else
      match BaseActual(e, bloque, Posiciones(bloques))
      case None => []
      case Some(base) => Movimientos(e, bloque, base, Posiciones(bloques))
  }

  /** The outer foreach over the blocks movibles, block after block. */
  function SucesoresDe(e: Estado, movibles: seq<string>, bloques: seq<string>): seq<Sucesor>
    decreases |movibles|
  {
    if movibles == [] then []
    else SucesoresDe(e, movibles[..|movibles| - 1], bloques) + SucesoresDeBloque(e, movibles[|movibles| - 1], bloques)
  }

  /** GenerarSucesores(estado, bloques) as a function: block-major in bloques, destination-minor in Posiciones. */
  function SucesoresDeEstado(e: Estado, bloques: seq<string>): seq<Sucesor>
  {
    SucesoresDe(e, bloques, bloques)
  }

  /**
   * A successor the generator emits for one of its blocks: the block is
   * clear, the move starts at its current base, goes to another position,
   * passes EsMovimientoValido, yields the state AplicarAccion gives, and costs 1.
   */
  predicate Movimiento(e: Estado, bloques: seq<string>, s: Sucesor)
  {
    var a := s.accion;
    && Vale(e, Clear(a.bloque))
    && BaseActual(e, a.bloque, Posiciones(bloques)) == Some(a.desde)
    && a.hacia in Posiciones(bloques) && a.hacia != a.desde
    && EsMovimientoValido(e, a.bloque, a.desde, a.hacia)
    && s.estado == AplicarAccion(e, a)
    && s.costo == 1
  }

  lemma {:induction false} MovimientosMiembro(e: Estado, bloque: string, base: string, destinos: seq<string>, s: Sucesor)
    ensures s in Movimientos(e, bloque, base, destinos) <==>
      && s.accion.bloque == bloque && s.accion.desde == base
      && s.accion.hacia in destinos && s.accion.hacia != base
      && EsMovimientoValido(e, bloque, base, s.accion.hacia)
      && s.estado == AplicarAccion(e, s.accion) && s.costo == 1
    decreases |destinos|
  {
    if destinos != [] {
      var previos := destinos[..|destinos| - 1];
      MovimientosMiembro(e, bloque, base, previos, s);
      assert destinos == previos + [destinos[|destinos| - 1]];
    }
  }

  lemma {:induction false} SucesoresDeMiembro(e: Estado, movibles: seq<string>, bloques: seq<string>, s: Sucesor)
    ensures s in SucesoresDe(e, movibles, bloques) <==> s.accion.bloque in movibles && Movimiento(e, bloques, s)
    decreases |movibles|
  {
    if movibles != [] {
      var previos := movibles[..|movibles| - 1];
      var bloque := movibles[|movibles| - 1];
      SucesoresDeMiembro(e, previos, bloques, s);
      assert movibles == previos + [bloque];
      if Vale(e, Clear(bloque)) && BaseActual(e, bloque, Posiciones(bloques)).Some? {
        MovimientosMiembro(e, bloque, BaseActual(e, bloque, Posiciones(bloques)).value, Posiciones(bloques), s);
      }
    }
  }

  /** Exactly the moves of clear blocks of bloques from their current base to another position, valid and of cost 1. */
  lemma {:induction false} SucesoresCaracterizados(e: Estado, bloques: seq<string>, s: Sucesor)
    ensures s in SucesoresDeEstado(e, bloques) <==> s.accion.bloque in bloques && Movimiento(e, bloques, s)
  {
    SucesoresDeMiembro(e, bloques, bloques, s);
  }

  /** Every successor costs 1, starts where its block stands and ends elsewhere. */
  lemma {:induction false} SucesoresUnitarios(e: Estado, bloques: seq<string>)
    ensures forall s :: s in SucesoresDeEstado(e, bloques) ==>
      && s.costo == 1
      && Vale(e, On(s.accion.bloque, s.accion.desde))
      && s.accion.desde != s.accion.hacia
  {
    forall s | s in SucesoresDeEstado(e, bloques)
      ensures s.costo == 1 && Vale(e, On(s.accion.bloque, s.accion.desde)) && s.accion.desde != s.accion.hacia
    {
      SucesoresCaracterizados(e, bloques, s);
    }
  }

  /**
   * A move onto the block itself is not excluded: a clear block standing on
   * some base other than itself gets Mover(b, base, b), which puts on(b, b).
   */
  lemma {:induction false} MovimientoSobreSiMismo(e: Estado, bloques: seq<string>, b: string, base: string)
    requires b in bloques && Vale(e, Clear(b))
    requires BaseActual(e, b, Posiciones(bloques)) == Some(base) && base != b
    ensures var a := Accion(b, base, b);
      Sucesor(a, AplicarAccion(e, a), 1) in SucesoresDeEstado(e, bloques) && Vale(AplicarAccion(e, a), On(b, b))
  {
    var a := Accion(b, base, b);
    SucesoresCaracterizados(e, bloques, Sucesor(a, AplicarAccion(e, a), 1));
  }

  /** A plan every step of which is a successor the generator emits in the state reached so far. */
  predicate Legal(e: Estado, bloques: seq<string>, plan: seq<Accion>)
    decreases |plan|
  {
    plan == [] ||
      (var previo := plan[..|plan| - 1];
       var a := plan[|plan| - 1];
       var antes := Ejecutar(e, previo);
       Legal(e, bloques, previo) && a.bloque in bloques && Movimiento(antes, bloques, Sucesor(a, AplicarAccion(antes, a), 1)))
  }

  /** A generated successor is the move of one of the blocks, applied to the state, at cost 1. */
  lemma {:induction false} Generado(e: Estado, bloques: seq<string>, s: Sucesor)
    requires s in SucesoresDeEstado(e, bloques)
    ensures s == Sucesor(s.accion, AplicarAccion(e, s.accion), 1)
    ensures s.accion.bloque in bloques && Movimiento(e, bloques, s)
  {
    SucesoresCaracterizados(e, bloques, s);
  }

  /** A chain of generated successors is the execution of its actions, one unit of cost per step. */
  lemma {:induction false} CadenaEjecuta(inicial: Estado, pasos: seq<Sucesor>, bloques: seq<string>, gen: Estado -> seq<Sucesor>)
    requires forall x :: gen(x) == SucesoresDeEstado(x, bloques)
    requires Cadena(inicial, pasos, gen)
    ensures Fin(inicial, pasos) == Ejecutar(inicial, AccionesDe(pasos))
    ensures Costo(pasos) == |pasos|
    decreases |pasos|
  {
    if pasos != [] {
      var previos := pasos[..|pasos| - 1];
      var s := pasos[|pasos| - 1];
      CadenaEjecuta(inicial, previos, bloques, gen);
      Generado(Fin(inicial, previos), bloques, s);
      var acciones := AccionesDe(pasos);
      assert acciones[..|acciones| - 1] == AccionesDe(previos);
    }
  }

  /** The actions of a chain of generated successors form a legal plan. */
  lemma {:induction false} CadenaLegal(inicial: Estado, pasos: seq<Sucesor>, bloques: seq<string>, gen: Estado -> seq<Sucesor>)
    requires forall x :: gen(x) == SucesoresDeEstado(x, bloques)
    requires Cadena(inicial, pasos, gen)
    ensures Legal(inicial, bloques, AccionesDe(pasos))
    decreases |pasos|
  {
    if pasos != [] {
      var previos := pasos[..|pasos| - 1];
      var s := pasos[|pasos| - 1];
      CadenaLegal(inicial, previos, bloques, gen);
      CadenaEjecuta(inicial, previos, bloques, gen);
      Generado(Fin(inicial, previos), bloques, s);
      var acciones := AccionesDe(pasos);
      assert acciones[..|acciones| - 1] == AccionesDe(previos);
    }
  }

  /** CopiarEstado's foreach: each entry re-created through the Predicado constructor and added. */
  method CopiarEstado(original: Diccionario) returns (copia: Estado)
    requires DiccionarioValido(original)
    ensures copia == original.valores
  {
    copia := map[];
    var i := 0;
    while i < |original.orden|
      invariant 0 <= i <= |original.orden|
      invariant forall q :: q in copia <==> q in original.orden[..i]
      invariant forall q :: q in copia ==> q in original.valores && copia[q] == original.valores[q]
    {
      var p := original.orden[i];
      var clave := Crear(p.nombre, p.argumentos);
      assert clave == Ok(p);
      assert p !in copia;
      assert original.orden[..i + 1] == original.orden[..i] + [p];
      copia := copia[clave.value := original.valores[p]];
      i := i + 1;
    }
    assert original.orden[..i] == original.orden;
    assert copia.Keys == original.valores.Keys;
  }

  /** The search for baseActual: the foreach over the positions that breaks at the first one under the block. */
  method BuscarBase(estado: Estado, bloque: string, posiciones: seq<string>) returns (baseActual: Option<string>)
    ensures baseActual == BaseActual(estado, bloque, posiciones)
  {
    baseActual := None;
    var k := 0;
    while k < |posiciones|
      invariant 0 <= k <= |posiciones| && baseActual == None
      invariant BaseActual(estado, bloque, posiciones) == BaseActual(estado, bloque, posiciones[k..])
    {
      if Vale(estado, On(bloque, posiciones[k])) {
        baseActual := Some(posiciones[k]);
        break;
      }
      assert posiciones[k..][1..] == posiciones[k + 1..];
      k := k + 1;
    }
  }

  /** The foreach over the destinations of one block, adding each valid move to the list. */
  method AgregarMovimientos(estado: Estado, bloque: string, base: string, posiciones: seq<string>, sucesores0: seq<Sucesor>)
    returns (sucesores: seq<Sucesor>)
    ensures sucesores == sucesores0 + Movimientos(estado, bloque, base, posiciones)
  {
    sucesores := sucesores0;
    for j := 0 to |posiciones|
      invariant sucesores == sucesores0 + Movimientos(estado, bloque, base, posiciones[..j])
    {
      var destino := posiciones[j];
      assert posiciones[..j + 1][..j] == posiciones[..j];
      if destino == base {
        continue;
      }
      if EsMovimientoValido(estado, bloque, base, destino) {
        var accion := Accion(bloque, base, destino);
        var nuevoEstado := AplicarAccion(estado, accion);
        sucesores := sucesores + [Sucesor(accion, nuevoEstado, 1)];
      }
    }
    assert posiciones[..|posiciones|] == posiciones;
  }

  /** GenerarSucesores: the foreach over the blocks, skipping those not clear or without a base. */
  method GenerarSucesores(estado: Estado, bloques: seq<string>) returns (sucesores: seq<Sucesor>)
    ensures sucesores == SucesoresDeEstado(estado, bloques)
  {
    sucesores := [];
    var posiciones := bloques + [MESA];
    for i := 0 to |bloques|
      invariant sucesores == SucesoresDe(estado, bloques[..i], bloques)
    {
      var bloque := bloques[i];
      assert bloques[..i + 1][..i] == bloques[..i];
      if !Vale(estado, Clear(bloque)) {
        continue;
      }
      var baseActual := BuscarBase(estado, bloque, posiciones);
      if baseActual == None {
        continue;
      }
      sucesores := AgregarMovimientos(estado, bloque, baseActual.value, posiciones, sucesores);
    }
    assert bloques[..|bloques|] == bloques;
  }

  class Agente {
    /** _mundo: the real world the agent plans for. */
    const mundo: MundoReal
    /** _estadoSimulado: the agent's own copy of the world's state. */
    var estadoSimulado: Estado

    constructor(mundo: MundoReal)
      requires DiccionarioValido(mundo.estado)
      ensures this.mundo == mundo && estadoSimulado == mundo.estado.valores
    {
      var copia := CopiarEstado(mundo.estado);
      this.mundo := mundo;
      estadoSimulado := copia;
    }

    /**
     * Planificar: A* from the simulated state with GenerarSucesores as the
     * generator. A plan found is legal move by move, its execution satisfies
     * the goal, and its cost is its length.
     */
    method Planificar(estadoObjetivo: Estado, bloques: seq<string>, maxPasos: nat) returns (r: Salida)
      ensures r.Solucion? ==>
        && Legal(estadoSimulado, bloques, r.resultado.plan)
        && Satisface(Ejecutar(estadoSimulado, r.resultado.plan), estadoObjetivo)
        && r.resultado.costoTotal == |r.resultado.plan|
      ensures maxPasos > 0 && Satisface(estadoSimulado, estadoObjetivo) ==> r == Solucion(ResultadoBusqueda([], 0))
    {
      var gen := (e: Estado) => SucesoresDeEstado(e, bloques);
      ghost var final;
      r, final := EncontrarSolucion(estadoSimulado, estadoObjetivo, gen, maxPasos);
      if r.Solucion? {
        NodoBienCadena(final, estadoSimulado, estadoObjetivo, gen);
        NodoBienCosto(final, estadoSimulado, estadoObjetivo, gen);
        PasosAcciones(final);
        CadenaEjecuta(estadoSimulado, Pasos(final), bloques, gen);
        CadenaLegal(estadoSimulado, Pasos(final), bloques, gen);
      }
    }
  }
}
