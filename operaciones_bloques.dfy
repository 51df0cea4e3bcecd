/**
 * The STRIPS effects of a move (OperacionesBloques.AplicarAccion, repeated
 * word for word in Accion_exe_comun): a fresh copy of the state with four
 * indexer writes, later writes winning over earlier ones.
 */
module OperacionesBloques {
  import opened Predicados
  import opened Acciones

  /** The atoms a move writes. */
  function Tocadas(a: Accion): set<Predicado>
  {
    {On(a.bloque, a.desde), On(a.bloque, a.hacia), Clear(a.desde)}
      + (if a.hacia != MESA then {Clear(a.hacia)} else {})
  }

  /**
   * The state after the move: on(b, desde) := false, on(b, hacia) := true,
   * clear(desde) := true, and clear(hacia) := false unless hacia is the table.
   * Being a map value, the input state is untouched.
   */
  function AplicarAccion(e: Estado, a: Accion): (r: Estado)
    ensures On(a.bloque, a.hacia) in r && r[On(a.bloque, a.hacia)]
    ensures On(a.bloque, a.desde) in r && (r[On(a.bloque, a.desde)] <==> a.desde == a.hacia)
    ensures Clear(a.desde) in r && (r[Clear(a.desde)] <==> !(a.hacia != MESA && a.desde == a.hacia))
    ensures a.hacia != MESA ==> Clear(a.hacia) in r && !r[Clear(a.hacia)]
    ensures r.Keys == e.Keys + Tocadas(a)
    ensures forall k :: k in e && k !in Tocadas(a) ==> r[k] == e[k]
  {
    var copia := e;
    var e1 := copia[On(a.bloque, a.desde) := false];
    var e2 := e1[On(a.bloque, a.hacia) := true];
    var e3 := e2[Clear(a.desde) := true];
    if a.hacia != MESA then e3[Clear(a.hacia) := false] else e3
  }

  /** Moving from the table sets clear(mesa). */
  lemma {:induction false} DesdeMesa(e: Estado, b: string, h: string)
    requires h != MESA
    ensures Vale(AplicarAccion(e, Accion(b, MESA, h)), Clear(MESA))
  {
  }

  /** A move onto the table writes no clear atom for the destination. */
  lemma {:induction false} HaciaMesa(e: Estado, b: string, d: string)
    requires d != MESA
    ensures Clear(MESA) in AplicarAccion(e, Accion(b, d, MESA)) <==> Clear(MESA) in e
    ensures Clear(MESA) in e ==> AplicarAccion(e, Accion(b, d, MESA))[Clear(MESA)] == e[Clear(MESA)]
  {
  }

  /** A plan's actions applied one after another. */
  function Ejecutar(e: Estado, plan: seq<Accion>): (r: Estado)
    ensures plan != [] ==> Vale(r, On(plan[|plan| - 1].bloque, plan[|plan| - 1].hacia))
    decreases |plan|
  {
    if plan == [] then e else AplicarAccion(Ejecutar(e, plan[..|plan| - 1]), plan[|plan| - 1])
  }

  /** Running two plans one after the other is running their concatenation. */
  lemma {:induction false} EjecutarConcat(e: Estado, p: seq<Accion>, q: seq<Accion>)
    ensures Ejecutar(e, p + q) == Ejecutar(Ejecutar(e, p), q)
    decreases |q|
  {
    if q == [] {
      assert p + q == p;
    } else {
      var inicio := q[..|q| - 1];
      assert (p + q)[..|p + q| - 1] == p + inicio;
      assert (p + q)[|p + q| - 1] == q[|q| - 1];
      EjecutarConcat(e, p, inicio);
    }
  }
}
