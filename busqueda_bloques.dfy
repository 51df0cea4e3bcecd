/**
 * The A* planner of the blocks world (BusquedaAEstrella): an open priority
 * queue ordered by F = G + H, a closed set of state keys and a best-G map
 * cameFrom, with the unsatisfied-goal heuristic, the goal test, the
 * canonical state key and the parent walk that rebuilds the plan.
 */
module BusquedaAEstrella {
  import opened Comun
  import opened Ordenacion
  import opened Predicados
  import opened Acciones
  import opened Sucesores

  // ---------------------------------------------------------------------
  // Heuristic and goal test
  // ---------------------------------------------------------------------

  /** The goal atoms mapped to true that the state lacks or maps to false; goal atoms mapped to false are ignored. */
  function Insatisfechos(e: Estado, objetivo: Estado): set<Predicado>
  {
    set p | p in objetivo && objetivo[p] && !Vale(e, p)
  }

  /** The goal atoms among ks that the state leaves unsatisfied. */
  function InsatisfechosEn(ks: set<Predicado>, e: Estado, objetivo: Estado): set<Predicado>
  {
    set p | p in ks && p in objetivo && objetivo[p] && !Vale(e, p)
  }

  /** Every goal atom mapped to true is present and true in the state. */
  predicate Satisface(e: Estado, objetivo: Estado)
  {
    forall p :: p in objetivo && objetivo[p] ==> Vale(e, p)
  }

  /** CalcularHeuristica: counts, over the goal's entries, those mapped true that the state does not make true. */
  method CalcularHeuristica(e: Estado, objetivo: Estado) returns (distancia: int)
    ensures distancia == |Insatisfechos(e, objetivo)|
  {
    distancia := 0;
    var pendientes := objetivo.Keys;
    ghost var vistos: set<Predicado> := {};
    while pendientes != {}
      invariant pendientes + vistos == objetivo.Keys && pendientes !! vistos
      invariant distancia == |InsatisfechosEn(vistos, e, objetivo)|
      decreases |pendientes|
    {
      var p :| p in pendientes;
      InsatisfechosPaso(vistos, p, e, objetivo);
      if objetivo[p] && (p !in e || !e[p]) {
        distancia := distancia + 1;
      }
      pendientes := pendientes - {p};
      vistos := vistos + {p};
    }
    assert vistos == objetivo.Keys;
    InsatisfechosTodos(e, objetivo);
  }

  lemma {:induction false} InsatisfechosTodos(e: Estado, objetivo: Estado)
    ensures InsatisfechosEn(objetivo.Keys, e, objetivo) == Insatisfechos(e, objetivo)
  {
  }

  lemma {:induction false} InsatisfechosPaso(vistos: set<Predicado>, p: Predicado, e: Estado, objetivo: Estado)
    requires p in objetivo && p !in vistos
    ensures |InsatisfechosEn(vistos + {p}, e, objetivo)|
      == |InsatisfechosEn(vistos, e, objetivo)| + (if objetivo[p] && !Vale(e, p) then 1 else 0)
  {
    if objetivo[p] && !Vale(e, p) {
      assert InsatisfechosEn(vistos + {p}, e, objetivo) == InsatisfechosEn(vistos, e, objetivo) + {p};
    } else {
      assert InsatisfechosEn(vistos + {p}, e, objetivo) == InsatisfechosEn(vistos, e, objetivo);
    }
  }

  lemma {:induction false} CardinalSubconjunto<T>(a: set<T>, b: set<T>)
    requires a <= b
    ensures |a| <= |b|
    decreases |a|
  {
    if a != {} {
      var x :| x in a;
      CardinalSubconjunto(a - {x}, b - {x});
    }
  }

  /** 0 <= h <= |objetivo|. */
  lemma {:induction false} HeuristicaAcotada(e: Estado, objetivo: Estado)
    ensures 0 <= |Insatisfechos(e, objetivo)| <= |objetivo|
  {
    CardinalSubconjunto(Insatisfechos(e, objetivo), objetivo.Keys);
  }

  /** The heuristic is zero exactly on the states the goal test accepts. */
  lemma {:induction false} HeuristicaCero(e: Estado, objetivo: Estado)
    ensures |Insatisfechos(e, objetivo)| == 0 <==> Satisface(e, objetivo)
  {
    if !Satisface(e, objetivo) {
      var p :| p in objetivo && objetivo[p] && !Vale(e, p);
      assert p in Insatisfechos(e, objetivo);
    }
  }

  /** Goal atoms mapped to false never count: dropping them leaves the heuristic and the goal test unchanged. */
  lemma {:induction false} ObjetivoFalsoIgnorado(e: Estado, objetivo: Estado, p: Predicado)
    requires p in objetivo && !objetivo[p]
    ensures Insatisfechos(e, objetivo) == Insatisfechos(e, objetivo - {p})
    ensures Satisface(e, objetivo) <==> Satisface(e, objetivo - {p})
  {
  }

  /** EsEstadoObjetivo: stops at the first goal atom mapped true that the state does not make true. */
  method EsEstadoObjetivo(e: Estado, objetivo: Estado) returns (b: bool)
    ensures b <==> Satisface(e, objetivo)
  {
    var pendientes := objetivo.Keys;
    while pendientes != {}
      invariant pendientes <= objetivo.Keys
      invariant forall p :: p in objetivo && p !in pendientes && objetivo[p] ==> Vale(e, p)
      decreases |pendientes|
    {
      var p :| p in pendientes;
      if objetivo[p] {
        if p !in e || !e[p] {
          return false;
        }
      }
      pendientes := pendientes - {p};
    }
    return true;
  }

  // ---------------------------------------------------------------------
  // State key
  // ---------------------------------------------------------------------

  /** The atoms of an enumeration that the state maps to true, in enumeration order. */
  function Filtrar(orden: seq<Predicado>, e: Estado): (r: seq<Predicado>)
    ensures forall x :: x in r <==> x in orden && Vale(e, x)
    decreases |orden|
  {
    if orden == [] then []
    else
      assert orden == orden[..|orden| - 1] + [orden[|orden| - 1]];
      Filtrar(orden[..|orden| - 1], e) + (if Vale(e, orden[|orden| - 1]) then [orden[|orden| - 1]] else [])
  }

  lemma {:induction false} FiltrarDistinta(orden: seq<Predicado>, e: Estado)
    requires Distinta(orden)
    ensures Distinta(Filtrar(orden, e))
    decreases |orden|
  {
    if orden != [] {
      var pre := orden[..|orden| - 1];
      var x := orden[|orden| - 1];
      assert Distinta(pre) by {
        forall i, j | 0 <= i < j < |pre| ensures pre[i] != pre[j] {
          assert pre[i] == orden[i] && pre[j] == orden[j];
        }
      }
      assert x !in pre by {
        forall i | 0 <= i < |pre| ensures pre[i] != x {
          assert pre[i] == orden[i];
        }
      }
      FiltrarDistinta(pre, e);
    }
  }

  function Render(p: Predicado): string
  {
    Predicados.ToString(p)
  }

  /** The ToString of each atom. */
  function Renders(ps: seq<Predicado>): seq<string>
  {
    Mapear(Render, ps)
  }

  /** Some enumeration of a set: each element exactly once. */
  ghost function Listado(ks: set<Predicado>): (r: seq<Predicado>)
    ensures Distinta(r)
    ensures forall p :: p in r <==> p in ks
    decreases ks
  {
    if ks == {} then []
    else
      var p :| p in ks;
      var resto := Listado(ks - {p});
      assert forall i :: 0 <= i < |resto| ==> resto[i] != p;
      resto + [p]
  }

  /**
   * The key GenerarHashEstado builds: the renderings of the true atoms,
   * sorted ordinally and joined with ";". The enumeration chosen here is
   * immaterial (ClaveIndependiente).
   */
  ghost function Clave(e: Estado): string
  {
    Unir(";", OrdenarPorInsercion(Renders(Filtrar(Listado(e.Keys), e))))
  }

  /** Any enumeration of the state's entries, filtered and sorted, gives the key. */
  lemma {:induction false} ClaveDeOrden(orden: seq<Predicado>, e: Estado, ordenados: seq<string>)
    requires Distinta(orden) && forall p :: p in orden <==> p in e
    requires Ordenada(ordenados) && multiset(ordenados) == multiset(Renders(Filtrar(orden, e)))
    ensures Unir(";", ordenados) == Clave(e)
  {
    var l := Listado(e.Keys);
    FiltrarDistinta(orden, e);
    FiltrarDistinta(l, e);
    MultisetDistintas(Filtrar(orden, e), Filtrar(l, e));
    MultisetMapear(Render, Filtrar(orden, e), Filtrar(l, e));
    OrdenadaUnica(ordenados, OrdenarPorInsercion(Renders(Filtrar(l, e))));
  }

  /** States with the same true atoms have the same key, whatever their false entries. */
  lemma {:induction false} ClaveIndependiente(e1: Estado, e2: Estado)
    requires forall p :: Vale(e1, p) <==> Vale(e2, p)
    ensures Clave(e1) == Clave(e2)
  {
    var l1, l2 := Listado(e1.Keys), Listado(e2.Keys);
    FiltrarDistinta(l1, e1);
    FiltrarDistinta(l2, e2);
    MultisetDistintas(Filtrar(l1, e1), Filtrar(l2, e2));
    MultisetMapear(Render, Filtrar(l1, e1), Filtrar(l2, e2));
    OrdenadaUnica(OrdenarPorInsercion(Renders(Filtrar(l1, e1))), OrdenarPorInsercion(Renders(Filtrar(l2, e2))));
  }

  /** One more entry of the enumeration adds its rendering when it is true. */
  lemma {:induction false} RendersPaso(orden: seq<Predicado>, p: Predicado, e: Estado)
    requires p in e
    ensures Renders(Filtrar(orden + [p], e)) == Renders(Filtrar(orden, e)) + (if e[p] then [Predicados.ToString(p)] else [])
  {
    assert (orden + [p])[..|orden|] == orden;
    MapearConcat(Render, Filtrar(orden, e), if e[p] then [p] else []);
  }

  /** GenerarHashEstado: collects the ToString of the true atoms in enumeration order, sorts, joins with ";". */
  method GenerarHashEstado(e: Estado) returns (clave: string)
    ensures clave == Clave(e)
  {
    var predicados: seq<string> := [];
    var pendientes := e.Keys;
    ghost var orden: seq<Predicado> := [];
    while pendientes != {}
      invariant pendientes <= e.Keys
      invariant Distinta(orden)
      invariant forall p :: p in orden <==> p in e && p !in pendientes
      invariant predicados == Renders(Filtrar(orden, e))
      decreases |pendientes|
    {
      var p :| p in pendientes;
      RendersPaso(orden, p, e);
      if e[p] {
        predicados := predicados + [Predicados.ToString(p)];
      }
      orden := orden + [p];
      pendientes := pendientes - {p};
    }
    var ordenados := Ordenar(predicados);
    ClaveDeOrden(orden, e, ordenados);
    clave := Unir(";", ordenados);
  }

  // ---------------------------------------------------------------------
  // Search nodes and plans
  // ---------------------------------------------------------------------

  /** Nodo: the root has no action and no parent; every other node has both. */
  datatype Nodo =
    | Raiz(estado: Estado, g: int, h: int)
    | Hijo(estado: Estado, accion: Accion, padre: Nodo, g: int, h: int)
  {
    function F(): int { g + h }
  }

  /** ResultadoBusqueda: the plan and its total cost. */
  datatype ResultadoBusqueda = ResultadoBusqueda(plan: seq<Accion>, costoTotal: int)

  /** The three ways the search can end: a plan; the "no solution" InvalidOperationException; or the step bound ran out. */
  datatype Salida = Solucion(resultado: ResultadoBusqueda) | SinSolucion | SinTerminar

  /** The actions along the parent links, from the root to the node. */
  function Camino(n: Nodo): seq<Accion>
  {
    match n
    case Raiz(_, _, _) => []
    case Hijo(_, a, p, _, _) => Camino(p) + [a]
  }

  /** The nodes from the root down to n. */
  function Ancestros(n: Nodo): (r: seq<Nodo>)
    ensures r != [] && r[|r| - 1] == n
  {
    match n
    case Raiz(_, _, _) => [n]
    case Hijo(_, _, p, _, _) => Ancestros(p) + [n]
  }

  /** The plan lists, in root-to-node order, the action on every non-root node of the parent chain. */
  lemma {:induction false} CaminoOrden(n: Nodo)
    ensures Ancestros(n)[0].Raiz?
    ensures forall i :: 1 <= i < |Ancestros(n)| ==> Ancestros(n)[i].Hijo? && Ancestros(n)[i].padre == Ancestros(n)[i - 1]
    ensures |Camino(n)| == |Ancestros(n)| - 1
    ensures forall i :: 0 <= i < |Camino(n)| ==> Camino(n)[i] == Ancestros(n)[i + 1].accion
  {
    match n
    case Raiz(_, _, _) =>
    case Hijo(_, _, p, _, _) =>
      CaminoOrden(p);
  }

  /** ReconstruirCamino: walk the parents, inserting each action at the front. */
  method ReconstruirCamino(nodoFinal: Nodo) returns (camino: seq<Accion>)
    ensures camino == Camino(nodoFinal)
  {
    camino := [];
    var current := nodoFinal;
    while current.Hijo?
      invariant Camino(nodoFinal) == Camino(current) + camino
      decreases current
    {
      camino := [current.accion] + camino;
      current := current.padre;
    }
  }

  /**
   * A node the search can build: the root holds the initial state at cost 0;
   * every other node's state, action and step cost form a successor the
   * generator gives for its parent's state. H is always the heuristic.
   */
  ghost predicate NodoBien(n: Nodo, inicial: Estado, objetivo: Estado, gen: Estado -> seq<Sucesor>)
  {
    match n
    case Raiz(e, g, h) => e == inicial && g == 0 && h == |Insatisfechos(e, objetivo)|
    case Hijo(e, a, p, g, h) =>
      && NodoBien(p, inicial, objetivo, gen)
      && Sucesor(a, e, g - p.g) in gen(p.estado)
      && h == |Insatisfechos(e, objetivo)|
  }

  /** The successors taken along the parent chain. */
  function Pasos(n: Nodo): (r: seq<Sucesor>)
    ensures |r| == |Camino(n)|
  {
    match n
    case Raiz(_, _, _) => []
    case Hijo(e, a, p, g, _) => Pasos(p) + [Sucesor(a, e, g - p.g)]
  }

  /** The state reached after a chain of successors. */
  function Fin(inicial: Estado, pasos: seq<Sucesor>): Estado
  {
    if pasos == [] then inicial else pasos[|pasos| - 1].estado
  }

  /** The sum of the step costs. */
  function Costo(pasos: seq<Sucesor>): int
    decreases |pasos|
  {
    if pasos == [] then 0 else Costo(pasos[..|pasos| - 1]) + pasos[|pasos| - 1].costo
  }

  /** The actions of a chain of successors. */
  function AccionesDe(pasos: seq<Sucesor>): (r: seq<Accion>)
    ensures |r| == |pasos|
    decreases |pasos|
  {
    if pasos == [] then [] else AccionesDe(pasos[..|pasos| - 1]) + [pasos[|pasos| - 1].accion]
  }

  /** Each step is a successor the generator gives for the state the previous steps reached. */
  ghost predicate Cadena(inicial: Estado, pasos: seq<Sucesor>, gen: Estado -> seq<Sucesor>)
    decreases |pasos|
  {
    pasos == [] ||
      (var previos := pasos[..|pasos| - 1];
       Cadena(inicial, previos, gen) && pasos[|pasos| - 1] in gen(Fin(inicial, previos)))
  }

  /** A node the search builds is reached from the initial state through its successor chain. */
  lemma {:induction false} NodoBienCadena(n: Nodo, inicial: Estado, objetivo: Estado, gen: Estado -> seq<Sucesor>)
    requires NodoBien(n, inicial, objetivo, gen)
    ensures Cadena(inicial, Pasos(n), gen)
    ensures Fin(inicial, Pasos(n)) == n.estado
  {
    match n
    case Raiz(_, _, _) =>
    case Hijo(e, a, p, g, _) =>
      NodoBienCadena(p, inicial, objetivo, gen);
      var ps, paso := Pasos(n), Sucesor(a, e, g - p.g);
      assert ps == Pasos(p) + [paso];
      assert ps[..|ps| - 1] == Pasos(p) && ps[|ps| - 1] == paso;
      assert paso in gen(Fin(inicial, Pasos(p)));
  }

  /** The step costs along a node's chain add up to its G. */
  lemma {:induction false} NodoBienCosto(n: Nodo, inicial: Estado, objetivo: Estado, gen: Estado -> seq<Sucesor>)
    requires NodoBien(n, inicial, objetivo, gen)
    ensures Costo(Pasos(n)) == n.g
  {
    match n
    case Raiz(_, _, _) =>
    case Hijo(e, a, p, g, _) =>
      NodoBienCosto(p, inicial, objetivo, gen);
      var ps := Pasos(n);
      assert ps[..|ps| - 1] == Pasos(p);
  }

  /** The actions along a node's chain are its plan. */
  lemma {:induction false} PasosAcciones(n: Nodo)
    ensures AccionesDe(Pasos(n)) == Camino(n)
  {
    match n
    case Raiz(_, _, _) =>
    case Hijo(e, a, p, g, _) =>
      PasosAcciones(p);
      var ps := Pasos(n);
      assert ps[..|ps| - 1] == Pasos(p);
  }

  // ---------------------------------------------------------------------
  // One expansion
  // ---------------------------------------------------------------------

  /** cameFrom and the nodes enqueued so far, in order. */
  datatype Frontera = Frontera(cameFrom: map<string, Nodo>, encolados: seq<Nodo>)

  /** cameFrom's entries are kept or replaced by ones of no greater G. */
  ghost predicate Mejora(antes: map<string, Nodo>, despues: map<string, Nodo>)
  {
    forall k :: k in antes ==> k in despues && despues[k].g <= antes[k].g
  }

  /** Entries that are new or replaced all have keys outside the closed set. */
  ghost predicate FueraDeCerrados(antes: map<string, Nodo>, despues: map<string, Nodo>, cerrados: set<string>)
  {
    forall k :: k in despues && (k !in antes || despues[k] != antes[k]) ==> k !in cerrados
  }

  lemma {:induction false} MejoraTransitiva(a: map<string, Nodo>, b: map<string, Nodo>, c: map<string, Nodo>, cerrados: set<string>)
    requires Mejora(a, b) && Mejora(b, c)
    requires FueraDeCerrados(a, b, cerrados) && FueraDeCerrados(b, c, cerrados)
    ensures Mejora(a, c) && FueraDeCerrados(a, c, cerrados)
  {
  }

  /** The child current gets through s. */
  function HijoDe(current: Nodo, s: Sucesor, objetivo: Estado): (n: Nodo)
    ensures n.Hijo? && n.padre == current && Sucesor(n.accion, n.estado, n.g - current.g) == s
  {
    Hijo(s.estado, s.accion, current, current.g + s.costo, |Insatisfechos(s.estado, objetivo)|)
  }

  /** A node the foreach may enqueue: a child of current through one of the successors, with an open key. */
  ghost predicate Encolable(m: Nodo, current: Nodo, sucesores: seq<Sucesor>, objetivo: Estado, cerrados: set<string>, clave: Estado -> string)
  {
    && m.Hijo? && m.padre == current
    && Sucesor(m.accion, m.estado, m.g - current.g) in sucesores
    && m.h == |Insatisfechos(m.estado, objetivo)|
    && clave(m.estado) !in cerrados
  }

  /** The body of the foreach for one successor. */
  ghost function Procesar(current: Nodo, s: Sucesor, objetivo: Estado, cerrados: set<string>, clave: Estado -> string, f: Frontera): (r: Frontera)
    ensures Mejora(f.cameFrom, r.cameFrom)
    ensures FueraDeCerrados(f.cameFrom, r.cameFrom, cerrados)
    ensures r.encolados == f.encolados
      || (r.encolados == f.encolados + [HijoDe(current, s, objetivo)] && clave(s.estado) !in cerrados)
  {
    var k := clave(s.estado);
    if k in cerrados then f
    else
      var nodo := HijoDe(current, s, objetivo);
      if k !in f.cameFrom || nodo.g < f.cameFrom[k].g then Frontera(f.cameFrom[k := nodo], f.encolados + [nodo])
      else f
  }

  /** Procesar for a successor whose key is k. */
  lemma {:induction false} ProcesarCon(current: Nodo, s: Sucesor, objetivo: Estado, cerrados: set<string>, clave: Estado -> string,
                    f: Frontera, k: string)
    requires k == clave(s.estado)
    ensures k in cerrados ==> Procesar(current, s, objetivo, cerrados, clave, f) == f
    ensures k !in cerrados && (k !in f.cameFrom || current.g + s.costo < f.cameFrom[k].g) ==>
      Procesar(current, s, objetivo, cerrados, clave, f)
        == Frontera(f.cameFrom[k := HijoDe(current, s, objetivo)], f.encolados + [HijoDe(current, s, objetivo)])
    ensures k !in cerrados && !(k !in f.cameFrom || current.g + s.costo < f.cameFrom[k].g) ==>
      Procesar(current, s, objetivo, cerrados, clave, f) == f
  {
  }

  /**
   * The foreach over the successors of current: skip those whose key is
   * closed; otherwise build the child and keep it (in cameFrom and the
   * queue) when its key is new or its G strictly better.
   */
  ghost function Expansion(current: Nodo, sucesores: seq<Sucesor>, objetivo: Estado,
                           cerrados: set<string>, clave: Estado -> string, f: Frontera): Frontera
    decreases |sucesores|
  {
    if sucesores == [] then f
    else
      var previo := Expansion(current, sucesores[..|sucesores| - 1], objetivo, cerrados, clave, f);
      Procesar(current, sucesores[|sucesores| - 1], objetivo, cerrados, clave, previo)
  }

  /** The expansion of one more successor is one more Procesar. */
  lemma {:induction false} ExpansionPaso(current: Nodo, sucesores: seq<Sucesor>, i: nat, objetivo: Estado,
                      cerrados: set<string>, clave: Estado -> string, f: Frontera)
    requires i < |sucesores|
    ensures Expansion(current, sucesores[..i + 1], objetivo, cerrados, clave, f)
      == Procesar(current, sucesores[i], objetivo, cerrados, clave, Expansion(current, sucesores[..i], objetivo, cerrados, clave, f))
  {
    assert sucesores[..i + 1][..i] == sucesores[..i];
  }

  /** An expansion never raises a cameFrom G and only touches keys outside the closed set. */
  lemma {:induction false} ExpansionMejora(current: Nodo, sucesores: seq<Sucesor>, objetivo: Estado,
                                           cerrados: set<string>, clave: Estado -> string, f: Frontera)
    ensures Mejora(f.cameFrom, Expansion(current, sucesores, objetivo, cerrados, clave, f).cameFrom)
    ensures FueraDeCerrados(f.cameFrom, Expansion(current, sucesores, objetivo, cerrados, clave, f).cameFrom, cerrados)
    decreases |sucesores|
  {
    if sucesores != [] {
      var previo := Expansion(current, sucesores[..|sucesores| - 1], objetivo, cerrados, clave, f);
      ExpansionMejora(current, sucesores[..|sucesores| - 1], objetivo, cerrados, clave, f);
      var r := Procesar(current, sucesores[|sucesores| - 1], objetivo, cerrados, clave, previo);
      MejoraTransitiva(f.cameFrom, previo.cameFrom, r.cameFrom, cerrados);
    }
  }

  /** An expansion only appends to the queue, and only children of current through its successors with open keys. */
  lemma {:induction false} ExpansionEncolados(current: Nodo, sucesores: seq<Sucesor>, objetivo: Estado,
                                              cerrados: set<string>, clave: Estado -> string, f: Frontera)
    ensures var r := Expansion(current, sucesores, objetivo, cerrados, clave, f);
      && |r.encolados| >= |f.encolados| && r.encolados[..|f.encolados|] == f.encolados
      && forall j :: |f.encolados| <= j < |r.encolados| ==> Encolable(r.encolados[j], current, sucesores, objetivo, cerrados, clave)
    decreases |sucesores|
  {
    if sucesores != [] {
      var previos := sucesores[..|sucesores| - 1];
      var previo := Expansion(current, previos, objetivo, cerrados, clave, f);
      ExpansionEncolados(current, previos, objetivo, cerrados, clave, f);
      var r := Procesar(current, sucesores[|sucesores| - 1], objetivo, cerrados, clave, previo);
      assert forall t :: t in previos ==> t in sucesores;
      assert r.encolados[..|previo.encolados|] == previo.encolados;
      assert r.encolados[..|f.encolados|] == previo.encolados[..|f.encolados|];
      forall j | |f.encolados| <= j < |r.encolados| ensures Encolable(r.encolados[j], current, sucesores, objetivo, cerrados, clave) {
        if j < |previo.encolados| {
          assert r.encolados[j] == previo.encolados[j];
        }
      }
    }
  }

  /** Every node an expansion of a buildable node enqueues is one the search can build. */
  lemma {:induction false} ExpansionBien(current: Nodo, objetivo: Estado, cerrados: set<string>, clave: Estado -> string, f: Frontera,
                      inicial: Estado, gen: Estado -> seq<Sucesor>)
    requires NodoBien(current, inicial, objetivo, gen)
    ensures var r := Expansion(current, gen(current.estado), objetivo, cerrados, clave, f);
      forall j :: |f.encolados| <= j < |r.encolados| ==> NodoBien(r.encolados[j], inicial, objetivo, gen)
  {
    var r := Expansion(current, gen(current.estado), objetivo, cerrados, clave, f);
    ExpansionEncolados(current, gen(current.estado), objetivo, cerrados, clave, f);
    forall j | |f.encolados| <= j < |r.encolados| ensures NodoBien(r.encolados[j], inicial, objetivo, gen) {
      assert Encolable(r.encolados[j], current, gen(current.estado), objetivo, cerrados, clave);
    }
  }

  // ---------------------------------------------------------------------
  // The search
  // ---------------------------------------------------------------------

  /**
   * closedSet and cameFrom after each expansion: closedSet only grows, no
   * cameFrom G ever increases, and each expansion records only keys that
   * were not closed at that moment.
   */
  ghost predicate Historia(cerrados: seq<set<string>>, cameFroms: seq<map<string, Nodo>>)
  {
    && |cerrados| == |cameFroms| > 0
    && (forall i, j :: 0 <= i <= j < |cerrados| ==> cerrados[i] <= cerrados[j])
    && (forall i, j :: 0 <= i <= j < |cameFroms| ==> Mejora(cameFroms[i], cameFroms[j]))
    && (forall i :: 0 <= i < |cameFroms| - 1 ==> FueraDeCerrados(cameFroms[i], cameFroms[i + 1], cerrados[i + 1]))
  }

  /** One more expansion, after closing more keys, extends the history. */
  lemma {:induction false} HistoriaPaso(cerrados: seq<set<string>>, cameFroms: seq<map<string, Nodo>>,
                                        nuevoCerrado: set<string>, nuevoCameFrom: map<string, Nodo>)
    requires Historia(cerrados, cameFroms)
    requires cerrados[|cerrados| - 1] <= nuevoCerrado
    requires Mejora(cameFroms[|cameFroms| - 1], nuevoCameFrom)
    requires FueraDeCerrados(cameFroms[|cameFroms| - 1], nuevoCameFrom, nuevoCerrado)
    ensures Historia(cerrados + [nuevoCerrado], cameFroms + [nuevoCameFrom])
  {
    var c := cerrados + [nuevoCerrado];
    var m := cameFroms + [nuevoCameFrom];
    var ultimo := |cerrados| - 1;
    forall i, j | 0 <= i <= j < |c| ensures c[i] <= c[j] && Mejora(m[i], m[j]) {
      if j == ultimo + 1 && i <= ultimo {
        assert c[i] <= c[ultimo] && Mejora(m[i], m[ultimo]);
      } else if j <= ultimo {
        assert c[i] == cerrados[i] && c[j] == cerrados[j] && m[i] == cameFroms[i] && m[j] == cameFroms[j];
      }
    }
    forall i | 0 <= i < |m| - 1 ensures FueraDeCerrados(m[i], m[i + 1], c[i + 1]) {
      if i < ultimo {
        assert m[i] == cameFroms[i] && m[i + 1] == cameFroms[i + 1] && c[i + 1] == cerrados[i + 1];
      }
    }
  }

  /** One pass of the foreach: the successor's key, the skip, the child, and the cameFrom and queue update. */
  method ProcesarSucesor(current: Nodo, sucesor: Sucesor, objetivo: Estado, closedSet: set<string>, ghost clave: Estado -> string,
                         cameFrom0: map<string, Nodo>, ghost encolados0: seq<Nodo>, openSet0: multiset<Nodo>)
    returns (cameFrom: map<string, Nodo>, openSet: multiset<Nodo>, ghost nuevos: seq<Nodo>)
    requires forall e {:trigger Clave(e)} :: clave(e) == Clave(e)
    ensures Frontera(cameFrom, encolados0 + nuevos)
      == Procesar(current, sucesor, objetivo, closedSet, clave, Frontera(cameFrom0, encolados0))
    ensures openSet == openSet0 + multiset(nuevos)
  {
    cameFrom, openSet, nuevos := cameFrom0, openSet0, [];
    var hashSucesor := GenerarHashEstado(sucesor.estado);
    ProcesarCon(current, sucesor, objetivo, closedSet, clave, Frontera(cameFrom0, encolados0), hashSucesor);
    if hashSucesor !in closedSet {
      var g := current.g + sucesor.costo;
      var h := CalcularHeuristica(sucesor.estado, objetivo);
      var nodoSucesor := Hijo(sucesor.estado, sucesor.accion, current, g, h);
      assert nodoSucesor == HijoDe(current, sucesor, objetivo);
      if hashSucesor !in cameFrom || g < cameFrom[hashSucesor].g {
        cameFrom := cameFrom[hashSucesor := nodoSucesor];
        openSet := openSet + multiset{nodoSucesor};
        nuevos := [nodoSucesor];
      }
    }
  }

  /**
   * The foreach of EncontrarSolucion over the successors of current, with
   * the queue and cameFrom it updates.
   */
  method ExpandirSucesores(current: Nodo, sucesores: seq<Sucesor>, objetivo: Estado, closedSet: set<string>, ghost clave: Estado -> string,
                           cameFrom0: map<string, Nodo>, openSet0: multiset<Nodo>)
    returns (cameFrom: map<string, Nodo>, openSet: multiset<Nodo>)
    requires forall e {:trigger Clave(e)} :: clave(e) == Clave(e)
    ensures var r := Expansion(current, sucesores, objetivo, closedSet, clave, Frontera(cameFrom0, []));
      cameFrom == r.cameFrom && openSet == openSet0 + multiset(r.encolados)
  {
    cameFrom, openSet := cameFrom0, openSet0;
    ghost var f0 := Frontera(cameFrom0, []);
    ghost var encolados: seq<Nodo> := [];
    var i := 0;
    while i < |sucesores|
      invariant 0 <= i <= |sucesores|
      invariant Frontera(cameFrom, encolados) == Expansion(current, sucesores[..i], objetivo, closedSet, clave, f0)
      invariant openSet == openSet0 + multiset(encolados)
    {
      ExpansionPaso(current, sucesores, i, objetivo, closedSet, clave, f0);
      ghost var nuevos;
      cameFrom, openSet, nuevos := ProcesarSucesor(current, sucesores[i], objetivo, closedSet, clave, cameFrom, encolados, openSet);
      encolados := encolados + nuevos;
      i := i + 1;
    }
    assert sucesores[..i] == sucesores;
  }

  /**
   * The rest of one iteration of EncontrarSolucion: close current's key, then
   * run the foreach over the generator's successors of current.
   */
  method CerrarYExpandir(current: Nodo, objetivo: Estado, gen: Estado -> seq<Sucesor>, ghost inicial: Estado,
                         closedSet0: set<string>, cameFrom0: map<string, Nodo>, openSet0: multiset<Nodo>)
    returns (closedSet: set<string>, cameFrom: map<string, Nodo>, openSet: multiset<Nodo>)
    requires NodoBien(current, inicial, objetivo, gen)
    requires forall m :: m in openSet0 ==> NodoBien(m, inicial, objetivo, gen)
    ensures closedSet == closedSet0 + {Clave(current.estado)}
    ensures var r := Expansion(current, gen(current.estado), objetivo, closedSet, Clave, Frontera(cameFrom0, []));
      cameFrom == r.cameFrom && openSet == openSet0 + multiset(r.encolados)
    ensures Mejora(cameFrom0, cameFrom) && FueraDeCerrados(cameFrom0, cameFrom, closedSet)
    ensures forall m :: m in openSet ==> NodoBien(m, inicial, objetivo, gen)
  {
    var claveActual := GenerarHashEstado(current.estado);
    closedSet := closedSet0 + {claveActual};

    var sucesores := gen(current.estado);
    ghost var f0 := Frontera(cameFrom0, []);
    cameFrom, openSet := ExpandirSucesores(current, sucesores, objetivo, closedSet, Clave, cameFrom0, openSet0);
    ghost var encolados := Expansion(current, sucesores, objetivo, closedSet, Clave, f0).encolados;
    ExpansionBien(current, objetivo, closedSet, Clave, f0, inicial, gen);
    assert forall m :: m in encolados ==> NodoBien(m, inicial, objetivo, gen);
    ExpansionMejora(current, sucesores, objetivo, closedSet, Clave, f0);
  }

  /**
   * BusquedaAEstrella.EncontrarSolucion. The generator is a parameter; the
   * queue is a multiset from which any node of least F is taken (ties are
   * unordered); a taken node is not checked against closedSet again; at most
   * maxPasos nodes are taken.
   */
  method EncontrarSolucion(inicial: Estado, objetivo: Estado, gen: Estado -> seq<Sucesor>, maxPasos: nat)
    returns (r: Salida, ghost final: Nodo)
    ensures r.Solucion? ==>
      && NodoBien(final, inicial, objetivo, gen)
      && Satisface(final.estado, objetivo)
      && r.resultado.plan == Camino(final)
      && r.resultado.costoTotal == final.g
    ensures maxPasos > 0 && Satisface(inicial, objetivo) ==> r == Solucion(ResultadoBusqueda([], 0))
  {
    var openSet: multiset<Nodo> := multiset{};
    var closedSet: set<string> := {};
    var cameFrom: map<string, Nodo> := map[];
    var h0 := CalcularHeuristica(inicial, objetivo);
    var nodoInicial := Raiz(inicial, 0, h0);
    openSet := openSet + multiset{nodoInicial};
    final := nodoInicial;
    var restantes := maxPasos;
    ghost var primera := true;
    // closedSet and cameFrom as they stood after each earlier expansion
    ghost var historiaCerrados: seq<set<string>> := [];
    ghost var historiaCameFrom: seq<map<string, Nodo>> := [];
    while |openSet| > 0 && restantes > 0
      invariant forall m :: m in openSet ==> NodoBien(m, inicial, objetivo, gen)
      invariant primera ==> openSet == multiset{nodoInicial} && restantes == maxPasos
      invariant primera || !Satisface(inicial, objetivo)
      invariant Historia(historiaCerrados + [closedSet], historiaCameFrom + [cameFrom])
      decreases restantes
    {
      restantes := restantes - 1;
      HayMinimo(openSet, (n: Nodo) => n.F());
      var current :| current in openSet && forall m :: m in openSet ==> current.F() <= m.F();
      openSet := openSet - multiset{current};
      ghost var eraPrimera := primera;
      primera := false;

      var esObjetivo := EsEstadoObjetivo(current.estado, objetivo);
      if esObjetivo {
        var plan := ReconstruirCamino(current);
        return Solucion(ResultadoBusqueda(plan, current.g)), current;
      }
      assert eraPrimera ==> current == nodoInicial;

      ghost var cerradosAntes, cameFromAntes := closedSet, cameFrom;
      closedSet, cameFrom, openSet := CerrarYExpandir(current, objetivo, gen, inicial, closedSet, cameFrom, openSet);
      HistoriaPaso(historiaCerrados + [cerradosAntes], historiaCameFrom + [cameFromAntes], closedSet, cameFrom);
      historiaCerrados, historiaCameFrom := historiaCerrados + [cerradosAntes], historiaCameFrom + [cameFromAntes];
    }
    if |openSet| == 0 {
      r := SinSolucion;
    } else {
      r := SinTerminar;
    }
  }
}
