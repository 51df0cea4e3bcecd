# STRIPS blocks-world planner and 8-puzzle solver, in Dafny

This project models the core of a C# repository that holds two A* planners.

- **Blocks world.** A state is a dictionary from ground atoms to booleans: `on(x, y)` and
  `clear(x)`, with `mesa` as the table. Actions are STRIPS moves `Mover(bloque, desde, hacia)`.
  - An agent copies the real world's state and generates the legal moves.
  - An A* search plans with the count of unsatisfied goal atoms as its heuristic.
  - The real world checks that every stacked block rests, through its supports, on the table.
  - A reader turns a configuration's lines into block names, an initial state and a goal.
- **8-puzzle.** Boards are `int[,]` matrices with 0 as the blank.
  - A move swaps the blank with a neighbour.
  - The agent tries the four directions on a 3x3 board.
  - An A* search uses the misplaced-tile heuristic and a comma-separated key of a board.
  - A reader turns a configuration's lines into the initial and goal matrices.

The modelled parts are these:

- The data of the source become datatypes:
  - `Predicado` is a subset type of `Atomo` that carries the constructor's arity check;
  - `Accion` and `Sucesor` are datatypes;
  - `Nodo` is a datatype with a root and a child case;
  - the results and outcomes of the searches are datatypes.
- Dictionaries become `map`s. Two places depend on the order in which a `Dictionary` enumerates
  its entries (`FirstOrDefault`, and a `foreach` that returns early). There the state is a
  `Diccionario`: the map together with its enumeration order.
- Objects that own mutable state or arrays become classes: `MundoReal`, `Agente`, `MundoPuzzle`,
  `AgentePuzzle` and `LectorEstadosPuzzle`.
- The puzzle code clones and writes `int[,]` arrays, and those are `array2<int>`. Every such method
  is proved against a pure move function `Tableros.Mover` on a value `Tablero`.
- The loops of the source are methods with loop invariants. Each is proved equal to a function,
  and the properties are proved about that function.
- .NET exceptions are values of `Comun.Excepcion` carried by `Result`. The base-library behaviour
  the core relies on is written out in `Comun`: `Trim`, `Split`, `Join`, `Replace(" ", "")`,
  `ToLower`, `int.ToString`, `int.Parse`, `bool.Parse` and unchecked 32-bit arithmetic.
- Both readers start from the lines of the file. Reading the file is not modelled.

A goal that needs `on(A, A)` is reachable. `EsMovimientoValido` (BLOQUESONE/Agente.cs) never
compares `hacia` with `bloque`, so a clear block standing on another base is offered
`Mover(A, base, A)`, which makes `on(A, A)` true. `Agentes.MovimientoSobreSiMismo` states it.

## Model

| member | source | states |
|---|---|---|
| Predicados.Crear | BLOQUESONE/Predicados.cs:29-39 | the constructor accepts exactly the atoms whose arity is valid: `on` needs 2 arguments, `clear` needs 1, any other name takes any count; the atom keeps its name and arguments; otherwise it throws ArgumentException |
| Predicados.CrearEjemplos | BLOQUESONE/Predicados.cs:31-34 | `on` with one argument and `clear` with two are refused; an unknown name with no arguments is accepted |
| Predicados.ParseCaracteriza | BLOQUESONE/Predicados.cs:58-65 | Parse throws IndexOutOfRangeException only on a text made entirely of separators; the name and arguments it reads hold no '(', ',' or ')' |
| Predicados.ParseDePiezas | BLOQUESONE/Predicados.cs:58-65 | when the split yields pieces, Parse builds the predicate from the first piece trimmed and the other pieces trimmed, through the checking constructor |
| Predicados.SinPiezas | BLOQUESONE/Predicados.cs:60 | splitting with empty entries removed yields no piece only when every character is a separator |
| Predicados.TokensDeToString | BLOQUESONE/Predicados.cs:44-47 | the pieces Parse sees in a rendering are the name and then the arguments, each argument after the first preceded by its blank |
| Predicados.CamposDeToString | BLOQUESONE/Predicados.cs:44-47 | the rendering splits into the name, the fields of the joined arguments, and the empty text after ')' |
| Predicados.ParseDeToString | BLOQUESONE/Predicados.cs:44-65 | round trip: Parse(ToString(p)) == Ok(p) for every predicate whose name and arguments hold no separator and no bordering whitespace |
| Predicados.RecortarConBlanco | BLOQUESONE/Predicados.cs:62-63 | trimming the argument pieces of a rendering gives the arguments back |
| Predicados.ToStringEjemplo | BLOQUESONE/Predicados.cs:44-47 | on(A, B) renders as "on(A, B)" |
| Predicados.ParseEjemplo | BLOQUESONE/Predicados.cs:58-65 | "on(A, B)" parses as on(A, B) |
| Predicados.Igual | BLOQUESONE/Predicados.cs:72-77 | Equals holds exactly when the name and the argument sequence are equal |
| Predicados.CodigoHash | BLOQUESONE/Predicados.cs:83-92 | the hash loop computes Hash(p) in unchecked arithmetic, and the result is a 32-bit value |
| Predicados.HashCompatible | BLOQUESONE/Predicados.cs:72-92 | predicates that are Equal have the same hash, whatever the string hash |
| Acciones.CamposDeToString | BLOQUESONE/Accion.cs:47 | splitting the rendering on ',' gives "Mover(" + block, then " " + origin, then " " + destination + ")" |
| Acciones.ToStringInyectiva | BLOQUESONE/Accion.cs:36-47 | two actions whose fields hold no comma render alike only when they are the same action |
| Acciones.ToStringEjemplo | BLOQUESONE/Accion.cs:47 | Accion("A", "mesa", "B") renders as "Mover(A, mesa, B)" |
| OperacionesBloques.AplicarAccion | BLOQUESONE/OperacionesBloques.cs:21-47 | the new state makes on(b, hacia) true, and makes on(b, desde) false unless desde == hacia; it makes clear(desde) true unless desde == hacia and hacia is not the table, where the later write of clear(hacia) wins; it makes clear(hacia) false when hacia is not the table; it adds only the written keys and keeps every other entry; BLOQUESONE/Accion_exe_comun.cs repeats the same code |
| OperacionesBloques.DesdeMesa | BLOQUESONE/OperacionesBloques.cs:37-38 | a move from the table onto a block makes clear(mesa) true |
| OperacionesBloques.HaciaMesa | BLOQUESONE/OperacionesBloques.cs:40-44 | a move onto the table writes no clear atom for it: clear(mesa) is present and keeps its value exactly when it was before |
| OperacionesBloques.Ejecutar | BLOQUESONE/Agente.cs:118-121 | replays a plan with AplicarAccionSimulada; its own ensures only says that after a non-empty plan the last action's block stands on that action's destination, and the fold law is EjecutarConcat |
| OperacionesBloques.EjecutarConcat | BLOQUESONE/Agente.cs:118-121 | replaying two plans one after the other is replaying their concatenation |
| Agentes.EsMovimientoValido | BLOQUESONE/Agente.cs:175-191 | a move is valid exactly when on(bloque, desde) and clear(bloque) hold and the destination is the table or clear |
| Agentes.BaseActual | BLOQUESONE/Agente.cs:140-149 | None exactly when no position lies under the block; otherwise the first position, in order, that does |
| Agentes.MovimientosMiembro | BLOQUESONE/Agente.cs:152-166 | a successor is emitted for a block and its base exactly when its destination is one of the positions other than the base and the move is valid; it then holds the applied state and costs 1 |
| Agentes.SucesoresDeMiembro | BLOQUESONE/Agente.cs:134-168 | the successors of a list of blocks are exactly the moves of its clear blocks, from their first base, that pass the checks |
| Agentes.SucesoresCaracterizados | BLOQUESONE/Agente.cs:129-170 | the generator emits s iff s moves a clear block of the list from its current base to another position, passes EsMovimientoValido, yields AplicarAccion's state and costs 1 |
| Agentes.SucesoresUnitarios | BLOQUESONE/Agente.cs:129-170 | every successor costs 1, starts where its block stands and ends somewhere else |
| Agentes.MovimientoSobreSiMismo | BLOQUESONE/Agente.cs:152-191 | a clear block b on a base other than itself is offered Mover(b, base, b), which makes on(b, b) true |
| Agentes.Generado | BLOQUESONE/Agente.cs:159-165 | a generated successor is Sucesor(a, AplicarAccion(e, a), 1) for a legal move a |
| Agentes.CadenaEjecuta | BLOQUESONE/Agente.cs:94-98 | a chain of generated successors ends in the state that executing its actions gives, and its cost is its length |
| Agentes.CadenaLegal | BLOQUESONE/Agente.cs:94-98 | the actions of a chain of generated successors form a legal plan, each step a successor the generator offers |
| Agentes.CopiarEstado | BLOQUESONE/Agente.cs:105-113 | the copy re-creates every entry and equals the original's values |
| Agentes.BuscarBase | BLOQUESONE/Agente.cs:140-149 | the foreach with break returns BaseActual |
| Agentes.AgregarMovimientos | BLOQUESONE/Agente.cs:152-167 | the destination loop appends exactly the valid moves of one block, in order, to the list |
| Agentes.GenerarSucesores | BLOQUESONE/Agente.cs:129-170 | the generator method returns the successors characterised above, block-major and destination-minor |
| Agentes.Agente.constructor | BLOQUESONE/Agente.cs:19-23 | the agent keeps the world and a copy of its state |
| Agentes.Agente.Planificar | BLOQUESONE/Agente.cs:94-98 | a plan found is legal move by move, executing it satisfies the goal, and its cost is its length; a start that already satisfies the goal gives the empty plan at cost 0 |
| BusquedaAEstrella.CalcularHeuristica | BLOQUESONE/AlgoritmoBusqueda.cs:158-169 | the count equals the number of goal atoms mapped to true that the state lacks or maps to false |
| BusquedaAEstrella.HeuristicaAcotada | BLOQUESONE/AlgoritmoBusqueda.cs:158-169 | the heuristic lies between 0 and the size of the goal |
| BusquedaAEstrella.HeuristicaCero | BLOQUESONE/AlgoritmoBusqueda.cs:158-187 | the heuristic is 0 exactly on the states the goal test accepts |
| BusquedaAEstrella.ObjetivoFalsoIgnorado | BLOQUESONE/AlgoritmoBusqueda.cs:163 | goal atoms mapped to false affect neither the heuristic nor the goal test |
| BusquedaAEstrella.EsEstadoObjetivo | BLOQUESONE/AlgoritmoBusqueda.cs:174-187 | true exactly when every goal atom mapped to true is present and true in the state |
| BusquedaAEstrella.Filtrar | BLOQUESONE/AlgoritmoBusqueda.cs:213-219 | the atoms kept are exactly the enumerated ones that the state maps to true |
| BusquedaAEstrella.FiltrarDistinta | BLOQUESONE/AlgoritmoBusqueda.cs:213-219 | filtering an enumeration without repeats gives one without repeats |
| BusquedaAEstrella.ClaveDeOrden | BLOQUESONE/AlgoritmoBusqueda.cs:209-221 | any enumeration order of the dictionary, filtered, rendered and sorted, gives the same key |
| BusquedaAEstrella.ClaveIndependiente | BLOQUESONE/AlgoritmoBusqueda.cs:209-221 | states with the same true atoms have the same key, whatever their false entries |
| BusquedaAEstrella.RendersPaso | BLOQUESONE/AlgoritmoBusqueda.cs:212-218 | one more entry adds its rendering exactly when its value is true |
| BusquedaAEstrella.GenerarHashEstado | BLOQUESONE/AlgoritmoBusqueda.cs:209-221 | the method returns the canonical key: the sorted renderings of the true atoms joined with ";" |
| BusquedaAEstrella.Ancestros | BLOQUESONE/AlgoritmoBusqueda.cs:119-153 | the chain of parents is non-empty and ends at the node |
| BusquedaAEstrella.CaminoOrden | BLOQUESONE/AlgoritmoBusqueda.cs:192-204 | the chain starts at the root, each node's parent precedes it, and the plan lists the action of every non-root node in root-to-leaf order |
| BusquedaAEstrella.ReconstruirCamino | BLOQUESONE/AlgoritmoBusqueda.cs:192-204 | walking the parents and inserting each action at the front yields that plan |
| BusquedaAEstrella.Pasos | BLOQUESONE/AlgoritmoBusqueda.cs:119-153 | a node's chain has one successor step per action of its plan |
| BusquedaAEstrella.AccionesDe | BLOQUESONE/AlgoritmoBusqueda.cs:192-204 | a chain of successors has one action per step |
| BusquedaAEstrella.NodoBienCadena | BLOQUESONE/AlgoritmoBusqueda.cs:84-101 | a node the search builds is reached from the initial state through successors the generator offers, and the chain ends in the node's state |
| BusquedaAEstrella.NodoBienCosto | BLOQUESONE/AlgoritmoBusqueda.cs:93 | a node's G is the sum of the step costs along its chain |
| BusquedaAEstrella.PasosAcciones | BLOQUESONE/AlgoritmoBusqueda.cs:192-204 | the actions along a node's chain are the plan ReconstruirCamino returns |
| BusquedaAEstrella.MejoraTransitiva | BLOQUESONE/AlgoritmoBusqueda.cs:104-108 | cameFrom only ever improves: two updates compose into one |
| BusquedaAEstrella.HijoDe | BLOQUESONE/AlgoritmoBusqueda.cs:93-101 | the child has current as its parent, the successor's action and state, and G raised by the successor's cost |
| BusquedaAEstrella.Procesar | BLOQUESONE/AlgoritmoBusqueda.cs:85-109 | one successor never raises a cameFrom G, touches only keys outside closedSet and leaves the earlier queue as it was |
| BusquedaAEstrella.ProcesarCon | BLOQUESONE/AlgoritmoBusqueda.cs:87-108 | a closed key is skipped; a new key or a strictly better G replaces the cameFrom entry and enqueues the child; anything else changes nothing |
| BusquedaAEstrella.ExpansionPaso | BLOQUESONE/AlgoritmoBusqueda.cs:85-109 | the expansion over one more successor is one more pass of the body |
| BusquedaAEstrella.ExpansionMejora | BLOQUESONE/AlgoritmoBusqueda.cs:85-109 | a whole expansion never raises a cameFrom G and touches only open keys |
| BusquedaAEstrella.ExpansionEncolados | BLOQUESONE/AlgoritmoBusqueda.cs:85-109 | the expansion only appends to the queue, and only children of current through its successors whose keys are not closed |
| BusquedaAEstrella.ExpansionBien | BLOQUESONE/AlgoritmoBusqueda.cs:84-109 | every node enqueued from a buildable node is buildable |
| BusquedaAEstrella.ProcesarSucesor | BLOQUESONE/AlgoritmoBusqueda.cs:87-108 | the loop body updates cameFrom and the queue as Procesar says |
| BusquedaAEstrella.ExpandirSucesores | BLOQUESONE/AlgoritmoBusqueda.cs:84-109 | the foreach updates cameFrom and the queue as the expansion says |
| BusquedaAEstrella.EncontrarSolucion | BLOQUESONE/AlgoritmoBusqueda.cs:46-113 | a plan returned is the plan of a node reached through the generator's successors; that node satisfies the goal and its G is the cost returned; a start state that satisfies the goal gives the empty plan at cost 0; the loop invariant `Historia` keeps closedSet only growing, no cameFrom G ever increasing, and every cameFrom change on a key that was open at that moment |
| BusquedaAEstrella.CerrarYExpandir | BLOQUESONE/AlgoritmoBusqueda.cs:80-109 | one iteration after the goal test adds current's key to closedSet and runs the foreach; cameFrom never gets a larger G, only keys open at that moment change, and every queued node can be built from the start |
| BusquedaAEstrella.HistoriaPaso | BLOQUESONE/AlgoritmoBusqueda.cs:80-108 | one more iteration, which closes a key and then only lowers or adds cameFrom entries on open keys, extends the monotone history of closedSet and cameFrom |
| Mundo.OnArgumentos | BLOQUESONE/Predicados.cs:31-32 | an "on" predicate is on(x, y) with its two arguments |
| Mundo.Soporte | BLOQUESONE/MundoReal.cs:109-116 | FirstOrDefault finds no entry exactly when no enumerated entry is a true on(bloque, _); otherwise the block stands on the base found |
| Mundo.SoportePrimero | BLOQUESONE/MundoReal.cs:109-116 | the base comes from the first matching entry in enumeration order |
| Mundo.SoporteCompleto | BLOQUESONE/MundoReal.cs:104-118 | over the whole dictionary, a block has no support exactly when no on(bloque, _) atom is true |
| Mundo.SobreMesa | BLOQUESONE/MundoReal.cs:104-118 | the table is on the table; a block without support is not; otherwise the answer is its support's |
| Mundo.SobreMesaMonotona | BLOQUESONE/MundoReal.cs:104-118 | more fuel never changes an answer already reached |
| Mundo.CicloNoTermina | BLOQUESONE/MundoReal.cs:104-118 | two blocks on each other give no answer at any fuel, as the source's recursion overflows the stack |
| Mundo.ValidarEntradas | BLOQUESONE/MundoReal.cs:80-99 | the foreach accepts exactly when every checked on(x, y) with y not the table has a base that reaches the table; otherwise it stops at the first true on(x, y) whose base may not |
| Mundo.ValidarCorrecta | BLOQUESONE/MundoReal.cs:80-99 | the state is accepted exactly when the base of every true on(x, y), y not the table, reaches the table |
| Mundo.CicloEjemplo | BLOQUESONE/MundoReal.cs:80-118 | on(A, B) with on(B, A) never gets an answer |
| Mundo.SinSoporteEjemplo | BLOQUESONE/MundoReal.cs:94 | on(A, B) with nothing under B throws ArgumentException naming on(A, B) |
| Mundo.TorreEjemplo | BLOQUESONE/MundoReal.cs:80-99 | on(A, B) with on(B, mesa) is accepted |
| Mundo.Encima | BLOQUESONE/MundoReal.cs:124-136 | null exactly when no enumerated entry is a true on(_, bloqueBase); otherwise the block found stands on bloqueBase |
| Mundo.EncimaPrimero | BLOQUESONE/MundoReal.cs:124-136 | the block comes from the first matching entry in enumeration order |
| Mundo.EncimaCompleto | BLOQUESONE/MundoReal.cs:124-136 | over the whole dictionary, null means no on(_, bloqueBase) atom is true |
| Mundo.MundoReal.constructor | BLOQUESONE/MundoReal.cs:31-36 | the world stores the block names and the state it is given |
| Mundo.MundoReal.Crear | BLOQUESONE/MundoReal.cs:31-36 | the constructor's object, with the outcome of its ValidarEstadoInicial call |
| Mundo.MundoReal.ValidarEstadoInicial | BLOQUESONE/MundoReal.cs:80-99 | the loop returns Validar over the world's state |
| Mundo.MundoReal.BuscarBloqueArriba | BLOQUESONE/MundoReal.cs:124-136 | the loop returns Encima over the world's state |
| Secciones.SinLineasEnBlanco | BLOQUESONE/LectorEstados.cs:42 | the filter keeps exactly the non-blank lines, in order (the puzzle reader filters alike) |
| Secciones.SinLineasConcat | BLOQUESONE/LectorEstados.cs:42 | the filter keeps the file's order: it distributes over concatenation |
| Secciones.SeccionDe | BLOQUESONE/LectorEstados.cs:97-98 | a section is an error exactly when nothing was collected, and then it is InvalidDataException |
| Secciones.SeccionRecogidas | BLOQUESONE/LectorEstados.cs:72-102 | every line of a section is trimmed, non-empty, not the header and does not start with '[' |
| Secciones.TramoHastaCorte | BLOQUESONE/LectorEstados.cs:80-95 | inside the section, the reader collects exactly the non-empty lines before the next other header |
| Secciones.CuerpoTrasCabecera | BLOQUESONE/LectorEstados.cs:80-95 | the first header line decides where the section starts |
| Secciones.SinCabecera | BLOQUESONE/LectorEstados.cs:72-102 | lines without the header give InvalidDataException |
| Secciones.SeccionDelimitada | BLOQUESONE/LectorEstados.cs:72-102 | the section is the non-empty lines strictly between the first header and the next other header, with repeats of the header left out; none at all is InvalidDataException |
| Secciones.UnPaso | BLOQUESONE/LectorEstados.cs:78-95 | one line of the pass, both before and inside the section |
| Secciones.LeerSeccion | BLOQUESONE/LectorEstados.cs:72-102 | the one-pass loop with the enSeccion flag computes the section; the puzzle reader's LeerSeccion is the same loop |
| LectoresBloques.ParsearLinea | BLOQUESONE/LectorEstados.cs:115-117 | a line fails only with IndexOutOfRangeException (no '='), ArgumentException (bad arity) or FormatException (bad bool) |
| LectoresBloques.CamposDeLinea | BLOQUESONE/LectorEstados.cs:115 | `texto=valor` without spaces or '=' on either side splits into the two texts |
| LectoresBloques.ParsearLineaDeTexto | BLOQUESONE/LectorEstados.cs:115-117 | a line written as a predicate's text, '=' and a bool's text reads back as that predicate and value |
| LectoresBloques.SinIgualNoSeLee | BLOQUESONE/LectorEstados.cs:115-116 | a line without '=' is refused |
| LectoresBloques.Agregar | BLOQUESONE/LectorEstados.cs:114-119 | a dictionary built from the lines has one entry per line |
| LectoresBloques.AgregarError | BLOQUESONE/LectorEstados.cs:114-119 | its error is a duplicate's ArgumentException or the error of one of the lines |
| LectoresBloques.EstadoDe | BLOQUESONE/LectorEstados.cs:110-121 | a parsed section has one entry per line |
| LectoresBloques.EstadoDeErrores | BLOQUESONE/LectorEstados.cs:110-121 | ParsearEstado throws only IndexOutOfRangeException, ArgumentException or FormatException |
| LectoresBloques.Leidas | BLOQUESONE/LectorEstados.cs:114-116 | each line is parsed on its own |
| LectoresBloques.AgregarPaso | BLOQUESONE/LectorEstados.cs:114-119 | one more line either propagates its error, or throws ArgumentException on a key already present, or adds its entry |
| LectoresBloques.InsertarValido | BLOQUESONE/LectorEstados.cs:118 | Dictionary.Add of a new key keeps the dictionary valid and every earlier entry |
| LectoresBloques.AgregarUltimo | BLOQUESONE/LectorEstados.cs:114-119 | the last line of a section that parses adds a new predicate to the earlier lines' dictionary |
| LectoresBloques.AgregarValido | BLOQUESONE/LectorEstados.cs:114-119 | the dictionary built is valid: its order lists each key once |
| LectoresBloques.EntradasPaso | BLOQUESONE/LectorEstados.cs:118 | adding one line's entry keeps every entry in line with its line |
| LectoresBloques.AgregarEntradas | BLOQUESONE/LectorEstados.cs:114-119 | entry i is the predicate and value of line i |
| LectoresBloques.AgregarCorrecto | BLOQUESONE/LectorEstados.cs:114-119 | the dictionary is valid and entry i is the predicate and value of line i |
| LectoresBloques.EstadoDeCorrecto | BLOQUESONE/LectorEstados.cs:110-121 | a section that parses is a valid dictionary with entry i from line i, in file order |
| LectoresBloques.AgregarPrefijoError | BLOQUESONE/LectorEstados.cs:114-119 | once a prefix fails, the section fails with the same error |
| LectoresBloques.AgregarDuplicado | BLOQUESONE/LectorEstados.cs:118 | two lines naming the same predicate give ArgumentException |
| LectoresBloques.AgregarCompleto | BLOQUESONE/LectorEstados.cs:114-119 | lines that all parse, to pairwise different predicates, make a dictionary |
| LectoresBloques.AgregarSii | BLOQUESONE/LectorEstados.cs:114-119 | when every line parses, the dictionary is built exactly when no predicate repeats, and otherwise the error is ArgumentException |
| LectoresBloques.EstadoDeSii | BLOQUESONE/LectorEstados.cs:110-121 | the same over the section's text lines |
| LectoresBloques.ParsearEstado | BLOQUESONE/LectorEstados.cs:110-121 | the loop returns EstadoDe |
| LectoresBloques.Bloques | BLOQUESONE/LectorEstados.cs:50-52 | the first [Bloques] line gives at least one name, and no name holds a ',' |
| LectoresBloques.BloquesDeUnir | BLOQUESONE/LectorEstados.cs:50-52 | names without commas or bordering blanks, joined with ',', are read back |
| LectoresBloques.Lectura | BLOQUESONE/LectorEstados.cs:38-63 | a successful read has at least one block name |
| LectoresBloques.LecturaCorrecta | BLOQUESONE/LectorEstados.cs:38-63 | a read gives the names of the first [Bloques] line and the two dictionaries ParsearEstado builds from the [EstadoInicial] and [EstadoObjetivo] sections: each valid, one entry per line, entry i being the predicate and value parsed from line i |
| LectoresBloques.LecturaSinSeccion | BLOQUESONE/LectorEstados.cs:45-47 | a file missing any of the three headers is refused with InvalidDataException |
| LectoresBloques.Leer | BLOQUESONE/LectorEstados.cs:38-63 | the constructor's steps compute Lectura |
| LectoresPuzzle.Celdas | 8Puzzle/LectorEstadosPuzzle.cs:112-115 | a row that parses has one cell per element; failures are FormatException or OverflowException |
| LectoresPuzzle.CeldasCorrectas | 8Puzzle/LectorEstadosPuzzle.cs:112-115 | cell j is int.Parse of element j |
| LectoresPuzzle.CeldasPrefijoError | 8Puzzle/LectorEstadosPuzzle.cs:112-115 | the first element that fails decides the row's error |
| LectoresPuzzle.FilasDe | 8Puzzle/LectorEstadosPuzzle.cs:106-116 | the rows read all have the first line's width; failures are InvalidDataException, FormatException or OverflowException |
| LectoresPuzzle.FilasCorrectas | 8Puzzle/LectorEstadosPuzzle.cs:106-116 | every row read has the width and holds its parsed cells |
| LectoresPuzzle.FilasPrefijoError | 8Puzzle/LectorEstadosPuzzle.cs:106-116 | the first row that fails decides the matrix's error |
| LectoresPuzzle.FilasInconsistentes | 8Puzzle/LectorEstadosPuzzle.cs:109-110 | when all cells parse, the rows make a matrix exactly when each has the width; otherwise InvalidDataException |
| LectoresPuzzle.MatrizDe | 8Puzzle/LectorEstadosPuzzle.cs:97-119 | ArgumentOutOfRangeException exactly for no lines; a matrix has one row per line and the first line's width |
| LectoresPuzzle.MatrizCorrecta | 8Puzzle/LectorEstadosPuzzle.cs:97-119 | cell (i, j) is element j of line i parsed as an integer |
| LectoresPuzzle.MatrizInconsistente | 8Puzzle/LectorEstadosPuzzle.cs:101-110 | when all cells parse, lines make a matrix exactly when each is as wide as the first; otherwise InvalidDataException |
| LectoresPuzzle.ElementosDeLinea | 8Puzzle/LectorEstadosPuzzle.cs:108 | a row written with ',' splits into its cells' decimal texts |
| LectoresPuzzle.CeldasDeTexto | 8Puzzle/LectorEstadosPuzzle.cs:112-115 | the decimal texts of 32-bit cells parse back to the cells |
| LectoresPuzzle.FilasDeCeldas | 8Puzzle/LectorEstadosPuzzle.cs:106-116 | rows of the right width whose cells all parse make those rows |
| LectoresPuzzle.FilasDeTexto | 8Puzzle/LectorEstadosPuzzle.cs:106-116 | rows written back as text read back as the same rows |
| LectoresPuzzle.MatrizDeTexto | 8Puzzle/LectorEstadosPuzzle.cs:97-119 | round trip: a board written one row per line, cells joined by ',', reads back as itself |
| LectoresPuzzle.FilasPaso | 8Puzzle/LectorEstadosPuzzle.cs:106-116 | one more row is an InvalidDataException for a wrong width, a cell error, or the row appended |
| LectoresPuzzle.MatrizDeFilas | 8Puzzle/LectorEstadosPuzzle.cs:101-116 | for non-empty lines the matrix is the first line's width with the rows, or their error |
| LectoresPuzzle.ParsearMatriz | 8Puzzle/LectorEstadosPuzzle.cs:97-119 | the fresh array filled row by row holds MatrizDe, or the method returns its error |
| LectoresPuzzle.LlenarFila | 8Puzzle/LectorEstadosPuzzle.cs:112-115 | row i holds the parsed cells, or the first failure is returned; other rows are unchanged |
| LectoresPuzzle.LecturaPuzzle | 8Puzzle/LectorEstadosPuzzle.cs:29-50 | a read gives two matrices with at least one row each |
| LectoresPuzzle.LecturaPuzzleSinSeccion | 8Puzzle/LectorEstadosPuzzle.cs:38-39 | a file missing either header is refused with InvalidDataException |
| LectoresPuzzle.LectorEstadosPuzzle.constructor | 8Puzzle/LectorEstadosPuzzle.cs:42-43 | the reader holds the two matrices |
| LectoresPuzzle.LectorEstadosPuzzle.Leer | 8Puzzle/LectorEstadosPuzzle.cs:29-50 | the constructor fails exactly when LecturaPuzzle does, with its error; otherwise it holds fresh arrays with the two boards |
| Tableros.TableroIgual | 8Puzzle/BusquedaPuzzle.cs:128-143 | boards of the same shape with the same cells are equal |
| Tableros.AplanarInyectiva | 8Puzzle/BusquedaPuzzle.cs:148-161 | boards of the same shape with the same cells in row-major order are equal |
| Tableros.CeroEnFila | 8Puzzle/OperacionesPuzzle.cs:17-30 | the inner search finds the first 0 of a row, or -1 when there is none |
| Tableros.BlancoEn | 8Puzzle/OperacionesPuzzle.cs:17-30 | the blank search finds the first 0 in row-major order, or (-1, -1) when the board has none |
| Tableros.Desplazamiento | 8Puzzle/OperacionesPuzzle.cs:33-50 | a known direction has one of the four unit offsets |
| Tableros.Opuesta | 8Puzzle/OperacionesPuzzle.cs:33-50 | the opposite of a known direction has the negated offset |
| Tableros.Poner | 8Puzzle/OperacionesPuzzle.cs:57-59 | an indexer write changes one cell and nothing else |
| Tableros.PonerConmuta | 8Puzzle/OperacionesPuzzle.cs:57-59 | writes to two different cells commute |
| Tableros.PonerMultiset | 8Puzzle/OperacionesPuzzle.cs:57-59 | a write swaps one copy of the old value for one copy of the new |
| Tableros.Mover | 8Puzzle/OperacionesPuzzle.cs:9-62 | ArgumentException exactly for an unknown direction; InvalidOperationException exactly when the target is off the board (always so without a blank); otherwise the blank and its target swap and nothing else changes |
| Tableros.IntercambioMultiset | 8Puzzle/OperacionesPuzzle.cs:57-59 | the swap keeps the multiset of cells |
| Tableros.MoverMultiset | 8Puzzle/OperacionesPuzzle.cs:9-62 | a move keeps the multiset of cell values |
| Tableros.PrimerCero | 8Puzzle/OperacionesPuzzle.cs:17-30 | the first 0 in row-major order is the blank |
| Tableros.SinCero | 8Puzzle/OperacionesPuzzle.cs:17-30 | a board without a 0 has no blank |
| Tableros.BlancoUnico | 8Puzzle/OperacionesPuzzle.cs:17-30 | the only 0 is the blank |
| Tableros.BlancoTrasMover | 8Puzzle/OperacionesPuzzle.cs:9-62 | on a board with one blank, the blank ends at its target |
| Tableros.MoverInverso | 8Puzzle/OperacionesPuzzle.cs:9-62 | on a board with at most one blank, the opposite direction undoes a legal move |
| Tableros.BajarDosBlancos | 8Puzzle/OperacionesPuzzle.cs:17-59 | with two blanks, "abajo" moves the first one found |
| Tableros.SubirDosBlancos | 8Puzzle/OperacionesPuzzle.cs:17-59 | afterwards a different blank is found first, and "arriba" moves that one |
| Tableros.VariosBlancosNoInvierte | 8Puzzle/OperacionesPuzzle.cs:9-62 | with two blanks the opposite move need not undo a move |
| Tableros.ContenidoDe | 8Puzzle/OperacionesPuzzle.cs:12 | an array with the cells of a board has that board as its value |
| Tableros.Clonar | 8Puzzle/OperacionesPuzzle.cs:12 | Clone gives a fresh array with the same cells |
| Tableros.BuscarBlanco | 8Puzzle/OperacionesPuzzle.cs:17-30 | the nested loops with break find the blank as Blanco defines it |
| OperacionesPuzzle.AplicarAccion | 8Puzzle/OperacionesPuzzle.cs:9-62 | a fresh array holding Mover of the board, or its exception; the caller's array is not modified |
| OperacionesPuzzle.MoverBlanco | 8Puzzle/OperacionesPuzzle.cs:33-59 | from the blank of the clone, the switch, the bounds check and the swap in place give Mover of the clone's board, in the same array, or Mover's exception |
| OperacionesPuzzle.Destino | 8Puzzle/OperacionesPuzzle.cs:33-50 | the switch knows exactly the four directions and gives their targets |
| OperacionesPuzzle.MoverHacia | 8Puzzle/OperacionesPuzzle.cs:53-59 | a target on the board gives the swapped board; one off the board gives InvalidOperationException |
| OperacionesPuzzle.Intercambiar | 8Puzzle/OperacionesPuzzle.cs:57-59 | the three assignments put the target's value at the blank and 0 at the target |
| OperacionesPuzzle.DireccionSensible | 8Puzzle/OperacionesPuzzle.cs:33-50 | directions are case-sensitive: "Arriba" is ArgumentException |
| MundosPuzzle.CeldaAplanada | BLOQUESONE/MundoPuzzle.cs:37-61 | cell (i, j) is at flat index (cells of earlier rows) + j, and it is the last cell exactly when it is the bottom-right one |
| MundosPuzzle.ObjetivoEjemplos | BLOQUESONE/MundoPuzzle.cs:37-61 | 1..8 then 0 is the goal; 1..6, 0, 7, 8 is not |
| MundosPuzzle.ObjetivoUnBlanco | BLOQUESONE/MundoPuzzle.cs:37-61 | the goal layout has exactly one blank, in the bottom-right cell |
| MundosPuzzle.MundoPuzzle.constructor | BLOQUESONE/MundoPuzzle.cs:12-15 | the world keeps a fresh clone of the initial board |
| MundosPuzzle.MundoPuzzle.EsEstadoObjetivo | BLOQUESONE/MundoPuzzle.cs:37-61 | true exactly when, in row-major order, the cells are 1, 2, ... and the last one is 0 |
| MundosPuzzle.MundoPuzzle.AplicarAccion | BLOQUESONE/MundoPuzzle.cs:65-124 | Mover of the world's board in the lower-cased direction, in a fresh array |
| MundosPuzzle.MinusculasEjemplo | BLOQUESONE/MundoPuzzle.cs:90 | the world accepts "ARRIBA" as "arriba", which OperacionesPuzzle refuses |
| AgentesPuzzle.ToStringDireccion | BLOQUESONE/AgentePuzzle.cs:93 | the rendering is the fixed prefix followed by the direction |
| AgentesPuzzle.ToStringInyectiva | BLOQUESONE/AgentePuzzle.cs:93 | different actions render differently |
| AgentesPuzzle.ToStringEjemplo | BLOQUESONE/AgentePuzzle.cs:93 | "arriba" renders as "Mover espacio en blanco arriba" |
| AgentesPuzzle.MovimientosDesplazamiento | BLOQUESONE/AgentePuzzle.cs:40-46 | the generator's offsets are those of the move's switch |
| AgentesPuzzle.SucesoresDesdeMiembro | BLOQUESONE/AgentePuzzle.cs:50-77 | a successor for a list of directions is a legal move in one of them, with its board |
| AgentesPuzzle.SucesoresCaracterizados | BLOQUESONE/AgentePuzzle.cs:18-80 | the successors are exactly the legal moves in the four directions, with the boards Mover gives |
| AgentesPuzzle.SucesorSiiDentro | BLOQUESONE/AgentePuzzle.cs:52-56 | on a 3x3 board a direction yields a successor exactly when the blank plus its offset lies in 0..2 on both axes; a board without a 0 has none |
| AgentesPuzzle.SucesoresReversibles | BLOQUESONE/AgentePuzzle.cs:18-80 | on a board with one blank, the opposite direction leads back from every successor, and a successor keeps the multiset of cells |
| AgentesPuzzle.AgentePuzzle.constructor | BLOQUESONE/AgentePuzzle.cs:11-15 | the agent keeps a fresh clone of the initial board |
| AgentesPuzzle.AgentePuzzle.GenerarSucesores | BLOQUESONE/AgentePuzzle.cs:18-80 | the method returns SucesoresPuzzle of its board |
| AgentesPuzzle.SucesorEn | BLOQUESONE/AgentePuzzle.cs:52-76 | one dictionary entry yields the successor for that direction, or none |
| AgentesPuzzle.ClonarIntercambiado | BLOQUESONE/AgentePuzzle.cs:59-63 | the clone has the target's value at the blank and 0 at the target |
| BusquedaPuzzle.HeuristicaFila | 8Puzzle/BusquedaPuzzle.cs:116-120 | the inner loop counts misplaced non-zero tiles of a row, at most its width; 0 exactly when all are in place |
| BusquedaPuzzle.HeuristicaFilas | 8Puzzle/BusquedaPuzzle.cs:114-121 | the same over the first rows |
| BusquedaPuzzle.Heuristica | 8Puzzle/BusquedaPuzzle.cs:109-123 | the number of non-zero tiles that differ from the goal, between 0 and rows × columns, 0 exactly when all are in place; IndexOutOfRangeException exactly when a non-zero tile has no goal cell |
| BusquedaPuzzle.HeuristicaObjetivo | 8Puzzle/BusquedaPuzzle.cs:109-123 | the goal scores 0, and boards of the goal's shape never throw |
| BusquedaPuzzle.CalcularHeuristica | 8Puzzle/BusquedaPuzzle.cs:109-123 | the nested loops compute Heuristica |
| BusquedaPuzzle.RecorrerFila | 8Puzzle/BusquedaPuzzle.cs:116-120 | the inner loop adds the row's count to h |
| BusquedaPuzzle.TablerosIguales | 8Puzzle/BusquedaPuzzle.cs:128-143 | true exactly when the boards are equal (false on a different shape) |
| BusquedaPuzzle.ClaveInyectiva | 8Puzzle/BusquedaPuzzle.cs:148-161 | boards of the same shape with the same key are the same board |
| BusquedaPuzzle.TableroToString | 8Puzzle/BusquedaPuzzle.cs:148-161 | the loops compute the key: the cells in row-major order, in decimal, joined by "," |
| BusquedaPuzzle.LlegaEjecuta | 8Puzzle/BusquedaPuzzle.cs:90-96 | with the agent's generator, a plan that reaches a board is one OperacionesPuzzle executes to it |
| BusquedaPuzzle.Abiertos | 8Puzzle/BusquedaPuzzle.cs:86-88 | the successors kept are exactly those whose key is not closed |
| BusquedaPuzzle.AbiertosUltimo | 8Puzzle/BusquedaPuzzle.cs:86-88 | the last successor is either skipped or adds one entry |
| BusquedaPuzzle.ExpansionError | 8Puzzle/BusquedaPuzzle.cs:84-100 | the only exception of the foreach is the heuristic's |
| BusquedaPuzzle.ExpansionSii | 8Puzzle/BusquedaPuzzle.cs:84-100 | the foreach succeeds exactly when the heuristic of every open successor does |
| BusquedaPuzzle.ExpansionHijos | 8Puzzle/BusquedaPuzzle.cs:90-99 | it pushes one child per open successor, in order, duplicates included |
| BusquedaPuzzle.ExpansionCaracterizada | 8Puzzle/BusquedaPuzzle.cs:84-100 | every open successor is pushed in order as a child with g + 1, the plan extended by its action and its heuristic; closed ones are skipped; the only exception is the heuristic's |
| BusquedaPuzzle.ExpansionBien | 8Puzzle/BusquedaPuzzle.cs:84-100 | children of a well-formed node are well formed: G is the plan's length and the plan reaches the board |
| BusquedaPuzzle.ExpandirSucesores | 8Puzzle/BusquedaPuzzle.cs:84-100 | the foreach pushes the nodes ExpansionPuzzle gives, or returns its exception |
| BusquedaPuzzle.ExpansionPaso | 8Puzzle/BusquedaPuzzle.cs:85-99 | one more successor is skipped, throws the heuristic's error, or pushes its child |
| BusquedaPuzzle.ExpansionPrefijoError | 8Puzzle/BusquedaPuzzle.cs:84-100 | once a prefix throws, the foreach throws the same |
| BusquedaPuzzle.EncontrarSolucion | 8Puzzle/BusquedaPuzzle.cs:55-104 | a plan returned is that of a well-formed node whose board is the goal, at cost G; the only exceptions are "no solution" and the heuristic's; a heuristic that fails on the start fails the search; a start equal to the goal gives the empty plan at cost 0 |
| BusquedaPuzzle.SolucionEjecutable | 8Puzzle/BusquedaPuzzle.cs:76-78 | a solution found with the agent's generator is a plan that OperacionesPuzzle executes to the goal, at cost its length |
| Ordenacion.Insertar | BLOQUESONE/AlgoritmoBusqueda.cs:219 | insertion keeps the list sorted and adds exactly one element |
| Ordenacion.OrdenarPorInsercion | BLOQUESONE/AlgoritmoBusqueda.cs:219 | the sort gives a sorted permutation |
| Ordenacion.Ordenar | BLOQUESONE/AlgoritmoBusqueda.cs:219 | List.Sort gives a sorted permutation of its input |
| Ordenacion.OrdenadaUnica | BLOQUESONE/AlgoritmoBusqueda.cs:219-220 | two sorted permutations of the same strings are equal, so the key is canonical |
| Ordenacion.Antisimetrica | BLOQUESONE/AlgoritmoBusqueda.cs:219 | the ordinal order is antisymmetric |
| Ordenacion.Transitiva | BLOQUESONE/AlgoritmoBusqueda.cs:219 | the ordinal order is transitive |
| Ordenacion.Total | BLOQUESONE/AlgoritmoBusqueda.cs:219 | the ordinal order is total |
| Comun.HayMinimo | BLOQUESONE/AlgoritmoBusqueda.cs:68 | a non-empty priority queue holds an element of least priority, the one Dequeue returns; both searches (also 8Puzzle/BusquedaPuzzle.cs:74) use it with F |
| Comun.TrimCaracteriza | BLOQUESONE/Predicados.cs:62-63 | Trim gives the empty string exactly for blank text, and otherwise a string without bordering whitespace |
| Comun.TrimTrasEspacio | BLOQUESONE/Predicados.cs:62-63 | leading whitespace never changes what Trim keeps |
| Comun.TrimSinBordes | BLOQUESONE/Predicados.cs:62-63 | Trim leaves a string without bordering whitespace alone, also after a leading blank |
| Comun.Campos | BLOQUESONE/LectorEstados.cs:115 | Split gives at least one field, and no field holds a separator |
| Comun.UnirCampos | BLOQUESONE/LectorEstados.cs:50-52 | splitting on a character and joining with it gives the string back |
| Comun.CamposDeUnirEn | BLOQUESONE/Predicados.cs:60 | joining separator-free fields with a separator and splitting again gives the fields back |
| Comun.SinVacios | BLOQUESONE/Predicados.cs:60 | RemoveEmptyEntries keeps exactly the non-empty fields |
| Comun.QuitarEspacios | BLOQUESONE/LectorEstados.cs:115 | Replace(" ", "") removes every space and keeps every other character |
| Comun.Minusculas | BLOQUESONE/MundoPuzzle.cs:90 | ToLower keeps the length and lowers each ASCII letter |
| Comun.Envolver32 | BLOQUESONE/Predicados.cs:83-92 | unchecked arithmetic gives the 32-bit value congruent to the exact result, which it keeps when it fits |
| Comun.IntToStringInyectiva | 8Puzzle/BusquedaPuzzle.cs:157 | different integers are written differently |
| Comun.IntToStringForma | 8Puzzle/BusquedaPuzzle.cs:157 | int.ToString writes an optional '-' and digits, never the empty string |
| Comun.ParsearEntero | 8Puzzle/LectorEstadosPuzzle.cs:112-115 | int.Parse gives a 32-bit value, or FormatException, or OverflowException |
| Comun.ParsearEnteroDeTexto | 8Puzzle/LectorEstadosPuzzle.cs:112-115 | int.Parse reads back what int.ToString writes |
| Comun.ParsearBool | BLOQUESONE/LectorEstados.cs:117 | bool.Parse fails only with FormatException |
| Comun.ParsearBoolVerdadero | BLOQUESONE/LectorEstados.cs:117 | "true" reads as true |
| Comun.ParsearBoolFalsoMayuscula | BLOQUESONE/LectorEstados.cs:117 | "False" reads as false: case does not matter |
| Comun.ParsearBoolRechaza | BLOQUESONE/LectorEstados.cs:117 | "yes" is a FormatException |

## Left out

- Reading the configuration files is not modelled: File.ReadAllLines is I/O, and both readers start from the lines.
- The console output is left out as I/O: the catch-and-rethrow that prints a reader's error, Visualizador.cs, VisualizadorPuzzle.cs, and MostrarEstado in MundoReal and MundoPuzzle.
- Program.cs (both) and Agente.GenerarYEjecutarPlan are left out: they are console drivers that read, print and call the modelled operations.
- Exception messages are not modelled, only the exception types.
- Ordenacion.Ordenar: sorts by ordinal (code-point) order, while List<string>.Sort uses the current culture's comparer. The two orders differ: ordinal order puts "clear(B)" before "clear(a)", the culture comparer puts them the other way round, so the model's key text can differ from the source's. Ordenacion.OrdenadaUnica, and with it the canonicity of BusquedaAEstrella.GenerarHashEstado, is proved only for the ordinal order. The culture comparer is not antisymmetric: strings that differ only in ignorable code points such as U+00AD compare equal, and List.Sort is unstable, so the source's key can depend on the dictionary's enumeration order. The model does not capture that.
- Comun.Minusculas: lowers the ASCII letters A-Z only, while string.ToLower depends on the current culture. Under tr-TR, "ARRIBA" lowers to "arrıba" (dotless i), so the source throws ArgumentException where the model moves the blank. The model stands for an invariant or English culture.
- Secciones.EmpiezaSeccion: tests the first character for '[', while StartsWith("[") compares with the current culture and skips ignorable code points. A line "\u200B[Meta]" is a header to the source but not to the model.
- Predicados.CodigoHash: string.GetHashCode is randomised per process, so the string hash is a parameter and no concrete hash value is stated.
- PriorityQueue is modelled as a multiset from which any node of least F is taken. Both searches are proved for every tie-break, not for .NET's particular one.
- BusquedaAEstrella.EncontrarSolucion: the while loop takes at most maxPasos nodes, and running out is the outcome SinTerminar. The source loops until the queue is empty. "No solution" (SinSolucion) is not proved to mean that no plan exists. Optimality of the plan is not stated.
- BusquedaPuzzle.EncontrarSolucion: the same step bound and the same omissions as the blocks-world search.
- BusquedaAEstrella.EncontrarSolucion, BusquedaPuzzle.EncontrarSolucion: G (`current.G + sucesor.Costo`, `parent.G + 1`) and the heuristic counters (`distancia++`, `h++`) are 32-bit `int` in the source and unbounded integers in the model, so their wrap-around is not modelled. It would need a chain of about 2^31 nodes or a board of about 2^31 cells.
- Comun.ParsearEntero, Comun.ParsearBool: int.Parse also accepts trailing '\0' characters and the current culture's NegativeSign (such as U+2212), which the model refuses. bool.Parse compares with OrdinalIgnoreCase, so "falſe" (with U+017F) is false in .NET, while the model lowers ASCII only and throws FormatException.
- Agentes.Agente.Planificar: takes the same maxPasos bound and passes it to BusquedaAEstrella.EncontrarSolucion; the source's Planificar has no such parameter.
- Mundo.SobreMesa: EstadoSobreMesa recurses without bound, so each call spends a unit of fuel and None means the fuel ran out. In the source a cyclic chain overflows the call stack, and the StackOverflowException, which cannot be caught, ends the process. Mundo.CicloNoTermina models that: on a cycle no amount of fuel gives an answer.
- AgentesPuzzle.AgentePuzzle.GenerarSucesores: requires a 3x3 array. The source indexes 0..2 unconditionally, which throws on smaller arrays and reads a corner of larger ones.
- Tableros.MoverInverso: holds only for boards with at most one blank. With two blanks the blank found first can change (Tableros.VariosBlancosNoInvierte).
- BusquedaPuzzle.ClaveInyectiva: holds only for boards of the same shape, because the key does not record the dimensions.
- MundosPuzzle.MundoPuzzle.AplicarAccion: it reuses the move of OperacionesPuzzle after lower-casing the direction; the source repeats the same clone, search, switch and swap.
- The top-level Sucesor class (Sucesores.cs) and Agente.Sucesor are the same record, so the single datatype `Sucesores.Sucesor` models both.
