/**
 * STRIPS ground atoms of the blocks world (class Predicado): a name and an
 * ordered list of arguments, arity-checked for "on" (2) and "clear" (1) and
 * unchecked for every other name; rendering, parsing, equality and hashing.
 */
module Predicados {
  import opened Comun

  /** A name and its arguments, before the constructor's arity check. */
  datatype Atomo = Atomo(nombre: string, argumentos: seq<string>)

  /** The only checks the constructor makes; unknown names take any arity. */
  predicate AridadValida(a: Atomo)
  {
    && (a.nombre == "on" ==> |a.argumentos| == 2)
    && (a.nombre == "clear" ==> |a.argumentos| == 1)
  }

  /** Every Predicado object has passed its constructor. */
  type Predicado = a: Atomo | AridadValida(a) witness Atomo("clear", ["mesa"])

  /** A blocks-world state: Dictionary<Predicado, bool>. Absent atoms read as false. */
  type Estado = map<Predicado, bool>

  const MESA: string := "mesa"

  function On(x: string, y: string): Predicado { Atomo("on", [x, y]) }

  function Clear(x: string): Predicado { Atomo("clear", [x]) }

  /** estado.GetValueOrDefault(p, false). */
  function Vale(e: Estado, p: Predicado): bool
  {
    p in e && e[p]
  }

  /** A Dictionary<Predicado, bool> together with the order in which it enumerates its entries. */
  datatype Diccionario = Diccionario(orden: seq<Predicado>, valores: Estado)

  predicate DiccionarioValido(d: Diccionario)
  {
    && (forall i, j :: 0 <= i < j < |d.orden| ==> d.orden[i] != d.orden[j])
    && (forall k :: k in d.valores ==> k in d.orden)
    && (forall i :: 0 <= i < |d.orden| ==> d.orden[i] in d.valores)
  }

  // ---------------------------------------------------------------------
  // Constructor, ToString, Parse
  // ---------------------------------------------------------------------

  /** new Predicado(nombre, argumentos): ArgumentException on a wrong arity for "on" or "clear". */
  function Crear(nombre: string, argumentos: seq<string>): (r: Result<Predicado, Excepcion>)
    ensures r.Ok? <==> AridadValida(Atomo(nombre, argumentos))
    ensures r.Ok? ==> r.value.nombre == nombre && r.value.argumentos == argumentos
    ensures r.Err? ==> r.error == ArgumentException
  {
    if nombre == "on" && |argumentos| != 2 then Err(ArgumentException)
    else if nombre == "clear" && |argumentos| != 1 then Err(ArgumentException)
    else Ok(Atomo(nombre, argumentos))
  }

  lemma {:induction false} CrearEjemplos()
    ensures Crear("on", ["A"]) == Err(ArgumentException)
    ensures Crear("clear", ["A", "B"]) == Err(ArgumentException)
    ensures Crear("above", []) == Ok(Atomo("above", []))
  {
  }

  /** Nombre + "(" + string.Join(", ", Argumentos) + ")". */
  function ToString(p: Atomo): string
  {
    p.nombre + "(" + Unir(", ", p.argumentos) + ")"
  }

  const SEPARADORES: set<char> := {'(', ',', ')'}

  predicate SinSeparadores(s: string)
  {
    forall i :: 0 <= i < |s| ==> s[i] !in SEPARADORES
  }

  /**
   * Predicado.Parse: split on '(', ',' and ')' dropping empty pieces, the
   * first piece trimmed is the name, the rest trimmed are the arguments.
   * No piece at all makes partes[0] throw.
   */
  function Parse(input: string): (r: Result<Predicado, Excepcion>)
    ensures r.Err? ==> r.error == IndexOutOfRangeException || r.error == ArgumentException
  {
    var partes := Tokens(input, SEPARADORES);
    if |partes| == 0 then Err(IndexOutOfRangeException)
    else Crear(Trim(partes[0]), RecortarTodos(partes[1..]))
  }

  /**
   * Parse fails with IndexOutOfRangeException only on a text made of
   * separators, and what it reads holds no separator.
   */
  lemma {:induction false} ParseCaracteriza(input: string)
    ensures Parse(input).Err? && Parse(input).error == IndexOutOfRangeException ==>
      (forall i :: 0 <= i < |input| ==> input[i] in SEPARADORES)
    ensures Parse(input).Ok? ==> (SinSeparadores(Parse(input).value.nombre) &&
      forall k :: 0 <= k < |Parse(input).value.argumentos| ==> SinSeparadores(Parse(input).value.argumentos[k]))
  {
    var partes := Tokens(input, SEPARADORES);
    if |partes| == 0 {
      SinPiezas(input);
    } else {
      TrimSinSeparadores(partes);
    }
  }

  function RecortarTodos(xs: seq<string>): (r: seq<string>)
    ensures |r| == |xs| && forall k :: 0 <= k < |xs| ==> r[k] == Trim(xs[k])
  {
    seq(|xs|, k requires 0 <= k < |xs| => Trim(xs[k]))
  }

  lemma {:induction false} SinPiezas(input: string)
    ensures Tokens(input, SEPARADORES) == [] ==> forall i :: 0 <= i < |input| ==> input[i] in SEPARADORES
  {
    if i :| 0 <= i < |input| && input[i] !in SEPARADORES {
      CampoConCaracter(input, i, SEPARADORES);
    }
  }

  /** A character that is not a separator ends up in some non-empty field. */
  lemma {:induction false} CampoConCaracter(s: string, i: int, seps: set<char>)
    requires 0 <= i < |s| && s[i] !in seps
    ensures Tokens(s, seps) != []
  {
    CampoNoVacio(s, i, seps);
    var k :| 0 <= k < |Campos(s, seps)| && Campos(s, seps)[k] != [];
    assert Campos(s, seps)[k] in Campos(s, seps);
  }

  lemma {:induction false} CampoNoVacio(s: string, i: int, seps: set<char>)
    requires 0 <= i < |s| && s[i] !in seps
    ensures exists k :: 0 <= k < |Campos(s, seps)| && Campos(s, seps)[k] != []
    decreases |s|
  {
    if i > 0 {
      CampoNoVacio(s[1..], i - 1, seps);
      var k :| 0 <= k < |Campos(s[1..], seps)| && Campos(s[1..], seps)[k] != [];
      if s[0] in seps {
        assert Campos(s, seps)[k + 1] != [];
      } else if k > 0 {
        assert Campos(s, seps)[k] != [];
      } else {
        assert Campos(s, seps)[0] != [];
      }
    } else if s[0] in seps {
    } else {
      assert Campos(s, seps)[0] != [];
    }
  }

  /** Trimming keeps a text free of separators: it only cuts its ends. */
  lemma {:induction false} TrimSinSeparador(s: string)
    requires SinSeparadores(s)
    ensures SinSeparadores(Trim(s))
  {
    var t := TrimStart(s);
    var u := TrimEnd(t);
    forall i | 0 <= i < |u| ensures u[i] !in SEPARADORES {
      assert u[i] == t[i] == s[|s| - |t| + i];
    }
  }

  lemma {:induction false} TrimSinSeparadores(partes: seq<string>)
    requires forall k :: 0 <= k < |partes| ==> SinSeparadores(partes[k])
    ensures forall k :: 0 <= k < |partes| ==> SinSeparadores(Trim(partes[k]))
  {
    forall k | 0 <= k < |partes| ensures SinSeparadores(Trim(partes[k])) {
      TrimSinSeparador(partes[k]);
    }
  }

  // ---------------------------------------------------------------------
  // Parse after ToString
  // ---------------------------------------------------------------------

  /** A name or argument that survives the rendering and the parse unchanged. */
  predicate Limpio(s: string)
  {
    SinBordes(s) && SinSeparadores(s)
  }

  predicate Renderizable(p: Atomo)
  {
    Limpio(p.nombre) && forall k :: 0 <= k < |p.argumentos| ==> Limpio(p.argumentos[k])
  }

  /** The fields of Join(", ", args) split on the separators: the first argument, then each later one after its blank. */
  function ConBlanco(args: seq<string>): (r: seq<string>)
    requires args != []
    ensures |r| == |args| && r[0] == args[0]
    ensures forall k :: 1 <= k < |args| ==> r[k] == " " + args[k]
  {
    [args[0]] + seq(|args| - 1, k requires 0 <= k < |args| - 1 => " " + args[k + 1])
  }

  lemma {:induction false} CamposDeUnir(args: seq<string>)
    requires args != []
    requires forall k :: 0 <= k < |args| ==> SinSeparadores(args[k])
    ensures Campos(Unir(", ", args), SEPARADORES) == ConBlanco(args)
    decreases |args|
  {
    if |args| == 1 {
      CamposSinSeparador(args[0], SEPARADORES);
    } else {
      var resto := args[1..];
      var x := Unir(", ", resto);
      CamposDeUnir(resto);
      assert Unir(", ", args) == args[0] + [','] + (" " + x);
      CamposConcat(args[0], ',', " " + x, SEPARADORES);
      CamposSinSeparador(args[0], SEPARADORES);
      assert (" " + x)[1..] == x;
      var cx := Campos(x, SEPARADORES);
      assert Campos(" " + x, SEPARADORES) == [" " + cx[0]] + cx[1..];
      assert Campos(Unir(", ", args), SEPARADORES) == [args[0]] + ([" " + cx[0]] + cx[1..]);
      assert ConBlanco(args) == [args[0]] + ([" " + cx[0]] + cx[1..]);
    }
  }

  /** The fields of a rendering: the name, the fields of the joined arguments, and the empty text after ')'. */
  lemma {:induction false} CamposDeToString(p: Atomo)
    requires SinSeparadores(p.nombre)
    ensures Campos(ToString(p), SEPARADORES) == [p.nombre] + Campos(Unir(", ", p.argumentos), SEPARADORES) + [""]
  {
    var n := p.nombre;
    var j := Unir(", ", p.argumentos);
    assert ToString(p) == n + ['('] + (j + [')'] + "");
    CamposConcat(n, '(', j + [')'] + "", SEPARADORES);
    CamposConcat(j, ')', "", SEPARADORES);
    CamposSinSeparador(n, SEPARADORES);
  }

  /** The pieces Parse sees in a rendering: the name, then the arguments as ConBlanco lays them out. */
  lemma {:induction false} TokensDeToString(p: Atomo)
    requires Renderizable(p)
    ensures p.argumentos == [] ==> Tokens(ToString(p), SEPARADORES) == [p.nombre]
    ensures p.argumentos != [] ==> Tokens(ToString(p), SEPARADORES) == [p.nombre] + ConBlanco(p.argumentos)
  {
    var n := p.nombre;
    var cj := Campos(Unir(", ", p.argumentos), SEPARADORES);
    CamposDeToString(p);
    SinVaciosConcat([n] + cj, [""]);
    SinVaciosConcat([n], cj);
    if p.argumentos == [] {
      assert Unir(", ", p.argumentos) == "";
    } else {
      CamposDeUnir(p.argumentos);
      SinVaciosNoVacios(ConBlanco(p.argumentos));
    }
  }

  /** Parse reads back what ToString writes, when the pieces carry no separator and no bordering blank. */
  lemma {:induction false} ParseDeToString(p: Predicado)
    requires Renderizable(p)
    ensures Parse(ToString(p)) == Ok(p)
  {
    TokensDeToString(p);
    var partes := Tokens(ToString(p), SEPARADORES);
    TrimSinBordes(p.nombre);
    if p.argumentos == [] {
      assert partes[1..] == [];
    } else {
      assert partes[1..] == ConBlanco(p.argumentos);
      RecortarConBlanco(p.argumentos);
    }
    ParseDePiezas(ToString(p), partes);
  }

  /** Trimming the pieces after the name gives the arguments back. */
  lemma {:induction false} RecortarConBlanco(args: seq<string>)
    requires args != [] && forall k :: 0 <= k < |args| ==> SinBordes(args[k])
    ensures RecortarTodos(ConBlanco(args)) == args
  {
    var c := ConBlanco(args);
    forall k | 0 <= k < |args| ensures Trim(c[k]) == args[k] {
      TrimSinBordes(args[k]);
      if k > 0 {
        assert c[k] == " " + args[k];
      }
    }
    assert RecortarTodos(c) == args;
  }

  lemma {:induction false} ParseDePiezas(input: string, partes: seq<string>)
    requires partes == Tokens(input, SEPARADORES) && partes != []
    ensures Parse(input) == Crear(Trim(partes[0]), RecortarTodos(partes[1..]))
  {
  }

  lemma {:induction false} ToStringEjemplo()
    ensures ToString(On("A", "B")) == "on(A, B)"
  {
    assert Unir(", ", ["A", "B"]) == "A, B";
  }

  lemma {:induction false} ParseEjemplo()
    ensures Parse("on(A, B)") == Ok(On("A", "B"))
  {
    var p := On("A", "B");
    ToStringEjemplo();
    assert Limpio("A") && Limpio("B") && Limpio("on");
    ParseDeToString(p);
  }

  // ---------------------------------------------------------------------
  // Equals and GetHashCode
  // ---------------------------------------------------------------------

  /** Predicado.Equals: same name and Argumentos.SequenceEqual. */
  function Igual(p: Atomo, q: Atomo): (r: bool)
    ensures r <==> p == q
  {
    && p.nombre == q.nombre
    && |p.argumentos| == |q.argumentos|
    && forall k :: 0 <= k < |p.argumentos| ==> p.argumentos[k] == q.argumentos[k]
  }

  /** The loop of GetHashCode over the arguments, in unchecked 32-bit arithmetic. */
  function HashArgumentos(h: int, args: seq<string>, hashCadena: string -> int): int
    decreases |args|
  {
    if args == [] then h else HashArgumentos(Envolver32(h * 23 + hashCadena(args[0])), args[1..], hashCadena)
  }

  /** The value GetHashCode returns for p, given the process's string hash. */
  function Hash(p: Atomo, hashCadena: string -> int): int
  {
    HashArgumentos(Envolver32(17 * 23 + hashCadena(p.nombre)), p.argumentos, hashCadena)
  }

  /**
   * GetHashCode. String hashing is randomised per process, so the string
   * hash is a parameter; the result is a 32-bit value.
   */
  method CodigoHash(p: Atomo, hashCadena: string -> int) returns (hash: int)
    ensures hash == Hash(p, hashCadena)
    ensures EsInt32(hash)
  {
    hash := 17;
    hash := Envolver32(hash * 23 + hashCadena(p.nombre));
    var i := 0;
    while i < |p.argumentos|
      invariant 0 <= i <= |p.argumentos|
      invariant EsInt32(hash)
      invariant HashArgumentos(hash, p.argumentos[i..], hashCadena) == Hash(p, hashCadena)
    {
      assert p.argumentos[i..][1..] == p.argumentos[i + 1..];
      hash := Envolver32(hash * 23 + hashCadena(p.argumentos[i]));
      i := i + 1;
    }
  }

  /** Predicates that are Equal hash alike, whatever the string hash. */
  lemma {:induction false} HashCompatible(p: Atomo, q: Atomo, hashCadena: string -> int)
    requires Igual(p, q)
    ensures Hash(p, hashCadena) == Hash(q, hashCadena)
  {
  }
}
