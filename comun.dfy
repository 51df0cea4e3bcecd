/**
 * Shared vocabulary: the exceptions the .NET code throws, Option/Result
 * wrappers for its error paths, and the string and number helpers of the
 * .NET base library that the core relies on (Trim, Split, Join, Replace,
 * ToLower, int.ToString, int.Parse, bool.Parse, unchecked 32-bit arithmetic).
 */
module Comun {

  datatype Option<+T> = None | Some(value: T)

  datatype Result<+T, +E> = Ok(value: T) | Err(error: E)

  /** The .NET exception types thrown by the core (messages are not modelled). */
  datatype Excepcion =
    | ArgumentException
    | InvalidOperationException
    | InvalidDataException
    | IndexOutOfRangeException
    | ArgumentOutOfRangeException
    | FormatException
    | OverflowException

  // ---------------------------------------------------------------------
  // Whitespace and Trim
  // ---------------------------------------------------------------------

  /** Char.IsWhiteSpace: the Unicode White_Space characters. */
  predicate EsEspacio(c: char)
  {
    || c == ' ' || '\t' <= c <= '\r'
    || c == '\U{0085}' || c == '\U{00A0}' || c == '\U{1680}'
    || '\U{2000}' <= c <= '\U{200A}'
    || c == '\U{2028}' || c == '\U{2029}' || c == '\U{202F}' || c == '\U{205F}'
    || c == '\U{3000}'
  }

  /** string.IsNullOrWhiteSpace (a null string is not modelled). */
  predicate EnBlanco(s: string)
  {
    forall i :: 0 <= i < |s| ==> EsEspacio(s[i])
  }

  /** string.TrimStart(): the longest suffix that does not start with whitespace. */
  function TrimStart(s: string): (r: string)
    ensures |r| <= |s| && r == s[|s| - |r|..]
    ensures forall i :: 0 <= i < |s| - |r| ==> EsEspacio(s[i])
    ensures r == [] || !EsEspacio(r[0])
  {
    if s == [] || !EsEspacio(s[0]) then s else TrimStart(s[1..])
  }

  /** string.TrimEnd(): the longest prefix that does not end with whitespace. */
  function TrimEnd(s: string): (r: string)
    ensures |r| <= |s| && r == s[..|r|]
    ensures forall i :: |r| <= i < |s| ==> EsEspacio(s[i])
    ensures r == [] || !EsEspacio(r[|r| - 1])
  {
    if s == [] || !EsEspacio(s[|s| - 1]) then s else TrimEnd(s[..|s| - 1])
  }

  /** string.Trim(). */
  function Trim(s: string): string
  {
    TrimEnd(TrimStart(s))
  }

  /** A string that Trim leaves alone and that is not empty. */
  predicate SinBordes(s: string)
  {
    s != [] && !EsEspacio(s[0]) && !EsEspacio(s[|s| - 1])
  }

  /** Trim removes exactly the whitespace at both ends. */
  lemma {:induction false} TrimCaracteriza(s: string)
    ensures Trim(s) == [] || SinBordes(Trim(s))
    ensures Trim(s) == [] <==> EnBlanco(s)
  {
    var t := TrimStart(s);
    if Trim(s) != [] {
      assert TrimEnd(t) == t[..|TrimEnd(t)|];
    }
    if Trim(s) == [] {
      assert t == [];
      assert forall i :: 0 <= i < |s| ==> EsEspacio(s[i]);
    }
  }

  lemma {:induction false} TrimStartIdentidad(s: string)
    requires s == [] || !EsEspacio(s[0])
    ensures TrimStart(s) == s
  {
  }

  /** Leading whitespace never changes the result of Trim. */
  lemma {:induction false} TrimTrasEspacio(w: string, s: string)
    requires EnBlanco(w)
    ensures TrimStart(w + s) == TrimStart(s)
    decreases |w|
  {
    if w != [] {
      assert (w + s)[1..] == w[1..] + s;
      TrimTrasEspacio(w[1..], s);
    } else {
      assert w + s == s;
    }
  }

  /** Trim is the identity on a string without bordering whitespace, also after a leading blank. */
  lemma {:induction false} TrimSinBordes(s: string)
    requires SinBordes(s)
    ensures Trim(s) == s
    ensures Trim(" " + s) == s
  {
    TrimTrasEspacio(" ", s);
  }

  // ---------------------------------------------------------------------
  // Split, Join, Replace
  // ---------------------------------------------------------------------

  /** string.Split(separators) with StringSplitOptions.None: every field, empty ones included. */
  function Campos(s: string, seps: set<char>): (r: seq<string>)
    ensures |r| >= 1
    ensures forall k, i :: 0 <= k < |r| && 0 <= i < |r[k]| ==> r[k][i] !in seps
    decreases |s|
  {
    if s == [] then [""]
    else if s[0] in seps then [""] + Campos(s[1..], seps)
    else
      var resto := Campos(s[1..], seps);
      [[s[0]] + resto[0]] + resto[1..]
  }

  /** The non-empty elements of a sequence of strings, in order. */
  function SinVacios(xs: seq<string>): (r: seq<string>)
    ensures |r| <= |xs|
    ensures forall k :: 0 <= k < |r| ==> r[k] != [] && r[k] in xs
    ensures forall x :: x in xs && x != [] ==> x in r
  {
    if xs == [] then []
    else if xs[0] == [] then SinVacios(xs[1..])
    else [xs[0]] + SinVacios(xs[1..])
  }

  /** string.Split(separators, StringSplitOptions.RemoveEmptyEntries). */
  function Tokens(s: string, seps: set<char>): seq<string>
  {
    SinVacios(Campos(s, seps))
  }

  /** string.Join(sep, partes). */
  function Unir(sep: string, partes: seq<string>): string
  {
    if |partes| == 0 then ""
    else if |partes| == 1 then partes[0]
    else partes[0] + sep + Unir(sep, partes[1..])
  }

  lemma {:induction false} UnirCabeza(sep: string, c: char, p: string, ps: seq<string>)
    ensures Unir(sep, [[c] + p] + ps) == [c] + Unir(sep, [p] + ps)
  {
    if ps != [] {
      assert ([[c] + p] + ps)[1..] == ps;
      assert ([p] + ps)[1..] == ps;
    }
  }

  /** Splitting on one character and joining with it again gives back the string. */
  lemma {:induction false} UnirCampos(s: string, c: char)
    ensures Unir([c], Campos(s, {c})) == s
    decreases |s|
  {
    if s != [] {
      UnirCampos(s[1..], c);
      var resto := Campos(s[1..], {c});
      if s[0] == c {
        assert ([""] + resto)[1..] == resto;
      } else {
        UnirCabeza([c], s[0], resto[0], resto[1..]);
        assert [resto[0]] + resto[1..] == resto;
      }
    }
  }

  /** A separator cuts the fields of the two sides apart. */
  lemma {:induction false} CamposConcat(x: string, c: char, y: string, seps: set<char>)
    requires c in seps
    ensures Campos(x + [c] + y, seps) == Campos(x, seps) + Campos(y, seps)
    decreases |x|
  {
    if x == [] {
      assert x + [c] + y == [c] + y;
      assert ([c] + y)[1..] == y;
    } else {
      assert (x + [c] + y)[1..] == x[1..] + [c] + y;
      CamposConcat(x[1..], c, y, seps);
    }
  }

  /** A string without separators is a single field. */
  lemma {:induction false} CamposSinSeparador(x: string, seps: set<char>)
    requires forall i :: 0 <= i < |x| ==> x[i] !in seps
    ensures Campos(x, seps) == [x]
    decreases |x|
  {
    if x != [] {
      CamposSinSeparador(x[1..], seps);
      assert [x[0]] + x[1..] == x;
    }
  }

  /** Joining separator-free fields with one of the separators and splitting again gives the fields back. */
  lemma {:induction false} CamposDeUnirEn(ps: seq<string>, c: char, seps: set<char>)
    requires ps != [] && c in seps
    requires forall k, i :: 0 <= k < |ps| && 0 <= i < |ps[k]| ==> ps[k][i] !in seps
    ensures Campos(Unir([c], ps), seps) == ps
    decreases |ps|
  {
    assert forall i :: 0 <= i < |ps[0]| ==> ps[0][i] !in seps;
    CamposSinSeparador(ps[0], seps);
    if |ps| > 1 {
      var cola := ps[1..];
      forall k, i | 0 <= k < |cola| && 0 <= i < |cola[k]| ensures cola[k][i] !in seps {
        assert cola[k] == ps[k + 1];
      }
      CamposDeUnirEn(cola, c, seps);
      CamposConcat(ps[0], c, Unir([c], ps[1..]), seps);
      assert Unir([c], ps) == ps[0] + [c] + Unir([c], ps[1..]);
      assert ps == [ps[0]] + ps[1..];
    }
  }

  /** Removing empty fields leaves fields that are all non-empty alone. */
  lemma {:induction false} SinVaciosNoVacios(xs: seq<string>)
    requires forall k :: 0 <= k < |xs| ==> xs[k] != []
    ensures SinVacios(xs) == xs
    decreases |xs|
  {
    if xs != [] {
      SinVaciosNoVacios(xs[1..]);
      assert xs == [xs[0]] + xs[1..];
    }
  }

  lemma {:induction false} SinVaciosConcat(xs: seq<string>, ys: seq<string>)
    ensures SinVacios(xs + ys) == SinVacios(xs) + SinVacios(ys)
  {
    if xs != [] {
      assert (xs + ys)[1..] == xs[1..] + ys;
      SinVaciosConcat(xs[1..], ys);
    } else {
      assert xs + ys == ys;
    }
  }

  /** s.Replace(" ", ""): every U+0020 removed. */
  function QuitarEspacios(s: string): (r: string)
    ensures forall i :: 0 <= i < |r| ==> r[i] != ' '
    ensures forall c :: c in s && c != ' ' ==> c in r
    ensures forall c :: c in r ==> c in s
  {
    if s == [] then []
    else if s[0] == ' ' then QuitarEspacios(s[1..])
    else [s[0]] + QuitarEspacios(s[1..])
  }

  // ---------------------------------------------------------------------
  // Letter case
  // ---------------------------------------------------------------------

  function MinusculaAscii(c: char): char
  {
    if 'A' <= c <= 'Z' then (c as int - 'A' as int + 'a' as int) as char else c
  }

  /** string.ToLower(), for the ASCII letters. */
  function Minusculas(s: string): (r: string)
    ensures |r| == |s|
    ensures forall i :: 0 <= i < |s| ==> r[i] == MinusculaAscii(s[i])
  {
    if s == [] then [] else [MinusculaAscii(s[0])] + Minusculas(s[1..])
  }

  // ---------------------------------------------------------------------
  // Sequences without repetitions
  // ---------------------------------------------------------------------

  /** No element occurs twice: the order in which a set or a dictionary is enumerated. */
  predicate Distinta<T(==)>(s: seq<T>)
  {
    forall i, j :: 0 <= i < j < |s| ==> s[i] != s[j]
  }

  /** Taking out position i of a sequence takes one copy of that element out of its multiset. */
  lemma {:induction false} QuitarDelMultiset<T>(b: seq<T>, i: int)
    requires 0 <= i < |b|
    ensures multiset(b) == multiset(b[..i] + b[i + 1..]) + multiset{b[i]}
  {
    assert b == b[..i] + [b[i]] + b[i + 1..];
  }

  /** The image of a sequence under f, element by element. */
  function Mapear<T, U>(f: T -> U, s: seq<T>): (r: seq<U>)
    ensures |r| == |s| && forall i :: 0 <= i < |s| ==> r[i] == f(s[i])
  {
    seq(|s|, i requires 0 <= i < |s| => f(s[i]))
  }

  lemma {:induction false} MapearConcat<T, U>(f: T -> U, u: seq<T>, v: seq<T>)
    ensures Mapear(f, u + v) == Mapear(f, u) + Mapear(f, v)
  {
  }

  /** After removing one copy of x from both sides, equal multisets stay equal. */
  lemma {:induction false} MultisetCancelar<T>(a: seq<T>, b: seq<T>, i: int, j: int)
    requires 0 <= i < |a| && 0 <= j < |b| && a[i] == b[j]
    requires multiset(a) == multiset(b)
    ensures multiset(a[..i] + a[i + 1..]) == multiset(b[..j] + b[j + 1..])
  {
    QuitarDelMultiset(a, i);
    QuitarDelMultiset(b, j);
    var ma, mb := multiset(a[..i] + a[i + 1..]), multiset(b[..j] + b[j + 1..]);
    forall y ensures ma[y] == mb[y] {
      assert (ma + multiset{a[i]})[y] == (mb + multiset{a[i]})[y];
    }
  }

  /** Taking out position j before or after mapping takes out the same element. */
  lemma {:induction false} MapearQuitar<T, U>(f: T -> U, b: seq<T>, j: int)
    requires 0 <= j < |b|
    ensures multiset(Mapear(f, b)) == multiset(Mapear(f, b[..j] + b[j + 1..])) + multiset{f(b[j])}
  {
    var m := Mapear(f, b);
    QuitarDelMultiset(m, j);
    assert m[..j] + m[j + 1..] == Mapear(f, b[..j] + b[j + 1..]);
  }

  lemma {:induction false} MapearCabeza<T, U>(f: T -> U, a: seq<T>)
    requires a != []
    ensures multiset(Mapear(f, a)) == multiset(Mapear(f, a[1..])) + multiset{f(a[0])}
  {
    assert Mapear(f, a) == [f(a[0])] + Mapear(f, a[1..]);
  }

  /** The images of two permutations of each other are permutations of each other. */
  lemma {:induction false} MultisetMapear<T, U>(f: T -> U, a: seq<T>, b: seq<T>)
    requires multiset(a) == multiset(b)
    ensures multiset(Mapear(f, a)) == multiset(Mapear(f, b))
    decreases |a|
  {
    if a == [] {
      assert |b| == |multiset(b)| == 0;
    } else {
      assert a[0] in multiset(b);
      var j :| 0 <= j < |b| && b[j] == a[0];
      MultisetCancelar(a, b, 0, j);
      assert a[..0] + a[1..] == a[1..];
      MultisetMapear(f, a[1..], b[..j] + b[j + 1..]);
      MapearCabeza(f, a);
      MapearQuitar(f, b, j);
    }
  }

  /** In a sequence without repetitions every element occurs exactly once. */
  lemma {:induction false} MultiplicidadDistinta<T>(a: seq<T>, y: T)
    requires Distinta(a)
    ensures multiset(a)[y] == if y in a then 1 else 0
    decreases |a|
  {
    if a != [] {
      assert a == [a[0]] + a[1..];
      assert Distinta(a[1..]) by {
        forall i, j | 0 <= i < j < |a[1..]| ensures a[1..][i] != a[1..][j] {
          assert a[1..][i] == a[i + 1] && a[1..][j] == a[j + 1];
        }
      }
      assert a[0] !in a[1..] by {
        forall j | 0 <= j < |a[1..]| ensures a[1..][j] != a[0] {
          assert a[1..][j] == a[j + 1];
        }
      }
      MultiplicidadDistinta(a[1..], y);
    }
  }

  /** Two enumerations of the same elements, each without repetitions, are permutations of each other. */
  lemma {:induction false} MultisetDistintas<T>(a: seq<T>, b: seq<T>)
    requires Distinta(a) && Distinta(b)
    requires forall x :: x in a <==> x in b
    ensures multiset(a) == multiset(b)
  {
    forall y ensures multiset(a)[y] == multiset(b)[y] {
      MultiplicidadDistinta(a, y);
      MultiplicidadDistinta(b, y);
    }
  }

  // ---------------------------------------------------------------------
  // Integers
  // ---------------------------------------------------------------------

  const INT32_MIN: int := -0x8000_0000
  const INT32_MAX: int := 0x7FFF_FFFF

  predicate EsInt32(x: int) { INT32_MIN <= x <= INT32_MAX }

  /** Unchecked C# int arithmetic: the two's-complement wrap of an exact result. */
  function Envolver32(x: int): (r: int)
    ensures EsInt32(r)
    ensures (r - x) % 0x1_0000_0000 == 0
    ensures EsInt32(x) ==> r == x
  {
    (x - INT32_MIN) % 0x1_0000_0000 + INT32_MIN
  }

  predicate EsDigito(c: char) { '0' <= c <= '9' }

  function Digito(d: int): (c: char)
    requires 0 <= d < 10
    ensures EsDigito(c) && c as int - '0' as int == d
  {
    ('0' as int + d) as char
  }

  /** The decimal digits of a natural number, without leading zeros. */
  function Decimal(n: nat): (r: string)
    ensures r != [] && forall i :: 0 <= i < |r| ==> EsDigito(r[i])
  {
    if n < 10 then [Digito(n)] else Decimal(n / 10) + [Digito(n % 10)]
  }

  /** int.ToString() under the invariant culture. */
  function IntToString(n: int): string
  {
    if n < 0 then "-" + Decimal(-n) else Decimal(n)
  }

  /** int.ToString() writes an optional minus sign and decimal digits, never the empty string. */
  lemma {:induction false} IntToStringForma(n: int)
    ensures IntToString(n) != []
    ensures forall i :: 0 <= i < |IntToString(n)| ==> EsDigito(IntToString(n)[i]) || IntToString(n)[i] == '-'
  {
  }

  /** Different integers are written differently. */
  lemma {:induction false} IntToStringInyectiva(a: int, b: int)
    requires IntToString(a) == IntToString(b)
    ensures a == b
  {
    var ma: nat := if a < 0 then -a else a;
    var mb: nat := if b < 0 then -b else b;
    ValorDecimalDe(ma);
    ValorDecimalDe(mb);
    var sa := IntToString(a);
    assert EsDigito(Decimal(ma)[0]) && EsDigito(Decimal(mb)[0]);
    if a < 0 && b < 0 {
      assert Decimal(ma) == sa[1..] == Decimal(mb);
    }
  }

  /** The value of a string of decimal digits. */
  function ValorDecimal(ds: string): (v: int)
    requires forall i :: 0 <= i < |ds| ==> EsDigito(ds[i])
    ensures v >= 0
  {
    if ds == [] then 0
    else
      assert EsDigito(ds[|ds| - 1]);
      10 * ValorDecimal(ds[..|ds| - 1]) + (ds[|ds| - 1] as int - '0' as int)
  }

  lemma {:induction false} ValorDecimalDe(n: nat)
    ensures ValorDecimal(Decimal(n)) == n
  {
    if n >= 10 {
      var ds := Decimal(n);
      assert ds[..|ds| - 1] == Decimal(n / 10);
      ValorDecimalDe(n / 10);
    }
  }

  /** The white space that NumberStyles.Integer allows around a number. */
  predicate EspacioNumerico(c: char) { c == ' ' || '\t' <= c <= '\r' }

  function RecortarNumerico(s: string): (r: string)
    ensures r == [] || (!EspacioNumerico(r[0]) && !EspacioNumerico(r[|r| - 1]))
    decreases |s|
  {
    if s != [] && EspacioNumerico(s[0]) then RecortarNumerico(s[1..])
    else if s != [] && EspacioNumerico(s[|s| - 1]) then RecortarNumerico(s[..|s| - 1])
    else s
  }

  /**
   * int.Parse(s): optional surrounding white space, an optional sign and at
   * least one decimal digit; FormatException otherwise, OverflowException
   * outside the 32-bit range.
   */
  function ParsearEntero(s: string): (r: Result<int, Excepcion>)
    ensures r.Ok? ==> EsInt32(r.value)
    ensures r.Err? ==> r.error == FormatException || r.error == OverflowException
  {
    var t := RecortarNumerico(s);
    var negativo := t != [] && t[0] == '-';
    var ds := if t != [] && (t[0] == '-' || t[0] == '+') then t[1..] else t;
    if ds == [] || exists i :: 0 <= i < |ds| && !EsDigito(ds[i]) then Err(FormatException)
    else
      var v: int := if negativo then -ValorDecimal(ds) else ValorDecimal(ds);
      if EsInt32(v) then Ok(v) else Err(OverflowException)
  }

  lemma {:induction false} RecortarNumericoIdentidad(s: string)
    requires s != [] && !EspacioNumerico(s[0]) && !EspacioNumerico(s[|s| - 1])
    ensures RecortarNumerico(s) == s
  {
  }

  /** What int.Parse makes of a text that has no surrounding white space and is a sign or digit followed by digits. */
  lemma {:induction false} ParsearEnteroSinEspacios(s: string, ds: string, negativo: bool)
    requires s != [] && !EspacioNumerico(s[0]) && !EspacioNumerico(s[|s| - 1])
    requires negativo <==> s[0] == '-'
    requires ds == (if s[0] == '-' || s[0] == '+' then s[1..] else s)
    requires ds != [] && forall i :: 0 <= i < |ds| ==> EsDigito(ds[i])
    ensures var v := if negativo then -ValorDecimal(ds) else ValorDecimal(ds);
      ParsearEntero(s) == if EsInt32(v) then Ok(v) else Err(OverflowException)
  {
    RecortarNumericoIdentidad(s);
  }

  /** An optional minus sign and decimal digits read as their value, when it fits in 32 bits. */
  lemma {:induction false} ParsearEnteroDigitos(d: string, negativo: bool)
    requires d != [] && forall i :: 0 <= i < |d| ==> EsDigito(d[i])
    requires EsInt32(if negativo then -ValorDecimal(d) else ValorDecimal(d))
    ensures ParsearEntero(if negativo then "-" + d else d) == Ok(if negativo then -ValorDecimal(d) else ValorDecimal(d))
  {
    var s := if negativo then "-" + d else d;
    assert EsDigito(d[0]) && EsDigito(d[|d| - 1]);
    if negativo {
      assert s[0] == '-' && s[1..] == d;
      assert s[|s| - 1] == d[|d| - 1];
    } else {
      assert s == d;
    }
    ParsearEnteroSinEspacios(s, d, negativo);
  }

  /** The integer parser reads back what int.ToString writes. */
  lemma {:induction false} ParsearEnteroDeTexto(n: int)
    requires EsInt32(n)
    ensures ParsearEntero(IntToString(n)) == Ok(n)
  {
    var m: nat := if n < 0 then -n else n;
    ValorDecimalDe(m);
    ParsearEnteroDigitos(Decimal(m), n < 0);
  }

  /** bool.Parse(s): "true" or "false" in any ASCII case, trimmed of white space and NUL characters. */
  function ParsearBool(s: string): (r: Result<bool, Excepcion>)
    ensures r.Err? ==> r.error == FormatException
  {
    var t := Minusculas(RecortarBoolCaracteres(s));
    if t == "true" then Ok(true) else if t == "false" then Ok(false) else Err(FormatException)
  }

  predicate EspacioONulo(c: char) { EsEspacio(c) || c == '\0' }

  function RecortarBoolCaracteres(s: string): string
    decreases |s|
  {
    if s != [] && EspacioONulo(s[0]) then RecortarBoolCaracteres(s[1..])
    else if s != [] && EspacioONulo(s[|s| - 1]) then RecortarBoolCaracteres(s[..|s| - 1])
    else s
  }

  /** "true" reads as true. */
  lemma {:induction false} ParsearBoolVerdadero()
    ensures ParsearBool("true") == Ok(true)
  {
    assert RecortarBoolCaracteres("true") == "true";
  }

  /** The case of the letters does not matter: "False" reads as false. */
  lemma {:induction false} ParsearBoolFalsoMayuscula()
    ensures ParsearBool("False") == Ok(false)
  {
    var s := "False";
    assert RecortarBoolCaracteres(s) == s;
    assert Minusculas(s) == "false";
  }

  /** Any other word is a FormatException. */
  lemma {:induction false} ParsearBoolRechaza()
    ensures ParsearBool("yes") == Err(FormatException)
  {
    assert RecortarBoolCaracteres("yes") == "yes";
    assert Minusculas("yes")[0] == 'y';
  }

  /** n has the least priority in the queue. */
  ghost predicate EsMinimo<T>(n: T, abiertos: multiset<T>, prioridad: T -> int)
  {
    n in abiertos && forall m :: m in abiertos ==> prioridad(n) <= prioridad(m)
  }

  /**
   * A non-empty priority queue holds an element of least priority, which is
   * what Dequeue takes; both searches use it with F as the priority.
   */
  lemma {:induction false} HayMinimo<T>(abiertos: multiset<T>, prioridad: T -> int)
    requires |abiertos| > 0
    ensures exists n :: EsMinimo(n, abiertos, prioridad)
    decreases |abiertos|
  {
    var x :| x in abiertos;
    var resto := abiertos - multiset{x};
    if |resto| == 0 {
      assert abiertos == multiset{x};
      assert EsMinimo(x, abiertos, prioridad);
    } else {
      HayMinimo(resto, prioridad);
      var y :| EsMinimo(y, resto, prioridad);
      var n := if prioridad(x) < prioridad(y) then x else y;
      forall m | m in abiertos ensures prioridad(n) <= prioridad(m) {
        if m != x { assert m in resto; }
      }
      assert EsMinimo(n, abiertos, prioridad);
    }
  }
}
