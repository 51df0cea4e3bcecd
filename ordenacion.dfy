/**
 * Ordinal order on strings and the sort used by the blocks-world state key
 * (List<string>.Sort()). The key only needs the sort to be canonical: any
 * two sorted arrangements of the same strings are equal.
 */
module Ordenacion {

  /** Ordinal comparison: a comes before or equals b, character code by character code. */
  predicate MenorIgual(a: string, b: string)
    decreases |a|
  {
    a == [] || (b != [] && (a[0] < b[0] || (a[0] == b[0] && MenorIgual(a[1..], b[1..]))))
  }

  lemma {:induction false} Reflexiva(a: string)
    ensures MenorIgual(a, a)
    decreases |a|
  {
    if a != [] { Reflexiva(a[1..]); }
  }

  lemma {:induction false} Total(a: string, b: string)
    ensures MenorIgual(a, b) || MenorIgual(b, a)
    decreases |a|
  {
    if a != [] && b != [] && a[0] == b[0] { Total(a[1..], b[1..]); }
  }

  lemma {:induction false} Antisimetrica(a: string, b: string)
    requires MenorIgual(a, b) && MenorIgual(b, a)
    ensures a == b
    decreases |a|
  {
    if a != [] {
      Antisimetrica(a[1..], b[1..]);
      assert a == [a[0]] + a[1..] && b == [b[0]] + b[1..];
    }
  }

  lemma {:induction false} Transitiva(a: string, b: string, c: string)
    requires MenorIgual(a, b) && MenorIgual(b, c)
    ensures MenorIgual(a, c)
    decreases |a|
  {
    if a != [] && a[0] == b[0] && b[0] == c[0] { Transitiva(a[1..], b[1..], c[1..]); }
  }

  predicate Ordenada(s: seq<string>)
  {
    forall i, j :: 0 <= i < j < |s| ==> MenorIgual(s[i], s[j])
  }

  /** Every element of a sorted sequence is at least its head. */
  lemma {:induction false} CabezaMinima(s: seq<string>, y: string)
    requires Ordenada(s) && y in multiset(s)
    ensures MenorIgual(s[0], y)
  {
    var j :| 0 <= j < |s| && s[j] == y;
    if j == 0 { Reflexiva(y); }
  }

  /** Insert x into a sorted sequence, keeping it sorted. */
  function Insertar(s: seq<string>, x: string): (r: seq<string>)
    requires Ordenada(s)
    ensures Ordenada(r)
    ensures multiset(r) == multiset(s) + multiset{x}
  {
    if s == [] then [x]
    else if MenorIgual(x, s[0]) then
      assert forall j :: 0 <= j < |s| ==> MenorIgual(x, s[j]) by {
        forall j | 0 <= j < |s| ensures MenorIgual(x, s[j]) {
          if j > 0 { Transitiva(x, s[0], s[j]); }
        }
      }
      [x] + s
    else
      Total(x, s[0]);
      var resto := Insertar(s[1..], x);
      assert s == [s[0]] + s[1..];
      assert forall j :: 0 <= j < |resto| ==> MenorIgual(s[0], resto[j]) by {
        forall j | 0 <= j < |resto| ensures MenorIgual(s[0], resto[j]) {
          assert resto[j] in multiset(resto);
          if resto[j] != x {
            assert resto[j] in multiset(s[1..]);
            var k :| 0 <= k < |s[1..]| && s[1..][k] == resto[j];
            assert s[k + 1] == resto[j];
          }
        }
      }
      [s[0]] + resto
  }

  /** The sort as a function: insertion of each element in turn into the sorted prefix. */
  function OrdenarPorInsercion(s: seq<string>): (r: seq<string>)
    ensures Ordenada(r)
    ensures multiset(r) == multiset(s)
    decreases |s|
  {
    if s == [] then []
    else
      assert s == s[..|s| - 1] + [s[|s| - 1]];
      Insertar(OrdenarPorInsercion(s[..|s| - 1]), s[|s| - 1])
  }

  /** List<string>.Sort(): a sorted permutation of the input. */
  method Ordenar(s: seq<string>) returns (t: seq<string>)
    ensures Ordenada(t)
    ensures multiset(t) == multiset(s)
  {
    t := [];
    var i := 0;
    while i < |s|
      invariant 0 <= i <= |s|
      invariant Ordenada(t)
      invariant multiset(t) == multiset(s[..i])
    {
      assert s[..i + 1] == s[..i] + [s[i]];
      t := Insertar(t, s[i]);
      i := i + 1;
    }
    assert s[..i] == s;
  }

  /** Two sorted arrangements of the same strings are the same sequence. */
  lemma {:induction false} OrdenadaUnica(a: seq<string>, b: seq<string>)
    requires Ordenada(a) && Ordenada(b)
    requires multiset(a) == multiset(b)
    ensures a == b
    decreases |a|
  {
    assert |a| == |multiset(a)| == |multiset(b)| == |b|;
    if a != [] {
      assert a[0] in multiset(b);
      assert b[0] in multiset(a);
      CabezaMinima(b, a[0]);
      CabezaMinima(a, b[0]);
      Antisimetrica(a[0], b[0]);
      RestoMultiset(a);
      RestoMultiset(b);
      OrdenadaUnica(a[1..], b[1..]);
    }
  }

  lemma {:induction false} RestoMultiset(s: seq<string>)
    requires s != []
    ensures multiset(s[1..]) == multiset(s) - multiset{s[0]}
  {
    assert s == [s[0]] + s[1..];
  }
}
