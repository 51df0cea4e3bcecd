/**
 * The section reader shared by the two configuration readers. Blank lines
 * are dropped first; a section is then the trimmed, non-empty lines that
 * follow its header line ("[Bloques]", "[EstadoInicial]", ...) up to the
 * next line that starts with '['.
 */
module Secciones {
  import opened Comun

  /** lineas.Where(l => !string.IsNullOrWhiteSpace(l)): the lines that are not blank, in order. */
  function SinLineasEnBlanco(lineas: seq<string>): (r: seq<string>)
    ensures |r| <= |lineas|
    ensures forall k :: 0 <= k < |r| ==> !EnBlanco(r[k])
    ensures forall l :: l in r <==> l in lineas && !EnBlanco(l)
  {
    if lineas == [] then []
    else if EnBlanco(lineas[0]) then SinLineasEnBlanco(lineas[1..])
    else [lineas[0]] + SinLineasEnBlanco(lineas[1..])
  }

  /** The filter keeps the order of the file: it distributes over concatenation. */
  lemma {:induction false} SinLineasConcat(a: seq<string>, b: seq<string>)
    ensures SinLineasEnBlanco(a + b) == SinLineasEnBlanco(a) + SinLineasEnBlanco(b)
    decreases |a|
  {
    if a == [] {
      assert a + b == b;
    } else {
      assert (a + b)[0] == a[0];
      assert (a + b)[1..] == a[1..] + b;
      SinLineasConcat(a[1..], b);
    }
  }

  /** lineaTrim.StartsWith("["). */
  predicate EmpiezaSeccion(t: string)
  {
    t != [] && t[0] == '['
  }

  /** A trimmed line that ends the section being read: another header. */
  predicate Corta(t: string, seccion: string)
  {
    t != seccion && EmpiezaSeccion(t)
  }

  /** A trimmed line that the reader adds to the section. */
  predicate Recogida(t: string, seccion: string)
  {
    SinBordes(t) && t != seccion && !EmpiezaSeccion(t)
  }

  /**
   * What the reader collects once it is inside the section, over the
   * trimmed lines ts: a repeated header is skipped, a line starting with '['
   * stops the reading, an empty line is skipped and any other is added.
   */
  function Tramo(ts: seq<string>, seccion: string): (r: seq<string>)
    ensures |r| <= |ts|
  {
    if ts == [] then []
    else if ts[0] == seccion then Tramo(ts[1..], seccion)
    else if EmpiezaSeccion(ts[0]) then []
    else if ts[0] == "" then Tramo(ts[1..], seccion)
    else [ts[0]] + Tramo(ts[1..], seccion)
  }

  /** What the reader collects before it has seen the header: nothing, until the header. */
  function AntesDeSeccion(ts: seq<string>, seccion: string): (r: seq<string>)
    ensures |r| <= |ts|
  {
    if ts == [] then []
    else if ts[0] == seccion then Tramo(ts[1..], seccion)
    else AntesDeSeccion(ts[1..], seccion)
  }

  /** The section over the trimmed lines: the collected ones, or InvalidDataException when there are none. */
  function SeccionDe(ts: seq<string>, seccion: string): (r: Result<seq<string>, Excepcion>)
    ensures r.Err? <==> AntesDeSeccion(ts, seccion) == []
    ensures r.Err? ==> r.error == InvalidDataException
    ensures r.Ok? ==> r.value != []
  {
    var resultado := AntesDeSeccion(ts, seccion);
    if resultado == [] then Err(InvalidDataException) else Ok(resultado)
  }

  /** LeerSeccion: every line is trimmed, then read as above. */
  function Seccion(lineas: seq<string>, seccion: string): Result<seq<string>, Excepcion>
  {
    SeccionDe(Mapear(Trim, lineas), seccion)
  }

  /** A trimmed line: empty, or without whitespace at either end. */
  predicate Recortada(t: string)
  {
    t == [] || SinBordes(t)
  }

  lemma {:induction false} TramoRecogidas(ts: seq<string>, seccion: string)
    requires forall k :: 0 <= k < |ts| ==> Recortada(ts[k])
    ensures forall k :: 0 <= k < |Tramo(ts, seccion)| ==> Recogida(Tramo(ts, seccion)[k], seccion)
    decreases |ts|
  {
    if ts != [] {
      TramoRecogidas(ts[1..], seccion);
    }
  }

  lemma {:induction false} AntesDeSeccionRecogidas(ts: seq<string>, seccion: string)
    requires forall k :: 0 <= k < |ts| ==> Recortada(ts[k])
    ensures forall k :: 0 <= k < |AntesDeSeccion(ts, seccion)| ==> Recogida(AntesDeSeccion(ts, seccion)[k], seccion)
    decreases |ts|
  {
    if ts != [] {
      if ts[0] == seccion {
        TramoRecogidas(ts[1..], seccion);
      } else {
        AntesDeSeccionRecogidas(ts[1..], seccion);
      }
    }
  }

  /** Every line of a section read successfully is trimmed, not empty, not the header and does not start with '['. */
  lemma {:induction false} SeccionRecogidas(lineas: seq<string>, seccion: string)
    requires Seccion(lineas, seccion).Ok?
    ensures forall k :: 0 <= k < |Seccion(lineas, seccion).value| ==> Recogida(Seccion(lineas, seccion).value[k], seccion)
  {
    var ts := Mapear(Trim, lineas);
    forall k | 0 <= k < |ts| ensures Recortada(ts[k]) {
      TrimCaracteriza(lineas[k]);
    }
    AntesDeSeccionRecogidas(ts, seccion);
  }

  /** Reference definition: every trimmed line that is neither empty nor the header, with no stopping. */
  function Recortadas(ts: seq<string>, seccion: string): seq<string>
  {
    if ts == [] then []
    else (if ts[0] == "" || ts[0] == seccion then [] else [ts[0]]) + Recortadas(ts[1..], seccion)
  }

  /** Inside the section the reader collects exactly the lines before the first other header. */
  lemma {:induction false} TramoHastaCorte(ts: seq<string>, seccion: string, e: int)
    requires 0 <= e <= |ts|
    requires forall j :: 0 <= j < e ==> !Corta(ts[j], seccion)
    requires e < |ts| ==> Corta(ts[e], seccion)
    ensures Tramo(ts, seccion) == Recortadas(ts[..e], seccion)
    decreases e
  {
    if e == 0 {
      assert ts[..e] == [];
    } else {
      assert ts[1..][..e - 1] == ts[..e][1..];
      assert ts[..e][0] == ts[0];
      TramoHastaCorte(ts[1..], seccion, e - 1);
    }
  }

  /** The first header line decides where the section starts. */
  lemma {:induction false} CuerpoTrasCabecera(ts: seq<string>, seccion: string, k: int)
    requires 0 <= k < |ts| && ts[k] == seccion
    requires forall j :: 0 <= j < k ==> ts[j] != seccion
    ensures AntesDeSeccion(ts, seccion) == Tramo(ts[k + 1..], seccion)
    decreases k
  {
    if k > 0 {
      assert ts[1..][k..] == ts[k + 1..];
      CuerpoTrasCabecera(ts[1..], seccion, k - 1);
    }
  }

  /** Lines without the header give an empty section, which is an error. */
  lemma {:induction false} SinCabecera(ts: seq<string>, seccion: string)
    requires forall j :: 0 <= j < |ts| ==> ts[j] != seccion
    ensures AntesDeSeccion(ts, seccion) == []
    ensures SeccionDe(ts, seccion) == Err(InvalidDataException)
    decreases |ts|
  {
    if ts != [] {
      SinCabecera(ts[1..], seccion);
    }
  }

  /**
   * The whole reader over the trimmed lines: with k the first header line
   * and e the first later line that starts another section (or the end),
   * the section is the non-empty lines strictly between them, header
   * repeats left out; there being none is an error.
   */
  lemma {:induction false} SeccionDelimitada(ts: seq<string>, seccion: string, k: int, e: int)
    requires 0 <= k < e <= |ts|
    requires ts[k] == seccion
    requires forall j :: 0 <= j < k ==> ts[j] != seccion
    requires forall j :: k < j < e ==> !Corta(ts[j], seccion)
    requires e < |ts| ==> Corta(ts[e], seccion)
    ensures var cuerpo := Recortadas(ts[k + 1..e], seccion);
      SeccionDe(ts, seccion) == if cuerpo == [] then Err(InvalidDataException) else Ok(cuerpo)
  {
    CuerpoTrasCabecera(ts, seccion, k);
    TramoHastaCorte(ts[k + 1..], seccion, e - k - 1);
    assert ts[k + 1..][..e - k - 1] == ts[k + 1..e];
  }

  /** One line of the pass, both before and inside the section. */
  lemma {:induction false} UnPaso(ts: seq<string>, seccion: string, i: int)
    requires 0 <= i < |ts|
    ensures Tramo(ts[i..], seccion) ==
      if ts[i] == seccion then Tramo(ts[i + 1..], seccion)
      else if EmpiezaSeccion(ts[i]) then []
      else if ts[i] == "" then Tramo(ts[i + 1..], seccion)
      else [ts[i]] + Tramo(ts[i + 1..], seccion)
    ensures AntesDeSeccion(ts[i..], seccion) ==
      if ts[i] == seccion then Tramo(ts[i + 1..], seccion) else AntesDeSeccion(ts[i + 1..], seccion)
  {
    assert ts[i..][0] == ts[i] && ts[i..][1..] == ts[i + 1..];
  }

  /**
   * LeerSeccion: one pass over the lines with the enSeccion flag; the
   * header sets it, another line starting with '[' ends the pass.
   */
  method LeerSeccion(lineas: seq<string>, seccion: string) returns (r: Result<seq<string>, Excepcion>)
    ensures r == Seccion(lineas, seccion)
  {
    var ts := Mapear(Trim, lineas);
    var resultado: seq<string> := [];
    var enSeccion := false;
    var i := 0;
    while i < |lineas|
      invariant 0 <= i <= |lineas|
      invariant !enSeccion ==> resultado == [] && AntesDeSeccion(ts[i..], seccion) == AntesDeSeccion(ts, seccion)
      invariant enSeccion ==> resultado + Tramo(ts[i..], seccion) == AntesDeSeccion(ts, seccion)
    {
      var lineaTrim := ts[i];
      UnPaso(ts, seccion, i);
      if lineaTrim == seccion {
        enSeccion := true;
        i := i + 1;
        continue;
      }
      if enSeccion {
        if |lineaTrim| > 0 && lineaTrim[0] == '[' {
          break;
        }
        if lineaTrim != "" {
          resultado := resultado + [lineaTrim];
        }
      }
      i := i + 1;
    }
    assert resultado == AntesDeSeccion(ts, seccion);
    if |resultado| == 0 {
      return Err(InvalidDataException);
    }
    return Ok(resultado);
  }
}
