/**
 * The blocks-world configuration reader (class LectorEstados): the file's
 * non-blank lines are split into the sections [Bloques], [EstadoInicial]
 * and [EstadoObjetivo]; the first line of [Bloques] is a comma-separated
 * list of block names and every line of a state section is
 * "predicado=valor". Reading the file itself is not modelled: the reader
 * starts from its lines.
 */
module LectoresBloques {
  import opened Comun
  import opened Predicados
  import opened Secciones

  // ---------------------------------------------------------------------
  // One state line
  // ---------------------------------------------------------------------

  /**
   * One line of a state section: every space removed, split on '=', the
   * first field parsed as a predicate and the second as a bool; a line
   * without '=' has no second field.
   */
  function ParsearLinea(linea: string): (r: Result<(Predicado, bool), Excepcion>)
    ensures r.Err? ==> r.error == IndexOutOfRangeException || r.error == ArgumentException || r.error == FormatException
  {
    var partes := Campos(QuitarEspacios(linea), {'='});
    match Parse(partes[0])
    case Err(e) => Err(e)
    case Ok(p) =>
      if |partes| < 2 then Err(IndexOutOfRangeException)
      else
        match ParsearBool(partes[1])
        case Err(e) => Err(e)
        case Ok(v) => Ok((p, v))
  }

  lemma {:induction false} QuitarEspaciosIdentidad(s: string)
    requires forall i :: 0 <= i < |s| ==> s[i] != ' '
    ensures QuitarEspacios(s) == s
    decreases |s|
  {
    if s != [] {
      QuitarEspaciosIdentidad(s[1..]);
      assert s == [s[0]] + s[1..];
    }
  }

  /** The fields of such a line are the two texts. */
  lemma {:induction false} CamposDeLinea(texto: string, valor: string)
    requires forall i :: 0 <= i < |texto| ==> texto[i] != ' ' && texto[i] != '='
    requires forall i :: 0 <= i < |valor| ==> valor[i] != ' ' && valor[i] != '='
    ensures Campos(QuitarEspacios(texto + "=" + valor), {'='}) == [texto, valor]
  {
    var linea := texto + "=" + valor;
    forall i | 0 <= i < |linea| ensures linea[i] != ' ' {
      if i > |texto| {
        assert linea[i] == valor[i - |texto| - 1];
      }
    }
    QuitarEspaciosIdentidad(linea);
    CamposConcat(texto, '=', valor, {'='});
    CamposSinSeparador(texto, {'='});
    CamposSinSeparador(valor, {'='});
  }

  /**
   * A line written as the predicate's text, '=' and a bool's text reads
   * back as that predicate and value, when neither side holds a space or
   * an '='.
   */
  lemma {:induction false} ParsearLineaDeTexto(texto: string, p: Predicado, valor: string, v: bool)
    requires forall i :: 0 <= i < |texto| ==> texto[i] != ' ' && texto[i] != '='
    requires forall i :: 0 <= i < |valor| ==> valor[i] != ' ' && valor[i] != '='
    requires Parse(texto) == Ok(p) && ParsearBool(valor) == Ok(v)
    ensures ParsearLinea(texto + "=" + valor) == Ok((p, v))
  {
    CamposDeLinea(texto, valor);
  }

  /** A line without '=' is refused, whatever it names. */
  lemma {:induction false} SinIgualNoSeLee(linea: string)
    requires forall i :: 0 <= i < |linea| ==> linea[i] != '='
    ensures ParsearLinea(linea).Err?
  {
    var s := QuitarEspacios(linea);
    forall i | 0 <= i < |s| ensures s[i] != '=' {
      assert s[i] in s;
    }
    CamposSinSeparador(s, {'='});
  }

  // ---------------------------------------------------------------------
  // ParsearEstado
  // ---------------------------------------------------------------------

  /** A parsed line: its predicate and value, or the exception it raised. */
  type LineaLeida = Result<(Predicado, bool), Excepcion>

  /**
   * The dictionary built from the parsed lines in order: the first line
   * that failed, or the first predicate already present (Dictionary.Add),
   * ends it with an error.
   */
  function Agregar(rs: seq<LineaLeida>): (r: Result<Diccionario, Excepcion>)
    ensures r.Ok? ==> |r.value.orden| == |rs|
  {
    if rs == [] then Ok(Diccionario([], map[]))
    else
      var n := |rs| - 1;
      match Agregar(rs[..n])
      case Err(e) => Err(e)
      case Ok(d) =>
        match rs[n]
        case Err(e) => Err(e)
        case Ok((p, v)) =>
          if p in d.valores then Err(ArgumentException)
          else Ok(Diccionario(d.orden + [p], d.valores[p := v]))
  }

  /** The error of the dictionary is a duplicate's ArgumentException or the error of one of the lines. */
  lemma {:induction false} AgregarError(rs: seq<LineaLeida>)
    requires Agregar(rs).Err?
    ensures Agregar(rs).error == ArgumentException || exists k :: 0 <= k < |rs| && rs[k] == Err(Agregar(rs).error)
    decreases |rs|
  {
    var n := |rs| - 1;
    var pre := rs[..n];
    if Agregar(pre).Err? {
      AgregarError(pre);
      if Agregar(pre).error != ArgumentException {
        var k :| 0 <= k < n && pre[k] == Err(Agregar(pre).error);
        assert rs[k] == pre[k];
      }
    } else if rs[n].Err? {
      assert rs[n] == Err(Agregar(rs).error);
    }
  }

  /** ParsearEstado: every line parsed, in order, into the dictionary. */
  function EstadoDe(lineas: seq<string>): (r: Result<Diccionario, Excepcion>)
    ensures r.Ok? ==> |r.value.orden| == |lineas|
  {
    Agregar(Leidas(lineas))
  }

  /** The exceptions ParsearEstado can throw: a missing field, a bad predicate or bool, a duplicate. */
  lemma {:induction false} EstadoDeErrores(lineas: seq<string>)
    requires EstadoDe(lineas).Err?
    ensures EstadoDe(lineas).error in {IndexOutOfRangeException, ArgumentException, FormatException}
  {
    AgregarError(Leidas(lineas));
  }

  /** Every line parsed on its own. */
  function Leidas(lineas: seq<string>): (rs: seq<LineaLeida>)
    ensures |rs| == |lineas| && forall i :: 0 <= i < |lineas| ==> rs[i] == ParsearLinea(lineas[i])
  {
    if lineas == [] then [] else [ParsearLinea(lineas[0])] + Leidas(lineas[1..])
  }

  /** One more line, given the dictionary of the lines before it. */
  lemma {:induction false} AgregarPaso(rs: seq<LineaLeida>, i: int, d: Diccionario)
    requires 0 <= i < |rs| && Agregar(rs[..i]) == Ok(d)
    ensures rs[i].Err? ==> Agregar(rs[..i + 1]) == Err(rs[i].error)
    ensures rs[i].Ok? && rs[i].value.0 in d.valores ==> Agregar(rs[..i + 1]) == Err(ArgumentException)
    ensures rs[i].Ok? && rs[i].value.0 !in d.valores ==>
      Agregar(rs[..i + 1]) == Ok(Diccionario(d.orden + [rs[i].value.0], d.valores[rs[i].value.0 := rs[i].value.1]))
  {
    assert rs[..i + 1][..i] == rs[..i];
  }

  /** Dictionary.Add of a new key keeps the dictionary valid and every earlier entry. */
  lemma {:induction false} InsertarValido(d: Diccionario, p: Predicado, v: bool)
    requires DiccionarioValido(d) && p !in d.valores
    ensures var nuevo := Diccionario(d.orden + [p], d.valores[p := v]);
      && DiccionarioValido(nuevo)
      && nuevo.orden[|d.orden|] == p && nuevo.valores[p] == v
      && forall i :: 0 <= i < |d.orden| ==> nuevo.orden[i] == d.orden[i] && nuevo.valores[d.orden[i]] == d.valores[d.orden[i]]
  {
    var nuevo := Diccionario(d.orden + [p], d.valores[p := v]);
    assert forall i :: 0 <= i < |d.orden| ==> nuevo.orden[i] == d.orden[i];
  }

  /** The last line of a section that parses adds a new predicate to the dictionary of the earlier lines. */
  lemma {:induction false} AgregarUltimo(rs: seq<LineaLeida>)
    requires rs != [] && Agregar(rs).Ok?
    ensures var n := |rs| - 1;
      && Agregar(rs[..n]).Ok? && rs[n].Ok? && rs[n].value.0 !in Agregar(rs[..n]).value.valores
      && Agregar(rs).value == Diccionario(Agregar(rs[..n]).value.orden + [rs[n].value.0], Agregar(rs[..n]).value.valores[rs[n].value.0 := rs[n].value.1])
  {
  }

  /** The dictionary built from the lines is valid. */
  lemma {:induction false} AgregarValido(rs: seq<LineaLeida>)
    requires Agregar(rs).Ok?
    ensures DiccionarioValido(Agregar(rs).value)
    decreases |rs|
  {
    if rs != [] {
      var n := |rs| - 1;
      AgregarUltimo(rs);
      AgregarValido(rs[..n]);
      InsertarValido(Agregar(rs[..n]).value, rs[n].value.0, rs[n].value.1);
    }
  }

  /** Entry i of the dictionary d is the predicate and value of line i. */
  predicate Entradas(rs: seq<LineaLeida>, d: Diccionario)
    requires |d.orden| == |rs|
  {
    forall i :: 0 <= i < |rs| ==> d.orden[i] in d.valores && rs[i] == Ok((d.orden[i], d.valores[d.orden[i]]))
  }

  /** Adding the predicate of one more line keeps every entry in line with its line. */
  lemma {:induction false} EntradasPaso(pre: seq<LineaLeida>, d: Diccionario, p: Predicado, v: bool)
    requires DiccionarioValido(d) && p !in d.valores && |d.orden| == |pre| && Entradas(pre, d)
    ensures Entradas(pre + [Ok((p, v))], Diccionario(d.orden + [p], d.valores[p := v]))
  {
    InsertarValido(d, p, v);
    var rs := pre + [Ok((p, v))];
    assert forall i :: 0 <= i < |pre| ==> rs[i] == pre[i];
  }

  /** Entry i of the dictionary built from the lines is the predicate and value of line i. */
  lemma {:induction false} AgregarEntradas(rs: seq<LineaLeida>)
    requires Agregar(rs).Ok?
    ensures Entradas(rs, Agregar(rs).value)
    decreases |rs|
  {
    if rs != [] {
      var n := |rs| - 1;
      AgregarUltimo(rs);
      AgregarEntradas(rs[..n]);
      AgregarValido(rs[..n]);
      EntradasPaso(rs[..n], Agregar(rs[..n]).value, rs[n].value.0, rs[n].value.1);
      assert rs[..n] + [Ok((rs[n].value.0, rs[n].value.1))] == rs;
    }
  }

  lemma {:induction false} AgregarCorrecto(rs: seq<LineaLeida>)
    requires Agregar(rs).Ok?
    ensures DiccionarioValido(Agregar(rs).value)
    ensures var d := Agregar(rs).value;
      forall i :: 0 <= i < |rs| ==> d.orden[i] in d.valores && rs[i] == Ok((d.orden[i], d.valores[d.orden[i]]))
  {
    AgregarValido(rs);
    AgregarEntradas(rs);
  }

  /**
   * A section that parses is a valid dictionary with one entry per line,
   * in file order: entry i is the predicate and value of line i.
   */
  lemma {:induction false} EstadoDeCorrecto(lineas: seq<string>)
    requires EstadoDe(lineas).Ok?
    ensures DiccionarioValido(EstadoDe(lineas).value)
    ensures var d := EstadoDe(lineas).value;
      forall i :: 0 <= i < |lineas| ==> d.orden[i] in d.valores && ParsearLinea(lineas[i]) == Ok((d.orden[i], d.valores[d.orden[i]]))
  {
    AgregarCorrecto(Leidas(lineas));
  }

  /** Once a prefix of the lines fails, the whole section fails with the same error. */
  lemma {:induction false} AgregarPrefijoError(rs: seq<LineaLeida>, i: int)
    requires 0 <= i <= |rs| && Agregar(rs[..i]).Err?
    ensures Agregar(rs) == Agregar(rs[..i])
    decreases |rs| - i
  {
    if i < |rs| {
      assert rs[..i + 1][..i] == rs[..i];
      AgregarPrefijoError(rs, i + 1);
    } else {
      assert rs[..i] == rs;
    }
  }

  predicate TodasLeidas(rs: seq<LineaLeida>)
  {
    forall k :: 0 <= k < |rs| ==> rs[k].Ok?
  }

  /** Two lines naming the same predicate make the section fail with ArgumentException, when every line parses. */
  lemma {:induction false} AgregarDuplicado(rs: seq<LineaLeida>, i: int, j: int)
    requires TodasLeidas(rs)
    requires 0 <= i < j < |rs| && rs[i].value.0 == rs[j].value.0
    ensures Agregar(rs) == Err(ArgumentException)
    decreases |rs|
  {
    var n := |rs| - 1;
    var prefijo := rs[..n];
    if j < n {
      assert prefijo[i] == rs[i] && prefijo[j] == rs[j];
      AgregarDuplicado(prefijo, i, j);
    } else if Agregar(prefijo).Ok? {
      var d := Agregar(prefijo).value;
      AgregarEntradas(prefijo);
      assert prefijo[i] == rs[i];
      assert rs[n].value.0 in d.valores;
      AgregarPaso(rs, n, d);
      assert rs[..n + 1] == rs;
    } else {
      assert forall k :: 0 <= k < n ==> prefijo[k] == rs[k];
      AgregarError(prefijo);
    }
  }

  /** Lines that all parse, to pairwise different predicates, make a dictionary. */
  lemma {:induction false} AgregarCompleto(rs: seq<LineaLeida>)
    requires TodasLeidas(rs)
    requires forall i, j :: 0 <= i < j < |rs| ==> rs[i].value.0 != rs[j].value.0
    ensures Agregar(rs).Ok?
    decreases |rs|
  {
    if rs != [] {
      var n := |rs| - 1;
      var prefijo := rs[..n];
      assert forall k :: 0 <= k < n ==> prefijo[k] == rs[k];
      AgregarCompleto(prefijo);
      var d := Agregar(prefijo).value;
      AgregarEntradas(prefijo);
      AgregarValido(prefijo);
      assert rs[n].value.0 !in d.valores by {
        forall k | 0 <= k < n ensures d.orden[k] != rs[n].value.0 {
          assert prefijo[k] == rs[k];
        }
      }
      AgregarPaso(rs, n, d);
      assert rs[..n + 1] == rs;
    }
  }

  /**
   * When every line parses, the section is a dictionary exactly when no
   * predicate is named twice, and otherwise fails with ArgumentException.
   */
  lemma {:induction false} EstadoDeSii(lineas: seq<string>)
    requires forall k :: 0 <= k < |lineas| ==> ParsearLinea(lineas[k]).Ok?
    ensures EstadoDe(lineas).Ok? <==>
      forall i, j :: 0 <= i < j < |lineas| ==> ParsearLinea(lineas[i]).value.0 != ParsearLinea(lineas[j]).value.0
    ensures EstadoDe(lineas).Err? ==> EstadoDe(lineas).error == ArgumentException
  {
    var rs := Leidas(lineas);
    AgregarSii(rs);
  }

  /** The same over the parsed lines. */
  lemma {:induction false} AgregarSii(rs: seq<LineaLeida>)
    requires TodasLeidas(rs)
    ensures Agregar(rs).Ok? <==> forall i, j :: 0 <= i < j < |rs| ==> rs[i].value.0 != rs[j].value.0
    ensures Agregar(rs).Err? ==> Agregar(rs).error == ArgumentException
  {
    if forall i, j :: 0 <= i < j < |rs| ==> rs[i].value.0 != rs[j].value.0 {
      AgregarCompleto(rs);
    } else {
      var i, j :| 0 <= i < j < |rs| && rs[i].value.0 == rs[j].value.0;
      AgregarDuplicado(rs, i, j);
    }
  }

  /** ParsearEstado, line by line into the dictionary. */
  method ParsearEstado(lineas: seq<string>) returns (r: Result<Diccionario, Excepcion>)
    ensures r == EstadoDe(lineas)
  {
    ghost var rs := Leidas(lineas);
    var estado := Diccionario([], map[]);
    for i := 0 to |lineas|
      invariant Agregar(rs[..i]) == Ok(estado)
    {
      AgregarPaso(rs, i, estado);
      var leida := ParsearLinea(lineas[i]);
      if leida.Err? {
        AgregarPrefijoError(rs, i + 1);
        return Err(leida.error);
      }
      var (predicado, valor) := leida.value;
      if predicado in estado.valores {
        AgregarPrefijoError(rs, i + 1);
        return Err(ArgumentException);
      }
      estado := Diccionario(estado.orden + [predicado], estado.valores[predicado := valor]);
    }
    assert rs[..|lineas|] == rs;
    return Ok(estado);
  }

  // ---------------------------------------------------------------------
  // Block names
  // ---------------------------------------------------------------------

  /** The first line of [Bloques] split on ',' and every name trimmed. */
  function Bloques(linea: string): (r: seq<string>)
    ensures |r| >= 1
    ensures forall k, i :: 0 <= k < |r| && 0 <= i < |r[k]| ==> r[k][i] != ','
  {
    var campos := Campos(linea, {','});
    var r := Mapear(Trim, campos);
    assert forall k :: 0 <= k < |r| ==> r[k] == TrimEnd(TrimStart(campos[k]));
    r
  }

  /** Names without commas and without bordering blanks, joined with ',', are read back. */
  lemma {:induction false} BloquesDeUnir(nombres: seq<string>)
    requires nombres != []
    requires forall k :: 0 <= k < |nombres| ==> SinBordes(nombres[k])
    requires forall k, i :: 0 <= k < |nombres| && 0 <= i < |nombres[k]| ==> nombres[k][i] != ','
    ensures Bloques(Unir([','], nombres)) == nombres
  {
    CamposDeUnirEn(nombres, ',', {','});
    forall k | 0 <= k < |nombres| ensures Trim(nombres[k]) == nombres[k] {
      TrimSinBordes(nombres[k]);
    }
  }

  // ---------------------------------------------------------------------
  // The reader
  // ---------------------------------------------------------------------

  /** What the reader exposes once constructed. */
  datatype LectorEstados = LectorEstados(bloques: seq<string>, estadoInicial: Diccionario, estadoObjetivo: Diccionario)

  const BLOQUES: string := "[Bloques]"
  const ESTADO_INICIAL: string := "[EstadoInicial]"
  const ESTADO_OBJETIVO: string := "[EstadoObjetivo]"

  /**
   * The constructor over the file's lines: blank lines dropped, the three
   * sections read in order, then the block names and the two states.
   */
  function Lectura(lineasArchivo: seq<string>): (r: Result<LectorEstados, Excepcion>)
    ensures r.Ok? ==> |r.value.bloques| >= 1
  {
    var lineas := SinLineasEnBlanco(lineasArchivo);
    match Seccion(lineas, BLOQUES)
    case Err(e) => Err(e)
    case Ok(bloquesLinea) =>
      match Seccion(lineas, ESTADO_INICIAL)
      case Err(e) => Err(e)
      case Ok(inicialLineas) =>
        match Seccion(lineas, ESTADO_OBJETIVO)
        case Err(e) => Err(e)
        case Ok(objetivoLineas) =>
          var bloques := Bloques(bloquesLinea[0]);
          match EstadoDe(inicialLineas)
          case Err(e) => Err(e)
          case Ok(inicial) =>
            match EstadoDe(objetivoLineas)
            case Err(e) => Err(e)
            case Ok(objetivo) => Ok(LectorEstados(bloques, inicial, objetivo))
  }

  /**
   * A file that is read gives two valid dictionaries, each with one entry
   * per line of its section, and the names of the first [Bloques] line.
   */
  lemma {:induction false} LecturaCorrecta(lineasArchivo: seq<string>)
    requires Lectura(lineasArchivo).Ok?
    ensures var lector := Lectura(lineasArchivo).value;
      var lineas := SinLineasEnBlanco(lineasArchivo);
      && DiccionarioValido(lector.estadoInicial) && DiccionarioValido(lector.estadoObjetivo)
      && lector.bloques == Bloques(Seccion(lineas, BLOQUES).value[0])
      && lector.estadoInicial == EstadoDe(Seccion(lineas, ESTADO_INICIAL).value).value
      && lector.estadoObjetivo == EstadoDe(Seccion(lineas, ESTADO_OBJETIVO).value).value
      && |lector.estadoInicial.orden| == |Seccion(lineas, ESTADO_INICIAL).value|
      && |lector.estadoObjetivo.orden| == |Seccion(lineas, ESTADO_OBJETIVO).value|
    ensures var lector := Lectura(lineasArchivo).value;
      var s := Seccion(SinLineasEnBlanco(lineasArchivo), ESTADO_INICIAL).value;
      var d := lector.estadoInicial;
      forall i :: 0 <= i < |s| ==> d.orden[i] in d.valores && ParsearLinea(s[i]) == Ok((d.orden[i], d.valores[d.orden[i]]))
    ensures var lector := Lectura(lineasArchivo).value;
      var s := Seccion(SinLineasEnBlanco(lineasArchivo), ESTADO_OBJETIVO).value;
      var d := lector.estadoObjetivo;
      forall i :: 0 <= i < |s| ==> d.orden[i] in d.valores && ParsearLinea(s[i]) == Ok((d.orden[i], d.valores[d.orden[i]]))
  {
    var lineas := SinLineasEnBlanco(lineasArchivo);
    EstadoDeCorrecto(Seccion(lineas, ESTADO_INICIAL).value);
    EstadoDeCorrecto(Seccion(lineas, ESTADO_OBJETIVO).value);
  }

  /** A file missing any of the three section headers is refused with InvalidDataException. */
  lemma {:induction false} LecturaSinSeccion(lineasArchivo: seq<string>, seccion: string)
    requires seccion == BLOQUES || seccion == ESTADO_INICIAL || seccion == ESTADO_OBJETIVO
    requires forall l :: l in lineasArchivo ==> Trim(l) != seccion
    ensures Lectura(lineasArchivo) == Err(InvalidDataException)
  {
    var lineas := SinLineasEnBlanco(lineasArchivo);
    var ts := Mapear(Trim, lineas);
    assert forall j :: 0 <= j < |ts| ==> lineas[j] in lineasArchivo;
    SinCabecera(ts, seccion);
  }

  /** The constructor, calling the section reader and the state parser as the source does. */
  method Leer(lineasArchivo: seq<string>) returns (r: Result<LectorEstados, Excepcion>)
    ensures r == Lectura(lineasArchivo)
  {
    var lineas := SinLineasEnBlanco(lineasArchivo);
    var bloquesLinea := LeerSeccion(lineas, BLOQUES);
    if bloquesLinea.Err? {
      return Err(bloquesLinea.error);
    }
    var inicialLineas := LeerSeccion(lineas, ESTADO_INICIAL);
    if inicialLineas.Err? {
      return Err(inicialLineas.error);
    }
    var objetivoLineas := LeerSeccion(lineas, ESTADO_OBJETIVO);
    if objetivoLineas.Err? {
      return Err(objetivoLineas.error);
    }
    var bloques := Bloques(bloquesLinea.value[0]);
    var inicial := ParsearEstado(inicialLineas.value);
    if inicial.Err? {
      return Err(inicial.error);
    }
    var objetivo := ParsearEstado(objetivoLineas.value);
    if objetivo.Err? {
      return Err(objetivo.error);
    }
    return Ok(LectorEstados(bloques, inicial.value, objetivo.value));
  }
}
