/**
 * The STRIPS move action of the blocks world (class Accion): which block
 * moves, where it stands and where it goes. Any triple is accepted.
 */
module Acciones {
  import opened Comun

  /** new Accion(bloque, desde, hacia): the three strings are stored as given and never change. */
  datatype Accion = Accion(bloque: string, desde: string, hacia: string)

  /** "Mover(" + Bloque + ", " + Desde + ", " + Hacia + ")". */
  function ToString(a: Accion): string
  {
    "Mover(" + a.bloque + ", " + a.desde + ", " + a.hacia + ")"
  }

  predicate SinComa(s: string)
  {
    forall i :: 0 <= i < |s| ==> s[i] != ','
  }

  /** The comma-separated fields of a rendering: the prefix with the block, then the origin and the destination each after a blank. */
  lemma {:induction false} CamposDeToString(a: Accion)
    requires SinComa(a.bloque) && SinComa(a.desde) && SinComa(a.hacia)
    ensures Campos(ToString(a), {','}) == ["Mover(" + a.bloque, " " + a.desde, " " + a.hacia + ")"]
  {
    var x := "Mover(" + a.bloque;
    var y := " " + a.desde;
    var z := " " + a.hacia + ")";
    assert ToString(a) == x + [','] + (y + [','] + z);
    CamposConcat(x, ',', y + [','] + z, {','});
    CamposConcat(y, ',', z, {','});
    CamposSinSeparador(x, {','});
    CamposSinSeparador(y, {','});
    CamposSinSeparador(z, {','});
  }

  /** Two actions whose fields hold no comma render alike only when they are the same action. */
  lemma {:induction false} ToStringInyectiva(a: Accion, b: Accion)
    requires SinComa(a.bloque) && SinComa(a.desde) && SinComa(a.hacia)
    requires SinComa(b.bloque) && SinComa(b.desde) && SinComa(b.hacia)
    requires ToString(a) == ToString(b)
    ensures a == b
  {
    CamposDeToString(a);
    CamposDeToString(b);
    var ca := Campos(ToString(a), {','});
    assert a.bloque == ca[0][6..] && b.bloque == ca[0][6..];
    assert a.desde == ca[1][1..] && b.desde == ca[1][1..];
    assert a.hacia == ca[2][1..|ca[2]| - 1] && b.hacia == ca[2][1..|ca[2]| - 1];
  }

  lemma {:induction false} ToStringEjemplo()
    ensures ToString(Accion("A", "mesa", "B")) == "Mover(A, mesa, B)"
  {
  }
}
