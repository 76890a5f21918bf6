/** Display names for career codes. */
module Carreras {
  import opened Opcion
  import Config

  predicate EsMinuscula(c: char) { 'a' <= c <= 'z' }
  predicate EsMayuscula(c: char) { 'A' <= c <= 'Z' }
  predicate EsLetra(c: char) { EsMinuscula(c) || EsMayuscula(c) }

  function Mayuscula(c: char): (u: char)
    ensures EsLetra(c) ==> EsMayuscula(u)
    ensures EsLetra(u) == EsLetra(c)
  {
    if EsMinuscula(c) then (c as int - 32) as char else c
  }

  function Minuscula(c: char): (l: char)
    ensures EsLetra(c) ==> EsMinuscula(l)
    ensures EsLetra(l) == EsLetra(c)
  {
    if EsMayuscula(c) then (c as int + 32) as char else c
  }

  /** `s.replace(de, a)` for single characters. */
  function Reemplazar(s: string, de: char, a: char): (r: string)
    ensures |r| == |s|
    ensures forall i :: 0 <= i < |s| ==> r[i] == if s[i] == de then a else s[i]
    ensures de != a ==> de !in r
    ensures a in r <==> a in s || de in s
    ensures forall c :: c != de && c != a ==> (c in r <==> c in s)
  {
    seq(|s|, i requires 0 <= i < |s| => if s[i] == de then a else s[i])
  }

  /**
    Title-cases `s`, scanning left to right; `tras` tells whether the
    character before `s` was a letter.
   */
  function TituloDesde(s: string, tras: bool): string {
    if s == [] then []
    else
      var c := s[0];
      var t := if !EsLetra(c) then c else if tras then Minuscula(c) else Mayuscula(c);
      [t] + TituloDesde(s[1..], EsLetra(c))
  }

  /** Python's `str.title()` on ASCII letters. */
  function Titulo(s: string): string {
    TituloDesde(s, false)
  }

  /** What `str.title()` does to the character at position `i`. */
  function TituloEn(s: string, i: nat): char
    requires i < |s|
  {
    if !EsLetra(s[i]) then s[i]
    else if i > 0 && EsLetra(s[i - 1]) then Minuscula(s[i])
    else Mayuscula(s[i])
  }

  lemma {:induction false} TituloDesdeCaracteriza(s: string, tras: bool)
    ensures |TituloDesde(s, tras)| == |s|
    ensures forall i :: 0 < i < |s| ==> TituloDesde(s, tras)[i] == TituloEn(s, i)
    ensures s != [] ==>
      TituloDesde(s, tras)[0] == (if !EsLetra(s[0]) then s[0] else if tras then Minuscula(s[0]) else Mayuscula(s[0]))
  {
    if s != [] {
      TituloDesdeCaracteriza(s[1..], EsLetra(s[0]));
      var r := TituloDesde(s, tras);
      forall i | 0 < i < |s| ensures r[i] == TituloEn(s, i) {
        assert r[i] == TituloDesde(s[1..], EsLetra(s[0]))[i - 1];
        if i > 1 {
          assert TituloEn(s[1..], i - 1) == TituloEn(s, i);
        }
      }
    }
  }

  /**
    Title-casing upper-cases every letter that starts a run of letters,
    lower-cases every other letter and keeps everything else.
   */
  lemma TituloCaracteriza(s: string)
    ensures |Titulo(s)| == |s|
    ensures forall i :: 0 <= i < |s| ==> Titulo(s)[i] == TituloEn(s, i)
  {
    TituloDesdeCaracteriza(s, false);
  }

  /** Title-casing a title-cased string changes nothing. */
  lemma TituloIdempotente(s: string)
    ensures Titulo(Titulo(s)) == Titulo(s)
  {
    var t := Titulo(s);
    TituloCaracteriza(s);
    TituloCaracteriza(t);
    forall i | 0 <= i < |t| ensures Titulo(t)[i] == t[i] {
      if i > 0 {
        assert EsLetra(t[i - 1]) == EsLetra(s[i - 1]);
      }
    }
  }

  /** The name of the first catalogue entry with code `codigo`. */
  function Buscar(catalogo: seq<(string, string)>, codigo: string): (r: Option<string>)
    ensures r.None? <==> forall i :: 0 <= i < |catalogo| ==> catalogo[i].0 != codigo
    ensures r.Some? ==> exists i :: 0 <= i < |catalogo| && catalogo[i] == (codigo, r.value) &&
                                    forall j :: 0 <= j < i ==> catalogo[j].0 != codigo
  {
    if catalogo == [] then None
    else if catalogo[0].0 == codigo then Some(catalogo[0].1)
    else
      var r := Buscar(catalogo[1..], codigo);
      if r.Some? then
        var i :| 0 <= i < |catalogo| - 1 && catalogo[1..][i] == (codigo, r.value) &&
                 forall j :: 0 <= j < i ==> catalogo[1..][j].0 != codigo;
        assert catalogo[i + 1] == (codigo, r.value);
        r
      else r
  }

  /**
    The display name for a career code: "Sin Carrera" when there is none, the
    catalogue name when the code is known, and otherwise the code with
    underscores turned into spaces, title-cased.
   */
  function ObtenerNombreCarrera(codigo: Option<string>): (r: string)
    ensures codigo == None || codigo == Some("") ==> r == "Sin Carrera"
    ensures codigo.Some? && codigo.value != "" ==>
      (Buscar(Config.Carreras, codigo.value).Some? ==> r == Buscar(Config.Carreras, codigo.value).value) &&
      (Buscar(Config.Carreras, codigo.value).None? ==> r == Titulo(Reemplazar(codigo.value, '_', ' ')))
  {
    match codigo
    case None => "Sin Carrera"
    case Some(c) =>
      if c == "" then "Sin Carrera"
      else match Buscar(Config.Carreras, c)
        case Some(nombre) => nombre
        case None => Titulo(Reemplazar(c, '_', ' '))
  }

  /** No two catalogue entries share a code, so a known code has exactly one name. */
  lemma CodigosDistintos()
    ensures forall i, j :: 0 <= i < j < |Config.Carreras| ==> Config.Carreras[i].0 != Config.Carreras[j].0
  {
  }

  /**
    A known code yields its catalogue name; an unknown one yields the code
    with underscores as spaces, title-cased, which keeps its length and has
    no underscore left.
   */
  lemma NombreCarreraCorrecto(codigo: string)
    requires codigo != ""
    ensures forall i :: 0 <= i < |Config.Carreras| && Config.Carreras[i].0 == codigo ==>
      ObtenerNombreCarrera(Some(codigo)) == Config.Carreras[i].1
    ensures (forall i :: 0 <= i < |Config.Carreras| ==> Config.Carreras[i].0 != codigo) ==>
      |ObtenerNombreCarrera(Some(codigo))| == |codigo| && '_' !in ObtenerNombreCarrera(Some(codigo))
    ensures (forall i :: 0 <= i < |Config.Carreras| ==> Config.Carreras[i].0 != codigo) ==>
      ObtenerNombreCarrera(Some(codigo)) == Titulo(Reemplazar(codigo, '_', ' '))
  {
    CodigosDistintos();
    var t := Reemplazar(codigo, '_', ' ');
    TituloCaracteriza(t);
  }
}
