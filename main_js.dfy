/**
  Front-end helpers: the thousands separator inserted by a regular-expression
  replace, and the icon shown beside a flash message.
 */
module MainJs {
  import opened Texto

  /** A regular-expression word character: letter, digit or underscore. */
  predicate EsPalabra(c: char) {
    EsDigito(c) || 'a' <= c <= 'z' || 'A' <= c <= 'Z' || c == '_'
  }

  /** `\B` at position `p`: both neighbours are word characters, or neither is. */
  predicate NoLimite(t: string, p: nat)
    requires p <= |t|
  {
    (p > 0 && EsPalabra(t[p - 1])) == (p < |t| && EsPalabra(t[p]))
  }

  /** The length of the run of digits starting at position `p`. */
  function Racha(t: string, p: nat): (r: nat)
    requires p <= |t|
    ensures p + r <= |t|
    decreases |t| - p
  {
    if p == |t| || !EsDigito(t[p]) then 0 else 1 + Racha(t, p + 1)
  }

  /** The run starting at `p` is all digits and is followed by the end or by a non-digit. */
  lemma {:induction false} RachaDelimita(t: string, p: nat)
    requires p <= |t|
    ensures SoloDigitos(t[p..p + Racha(t, p)])
    ensures p + Racha(t, p) == |t| || !EsDigito(t[p + Racha(t, p)])
    decreases |t| - p
  {
    if p < |t| && EsDigito(t[p]) {
      RachaDelimita(t, p + 1);
      var r := Racha(t, p);
      assert t[p + 1..p + 1 + (r - 1)] == t[p..p + r][1..];
    }
  }

  /** The lookahead `(?=(\d{3})+(?!\d))` at position `p`, read literally. */
  ghost predicate Anticipa(t: string, p: nat)
    requires p <= |t|
  {
    exists k :: 1 <= k && p + 3 * k <= |t| && SoloDigitos(t[p..p + 3 * k]) &&
                (p + 3 * k == |t| || !EsDigito(t[p + 3 * k]))
  }

  /** Where the pattern `\B(?=(\d{3})+(?!\d))` matches. */
  predicate Coincide(t: string, p: nat)
    requires p <= |t|
  {
    NoLimite(t, p) && Racha(t, p) >= 3 && Racha(t, p) % 3 == 0
  }

  /** A digit run is determined by where it ends. */
  lemma {:induction false} RachaExacta(t: string, p: nat, m: nat)
    requires p + m <= |t| && SoloDigitos(t[p..p + m])
    requires p + m == |t| || !EsDigito(t[p + m])
    ensures Racha(t, p) == m
    decreases m
  {
    if m > 0 {
      assert t[p..p + m][0] == t[p];
      assert t[p + 1..p + 1 + (m - 1)] == t[p..p + m][1..];
      RachaExacta(t, p + 1, m - 1);
    }
  }

  /** The lookahead holds exactly when the digit run ahead is a positive multiple of three. */
  lemma AnticipaSiiRacha(t: string, p: nat)
    requires p <= |t|
    ensures Anticipa(t, p) <==> Racha(t, p) >= 3 && Racha(t, p) % 3 == 0
  {
    var r := Racha(t, p);
    if Anticipa(t, p) {
      var k :| 1 <= k && p + 3 * k <= |t| && SoloDigitos(t[p..p + 3 * k]) &&
               (p + 3 * k == |t| || !EsDigito(t[p + 3 * k]));
      RachaExacta(t, p, 3 * k);
    }
    if r >= 3 && r % 3 == 0 {
      RachaDelimita(t, p);
      var k := r / 3;
      assert p + 3 * k == p + r;
    }
  }

  /** The replace with "," applied to `t` from position `p` on. */
  function Insertar(t: string, p: nat): string
    requires p <= |t|
    decreases |t| - p
  {
    if p == |t| then []
    else (if Coincide(t, p) then [','] else []) + [t[p]] + Insertar(t, p + 1)
  }

  /** `formatNumber(num)` for an integer `num`. */
  function FormatNumber(n: int): string {
    Insertar(IntToString(n), 0)
  }

  /** `s` with every comma deleted. */
  function QuitarComas(s: string): (r: string)
    ensures |r| <= |s|
  {
    if s == [] then [] else (if s[0] == ',' then [] else [s[0]]) + QuitarComas(s[1..])
  }

  lemma {:induction false} QuitarComasConcat(a: string, b: string)
    ensures QuitarComas(a + b) == QuitarComas(a) + QuitarComas(b)
  {
    if a != [] {
      assert (a + b)[1..] == a[1..] + b;
      QuitarComasConcat(a[1..], b);
    } else {
      assert a + b == b;
    }
  }

  lemma {:induction false} QuitarComasInsertar(t: string, p: nat)
    requires p <= |t|
    requires |t| > 0 && SoloDigitos(t[1..]) && t[0] != ','

    ensures QuitarComas(Insertar(t, p)) == t[p..]
    decreases |t| - p
  {
    if p < |t| {
      QuitarComasInsertar(t, p + 1);
      var pre := (if Coincide(t, p) then [','] else []) + [t[p]];
      QuitarComasConcat(pre, Insertar(t, p + 1));
      if p > 0 {
        assert t[p] == t[1..][p - 1];
      }
      assert QuitarComas([t[p]]) == [t[p]];
      assert QuitarComas(pre) == [t[p]] by {
        if Coincide(t, p) {
          assert pre == [','] + [t[p]];
          QuitarComasConcat([','], [t[p]]);
        }
      }
      assert t[p..] == [t[p]] + t[p + 1..];
    }
  }

  /** Deleting the commas from `formatNumber(n)` gives back `n.toString()`. */
  lemma FormatNumberSinComas(n: int)
    ensures QuitarComas(FormatNumber(n)) == IntToString(n)
  {
    var t := IntToString(n);
    if n < 0 {
      assert t[1..] == NatToString(-n);
    } else {
      assert forall i :: 0 <= i < |t| - 1 ==> t[1..][i] == t[i + 1];
    }
    QuitarComasInsertar(t, 0);
  }

  /** The reference grouping: digits in groups of three counted from the right. */
  function Agrupar(d: string): string {
    if |d| <= 3 then d else Agrupar(d[..|d| - 3]) + [','] + d[|d| - 3..]
  }

  /** In a digit string a comma goes before every position, but the first, a multiple of three from the end. */
  lemma CoincideEnDigitos(t: string, p: nat)
    requires SoloDigitos(t) && p < |t|
    ensures Coincide(t, p) <==> 0 < p && (|t| - p) % 3 == 0
  {
    RachaExacta(t, p, |t| - p);
  }

  lemma InsertarUltimo(t: string)
    requires SoloDigitos(t) && |t| >= 4
    ensures Insertar(t, |t| - 1) == [t[|t| - 1]]
  {
    CoincideEnDigitos(t, |t| - 1);
  }

  lemma InsertarPenultimo(t: string)
    requires SoloDigitos(t) && |t| >= 4
    ensures Insertar(t, |t| - 2) == [t[|t| - 2], t[|t| - 1]]
  {
    InsertarUltimo(t);
    CoincideEnDigitos(t, |t| - 2);
  }

  lemma InsertarUltimoGrupo(t: string)
    requires SoloDigitos(t) && |t| >= 4
    ensures Insertar(t, |t| - 3) == [','] + t[|t| - 3..]
  {
    InsertarPenultimo(t);
    CoincideEnDigitos(t, |t| - 3);
    assert Insertar(t, |t| - 3) == [',', t[|t| - 3], t[|t| - 2], t[|t| - 1]];
  }

  /** One step of the replace. */
  lemma InsertarPaso(t: string, p: nat)
    requires p < |t|
    ensures Insertar(t, p) == (if Coincide(t, p) then [','] else []) + [t[p]] + Insertar(t, p + 1)
  {
  }

  /** Before its last three digits, a digit string takes the same commas as after dropping them. */
  lemma InsertarPasoPrefijo(t: string, p: nat)
    requires SoloDigitos(t) && |t| >= 4 && p < |t| - 3
    ensures Insertar(t[..|t| - 3], p) ==
      (if Coincide(t, p) then [','] else []) + [t[p]] + Insertar(t[..|t| - 3], p + 1)
  {
    var u := t[..|t| - 3];
    assert SoloDigitos(u) by {
      forall i | 0 <= i < |u|
        ensures EsDigito(u[i])
      {
        assert u[i] == t[i];
      }
    }
    CoincideEnDigitos(t, p);
    CoincideEnDigitos(u, p);
    assert (|u| - p + 3) % 3 == (|u| - p) % 3;
    assert u[p] == t[p];
    InsertarPaso(u, p);
  }

  /**
    Concatenation regrouped, proved apart from any recursive definition so
    that the solver does not unfold `Insertar` while checking it.
   */
  lemma Asociativa(a: string, b: string, c: string)
    ensures a + (b + c) == (a + b) + c
  {
  }

  lemma {:induction false} InsertarPrefijo(t: string, p: nat)
    requires SoloDigitos(t) && |t| >= 4 && p <= |t| - 3
    ensures Insertar(t, p) == Insertar(t[..|t| - 3], p) + ([','] + t[|t| - 3..])
    decreases |t| - p
  {
    if p == |t| - 3 {
      InsertarUltimoGrupo(t);
      assert Insertar(t[..|t| - 3], p) == [];
    } else {
      var u := t[..|t| - 3];
      var cola := [','] + t[|t| - 3..];
      InsertarPrefijo(t, p + 1);
      InsertarPasoPrefijo(t, p);
      InsertarPaso(t, p);
      var pre := (if Coincide(t, p) then [','] else []) + [t[p]];
      Asociativa(pre, Insertar(u, p + 1), cola);
    }
  }

  lemma {:induction false} InsertarCorto(t: string, p: nat)
    requires SoloDigitos(t) && |t| <= 3 && p <= |t|
    ensures Insertar(t, p) == t[p..]
    decreases |t| - p
  {
    if p < |t| {
      InsertarCorto(t, p + 1);
      CoincideEnDigitos(t, p);
      assert t[p..] == [t[p]] + t[p + 1..];
    }
  }

  lemma {:induction false} InsertarAgrupa(t: string)
    requires SoloDigitos(t)
    ensures Insertar(t, 0) == Agrupar(t)
    decreases |t|
  {
    if |t| <= 3 {
      InsertarCorto(t, 0);
    } else {
      InsertarPrefijo(t, 0);
      assert SoloDigitos(t[..|t| - 3]);
      InsertarAgrupa(t[..|t| - 3]);
      assert Agrupar(t[..|t| - 3]) + ([','] + t[|t| - 3..]) == (Agrupar(t[..|t| - 3]) + [',']) + t[|t| - 3..];
    }
  }

  /** For a non-negative number the commas split the digits into threes from the right. */
  lemma FormatNumberAgrupa(n: nat)
    ensures FormatNumber(n) == Agrupar(NatToString(n))
  {
    InsertarAgrupa(NatToString(n));
  }

  /** A negative number is formatted as a minus sign before its formatted magnitude. */
  lemma FormatNumberNegativo(n: int)
    requires n < 0
    ensures FormatNumber(n) == "-" + FormatNumber(-n)
  {
    var d := NatToString(-n);
    var t := "-" + d;
    assert IntToString(n) == t;
    assert IntToString(-n) == d;
    assert !Coincide(t, 0) by {
      assert t[0] == '-';
    }
    InsertarPaso(t, 0);
    InsertarDesplazado(d, 0);
    assert Insertar(t, 0) == [] + ['-'] + Insertar(d, 0);
  }

  lemma {:induction false} InsertarDesplazado(d: string, p: nat)
    requires SoloDigitos(d) && |d| >= 1 && p <= |d|
    ensures Insertar("-" + d, p + 1) == Insertar(d, p)
    decreases |d| - p
  {
    var t := "-" + d;
    if p < |d| {
      InsertarDesplazado(d, p + 1);
      assert t[p + 1] == d[p];
      RachaExacta(t, p + 1, |d| - p);
      RachaExacta(d, p, |d| - p);
      if p > 0 {
        assert t[p] == d[p - 1];
      }
      assert Coincide(t, p + 1) == Coincide(d, p);
    }
  }

  /** Numbers strictly between -1000 and 1000 come back unchanged. */
  lemma FormatNumberPequeno(n: int)
    requires -1000 < n < 1000
    ensures FormatNumber(n) == IntToString(n)
  {
    var m: nat := if n < 0 then -n else n;
    LongitudNatToString(m);
    FormatNumberAgrupa(m);
    if n < 0 {
      FormatNumberNegativo(n);
    }
  }

  /** The icon for each message type, as the front end declares it. */
  const Iconos: map<string, string> := map["success" := "✅", "danger" := "❌", "warning" := "⚠️", "info" := "ℹ️"]

  /** `getIcon(type)`: the icon of a known type, the information icon for any other. */
  function GetIcon(tipo: string): (r: string)
    ensures tipo == "success" ==> r == "✅"
    ensures tipo == "danger" ==> r == "❌"
    ensures tipo == "warning" ==> r == "⚠️"
    ensures tipo !in {"success", "danger", "warning"} ==> r == "ℹ️"
  {
    if tipo in Iconos then Iconos[tipo] else Iconos["info"]
  }
}
