/**
  The gettext catalogue compiler: a line-oriented reader of .po files and the
  writer of the binary .mo layout (the section "The Format of GNU MO Files" of
  the GNU gettext manual), with strings as UTF-8 byte sequences.
 */
module CompileTranslations {
  import opened Opcion

  newtype byte = x: int | 0 <= x < 256

  type Bytes = seq<byte>

  /** A catalogue entry: original string and translation. */
  type Entrada = (Bytes, Bytes)

  /** The bytes of an ASCII text. */
  function Ascii(s: string): (b: Bytes)
    requires forall i :: 0 <= i < |s| ==> s[i] as int < 128
    ensures |b| == |s|
    ensures forall i :: 0 <= i < |s| ==> b[i] as int == s[i] as int
    ensures forall i :: 0 <= i < |b| ==> b[i] < 128
  {
    seq(|s|, i requires 0 <= i < |s| => s[i] as int as byte)
  }

  /** Different ASCII texts have different bytes. */
  lemma AsciiInyectiva(s: string, t: string)
    requires forall i :: 0 <= i < |s| ==> s[i] as int < 128
    requires forall i :: 0 <= i < |t| ==> t[i] as int < 128
    ensures Ascii(s) == Ascii(t) ==> s == t
  {
    if Ascii(s) == Ascii(t) {
      forall i | 0 <= i < |s| ensures s[i] == t[i] {
        assert Ascii(s)[i] == Ascii(t)[i];
      }
    }
  }

  const Almohadilla: byte := 35
  const Comilla: byte := 34
  const PrefijoMsgid: Bytes := Ascii("msgid \"")
  const PrefijoMsgstr: Bytes := Ascii("msgstr \"")

  /** `str.isspace()` on a single ASCII byte. */
  predicate EsEspacio(b: byte) {
    9 <= b <= 13 || 28 <= b <= 32
  }

  function QuitarInicio(s: Bytes): (r: Bytes)
    ensures |r| <= |s| && r == s[|s| - |r|..]
    ensures r != [] ==> !EsEspacio(r[0])
    ensures forall i :: 0 <= i < |s| - |r| ==> EsEspacio(s[i])
  {
    if s != [] && EsEspacio(s[0]) then QuitarInicio(s[1..]) else s
  }

  function QuitarFinal(s: Bytes): (r: Bytes)
    ensures |r| <= |s| && r == s[..|r|]
    ensures r != [] ==> !EsEspacio(r[|r| - 1])
    ensures forall i :: |r| <= i < |s| ==> EsEspacio(s[i])
  {
    if s != [] && EsEspacio(s[|s| - 1]) then QuitarFinal(s[..|s| - 1]) else s
  }

  /** `r` is `s[a..b]` with only whitespace before `a` and from `b` on. */
  predicate Recorte(s: Bytes, r: Bytes, a: int, b: int) {
    0 <= a <= b <= |s| && r == s[a..b] &&
    (forall i :: 0 <= i < a ==> EsEspacio(s[i])) && (forall i :: b <= i < |s| ==> EsEspacio(s[i]))
  }

  /** `line.strip()`: the line without leading and trailing whitespace. */
  function Strip(s: Bytes): (r: Bytes)
    ensures r != [] ==> !EsEspacio(r[0]) && !EsEspacio(r[|r| - 1])
    ensures exists a, b :: Recorte(s, r, a, b)
  {
    StripRecorte(s);
    QuitarFinal(QuitarInicio(s))
  }

  /** The two passes of `Strip` cut whitespace only, from both ends. */
  lemma StripRecorte(s: Bytes)
    ensures Recorte(s, QuitarFinal(QuitarInicio(s)), |s| - |QuitarInicio(s)|,
                    |s| - |QuitarInicio(s)| + |QuitarFinal(QuitarInicio(s))|)
  {
    RecorteDeCola(s, QuitarInicio(s), QuitarFinal(QuitarInicio(s)));
  }

  /**
    A tail `t` of `s` after leading whitespace, and a prefix `r` of `t` before
    trailing whitespace, make `r` a slice of `s` with only whitespace around it.
   */
  lemma RecorteDeCola(s: Bytes, t: Bytes, r: Bytes)
    requires |t| <= |s| && t == s[|s| - |t|..]
    requires forall i :: 0 <= i < |s| - |t| ==> EsEspacio(s[i])
    requires |r| <= |t| && r == t[..|r|]
    requires forall i :: |r| <= i < |t| ==> EsEspacio(t[i])
    ensures Recorte(s, r, |s| - |t|, |s| - |t| + |r|)
  {
    var a := |s| - |t|;
    assert r == s[a..a + |r|];
    forall i | a + |r| <= i < |s| ensures EsEspacio(s[i]) {
      assert s[i] == t[i - a];
    }
  }

  predicate EmpiezaCon(s: Bytes, p: Bytes) {
    |p| <= |s| && s[..|p|] == p
  }

  predicate TerminaCon(s: Bytes, p: Bytes) {
    |p| <= |s| && s[|s| - |p|..] == p
  }

  /** `s[a:-1]`: drops `a` leading bytes and the last one; empty when nothing is left. */
  function Cuerpo(s: Bytes, a: nat): (r: Bytes)
    ensures |s| > a ==> r == s[a..|s| - 1]
    ensures |s| > a ==> s == s[..a] + r + [s[|s| - 1]]
    ensures |s| <= a ==> r == []
  {
    if |s| > a then s[a..|s| - 1] else []
  }

  // ---------------------------------------------------------------------------
  // The message table: a dictionary kept as entries in insertion order.

  /** The entry for `k`, if any. */
  function Buscar(ms: seq<Entrada>, k: Bytes): Option<Bytes> {
    if ms == [] then None else if ms[0].0 == k then Some(ms[0].1) else Buscar(ms[1..], k)
  }

  /** `messages[k] = v`: overwrites the entry for `k` in place, or appends one. */
  function Put(ms: seq<Entrada>, k: Bytes, v: Bytes): (r: seq<Entrada>)
    ensures |r| == |ms| || |r| == |ms| + 1
  {
    if ms == [] then [(k, v)]
    else if ms[0].0 == k then [(k, v)] + ms[1..]
    else [ms[0]] + Put(ms[1..], k, v)
  }

  /** The keys of the table. */
  function Claves(ms: seq<Entrada>): (r: seq<Bytes>)
    ensures |r| == |ms|
    ensures forall i :: 0 <= i < |ms| ==> r[i] == ms[i].0
  {
    seq(|ms|, i requires 0 <= i < |ms| => ms[i].0)
  }

  /** The translations of the table. */
  function Valores(ms: seq<Entrada>): (r: seq<Bytes>)
    ensures |r| == |ms|
    ensures forall i :: 0 <= i < |ms| ==> r[i] == ms[i].1
  {
    seq(|ms|, i requires 0 <= i < |ms| => ms[i].1)
  }

  /** A well-formed table: distinct keys, and no empty key or translation. */
  predicate Tabla(ms: seq<Entrada>) {
    (forall i, j :: 0 <= i < j < |ms| ==> ms[i].0 != ms[j].0) &&
    (forall i :: 0 <= i < |ms| ==> ms[i].0 != [] && ms[i].1 != [])
  }

  /** Every entry after storing is the new pair or an entry that was there. */
  lemma {:induction false} PutMiembros(ms: seq<Entrada>, k: Bytes, v: Bytes)
    ensures forall e :: e in Put(ms, k, v) ==> e == (k, v) || e in ms
  {
    if ms != [] && ms[0].0 != k {
      PutMiembros(ms[1..], k, v);
      assert Put(ms, k, v) == [ms[0]] + Put(ms[1..], k, v);
    }
  }

  /** After storing, the key maps to the new translation and every other key keeps its own. */
  lemma {:induction false} PutBuscar(ms: seq<Entrada>, k: Bytes, v: Bytes)
    ensures Buscar(Put(ms, k, v), k) == Some(v)
    ensures forall k' :: k' != k ==> Buscar(Put(ms, k, v), k') == Buscar(ms, k')
  {
    if ms != [] && ms[0].0 != k {
      PutBuscar(ms[1..], k, v);
      var r := Put(ms, k, v);
      assert r[0] == ms[0] && r[1..] == Put(ms[1..], k, v);
    } else if ms != [] {
      var r := Put(ms, k, v);
      assert r[0] == (k, v) && r[1..] == ms[1..];
    }
  }

  /** No entry of `ms` has key `clave`. */
  predicate SinClave(ms: seq<Entrada>, clave: Bytes) {
    forall i :: 0 <= i < |ms| ==> ms[i].0 != clave
  }

  /** The tail of a well-formed table is well formed and lacks the head's key. */
  lemma TablaCola(ms: seq<Entrada>)
    requires Tabla(ms) && ms != []
    ensures Tabla(ms[1..]) && SinClave(ms[1..], ms[0].0)
  {
    var r := ms[1..];
    forall i, j | 0 <= i < j < |r|
      ensures r[i].0 != r[j].0
    {
      assert r[i] == ms[i + 1] && r[j] == ms[j + 1];
    }
    forall i | 0 <= i < |r|
      ensures r[i].0 != ms[0].0
    {
      assert r[i] == ms[i + 1];
    }
  }

  /** A non-empty pair whose key is new can head a well-formed table. */
  lemma TablaCons(x: Entrada, r: seq<Entrada>)
    requires Tabla(r) && SinClave(r, x.0) && x.0 != [] && x.1 != []
    ensures Tabla([x] + r)
  {
    var c := [x] + r;
    forall i, j | 0 <= i < j < |c|
      ensures c[i].0 != c[j].0
    {
      assert c[j] == r[j - 1];
      if i > 0 {
        assert c[i] == r[i - 1];
      }
    }
    forall i | 0 <= i < |c|
      ensures c[i].0 != [] && c[i].1 != []
    {
      if i > 0 {
        assert c[i] == r[i - 1];
      }
    }
  }

  /** Storing under another key does not introduce `clave`. */
  lemma {:induction false} PutSinClave(ms: seq<Entrada>, k: Bytes, v: Bytes, clave: Bytes)
    requires SinClave(ms, clave) && clave != k
    ensures SinClave(Put(ms, k, v), clave)
  {
    if ms != [] {
      var r := Put(ms, k, v);
      var resto := ms[1..];
      assert SinClave(resto, clave) by {
        forall i | 0 <= i < |resto|
          ensures resto[i].0 != clave
        {
          assert resto[i] == ms[i + 1];
        }
      }
      if ms[0].0 != k {
        PutSinClave(resto, k, v, clave);
        assert r == [ms[0]] + Put(resto, k, v);
        forall i | 0 <= i < |r|
          ensures r[i].0 != clave
        {
          if i > 0 {
            assert r[i] == Put(resto, k, v)[i - 1];
          }
        }
      } else {
        assert r == [(k, v)] + resto;
        forall i | 0 <= i < |r|
          ensures r[i].0 != clave
        {
          if i > 0 {
            assert r[i] == resto[i - 1];
          }
        }
      }
    }
  }

  /** Storing a non-empty pair keeps the table well formed. */
  lemma {:induction false} PutTabla(ms: seq<Entrada>, k: Bytes, v: Bytes)
    requires Tabla(ms) && k != [] && v != []
    ensures Tabla(Put(ms, k, v))
  {
    if ms == [] {
      TablaCons((k, v), []);
      assert Put(ms, k, v) == [(k, v)] + [];
    } else {
      TablaCola(ms);
      var resto := ms[1..];
      if ms[0].0 != k {
        PutTabla(resto, k, v);
        PutSinClave(resto, k, v, ms[0].0);
        TablaCons(ms[0], Put(resto, k, v));
      } else {
        TablaCons((k, v), resto);
      }
    }
  }

  /**
    `messages[k] = v` on a well-formed table with a non-empty pair: the table
    stays well formed, the key maps to the new translation, every other key
    keeps its own, and no entry appears from elsewhere.
   */
  lemma PutCorrecto(ms: seq<Entrada>, k: Bytes, v: Bytes)
    requires Tabla(ms) && k != [] && v != []
    ensures Tabla(Put(ms, k, v))
    ensures Buscar(Put(ms, k, v), k) == Some(v)
    ensures forall k' :: k' != k ==> Buscar(Put(ms, k, v), k') == Buscar(ms, k')
    ensures forall e :: e in Put(ms, k, v) ==> e == (k, v) || e in ms
  {
    PutTabla(ms, k, v);
    PutBuscar(ms, k, v);
    PutMiembros(ms, k, v);
  }

  /** `del messages['']`: drops the entry with the empty key. */
  function QuitarVacia(ms: seq<Entrada>): (r: seq<Entrada>)
    ensures forall e :: e in r <==> e in ms && e.0 != []
  {
    if ms == [] then []
    else (if ms[0].0 == [] then [] else [ms[0]]) + QuitarVacia(ms[1..])
  }

  /** On a well-formed table the deletion of the empty key changes nothing. */
  lemma {:induction false} QuitarVaciaSinEfecto(ms: seq<Entrada>)
    requires forall i :: 0 <= i < |ms| ==> ms[i].0 != []
    ensures QuitarVacia(ms) == ms
  {
    if ms != [] {
      QuitarVaciaSinEfecto(ms[1..]);
    }
  }

  // ---------------------------------------------------------------------------
  // Reading the .po lines.

  /** The reader's state: the table so far and the pending msgid and msgstr. */
  datatype Estado = Estado(mensajes: seq<Entrada>, msgid: Option<Bytes>, msgstr: Option<Bytes>)

  const Inicial: Estado := Estado([], None, None)

  /** `current_msgid and current_msgstr`: both present and non-empty. */
  predicate Completo(msgid: Option<Bytes>, msgstr: Option<Bytes>) {
    msgid.Some? && msgid.value != [] && msgstr.Some? && msgstr.value != []
  }

  /** The table with the pending entry stored, when it is complete. */
  function Volcar(e: Estado): seq<Entrada> {
    if Completo(e.msgid, e.msgstr) then Put(e.mensajes, e.msgid.value, e.msgstr.value) else e.mensajes
  }

  /**
    One line. A comment or blank line stores a complete pending entry and
    clears it; `msgid "` stores a complete pending entry and starts a new
    one; `msgstr "` sets the translation; a quoted line continues the
    translation once one has started and the msgid otherwise, which fails
    (Python's TypeError) when there is neither; anything else is ignored.
   */
  function Paso(e: Estado, linea: Bytes): Option<Estado> {
    var l := Strip(linea);
    if l == [] || l[0] == Almohadilla then
      Some(if Completo(e.msgid, e.msgstr) then Estado(Volcar(e), None, None) else e)
    else if EmpiezaCon(l, PrefijoMsgid) then
      Some(Estado(Volcar(e), Some(Cuerpo(l, 7)), None))
    else if EmpiezaCon(l, PrefijoMsgstr) then
      Some(e.(msgstr := Some(Cuerpo(l, 8))))
    else if EmpiezaCon(l, [Comilla]) && TerminaCon(l, [Comilla]) then
      var texto := Cuerpo(l, 1);
      if e.msgstr.Some? then Some(e.(msgstr := Some(e.msgstr.value + texto)))
      else if e.msgid.Some? then Some(e.(msgid := Some(e.msgid.value + texto)))
      else None
    else Some(e)
  }

  /** The state after reading all of `lineas`, None when a line fails. */
  function Recorrer(e: Estado, lineas: seq<Bytes>): Option<Estado>
    decreases |lineas|
  {
    if lineas == [] then Some(e)
    else match Paso(e, lineas[0])
      case None => None
      case Some(e') => Recorrer(e', lineas[1..])
  }

  /** The table a .po file yields: the last pending entry is stored and the empty key dropped. */
  function Mensajes(lineas: seq<Bytes>): Option<seq<Entrada>> {
    match Recorrer(Inicial, lineas)
    case None => None
    case Some(e) => Some(QuitarVacia(Volcar(e)))
  }

  lemma RecorrerUno(e: Estado, lineas: seq<Bytes>)
    requires lineas != []
    ensures Paso(e, lineas[0]).None? ==> Recorrer(e, lineas) == None
    ensures Paso(e, lineas[0]).Some? ==> Recorrer(e, lineas) == Recorrer(Paso(e, lineas[0]).value, lineas[1..])
  {
  }

  /** The parse loop. */
  method Parsear(lineas: seq<Bytes>) returns (r: Option<seq<Entrada>>)
    ensures r == Mensajes(lineas)
  {
    var mensajes: seq<Entrada> := [];
    var msgid: Option<Bytes> := None;
    var msgstr: Option<Bytes> := None;
    var i := 0;
    while i < |lineas|
      invariant 0 <= i <= |lineas|
      invariant Recorrer(Inicial, lineas) == Recorrer(Estado(mensajes, msgid, msgstr), lineas[i..])
    {
      ghost var sig := Paso(Estado(mensajes, msgid, msgstr), lineas[i]);
      RecorrerUno(Estado(mensajes, msgid, msgstr), lineas[i..]);
      assert lineas[i..][0] == lineas[i];
      assert lineas[i..][1..] == lineas[i + 1..];
      var linea := Strip(lineas[i]);
      if linea == [] || linea[0] == Almohadilla {
        if Completo(msgid, msgstr) {
          mensajes := Put(mensajes, msgid.value, msgstr.value);
          msgid := None;
          msgstr := None;
        }
      } else if EmpiezaCon(linea, PrefijoMsgid) {
        if Completo(msgid, msgstr) {
          mensajes := Put(mensajes, msgid.value, msgstr.value);
        }
        msgid := Some(Cuerpo(linea, 7));
        msgstr := None;
      } else if EmpiezaCon(linea, PrefijoMsgstr) {
        msgstr := Some(Cuerpo(linea, 8));
      } else if EmpiezaCon(linea, [Comilla]) && TerminaCon(linea, [Comilla]) {
        var texto := Cuerpo(linea, 1);
        if msgstr.None? {
          if msgid.None? {
            assert sig.None?;
            return None;
          }
          msgid := Some(msgid.value + texto);
        } else {
          msgstr := Some(msgstr.value + texto);
        }
      }
      assert sig == Some(Estado(mensajes, msgid, msgstr));
      i := i + 1;
    }
    if Completo(msgid, msgstr) {
      mensajes := Put(mensajes, msgid.value, msgstr.value);
    }
    r := Some(QuitarVacia(mensajes));
  }

  /** Every step keeps the table well formed. */
  lemma PasoPreservaTabla(e: Estado, linea: Bytes)
    requires Tabla(e.mensajes)
    ensures Paso(e, linea).Some? ==> Tabla(Paso(e, linea).value.mensajes)
  {
    if Completo(e.msgid, e.msgstr) {
      PutCorrecto(e.mensajes, e.msgid.value, e.msgstr.value);
    }
  }

  lemma {:induction false} RecorrerPreservaTabla(e: Estado, lineas: seq<Bytes>)
    requires Tabla(e.mensajes)
    ensures Recorrer(e, lineas).Some? ==> Tabla(Recorrer(e, lineas).value.mensajes)
    decreases |lineas|
  {
    if lineas != [] {
      PasoPreservaTabla(e, lineas[0]);
      if Paso(e, lineas[0]).Some? {
        RecorrerPreservaTabla(Paso(e, lineas[0]).value, lineas[1..]);
      }
    }
  }

  /**
    A .po file that reads without error yields a well-formed table: no empty
    key, no empty translation and no key twice. The deletion of the empty key
    never has anything to delete.
   */
  lemma MensajesBienFormados(lineas: seq<Bytes>)
    ensures Mensajes(lineas).Some? ==> Tabla(Mensajes(lineas).value)
    ensures Recorrer(Inicial, lineas).Some? ==>
      Mensajes(lineas) == Some(Volcar(Recorrer(Inicial, lineas).value))
  {
    RecorrerPreservaTabla(Inicial, lineas);
    if Recorrer(Inicial, lineas).Some? {
      var e := Recorrer(Inicial, lineas).value;
      if Completo(e.msgid, e.msgstr) {
        PutCorrecto(e.mensajes, e.msgid.value, e.msgstr.value);
      }
      QuitarVaciaSinEfecto(Volcar(e));
    }
  }

  // ---------------------------------------------------------------------------
  // Sorting the keys (Python's `sorted`, byte-wise on the UTF-8 encoding,
  // which orders exactly as code points do).

  /** Lexicographic byte order: a proper prefix comes first. */
  predicate Menor(a: Bytes, b: Bytes)
    decreases |a|
  {
    if a == [] then b != []
    else b != [] && (a[0] < b[0] || (a[0] == b[0] && Menor(a[1..], b[1..])))
  }

  lemma {:induction false} MenorIrreflexivo(a: Bytes)
    ensures !Menor(a, a)
    decreases |a|
  {
    if a != [] {
      MenorIrreflexivo(a[1..]);
    }
  }

  lemma {:induction false} MenorTransitivo(a: Bytes, b: Bytes, c: Bytes)
    requires Menor(a, b) && Menor(b, c)
    ensures Menor(a, c)
    decreases |a|
  {
    if a != [] && a[0] == b[0] && b[0] == c[0] {
      MenorTransitivo(a[1..], b[1..], c[1..]);
    }
  }

  lemma {:induction false} MenorTotal(a: Bytes, b: Bytes)
    ensures a == b || Menor(a, b) || Menor(b, a)
    decreases |a|
  {
    if a != [] && b != [] && a[0] == b[0] {
      MenorTotal(a[1..], b[1..]);
      if a[1..] == b[1..] {
        assert a == [a[0]] + a[1..] && b == [b[0]] + b[1..];
      }
    }
  }

  /** Entries in strictly increasing key order. */
  predicate Ordenada(ms: seq<Entrada>) {
    forall i, j :: 0 <= i < j < |ms| ==> Menor(ms[i].0, ms[j].0)
  }

  /** Inserts `e` into a sorted sequence, before the first larger key. */
  function InsertarOrdenado(e: Entrada, ms: seq<Entrada>): seq<Entrada> {
    if ms == [] then [e]
    else if Menor(e.0, ms[0].0) then [e] + ms
    else [ms[0]] + InsertarOrdenado(e, ms[1..])
  }

  /** Insertion sort by key. */
  function Ordenar(ms: seq<Entrada>): seq<Entrada> {
    if ms == [] then [] else InsertarOrdenado(ms[0], Ordenar(ms[1..]))
  }

  /** A sorted sequence stays sorted under a head whose key is below every key in it. */
  lemma OrdenadaCons(x: Entrada, r: seq<Entrada>)
    requires Ordenada(r)
    requires forall y :: y in r ==> Menor(x.0, y.0)
    ensures Ordenada([x] + r)
  {
    var c := [x] + r;
    forall i, j | 0 <= i < j < |c|
      ensures Menor(c[i].0, c[j].0)
    {
      assert c[j] == r[j - 1];
      if i > 0 {
        assert c[i] == r[i - 1];
      } else {
        assert c[j] in r;
      }
    }
  }

  /** Insertion adds `e` and keeps every other entry. */
  lemma {:induction false} InsertarMiembros(e: Entrada, ms: seq<Entrada>)
    ensures forall x :: x in InsertarOrdenado(e, ms) <==> x == e || x in ms
    ensures multiset(InsertarOrdenado(e, ms)) == multiset(ms) + multiset{e}
  {
    if ms != [] && !Menor(e.0, ms[0].0) {
      InsertarMiembros(e, ms[1..]);
      assert ms == [ms[0]] + ms[1..];
    }
  }

  /** Insertion of a new key into a sorted sequence keeps it sorted. */
  lemma {:induction false} InsertarOrdena(e: Entrada, ms: seq<Entrada>)
    requires Ordenada(ms)
    requires forall i :: 0 <= i < |ms| ==> ms[i].0 != e.0
    ensures Ordenada(InsertarOrdenado(e, ms))
  {
    if ms == [] {
    } else if Menor(e.0, ms[0].0) {
      forall y | y in ms
        ensures Menor(e.0, y.0)
      {
        var j :| 0 <= j < |ms| && ms[j] == y;
        if j > 0 {
          MenorTransitivo(e.0, ms[0].0, y.0);
        }
      }
      OrdenadaCons(e, ms);
    } else {
      var resto := ms[1..];
      assert Ordenada(resto) by {
        forall i, j | 0 <= i < j < |resto|
          ensures Menor(resto[i].0, resto[j].0)
        {
          assert resto[i] == ms[i + 1] && resto[j] == ms[j + 1];
        }
      }
      forall i | 0 <= i < |resto|
        ensures resto[i].0 != e.0
      {
        assert resto[i] == ms[i + 1];
      }
      InsertarOrdena(e, resto);
      InsertarMiembros(e, resto);
      MenorTotal(e.0, ms[0].0);
      var ins := InsertarOrdenado(e, resto);
      forall y | y in ins
        ensures Menor(ms[0].0, y.0)
      {
        if y != e {
          var j :| 0 <= j < |resto| && resto[j] == y;
          assert ms[j + 1] == y;
        }
      }
      OrdenadaCons(ms[0], ins);
    }
  }

  /** Inserting a new key into a sorted sequence keeps it sorted and adds exactly that entry. */
  lemma InsertarOrdenadoCorrecto(e: Entrada, ms: seq<Entrada>)
    requires Ordenada(ms)
    requires forall i :: 0 <= i < |ms| ==> ms[i].0 != e.0
    ensures Ordenada(InsertarOrdenado(e, ms))
    ensures multiset(InsertarOrdenado(e, ms)) == multiset(ms) + multiset{e}
  {
    InsertarOrdena(e, ms);
    InsertarMiembros(e, ms);
  }

  /** Sorting keeps exactly the entries of the table. */
  lemma {:induction false} OrdenarMiembros(ms: seq<Entrada>)
    ensures forall x :: x in Ordenar(ms) <==> x in ms
  {
    if ms != [] {
      OrdenarMiembros(ms[1..]);
      InsertarMiembros(ms[0], Ordenar(ms[1..]));
      assert ms == [ms[0]] + ms[1..];
    }
  }

  /** Sorting a table with distinct keys orders it strictly and keeps exactly its entries. */
  lemma {:induction false} OrdenarCorrecto(ms: seq<Entrada>)
    requires forall i, j :: 0 <= i < j < |ms| ==> ms[i].0 != ms[j].0
    ensures Ordenada(Ordenar(ms))
    ensures multiset(Ordenar(ms)) == multiset(ms)
  {
    if ms != [] {
      var resto := ms[1..];
      forall i, j | 0 <= i < j < |resto|
        ensures resto[i].0 != resto[j].0
      {
        assert resto[i] == ms[i + 1] && resto[j] == ms[j + 1];
      }
      OrdenarCorrecto(resto);
      var o := Ordenar(resto);
      OrdenarMiembros(resto);
      forall i | 0 <= i < |o| ensures o[i].0 != ms[0].0 {
        assert o[i] in resto;
        var t :| 0 <= t < |resto| && resto[t] == o[i];
        assert ms[t + 1] == o[i];
      }
      InsertarOrdenadoCorrecto(ms[0], o);
      assert ms == [ms[0]] + resto;
    }
  }

  // ---------------------------------------------------------------------------
  // The .mo layout.

  const Magia: int := 0x950412de

  /** The seven header words for `n` entries. */
  function Cabecera(n: nat): (h: seq<int>)
    ensures |h| == 7
  {
    [Magia, 0, n, 28, 28 + 8 * n, 0, 0]
  }

  /** Each string followed by a NUL byte, all concatenated. */
  function ConNulos(ss: seq<Bytes>): Bytes {
    if ss == [] then [] else ConNulos(ss[..|ss| - 1]) + ss[|ss| - 1] + [0]
  }

  /** The (length, offset) descriptor words of `ss` when the strings start at `inicio`. */
  function Descriptores(ss: seq<Bytes>, inicio: int): (d: seq<int>)
    ensures |d| == 2 * |ss|
  {
    if ss == [] then []
    else Descriptores(ss[..|ss| - 1], inicio) + [|ss[|ss| - 1]|, inicio + |ConNulos(ss[..|ss| - 1])|]
  }

  /** The .mo file: 32-bit words (header and both descriptor tables) followed by the string bytes. */
  datatype Mo = Mo(palabras: seq<int>, datos: Bytes)

  /**
    `mo` lays out `entradas`: the header, the original-string descriptors, the
    translation descriptors, then every original and every translation with
    its NUL; strings start right after the tables, at byte 28 + 16N.
   */
  predicate Disposicion(entradas: seq<Entrada>, mo: Mo) {
    var n := |entradas|;
    var claves := Claves(entradas);
    var base := 28 + 16 * n;
    mo.palabras == Cabecera(n) + Descriptores(claves, base) +
                   Descriptores(Valores(entradas), base + |ConNulos(claves)|) &&
    mo.datos == ConNulos(claves) + ConNulos(Valores(entradas))
  }

  /** Extending the laid-out prefix by one string. */
  lemma Extender(ss: seq<Bytes>, i: nat, inicio: int)
    requires i < |ss|
    ensures ConNulos(ss[..i + 1]) == ConNulos(ss[..i]) + ss[i] + [0]
    ensures Descriptores(ss[..i + 1], inicio) == Descriptores(ss[..i], inicio) + [|ss[i]|, inicio + |ConNulos(ss[..i])|]
  {
    assert ss[..i + 1][..i] == ss[..i];
    assert ss[..i + 1][i] == ss[i];
  }

  /**
    Writes the (length, offset) descriptor of every string of `ss`, the
    first at offset `inicio`, each next one past the previous string and its
    NUL; `fin` is the offset after the last string.
   */
  method EscribirDescriptores(ss: seq<Bytes>, inicio: int) returns (d: seq<int>, fin: int)
    ensures d == Descriptores(ss, inicio)
    ensures fin == inicio + |ConNulos(ss)|
  {
    d := [];
    fin := inicio;
    var i := 0;
    while i < |ss|
      invariant 0 <= i <= |ss|
      invariant d == Descriptores(ss[..i], inicio)
      invariant fin == inicio + |ConNulos(ss[..i])|
    {
      Extender(ss, i, inicio);
      d := d + [|ss[i]|, fin];
      fin := fin + |ss[i]| + 1;
      i := i + 1;
    }
    assert ss[..i] == ss;
  }

  /** Lays out the sorted entries. */
  method Serializar(entradas: seq<Entrada>) returns (mo: Mo)
    ensures Disposicion(entradas, mo)
  {
    var n := |entradas|;
    var claves := Claves(entradas);
    var valores := Valores(entradas);
    var base := 28 + 16 * n;
    var originales, inicioValores := EscribirDescriptores(claves, base);
    var traducciones, _ := EscribirDescriptores(valores, inicioValores);
    mo := Mo(Cabecera(n) + originales + traducciones, ConNulos(claves) + ConNulos(valores));
  }

  /** The bytes taken by the strings and their terminators. */
  function Tamano(ss: seq<Bytes>): nat {
    if ss == [] then 0 else Tamano(ss[..|ss| - 1]) + |ss[|ss| - 1]| + 1
  }

  /** `datos` holds the string `s` at byte `o`, followed by a NUL. */
  predicate Almacena(datos: Bytes, o: int, s: Bytes) {
    0 <= o && o + |s| < |datos| && datos[o..o + |s|] == s && datos[o + |s|] == 0
  }

  /** What is stored stays stored when bytes are appended. */
  lemma AlmacenaExtender(c: Bytes, e: Bytes, o: int, s: Bytes)
    requires Almacena(c, o, s)
    ensures Almacena(c + e, o, s)
  {
    assert (c + e)[o..o + |s|] == c[o..o + |s|];
  }

  /** A string written after `c` with its NUL is stored at `|c|`. */
  lemma AlmacenaUltima(c: Bytes, s: Bytes)
    ensures Almacena(c + s + [0], |c|, s)
  {
    assert (c + s + [0])[|c|..|c| + |s|] == s;
  }

  /** What a block stores, the data holding that block at byte `a` stores `a` bytes later. */
  lemma AlmacenaDentro(datos: Bytes, c: Bytes, a: nat, o: int, s: Bytes)
    requires a + |c| <= |datos| && datos[a..a + |c|] == c
    requires Almacena(c, o, s)
    ensures Almacena(datos, a + o, s)
  {
    assert c[o + |s|] == datos[a..a + |c|][o + |s|];
    forall k | 0 <= k < |s|
      ensures datos[a + o..a + o + |s|][k] == s[k]
    {
      assert c[o..o + |s|][k] == s[k];
      assert datos[a..a + |c|][o + k] == c[o + k];
    }
  }

  /**
    Descriptor `i` records the length of string `i`, without its NUL, and an
    offset that is the previous offset plus the previous length plus one; at
    that offset the data holds string `i` followed by a NUL.
   */
  lemma {:induction false} DescriptorApunta(ss: seq<Bytes>, inicio: int, i: nat)
    requires i < |ss|
    ensures var d := Descriptores(ss, inicio);
      d[2 * i] == |ss[i]| && Almacena(ConNulos(ss), d[2 * i + 1] - inicio, ss[i]) &&
      (i > 0 ==> d[2 * i + 1] == d[2 * i - 1] + d[2 * i - 2] + 1)
    decreases |ss|
  {
    var init := ss[..|ss| - 1];
    var c := ConNulos(init);
    if i < |ss| - 1 {
      DescriptorApunta(init, inicio, i);
      assert init[i] == ss[i];
      if i > 0 {
        assert init[i - 1] == ss[i - 1];
      }
      AlmacenaExtender(c, ss[|ss| - 1] + [0], Descriptores(init, inicio)[2 * i + 1] - inicio, ss[i]);
      assert c + (ss[|ss| - 1] + [0]) == ConNulos(ss);
    } else {
      AlmacenaUltima(c, ss[i]);
      if i > 0 {
        var init2 := init[..|init| - 1];
        assert Descriptores(init, inicio)[2 * i - 1] == inicio + |ConNulos(init2)|;
        assert init[i - 1] == ss[i - 1];
      }
    }
  }

  /** The strings with their terminators take Σ(|s| + 1) bytes. */
  lemma {:induction false} TamanoConNulos(ss: seq<Bytes>)
    ensures |ConNulos(ss)| == Tamano(ss)
    decreases |ss|
  {
    if ss != [] {
      TamanoConNulos(ss[..|ss| - 1]);
    }
  }

  /**
    The output starts with the seven header words, and the file is
    28 + 16N + Σ(|id| + 1) + Σ(|str| + 1) bytes long.
   */
  lemma CabeceraYTamano(entradas: seq<Entrada>, mo: Mo)
    requires Disposicion(entradas, mo)
    ensures mo.palabras[..7] == [Magia, 0, |entradas|, 28, 28 + 8 * |entradas|, 0, 0]
    ensures 4 * |mo.palabras| + |mo.datos| ==
      28 + 16 * |entradas| + Tamano(Claves(entradas)) + Tamano(Valores(entradas))
  {
    TamanoConNulos(Claves(entradas));
    TamanoConNulos(Valores(entradas));
  }

  /** The middle part of a three-part concatenation. */
  lemma EnMedio<T>(x: seq<T>, d: seq<T>, y: seq<T>)
    ensures (x + d + y)[|x|..|x| + |d|] == d
  {
  }

  /** An element of the middle part of a three-part concatenation. */
  lemma EnMedioIndice<T>(x: seq<T>, d: seq<T>, y: seq<T>, k: nat)
    requires k < |d|
    ensures (x + d + y)[|x| + k] == d[k]
  {
  }

  /**
    Words `x + Descriptores(ss, inicio + |u|) + y` and data `u + ConNulos(ss) + w`:
    descriptor `i` of the table holds the length of string `i` and `inicio`
    plus the byte position where the data holds that string and its NUL.
   */
  lemma Apunta(x: seq<int>, y: seq<int>, u: Bytes, w: Bytes, ss: seq<Bytes>, inicio: int, i: nat)
    requires i < |ss|
    ensures var palabras := x + Descriptores(ss, inicio + |u|) + y;
      palabras[|x| + 2 * i] == |ss[i]| &&
      |u| <= palabras[|x| + 2 * i + 1] - inicio &&
      Almacena(u + ConNulos(ss) + w, palabras[|x| + 2 * i + 1] - inicio, ss[i])
  {
    var d := Descriptores(ss, inicio + |u|);
    var c := ConNulos(ss);
    DescriptorApunta(ss, inicio + |u|, i);
    EnMedioIndice(x, d, y, 2 * i);
    EnMedioIndice(x, d, y, 2 * i + 1);
    EnMedio(u, c, w);
    AlmacenaDentro(u + c + w, c, |u|, d[2 * i + 1] - (inicio + |u|), ss[i]);
  }

  /**
    The i-th original descriptor gives the length of the i-th key and the
    file offset where the key, followed by a NUL, is stored.
   */
  lemma OriginalApunta(entradas: seq<Entrada>, mo: Mo, i: nat)
    requires Disposicion(entradas, mo)
    requires i < |entradas|
    ensures mo.palabras[7 + 2 * i] == |entradas[i].0|
    ensures Almacena(mo.datos, mo.palabras[7 + 2 * i + 1] - (28 + 16 * |entradas|), entradas[i].0)
  {
    var n := |entradas|;
    var claves := Claves(entradas);
    var valores := Valores(entradas);
    var base := 28 + 16 * n;
    var c := ConNulos(claves);
    var dv := Descriptores(valores, base + |c|);
    assert mo.datos == [] + c + ConNulos(valores);
    Apunta(Cabecera(n), dv, [], ConNulos(valores), claves, base, i);
    assert claves[i] == entradas[i].0;
  }

  /**
    The i-th translation descriptor, which belongs to the same entry as the
    i-th original one, gives the length of its translation and the file
    offset where it is stored, followed by a NUL.
   */
  lemma TraduccionApunta(entradas: seq<Entrada>, mo: Mo, i: nat)
    requires Disposicion(entradas, mo)
    requires i < |entradas|
    ensures mo.palabras[7 + 2 * |entradas| + 2 * i] == |entradas[i].1|
    ensures Almacena(mo.datos, mo.palabras[7 + 2 * |entradas| + 2 * i + 1] - (28 + 16 * |entradas|), entradas[i].1)
  {
    var n := |entradas|;
    var claves := Claves(entradas);
    var valores := Valores(entradas);
    var base := 28 + 16 * n;
    var c := ConNulos(claves);
    var v := ConNulos(valores);
    assert mo.datos == c + v + [];
    Apunta(Cabecera(n) + Descriptores(claves, base), [], c, [], valores, base, i);
    assert valores[i] == entradas[i].1;
  }

  /**
    `generate_mo`: reads the lines, sorts the table by key and lays it out.
    None when a continuation line arrives with neither msgid nor msgstr.
   */
  method GenerarMo(lineas: seq<Bytes>) returns (r: Option<Mo>)
    ensures Mensajes(lineas).None? <==> r.None?
    ensures r.Some? ==>
      var entradas := Ordenar(Mensajes(lineas).value);
      Ordenada(entradas) && multiset(entradas) == multiset(Mensajes(lineas).value) &&
      Tabla(entradas) && Disposicion(entradas, r.value)
  {
    var mensajes := Parsear(lineas);
    if mensajes.None? {
      return None;
    }
    MensajesBienFormados(lineas);
    OrdenarCorrecto(mensajes.value);
    var entradas := Ordenar(mensajes.value);
    OrdenadaTabla(mensajes.value, entradas);
    var mo := Serializar(entradas);
    r := Some(mo);
  }

  /** A permutation of a well-formed table is well formed. */
  lemma OrdenadaTabla(ms: seq<Entrada>, os: seq<Entrada>)
    requires Tabla(ms) && Ordenada(os) && multiset(os) == multiset(ms)
    ensures Tabla(os)
  {
    forall i, j | 0 <= i < j < |os| ensures os[i].0 != os[j].0 {
      MenorIrreflexivo(os[i].0);
    }
    forall i | 0 <= i < |os| ensures os[i].0 != [] && os[i].1 != [] {
      assert os[i] in multiset(ms);
      var t :| 0 <= t < |ms| && ms[t] == os[i];
    }
  }
}
