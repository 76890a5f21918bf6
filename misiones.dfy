/**
  The mission engine: lazy assignment of one daily and one weekly mission,
  and progress updates that complete a mission and pay its reward once.
 */
module Misiones {
  import opened Opcion
  import opened Fechas
  import opened Models

  const Diaria: string := "diaria"
  const Semanal: string := "semanal"

  /** The active catalogue missions of one frequency, in catalogue order. */
  function Activas(catalogo: seq<Mision>, frecuencia: string): (r: seq<Mision>)
    ensures forall m :: m in r <==> m in catalogo && m.frecuencia == frecuencia && m.activo
    ensures |r| <= |catalogo|
  {
    if catalogo == [] then []
    else
      var resto := Activas(catalogo[1..], frecuencia);
      if catalogo[0].frecuencia == frecuencia && catalogo[0].activo then [catalogo[0]] + resto else resto
  }

  /** A single mission survives the filter exactly when it is active and of the frequency. */
  lemma ActivasUna(m: Mision, frecuencia: string)
    ensures Activas([m], frecuencia) == if m.frecuencia == frecuencia && m.activo then [m] else []
  {
    assert [m][1..] == [];
  }

  /** Filtering a concatenated catalogue filters each part and keeps their order. */
  lemma {:induction false} ActivasConcat(a: seq<Mision>, b: seq<Mision>, frecuencia: string)
    ensures Activas(a + b, frecuencia) == Activas(a, frecuencia) + Activas(b, frecuencia)
    decreases |a|
  {
    if a == [] {
      assert a + b == b;
    } else {
      ColaConcat(a, b);
      ActivasConcat(a[1..], b, frecuencia);
      ActivasCabeza(a + b, frecuencia);
      ActivasCabeza(a, frecuencia);
      var h := if a[0].frecuencia == frecuencia && a[0].activo then [a[0]] else [];
      Reagrupa(h, Activas(a[1..], frecuencia), Activas(b, frecuencia));
    }
  }

  /** One step of the filter: the first mission, if kept, then the rest filtered. */
  lemma ActivasCabeza(x: seq<Mision>, frecuencia: string)
    requires x != []
    ensures Activas(x, frecuencia) ==
            (if x[0].frecuencia == frecuencia && x[0].activo then [x[0]] else []) + Activas(x[1..], frecuencia)
  {
    assert [] + Activas(x[1..], frecuencia) == Activas(x[1..], frecuencia);
  }

  /** The head and tail of a concatenation whose first part is not empty. */
  lemma ColaConcat<T>(a: seq<T>, b: seq<T>)
    requires a != []
    ensures (a + b)[0] == a[0] && (a + b)[1..] == a[1..] + b
  {
  }

  /** Concatenation regrouped. */
  lemma Reagrupa<T>(h: seq<T>, x: seq<T>, y: seq<T>)
    ensures h + (x + y) == (h + x) + y
  {
  }

  /** Some daily assignment is dated `hoy`. */
  predicate TieneDiaria(ms: seq<UserMision>, hoy: Day) {
    exists i :: 0 <= i < |ms| && ms[i].mision.frecuencia == Diaria && ms[i].fechaAsignacion == hoy
  }

  /** Some weekly assignment is dated on or after this week's Monday. */
  predicate TieneSemanal(ms: seq<UserMision>, hoy: Day) {
    exists i :: 0 <= i < |ms| && ms[i].mision.frecuencia == Semanal && ms[i].fechaAsignacion >= InicioSemana(hoy)
  }

  /** A fresh assignment of `m` on day `hoy`. */
  function Nueva(m: Mision, hoy: Day): UserMision {
    UserMision(m, 0, false, hoy)
  }

  /** The draws of `random.choice` are indices into the candidate lists. */
  predicate EleccionValida(catalogo: seq<Mision>, eleccionDiaria: nat, eleccionSemanal: nat) {
    (Activas(catalogo, Diaria) != [] ==> eleccionDiaria < |Activas(catalogo, Diaria)|) &&
    (Activas(catalogo, Semanal) != [] ==> eleccionSemanal < |Activas(catalogo, Semanal)|)
  }

  /** The daily assignment a call adds to `ms`, if any. */
  function NuevaDiaria(ms: seq<UserMision>, catalogo: seq<Mision>, hoy: Day, eleccion: nat): seq<UserMision>
    requires Activas(catalogo, Diaria) != [] ==> eleccion < |Activas(catalogo, Diaria)|
  {
    var diarias := Activas(catalogo, Diaria);
    if !TieneDiaria(ms, hoy) && diarias != [] then [Nueva(diarias[eleccion], hoy)] else []
  }

  /** The weekly assignment a call adds to `ms`, if any. */
  function NuevaSemanal(ms: seq<UserMision>, catalogo: seq<Mision>, hoy: Day, eleccion: nat): seq<UserMision>
    requires Activas(catalogo, Semanal) != [] ==> eleccion < |Activas(catalogo, Semanal)|
  {
    var semanales := Activas(catalogo, Semanal);
    if !TieneSemanal(ms, hoy) && semanales != [] then [Nueva(semanales[eleccion], hoy)] else []
  }

  /** Everything one assignment call appends to the user's missions. */
  function Asignadas(ms: seq<UserMision>, catalogo: seq<Mision>, hoy: Day, eleccionDiaria: nat, eleccionSemanal: nat): seq<UserMision>
    requires EleccionValida(catalogo, eleccionDiaria, eleccionSemanal)
  {
    var d := NuevaDiaria(ms, catalogo, hoy, eleccionDiaria);
    d + NuevaSemanal(ms + d, catalogo, hoy, eleccionSemanal)
  }

  /**
    Gives the user a daily mission if none is dated today and a weekly one if
    none is dated this week, each drawn from the active catalogue.
   */
  method AsignarMisiones(user: User, catalogo: seq<Mision>, hoy: Day, eleccionDiaria: nat, eleccionSemanal: nat)
    requires EleccionValida(catalogo, eleccionDiaria, eleccionSemanal)
    modifies user`misiones
    ensures user.misiones == old(user.misiones) + Asignadas(old(user.misiones), catalogo, hoy, eleccionDiaria, eleccionSemanal)
  {
    if !TieneDiaria(user.misiones, hoy) {
      var diarias := Activas(catalogo, Diaria);
      if diarias != [] {
        user.misiones := user.misiones + [Nueva(diarias[eleccionDiaria], hoy)];
      }
    }
    assert user.misiones == old(user.misiones) + NuevaDiaria(old(user.misiones), catalogo, hoy, eleccionDiaria);
    if !TieneSemanal(user.misiones, hoy) {
      var semanales := Activas(catalogo, Semanal);
      if semanales != [] {
        user.misiones := user.misiones + [Nueva(semanales[eleccionSemanal], hoy)];
      }
    }
  }

  /** A fresh assignment dated `hoy` of an active catalogue mission of frequency `f`. */
  predicate AsignacionNueva(u: UserMision, catalogo: seq<Mision>, hoy: Day, f: string) {
    u.progreso == 0 && !u.completada && u.fechaAsignacion == hoy &&
    u.mision in catalogo && u.mision.activo && u.mision.frecuencia == f
  }

  /** The daily part of a call: nothing when a daily is dated today, else at most one fresh daily. */
  lemma NuevaDiariaForma(ms: seq<UserMision>, catalogo: seq<Mision>, hoy: Day, e: nat)
    requires Activas(catalogo, Diaria) != [] ==> e < |Activas(catalogo, Diaria)|
    ensures var d := NuevaDiaria(ms, catalogo, hoy, e);
      |d| <= 1 && (d != [] ==> AsignacionNueva(d[0], catalogo, hoy, Diaria)) &&
      (TieneDiaria(ms, hoy) ==> d == [])
  {
    var d := NuevaDiaria(ms, catalogo, hoy, e);
    if d != [] {
      assert d[0].mision in Activas(catalogo, Diaria);
    }
  }

  /** The weekly part of a call: nothing when a weekly is dated this week, else at most one fresh weekly. */
  lemma NuevaSemanalForma(ms: seq<UserMision>, catalogo: seq<Mision>, hoy: Day, e: nat)
    requires Activas(catalogo, Semanal) != [] ==> e < |Activas(catalogo, Semanal)|
    ensures var s := NuevaSemanal(ms, catalogo, hoy, e);
      |s| <= 1 && (s != [] ==> AsignacionNueva(s[0], catalogo, hoy, Semanal)) &&
      (TieneSemanal(ms, hoy) ==> s == [])
  {
    var s := NuevaSemanal(ms, catalogo, hoy, e);
    if s != [] {
      assert s[0].mision in Activas(catalogo, Semanal);
    }
  }

  /**
    One call adds at most one daily and one weekly assignment, each a fresh
    assignment dated today of an active catalogue mission of that frequency,
    and only when the user lacks one for the current window.
   */
  lemma AsignadasAcotadas(ms: seq<UserMision>, catalogo: seq<Mision>, hoy: Day, eD: nat, eS: nat)
    requires EleccionValida(catalogo, eD, eS)
    ensures var n := Asignadas(ms, catalogo, hoy, eD, eS);
      |n| <= 2 &&
      (forall k :: 0 <= k < |n| ==>
         AsignacionNueva(n[k], catalogo, hoy, Diaria) || AsignacionNueva(n[k], catalogo, hoy, Semanal)) &&
      (forall k, l :: 0 <= k < l < |n| ==> n[k].mision.frecuencia != n[l].mision.frecuencia) &&
      (TieneDiaria(ms, hoy) ==> forall k :: 0 <= k < |n| ==> n[k].mision.frecuencia != Diaria) &&
      (TieneSemanal(ms, hoy) ==> forall k :: 0 <= k < |n| ==> n[k].mision.frecuencia != Semanal)
  {
    var d := NuevaDiaria(ms, catalogo, hoy, eD);
    NuevaDiariaForma(ms, catalogo, hoy, eD);
    TieneSemanalCrece(ms, d, hoy);
    var s := NuevaSemanal(ms + d, catalogo, hoy, eS);
    NuevaSemanalForma(ms + d, catalogo, hoy, eS);
    var n := d + s;
    if d == [] {
      assert n == s;
    } else if s == [] {
      assert n == d;
    } else {
      assert n == [d[0], s[0]];
    }
  }

  /** A weekly assignment dated this week is still there after appending. */
  lemma TieneSemanalCrece(ms: seq<UserMision>, d: seq<UserMision>, hoy: Day)
    ensures TieneSemanal(ms, hoy) ==> TieneSemanal(ms + d, hoy)
  {
    if TieneSemanal(ms, hoy) {
      var i :| 0 <= i < |ms| && ms[i].mision.frecuencia == Semanal && ms[i].fechaAsignacion >= InicioSemana(hoy);
      assert (ms + d)[i] == ms[i];
    }
  }

  /** When the user lacks a mission for a window and the catalogue offers one, the call fills it. */
  lemma AsignadasCubren(ms: seq<UserMision>, catalogo: seq<Mision>, hoy: Day, eD: nat, eS: nat)
    requires EleccionValida(catalogo, eD, eS)
    ensures var ms' := ms + Asignadas(ms, catalogo, hoy, eD, eS);
      (Activas(catalogo, Diaria) != [] ==> TieneDiaria(ms', hoy)) &&
      (Activas(catalogo, Semanal) != [] ==> TieneSemanal(ms', hoy))
  {
    var d := NuevaDiaria(ms, catalogo, hoy, eD);
    var s := NuevaSemanal(ms + d, catalogo, hoy, eS);
    var ms' := ms + d + s;
    assert ms + Asignadas(ms, catalogo, hoy, eD, eS) == ms';
    if Activas(catalogo, Diaria) != [] {
      if TieneDiaria(ms, hoy) {
        var i :| 0 <= i < |ms| && ms[i].mision.frecuencia == Diaria && ms[i].fechaAsignacion == hoy;
        assert ms'[i] == ms[i];
      } else {
        assert ms'[|ms|] == d[0];
        assert d[0].mision in Activas(catalogo, Diaria);
      }
    }
    if Activas(catalogo, Semanal) != [] {
      if TieneSemanal(ms + d, hoy) {
        var i :| 0 <= i < |ms + d| && (ms + d)[i].mision.frecuencia == Semanal && (ms + d)[i].fechaAsignacion >= InicioSemana(hoy);
        assert ms'[i] == (ms + d)[i];
      } else {
        assert ms'[|ms + d|] == s[0];
        assert s[0].mision in Activas(catalogo, Semanal);
      }
    }
  }

  /** A second call on the same day (with any draws) assigns nothing. */
  lemma AsignarIdempotente(ms: seq<UserMision>, catalogo: seq<Mision>, hoy: Day, eD: nat, eS: nat, eD2: nat, eS2: nat)
    requires EleccionValida(catalogo, eD, eS) && EleccionValida(catalogo, eD2, eS2)
    ensures Asignadas(ms + Asignadas(ms, catalogo, hoy, eD, eS), catalogo, hoy, eD2, eS2) == []
  {
    var ms' := ms + Asignadas(ms, catalogo, hoy, eD, eS);
    AsignadasCubren(ms, catalogo, hoy, eD, eS);
    assert NuevaDiaria(ms', catalogo, hoy, eD2) == [];
    assert ms' + [] == ms';
  }

  // ---------------------------------------------------------------------------
  // Progress

  /** The assignment lies in its current window: dated today if daily, this week if weekly. */
  predicate EnVentana(um: UserMision, hoy: Day) {
    (um.mision.frecuencia == Diaria && um.fechaAsignacion == hoy) ||
    (um.mision.frecuencia == Semanal && um.fechaAsignacion >= InicioSemana(hoy))
  }

  /** The assignments a progress update touches. */
  predicate Seleccionada(um: UserMision, tipoAccion: string, hoy: Day) {
    !um.completada && um.mision.tipo == tipoAccion && EnVentana(um, hoy)
  }

  /** A touched assignment that reaches its goal in this update. */
  predicate Completa(um: UserMision, tipoAccion: string, cantidad: int, hoy: Day) {
    Seleccionada(um, tipoAccion, hoy) && um.progreso + cantidad >= um.mision.objetivo
  }

  /** One assignment after a progress update. */
  function Avanzar(um: UserMision, tipoAccion: string, cantidad: int, hoy: Day): UserMision {
    if Seleccionada(um, tipoAccion, hoy) then
      var progreso := um.progreso + cantidad;
      um.(progreso := progreso, completada := progreso >= um.mision.objetivo)
    else um
  }

  /** All assignments after a progress update. */
  function AvanzarTodas(ms: seq<UserMision>, tipoAccion: string, cantidad: int, hoy: Day): (r: seq<UserMision>)
    ensures |r| == |ms|
    ensures forall i :: 0 <= i < |ms| ==> r[i] == Avanzar(ms[i], tipoAccion, cantidad, hoy)
  {
    seq(|ms|, i requires 0 <= i < |ms| => Avanzar(ms[i], tipoAccion, cantidad, hoy))
  }

  /** The missions completed by a progress update, in assignment order. */
  function Completadas(ms: seq<UserMision>, tipoAccion: string, cantidad: int, hoy: Day): seq<Mision> {
    if ms == [] then []
    else
      (if Completa(ms[0], tipoAccion, cantidad, hoy) then [ms[0].mision] else []) +
      Completadas(ms[1..], tipoAccion, cantidad, hoy)
  }

  /** Total reward of a list of missions. */
  function Recompensa(ms: seq<Mision>): int {
    if ms == [] then 0 else ms[0].recompensaPuntos + Recompensa(ms[1..])
  }

  /** The part of the rewards that raises the historic total (positive amounts only). */
  function RecompensaPositiva(ms: seq<Mision>): int {
    if ms == [] then 0
    else (if ms[0].recompensaPuntos > 0 then ms[0].recompensaPuntos else 0) + RecompensaPositiva(ms[1..])
  }

  /** The description of a mission reward transaction. */
  function DescripcionRecompensa(m: Mision): string {
    "Recompensa por misión: " + m.nombre
  }

  /** The transactions that paying the rewards of `ms` logs. */
  function TransaccionesRecompensa(ms: seq<Mision>): seq<Transaction> {
    if ms == [] then []
    else [Transaction("mision", ms[0].recompensaPuntos, DescripcionRecompensa(ms[0]))] + TransaccionesRecompensa(ms[1..])
  }

  lemma {:induction false} RecompensaSuma(a: seq<Mision>, b: seq<Mision>)
    ensures Recompensa(a + b) == Recompensa(a) + Recompensa(b)
    ensures RecompensaPositiva(a + b) == RecompensaPositiva(a) + RecompensaPositiva(b)
  {
    if a == [] {
      assert a + b == b;
    } else {
      var c := a + b;
      assert c[0] == a[0] && c[1..] == a[1..] + b;
      RecompensaSuma(a[1..], b);
    }
  }

  lemma {:induction false} TransaccionesConcat(a: seq<Mision>, b: seq<Mision>)
    ensures TransaccionesRecompensa(a + b) == TransaccionesRecompensa(a) + TransaccionesRecompensa(b)
  {
    if a == [] {
      assert a + b == b;
    } else {
      var c := a + b;
      assert c[0] == a[0] && c[1..] == a[1..] + b;
      TransaccionesConcat(a[1..], b);
      var t := [Transaction("mision", a[0].recompensaPuntos, DescripcionRecompensa(a[0]))];
      assert TransaccionesRecompensa(c) == t + TransaccionesRecompensa(a[1..] + b);
      assert TransaccionesRecompensa(a) == t + TransaccionesRecompensa(a[1..]);
    }
  }

  /** Rewards, their positive part and their transactions all distribute over concatenation. */
  lemma RecompensaConcat(a: seq<Mision>, b: seq<Mision>)
    ensures Recompensa(a + b) == Recompensa(a) + Recompensa(b)
    ensures RecompensaPositiva(a + b) == RecompensaPositiva(a) + RecompensaPositiva(b)
    ensures TransaccionesRecompensa(a + b) == TransaccionesRecompensa(a) + TransaccionesRecompensa(b)
  {
    RecompensaSuma(a, b);
    TransaccionesConcat(a, b);
  }

  /** The missions completed by an update of a single assignment. */
  function CompletadasUna(um: UserMision, tipoAccion: string, cantidad: int, hoy: Day): seq<Mision> {
    if Completa(um, tipoAccion, cantidad, hoy) then [um.mision] else []
  }

  lemma {:induction false} CompletadasConcat(a: seq<UserMision>, b: seq<UserMision>, tipoAccion: string, cantidad: int, hoy: Day)
    ensures Completadas(a + b, tipoAccion, cantidad, hoy) ==
            Completadas(a, tipoAccion, cantidad, hoy) + Completadas(b, tipoAccion, cantidad, hoy)
  {
    if a == [] {
      assert a + b == b;
    } else {
      var c := a + b;
      assert c[0] == a[0];
      assert c[1..] == a[1..] + b;
      CompletadasConcat(a[1..], b, tipoAccion, cantidad, hoy);
      var x := CompletadasUna(a[0], tipoAccion, cantidad, hoy);
      assert Completadas(c, tipoAccion, cantidad, hoy) == x + Completadas(a[1..] + b, tipoAccion, cantidad, hoy);
      assert Completadas(a, tipoAccion, cantidad, hoy) == x + Completadas(a[1..], tipoAccion, cantidad, hoy);
    }
  }

  /** The bookkeeping of one iteration of the progress loop. */
  lemma PasoProgreso(ms0: seq<UserMision>, i: nat, tipoAccion: string, cantidad: int, hoy: Day)
    requires i < |ms0|
    ensures (AvanzarTodas(ms0[..i], tipoAccion, cantidad, hoy) + ms0[i..])[i := Avanzar(ms0[i], tipoAccion, cantidad, hoy)] ==
            AvanzarTodas(ms0[..i + 1], tipoAccion, cantidad, hoy) + ms0[i + 1..]
    ensures Completadas(ms0[..i + 1], tipoAccion, cantidad, hoy) ==
            Completadas(ms0[..i], tipoAccion, cantidad, hoy) + Completadas([ms0[i]], tipoAccion, cantidad, hoy)
  {
    assert ms0[..i + 1] == ms0[..i] + [ms0[i]];
    CompletadasConcat(ms0[..i], [ms0[i]], tipoAccion, cantidad, hoy);
    var antes := AvanzarTodas(ms0[..i], tipoAccion, cantidad, hoy) + ms0[i..];
    var despues := AvanzarTodas(ms0[..i + 1], tipoAccion, cantidad, hoy) + ms0[i + 1..];
    assert |antes[i := Avanzar(ms0[i], tipoAccion, cantidad, hoy)]| == |despues|;
    forall k | 0 <= k < |despues|
      ensures antes[i := Avanzar(ms0[i], tipoAccion, cantidad, hoy)][k] == despues[k]
    {
      if k > i {
        assert despues[k] == ms0[i + 1..][k - i - 1] == ms0[k];
        assert antes[k] == ms0[i..][k - i] == ms0[k];
      }
    }
  }

  /** The part of a user's ledger that paying mission rewards changes. */
  datatype Libro = Libro(puntos: int, historicos: int, transacciones: seq<Transaction>, racha: Racha)

  /** The ledger of `user`. */
  function LibroDe(user: User): Libro
    reads user
  {
    Libro(user.puntosTotales, user.puntosHistoricos, user.transacciones, user.EstadoRacha())
  }

  /** The ledger after crediting the rewards of `ms` on day `hoy`, in order. */
  function Pagar(l: Libro, ms: seq<Mision>, hoy: Day): Libro {
    if ms == [] then l
    else
      Libro(l.puntos + Recompensa(ms), l.historicos + RecompensaPositiva(ms),
            l.transacciones + TransaccionesRecompensa(ms), SiguienteRacha(l.racha, hoy))
  }

  /** The ledger after `agregar_puntos` logs `t` on day `hoy`. */
  function Acreditar(l: Libro, t: Transaction, hoy: Day): Libro {
    Libro(l.puntos + t.puntos, l.historicos + (if t.puntos > 0 then t.puntos else 0),
          l.transacciones + [t], SiguienteRacha(l.racha, hoy))
  }

  /**
    A credit followed by mission rewards: the balance gains both, the
    historic total their positive parts, the log both entries in order, and
    the streak advances once for the day.
   */
  lemma AcreditarPagar(l: Libro, t: Transaction, ms: seq<Mision>, hoy: Day)
    ensures var l' := Pagar(Acreditar(l, t, hoy), ms, hoy);
      l'.puntos == l.puntos + t.puntos + Recompensa(ms) &&
      l'.historicos == l.historicos + (if t.puntos > 0 then t.puntos else 0) + RecompensaPositiva(ms) &&
      l'.transacciones == l.transacciones + [t] + TransaccionesRecompensa(ms) &&
      l'.racha == SiguienteRacha(l.racha, hoy)
  {
    SiguienteRachaIdempotente(l.racha, hoy);
    if ms == [] {
      assert l.transacciones + [t] + [] == l.transacciones + [t];
    }
  }

  /** Paying two batches one after the other is paying them together. */
  lemma PagarConcat(l: Libro, a: seq<Mision>, b: seq<Mision>, hoy: Day)
    ensures Pagar(Pagar(l, a, hoy), b, hoy) == Pagar(l, a + b, hoy)
  {
    if a == [] {
      assert a + b == b;
    } else if b == [] {
      assert a + b == a;
    } else {
      RecompensaConcat(a, b);
      SiguienteRachaIdempotente(l.racha, hoy);
      var r := SiguienteRacha(l.racha, hoy);
      var ta, tb := TransaccionesRecompensa(a), TransaccionesRecompensa(b);
      var la := Libro(l.puntos + Recompensa(a), l.historicos + RecompensaPositiva(a), l.transacciones + ta, r);
      assert Pagar(l, a, hoy) == la;
      assert Pagar(la, b, hoy) ==
        Libro(la.puntos + Recompensa(b), la.historicos + RecompensaPositiva(b), la.transacciones + tb, r);
      assert |a + b| > 0;
      assert l.transacciones + ta + tb == l.transacciones + (ta + tb);
    }
  }

  /**
    The progress update of the single assignment at index `i`: advances it
    and, when it completes, credits its reward through the ledger.
   */
  method ProcesarAsignacion(user: User, i: nat, tipoAccion: string, cantidad: int, hoy: Day)
    returns (pagada: seq<Mision>)
    requires i < |user.misiones|
    modifies user
    ensures pagada == Completadas([old(user.misiones[i])], tipoAccion, cantidad, hoy)
    ensures user.misiones == old(user.misiones)[i := Avanzar(old(user.misiones[i]), tipoAccion, cantidad, hoy)]
    ensures LibroDe(user) == Pagar(old(LibroDe(user)), pagada, hoy)
    ensures pagada == [] ==> user.nivel == old(user.nivel)
    ensures pagada != [] && user.puntosTotales >= 0 ==> EsNivelDe(user.nivel, user.puntosTotales)
    ensures user.HistorialIntacto()
  {
    var um := user.misiones[i];
    pagada := [];
    if Seleccionada(um, tipoAccion, hoy) {
      um := um.(progreso := um.progreso + cantidad);
      if um.progreso >= um.mision.objetivo {
        um := um.(completada := true);
        user.misiones := user.misiones[i := um];
        user.AgregarPuntos(um.mision.recompensaPuntos, "mision", DescripcionRecompensa(um.mision), hoy);
        pagada := [um.mision];
        assert pagada[1..] == [];
        assert TransaccionesRecompensa(pagada) ==
          [Transaction("mision", um.mision.recompensaPuntos, DescripcionRecompensa(um.mision))];
        assert Recompensa(pagada) == um.mision.recompensaPuntos;
        assert RecompensaPositiva(pagada) == if um.mision.recompensaPuntos > 0 then um.mision.recompensaPuntos else 0;
      }
      user.misiones := user.misiones[i := um];
    }
  }

  /**
    Adds `cantidad` to every not-yet-completed assignment of this action type
    in its current window, completes those that reach their goal and credits
    each completed mission's reward once, as a "mision" transaction; returns
    the missions completed by this call.
   */
  method ActualizarProgresoMision(user: User, tipoAccion: string, cantidad: int, hoy: Day)
    returns (completadas: seq<Mision>)
    modifies user
    ensures completadas == Completadas(old(user.misiones), tipoAccion, cantidad, hoy)
    ensures user.misiones == AvanzarTodas(old(user.misiones), tipoAccion, cantidad, hoy)
    ensures LibroDe(user) == Pagar(old(LibroDe(user)), completadas, hoy)
    ensures completadas == [] ==> user.nivel == old(user.nivel)
    ensures completadas != [] && user.puntosTotales >= 0 ==> EsNivelDe(user.nivel, user.puntosTotales)
    ensures user.HistorialIntacto()
  {
    ghost var ms0 := user.misiones;
    ghost var libro0 := LibroDe(user);
    completadas := [];
    var i := 0;
    while i < |user.misiones|
      invariant 0 <= i <= |user.misiones| == |ms0|
      invariant user.misiones == AvanzarTodas(ms0[..i], tipoAccion, cantidad, hoy) + ms0[i..]
      invariant completadas == Completadas(ms0[..i], tipoAccion, cantidad, hoy)
      invariant LibroDe(user) == Pagar(libro0, completadas, hoy)
      invariant completadas == [] ==> user.nivel == old(user.nivel)
      invariant completadas != [] && user.puntosTotales >= 0 ==> EsNivelDe(user.nivel, user.puntosTotales)
      invariant user.HistorialIntacto()
    {
      assert user.misiones[i] == ms0[i];
      PasoProgreso(ms0, i, tipoAccion, cantidad, hoy);
      var pagada := ProcesarAsignacion(user, i, tipoAccion, cantidad, hoy);
      PagarConcat(libro0, completadas, pagada, hoy);
      completadas := completadas + pagada;
      i := i + 1;
    }
    assert ms0[..i] == ms0;
  }

  /**
    What every activity handler does: `agregar_puntos` with the transaction
    `t`, then the progress update of the missions of `tipoAccion` by `avance`.
   */
  method AcreditarActividad(user: User, t: Transaction, tipoAccion: string, avance: int, hoy: Day)
    returns (completadas: seq<Mision>)
    modifies user
    ensures completadas == Completadas(old(user.misiones), tipoAccion, avance, hoy)
    ensures user.misiones == AvanzarTodas(old(user.misiones), tipoAccion, avance, hoy)
    ensures LibroDe(user) == Pagar(Acreditar(old(LibroDe(user)), t, hoy), completadas, hoy)
    ensures user.puntosTotales >= 0 ==> EsNivelDe(user.nivel, user.puntosTotales)
    ensures completadas == [] && user.puntosTotales < 0 ==> user.nivel == old(user.nivel)
    ensures user.HistorialIntacto()
  {
    user.AgregarPuntos(t.puntos, t.tipo, t.descripcion, hoy);
    assert LibroDe(user) == Acreditar(old(LibroDe(user)), t, hoy);
    completadas := ActualizarProgresoMision(user, tipoAccion, avance, hoy);
  }

  // ---------------------------------------------------------------------------
  // Properties of progress updates

  /**
    After an update an assignment is completed exactly when it already was or
    it completes in this update; a touched one gains exactly `cantidad`
    (overshooting the goal is allowed) and an untouched one is unchanged.
   */
  lemma AvanzarEfecto(um: UserMision, tipoAccion: string, cantidad: int, hoy: Day)
    ensures Avanzar(um, tipoAccion, cantidad, hoy).completada <==> um.completada || Completa(um, tipoAccion, cantidad, hoy)
    ensures Seleccionada(um, tipoAccion, hoy) ==> Avanzar(um, tipoAccion, cantidad, hoy).progreso == um.progreso + cantidad
    ensures !Seleccionada(um, tipoAccion, hoy) ==> Avanzar(um, tipoAccion, cantidad, hoy) == um
    ensures Avanzar(um, tipoAccion, cantidad, hoy).mision == um.mision
  {
  }

  /**
    The missions an update reports are exactly those of the assignments that
    complete in it, and an assignment completed earlier is never among them.
   */
  lemma {:induction false} CompletadasCaracteriza(ms: seq<UserMision>, tipoAccion: string, cantidad: int, hoy: Day)
    ensures forall m :: m in Completadas(ms, tipoAccion, cantidad, hoy) <==>
      exists i :: 0 <= i < |ms| && Completa(ms[i], tipoAccion, cantidad, hoy) && ms[i].mision == m
    ensures |Completadas(ms, tipoAccion, cantidad, hoy)| <= |ms|
  {
    if ms != [] {
      CompletadasCaracteriza(ms[1..], tipoAccion, cantidad, hoy);
      forall m | (exists i :: 0 <= i < |ms| && Completa(ms[i], tipoAccion, cantidad, hoy) && ms[i].mision == m)
        ensures m in Completadas(ms, tipoAccion, cantidad, hoy)
      {
        var i :| 0 <= i < |ms| && Completa(ms[i], tipoAccion, cantidad, hoy) && ms[i].mision == m;
        if i > 0 {
          assert ms[1..][i - 1] == ms[i];
        }
      }
      forall m | m in Completadas(ms, tipoAccion, cantidad, hoy)
        ensures exists i :: 0 <= i < |ms| && Completa(ms[i], tipoAccion, cantidad, hoy) && ms[i].mision == m
      {
        if !(Completa(ms[0], tipoAccion, cantidad, hoy) && ms[0].mision == m) {
          var j :| 0 <= j < |ms[1..]| && Completa(ms[1..][j], tipoAccion, cantidad, hoy) && ms[1..][j].mision == m;
          assert ms[j + 1] == ms[1..][j];
        }
      }
    }
  }

  /** One progress event: the action type, the quantity and the day it happens. */
  datatype Accion = Accion(tipo: string, cantidad: int, hoy: Day)

  /** How many times an assignment's reward is paid over a series of progress updates. */
  function Pagos(um: UserMision, acciones: seq<Accion>): nat
    decreases |acciones|
  {
    if acciones == [] then 0
    else
      var a := acciones[0];
      (if Completa(um, a.tipo, a.cantidad, a.hoy) then 1 else 0) + Pagos(Avanzar(um, a.tipo, a.cantidad, a.hoy), acciones[1..])
  }

  /**
    Whatever updates follow, an assignment's reward is paid at most once, and
    never again once it is completed.
   */
  lemma {:induction false} RecompensaUnaVez(um: UserMision, acciones: seq<Accion>)
    ensures Pagos(um, acciones) <= 1
    ensures um.completada ==> Pagos(um, acciones) == 0
    decreases |acciones|
  {
    if acciones != [] {
      var a := acciones[0];
      var siguiente := Avanzar(um, a.tipo, a.cantidad, a.hoy);
      RecompensaUnaVez(siguiente, acciones[1..]);
      AvanzarEfecto(um, a.tipo, a.cantidad, a.hoy);
    }
  }

  /**
    The weekly recycling scenario: a goal of 10 reached by two updates of 5
    completes on the second one and pays its reward of 50 once.
   */
  lemma EjemploReciclajeSemanal(hoy: Day)
    ensures
      var m := Mision(2, "Reciclaje Semanal", "reciclaje", 10, 50, Semanal, true);
      var ms0 := [Nueva(m, hoy)];
      var ms1 := AvanzarTodas(ms0, "reciclaje", 5, hoy);
      var ms2 := AvanzarTodas(ms1, "reciclaje", 5, hoy);
      Completadas(ms0, "reciclaje", 5, hoy) == [] && ms1[0].progreso == 5 && !ms1[0].completada &&
      Completadas(ms1, "reciclaje", 5, hoy) == [m] && ms2[0].progreso == 10 && ms2[0].completada &&
      Recompensa([m]) == 50 && Completadas(ms2, "reciclaje", 5, hoy) == []
  {
    var m := Mision(2, "Reciclaje Semanal", "reciclaje", 10, 50, Semanal, true);
    assert EnVentana(Nueva(m, hoy), hoy);
  }
}
