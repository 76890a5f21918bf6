/**
  The persistent entities of the points system and the ledger operations of
  `User`: crediting and debiting points, the level derived from the balance
  and the daily-activity streak.
 */
module Models {
  import opened Opcion
  import opened Fechas
  import opened Config

  /** One row of the append-only points log; `puntos` is signed. */
  datatype Transaction = Transaction(tipo: string, puntos: int, descripcion: string)

  /** A mission of the catalogue; `frecuencia` is "diaria" or "semanal". */
  datatype Mision = Mision(
    id: int, nombre: string, tipo: string, objetivo: int,
    recompensaPuntos: int, frecuencia: string, activo: bool)

  /** A mission assigned to a user, with the day it was assigned. */
  datatype UserMision = UserMision(mision: Mision, progreso: int, completada: bool, fechaAsignacion: Day)

  /** An achievement of the catalogue; `criterio` names the rule that grants it. */
  datatype Achievement = Achievement(id: int, nombre: string, criterio: string)

  /** An achievement held by a user. */
  datatype UserAchievement = UserAchievement(achievementId: int, progreso: int)

  /** One casino round as recorded; `ganancia` is the net gain. */
  datatype CasinoGame = CasinoGame(tipoJuego: string, apuesta: int, resultado: string, ganancia: int)

  /** A completed quiz with the answer read for each question. */
  datatype UserQuiz = UserQuiz(quizId: int, respuestas: seq<Option<int>>, puntosObtenidos: int)

  // ---------------------------------------------------------------------------
  // Levels

  /**
    `nombre` is the level whose threshold is the largest one not above `p`.
   */
  predicate EsNivelDe(nombre: string, p: int) {
    exists i :: 0 <= i < |Niveles| && Niveles[i].0 == nombre && Niveles[i].1 <= p &&
      forall j :: 0 <= j < |Niveles| && Niveles[j].1 <= p ==> Niveles[j].1 <= Niveles[i].1
  }

  /** At most one level fits a balance, and one does exactly when the balance is not negative. */
  lemma NivelUnico(a: string, b: string, p: int)
    ensures EsNivelDe(a, p) && EsNivelDe(b, p) ==> a == b
    ensures EsNivelDe(a, p) ==> p >= 0
  {
    if EsNivelDe(a, p) && EsNivelDe(b, p) {
      var i :| 0 <= i < |Niveles| && Niveles[i].0 == a && Niveles[i].1 <= p &&
        forall j :: 0 <= j < |Niveles| && Niveles[j].1 <= p ==> Niveles[j].1 <= Niveles[i].1;
      var k :| 0 <= k < |Niveles| && Niveles[k].0 == b && Niveles[k].1 <= p &&
        forall j :: 0 <= j < |Niveles| && Niveles[j].1 <= p ==> Niveles[j].1 <= Niveles[k].1;
      assert Niveles[i].1 == Niveles[k].1;
    }
  }

  // ---------------------------------------------------------------------------
  // Streak

  /** The streak counter together with the day of the last activity. */
  datatype Racha = Racha(dias: int, ultima: Option<Day>)

  /**
    The streak after an activity on day `hoy`: unchanged on the same day, one
    more on the next day, and back to 1 after any other gap (a backdated `hoy`
    included) or when there was no previous activity.
   */
  function SiguienteRacha(r: Racha, hoy: Day): Racha {
    match r.ultima
    case Some(u) =>
      var diferencia := hoy - u;
      if diferencia == 0 then r
      else if diferencia == 1 then Racha(r.dias + 1, Some(hoy))
      else Racha(1, Some(hoy))
    case None => Racha(1, Some(hoy))
  }

  /** A second activity on the same day changes nothing. */
  lemma SiguienteRachaIdempotente(r: Racha, hoy: Day)
    ensures SiguienteRacha(SiguienteRacha(r, hoy), hoy) == SiguienteRacha(r, hoy)
    ensures SiguienteRacha(r, hoy).ultima == Some(hoy)
  {
  }

  /** A streak that starts non-negative stays non-negative. */
  lemma SiguienteRachaNoNegativa(r: Racha, hoy: Day)
    requires r.dias >= 0
    ensures SiguienteRacha(r, hoy).dias >= 0
    ensures SiguienteRacha(r, hoy).dias <= r.dias + 1
  {
  }

  // ---------------------------------------------------------------------------
  // User

  class User {
    const username: string
    const email: string
    var puntosTotales: int
    var puntosHistoricos: int
    var nivel: string
    var rachaActual: int
    var ultimaActividad: Option<Day>
    var transacciones: seq<Transaction>
    var misiones: seq<UserMision>
    var logros: seq<UserAchievement>
    var juegosCasino: seq<CasinoGame>
    var recompensas: seq<UserReward>
    var quizzesCompletados: seq<UserQuiz>

    /** A new user; the last-activity date defaults to the registration day. */
    constructor (username: string, email: string, registro: Day)
      ensures this.username == username && this.email == email
      ensures puntosTotales == 0 && puntosHistoricos == 0 && nivel == "Semilla Verde"
      ensures rachaActual == 0 && ultimaActividad == Some(registro)
      ensures transacciones == [] && misiones == [] && logros == []
      ensures juegosCasino == [] && recompensas == [] && quizzesCompletados == []
    {
      this.username := username;
      this.email := email;
      puntosTotales := 0;
      puntosHistoricos := 0;
      nivel := "Semilla Verde";
      rachaActual := 0;
      ultimaActividad := Some(registro);
      transacciones := [];
      misiones := [];
      logros := [];
      juegosCasino := [];
      recompensas := [];
      quizzesCompletados := [];
    }

    /** The streak fields as one value. */
    function EstadoRacha(): Racha
      reads this
    {
      Racha(rachaActual, ultimaActividad)
    }

    /** Achievements, casino rounds, redemptions and quizzes are untouched. */
    twostate predicate HistorialIntacto()
      reads this
    {
      logros == old(logros) && juegosCasino == old(juegosCasino) &&
      recompensas == old(recompensas) && quizzesCompletados == old(quizzesCompletados)
    }

    /** The records other than the points log are untouched. */
    twostate predicate RegistrosIntactos()
      reads this
    {
      misiones == old(misiones) && HistorialIntacto()
    }

    /**
      Sets `nivel` to the level of the current balance; a negative balance
      matches no threshold and keeps the old level.
     */
    method ActualizarNivel()
      modifies this`nivel
      ensures puntosTotales >= 0 ==> EsNivelDe(nivel, puntosTotales)
      ensures puntosTotales < 0 ==> nivel == old(nivel)
    {
      NivelesDescOrdenado();
      var i := 0;
      while i < |NivelesDesc|
        invariant 0 <= i <= |NivelesDesc|
        invariant forall j :: 0 <= j < i ==> puntosTotales < NivelesDesc[j].1
        invariant nivel == old(nivel)
      {
        if puntosTotales >= NivelesDesc[i].1 {
          nivel := NivelesDesc[i].0;
          assert EsNivelDe(nivel, puntosTotales) by {
            var k := |Niveles| - 1 - i;
            assert Niveles[k] == NivelesDesc[i];
            forall j | 0 <= j < |Niveles| && Niveles[j].1 <= puntosTotales
              ensures Niveles[j].1 <= Niveles[k].1
            {
              assert Niveles[j] == NivelesDesc[|Niveles| - 1 - j];
            }
          }
          break;
        }
        i := i + 1;
      }
      if i == |NivelesDesc| {
        // No threshold matched, so the balance is below the lowest one, which is 0.
        assert puntosTotales < NivelesDesc[|NivelesDesc| - 1].1 == 0;
      }
    }

    /** Advances the streak for an activity on day `hoy`. */
    method ActualizarRacha(hoy: Day)
      modifies this`rachaActual, this`ultimaActividad
      ensures EstadoRacha() == SiguienteRacha(old(EstadoRacha()), hoy)
    {
      var ultima := ultimaActividad;
      if ultima.Some? {
        var diferencia := hoy - ultima.value;
        if diferencia == 0 {
          return;
        } else if diferencia == 1 {
          rachaActual := rachaActual + 1;
        } else {
          rachaActual := 1;
        }
      } else {
        rachaActual := 1;
      }
      ultimaActividad := Some(hoy);
    }

    /**
      Credits `cantidad` (which may be zero or negative): the balance moves by
      exactly `cantidad`, the historic total only by a positive amount, the
      level follows the new balance, the streak advances and one transaction
      is logged.
     */
    method AgregarPuntos(cantidad: int, tipo: string, descripcion: string, hoy: Day)
      modifies this
      ensures puntosTotales == old(puntosTotales) + cantidad
      ensures puntosHistoricos == old(puntosHistoricos) + (if cantidad > 0 then cantidad else 0)
      ensures puntosTotales >= 0 ==> EsNivelDe(nivel, puntosTotales)
      ensures puntosTotales < 0 ==> nivel == old(nivel)
      ensures EstadoRacha() == SiguienteRacha(old(EstadoRacha()), hoy)
      ensures transacciones == old(transacciones) + [Transaction(tipo, cantidad, descripcion)]
      ensures RegistrosIntactos()
    {
      puntosTotales := puntosTotales + cantidad;
      ActualizarNivel();
      ActualizarRacha(hoy);
      if cantidad > 0 {
        puntosHistoricos := puntosHistoricos + cantidad;
      }
      transacciones := transacciones + [Transaction(tipo, cantidad, descripcion)];
    }

    /**
      Checked debit: succeeds exactly when the balance covers `cantidad`, and
      then lowers the balance by it and logs `-cantidad`; otherwise nothing
      changes. The historic total, the level and the streak are never touched.
     */
    method RestarPuntos(cantidad: int, tipo: string, descripcion: string) returns (ok: bool)
      modifies this`puntosTotales, this`transacciones
      ensures ok <==> old(puntosTotales) >= cantidad
      ensures ok ==> puntosTotales == old(puntosTotales) - cantidad
      ensures ok ==> transacciones == old(transacciones) + [Transaction(tipo, -cantidad, descripcion)]
      ensures !ok ==> puntosTotales == old(puntosTotales) && transacciones == old(transacciones)
    {
      if puntosTotales >= cantidad {
        puntosTotales := puntosTotales - cantidad;
        transacciones := transacciones + [Transaction(tipo, -cantidad, descripcion)];
        return true;
      }
      return false;
    }
  }

  /** A redeemable reward; its stock is decremented in place. */
  class Reward {
    const id: int
    const nombre: string
    const puntosCosto: int
    var stockDisponible: int

    constructor (id: int, nombre: string, puntosCosto: int, stock: int)
      ensures this.id == id && this.nombre == nombre
      ensures this.puntosCosto == puntosCosto && stockDisponible == stock
    {
      this.id := id;
      this.nombre := nombre;
      this.puntosCosto := puntosCosto;
      stockDisponible := stock;
    }
  }

  /** A redemption coupon; `estado` is "pendiente", "entregado" or "cancelado". */
  class UserReward {
    const rewardId: int
    var estado: string

    constructor (rewardId: int, estado: string)
      ensures this.rewardId == rewardId && this.estado == estado
    {
      this.rewardId := rewardId;
      this.estado := estado;
    }
  }
}
