/**
  The server side of the casino: every game handler validates the bet against
  the balance, plays, and settles the net gain into the balance and the game log.
 */
module CasinoRoutes {
  import opened Opcion
  import opened Texto
  import Config
  import opened Models
  import opened Juegos

  /** Why a bet is refused. */
  datatype Rechazo = ApuestaMinima(minimo: int) | ExcedeMaximo(maximo: int) | SinPuntos

  /** The response of a game handler. */
  datatype Respuesta<R> =
    | Rechazada(motivo: Rechazo)
    | Jugada(resultado: R, ganancia: int, gananciaNeta: int, puntosActuales: int)

  /**
    `int(saldo * 0.30)`: 30% of the balance, truncated toward zero.
   */
  function MaxApuesta(saldo: int): (m: int)
    ensures saldo >= 0 ==> 0 <= m && Config.CasinoMaxBetDen * m <= Config.CasinoMaxBetNum * saldo < Config.CasinoMaxBetDen * (m + 1)
    ensures saldo < 0 ==> m <= 0 && Config.CasinoMaxBetDen * (m - 1) < Config.CasinoMaxBetNum * saldo <= Config.CasinoMaxBetDen * m
  {
    var n := Config.CasinoMaxBetNum * saldo;
    if n >= 0 then n / Config.CasinoMaxBetDen else -((-n) / Config.CasinoMaxBetDen)
  }

  /**
    The three checks of every handler, in order: the minimum bet, the 30% cap
    and the balance. None when the bet is accepted.
   */
  function ValidarApuesta(apuesta: int, saldo: int): (r: Option<Rechazo>)
    ensures r.None? <==> Config.CasinoMinBet <= apuesta <= MaxApuesta(saldo) && apuesta <= saldo
    ensures apuesta < Config.CasinoMinBet ==> r == Some(ApuestaMinima(Config.CasinoMinBet))
    ensures Config.CasinoMinBet <= apuesta && apuesta > MaxApuesta(saldo) ==> r == Some(ExcedeMaximo(MaxApuesta(saldo)))
    ensures r == Some(SinPuntos) <==> Config.CasinoMinBet <= apuesta <= MaxApuesta(saldo) && apuesta > saldo
  {
    if apuesta < Config.CasinoMinBet then Some(ApuestaMinima(Config.CasinoMinBet))
    else if apuesta > MaxApuesta(saldo) then Some(ExcedeMaximo(MaxApuesta(saldo)))
    else if apuesta > saldo then Some(SinPuntos)
    else None
  }

  /**
    With a non-negative balance the 30% cap already implies the balance check,
    so the "not enough points" refusal never fires; an accepted bet never
    exceeds the balance, whatever its sign.
   */
  lemma SinPuntosInalcanzable(apuesta: int, saldo: int)
    ensures saldo >= 0 ==> ValidarApuesta(apuesta, saldo) != Some(SinPuntos)
    ensures ValidarApuesta(apuesta, saldo).None? ==> Config.CasinoMinBet <= apuesta <= saldo && saldo > 0
  {
    var m := MaxApuesta(saldo);
    if saldo >= 0 {
      assert 10 * m <= 3 * saldo;
    }
  }

  /** The winnings of a settled bet: the stake times the multiplier, or nothing. */
  function Ganancia(apuesta: int, gano: bool, multiplicador: nat): (g: int)
    ensures apuesta >= 0 ==> g >= 0
    ensures !gano ==> g == 0
  {
    if gano then apuesta * multiplicador else 0
  }

  /**
    Settles an accepted bet: the balance moves by the net gain and one game is
    logged; levels, the historic total and the transaction log are untouched.
   */
  method Liquidar(user: User, tipoJuego: string, apuesta: int, gano: bool, multiplicador: nat, resultado: string)
    returns (ganancia: int, gananciaNeta: int)
    modifies user`puntosTotales, user`juegosCasino
    ensures ganancia == Ganancia(apuesta, gano, multiplicador)
    ensures gananciaNeta == ganancia - apuesta
    ensures user.puntosTotales == old(user.puntosTotales) + gananciaNeta
    ensures user.juegosCasino == old(user.juegosCasino) + [CasinoGame(tipoJuego, apuesta, resultado, gananciaNeta)]
  {
    ganancia := 0;
    if gano {
      ganancia := apuesta * multiplicador;
    }
    gananciaNeta := ganancia - apuesta;
    user.puntosTotales := user.puntosTotales + gananciaNeta;
    user.juegosCasino := user.juegosCasino + [CasinoGame(tipoJuego, apuesta, resultado, gananciaNeta)];
  }

  /** The roulette handler, with the drawn number as an argument. */
  method JugarRuletaPost(user: User, apuesta: int, tipo: string, valor: Option<int>, numeroGanador: int)
    returns (r: Respuesta<ResultadoRuleta>)
    requires 0 <= numeroGanador <= 36
    modifies user`puntosTotales, user`juegosCasino
    ensures r.Rechazada? <==> ValidarApuesta(apuesta, old(user.puntosTotales)).Some?
    ensures r.Rechazada? ==>
      Some(r.motivo) == ValidarApuesta(apuesta, old(user.puntosTotales)) &&
      user.puntosTotales == old(user.puntosTotales) && user.juegosCasino == old(user.juegosCasino)
    ensures r.Jugada? ==>
      var juego := JugarRuleta(valor, tipo, numeroGanador);
      r.resultado == juego &&
      r.ganancia == Ganancia(apuesta, juego.gano, juego.multiplicador) &&
      r.gananciaNeta == r.ganancia - apuesta &&
      user.puntosTotales == old(user.puntosTotales) + r.gananciaNeta == r.puntosActuales &&
      user.puntosTotales >= 0 &&
      user.juegosCasino == old(user.juegosCasino) + [CasinoGame("ruleta", apuesta, IntToString(numeroGanador), r.gananciaNeta)]
  {
    var rechazo := ValidarApuesta(apuesta, user.puntosTotales);
    if rechazo.Some? {
      return Rechazada(rechazo.value);
    }
    SinPuntosInalcanzable(apuesta, user.puntosTotales);
    var juego := JugarRuleta(valor, tipo, numeroGanador);
    var ganancia, neta := Liquidar(user, "ruleta", apuesta, juego.gano, juego.multiplicador, IntToString(juego.numero));
    r := Jugada(juego, ganancia, neta, user.puntosTotales);
  }

  /** The slot-machine handler, with the three reel draws as arguments. */
  method JugarSlotsPost(user: User, apuesta: int, i0: nat, i1: nat, i2: nat)
    returns (r: Respuesta<ResultadoSlots>)
    requires i0 < |Simbolos| && i1 < |Simbolos| && i2 < |Simbolos|
    modifies user`puntosTotales, user`juegosCasino
    ensures r.Rechazada? <==> ValidarApuesta(apuesta, old(user.puntosTotales)).Some?
    ensures r.Rechazada? ==>
      Some(r.motivo) == ValidarApuesta(apuesta, old(user.puntosTotales)) &&
      user.puntosTotales == old(user.puntosTotales) && user.juegosCasino == old(user.juegosCasino)
    ensures r.Jugada? ==>
      var juego := JugarSlots(i0, i1, i2);
      r.resultado == juego &&
      r.ganancia == Ganancia(apuesta, juego.gano, juego.multiplicador) &&
      r.gananciaNeta == r.ganancia - apuesta &&
      user.puntosTotales == old(user.puntosTotales) + r.gananciaNeta == r.puntosActuales &&
      user.puntosTotales >= 0 &&
      user.juegosCasino == old(user.juegosCasino) +
        [CasinoGame("slots", apuesta, Simbolos[i0] + Simbolos[i1] + Simbolos[i2], r.gananciaNeta)]
  {
    var rechazo := ValidarApuesta(apuesta, user.puntosTotales);
    if rechazo.Some? {
      return Rechazada(rechazo.value);
    }
    SinPuntosInalcanzable(apuesta, user.puntosTotales);
    var juego := JugarSlots(i0, i1, i2);
    var texto := juego.rodillos[0] + juego.rodillos[1] + juego.rodillos[2];
    var ganancia, neta := Liquidar(user, "slots", apuesta, juego.gano, juego.multiplicador, texto);
    r := Jugada(juego, ganancia, neta, user.puntosTotales);
  }

  /** The dice handler, with the two dice as arguments. */
  method JugarDadosPost(user: User, apuesta: int, tipo: string, valor: Option<int>, dado1: int, dado2: int)
    returns (r: Respuesta<ResultadoDados>)
    requires 1 <= dado1 <= 6 && 1 <= dado2 <= 6
    modifies user`puntosTotales, user`juegosCasino
    ensures r.Rechazada? <==> ValidarApuesta(apuesta, old(user.puntosTotales)).Some?
    ensures r.Rechazada? ==>
      Some(r.motivo) == ValidarApuesta(apuesta, old(user.puntosTotales)) &&
      user.puntosTotales == old(user.puntosTotales) && user.juegosCasino == old(user.juegosCasino)
    ensures r.Jugada? ==>
      var juego := JugarDados(tipo, valor, dado1, dado2);
      r.resultado == juego &&
      r.ganancia == Ganancia(apuesta, juego.gano, juego.multiplicador) &&
      r.gananciaNeta == r.ganancia - apuesta &&
      user.puntosTotales == old(user.puntosTotales) + r.gananciaNeta == r.puntosActuales &&
      user.puntosTotales >= 0 &&
      user.juegosCasino == old(user.juegosCasino) +
        [CasinoGame("dados", apuesta, IntToString(dado1) + "+" + IntToString(dado2) + "=" + IntToString(dado1 + dado2), r.gananciaNeta)]
  {
    var rechazo := ValidarApuesta(apuesta, user.puntosTotales);
    if rechazo.Some? {
      return Rechazada(rechazo.value);
    }
    SinPuntosInalcanzable(apuesta, user.puntosTotales);
    var juego := JugarDados(tipo, valor, dado1, dado2);
    var texto := IntToString(juego.dado1) + "+" + IntToString(juego.dado2) + "=" + IntToString(juego.suma);
    var ganancia, neta := Liquidar(user, "dados", apuesta, juego.gano, juego.multiplicador, texto);
    r := Jugada(juego, ganancia, neta, user.puntosTotales);
  }
}
