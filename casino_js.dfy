/** The browser-side bet check run before a game request is sent. */
module CasinoJs {
  import opened Texto
  import CasinoRoutes

  /** The verdict of the check, with the message shown when it fails. */
  datatype Validacion = Valido | Invalido(mensaje: string)

  /** `Math.floor(saldoActual * 0.30)`. */
  function MaxCliente(saldo: int): (m: int)
    ensures 10 * m <= 3 * saldo < 10 * (m + 1)
  {
    (3 * saldo) / 10
  }

  const MensajeMinimo: string := "La apuesta mínima es 10 puntos."
  const MensajeSinPuntos: string := "No tienes suficientes puntos."

  function MensajeMaximo(max: int): string {
    "Solo puedes apostar hasta " + IntToString(max) + " puntos (30% de tu saldo)."
  }

  /**
    The bet as `parseInt` reads it from the input field: an integer, or NaN
    when the field holds no digits (an empty field, say).
   */
  datatype Numero = Entero(valor: int) | NaN

  /**
    `validarApuesta(cantidad, saldoActual)`: the minimum, the 30% cap and the
    balance are checked in that order, and the first failure names the message.
    Every comparison with NaN is false, so a NaN bet falls through all three.
   */
  function ValidarApuesta(cantidad: Numero, saldo: int): (r: Validacion)
    ensures r.Valido? <==>
      cantidad.NaN? || (10 <= cantidad.valor <= MaxCliente(saldo) && cantidad.valor <= saldo)
    ensures cantidad.Entero? && cantidad.valor < 10 ==> r == Invalido(MensajeMinimo)
    ensures cantidad.Entero? && 10 <= cantidad.valor && cantidad.valor > MaxCliente(saldo) ==>
      r == Invalido(MensajeMaximo(MaxCliente(saldo)))
    ensures r == Invalido(MensajeSinPuntos) <==>
      cantidad.Entero? && 10 <= cantidad.valor <= MaxCliente(saldo) && cantidad.valor > saldo
  {
    match cantidad
    case NaN => Valido
    case Entero(c) =>
      var max := MaxCliente(saldo);
      if c < 10 then Invalido(MensajeMinimo)
      else if c > max then Invalido(MensajeMaximo(max))
      else if c > saldo then Invalido(MensajeSinPuntos)
      else Valido
  }

  /** With a non-negative balance an accepted integer bet lies between 10 and the balance. */
  lemma ValidoAcotado(cantidad: int, saldo: int)
    requires saldo >= 0
    ensures ValidarApuesta(Entero(cantidad), saldo).Valido? ==> 10 <= cantidad <= saldo
    ensures ValidarApuesta(Entero(cantidad), saldo) != Invalido(MensajeSinPuntos)
  {
    assert 10 * MaxCliente(saldo) <= 3 * saldo;
  }

  /**
    The browser and the server accept exactly the same integer bets, for any
    balance: flooring and truncating agree on non-negative balances, and on
    negative ones both caps are below the minimum bet.
   */
  lemma ClienteCoincideConServidor(cantidad: int, saldo: int)
    ensures ValidarApuesta(Entero(cantidad), saldo).Valido? <==> CasinoRoutes.ValidarApuesta(cantidad, saldo).None?
  {
    if saldo >= 0 {
      assert MaxCliente(saldo) == CasinoRoutes.MaxApuesta(saldo);
    }
  }

  /**
    The one bet the browser lets through that the server does not check the
    same way: a NaN bet passes for every balance, whereas the server, handed
    the resulting `null`, cannot compare it with the minimum.
   */
  lemma NaNPasa(saldo: int)
    ensures ValidarApuesta(NaN, saldo) == Valido
    ensures forall c :: ValidarApuesta(Entero(c), saldo).Valido? ==> c >= 10
  {
  }
}
