/** Redeeming a reward: the balance pays for it and one unit of stock is taken. */
module RewardsRoutes {
  import opened Models

  /** The outcome of a redemption request. */
  datatype ResultadoCanje = PuntosInsuficientes | SinStock | Canjeado | ErrorCanje

  /** The description of the debit recorded for a redemption. */
  function DescripcionCanje(nombre: string): string {
    "Canje: " + nombre
  }

  /**
    Redeems `recompensa` for `user`. A balance below the cost, then an empty
    stock, refuses the request with nothing changed; otherwise the cost is
    debited, one pending redemption is recorded and the stock drops by one.
    The debit cannot fail after the balance check, so the error outcome never
    occurs.
   */
  method Canjear(user: User, recompensa: Reward) returns (r: ResultadoCanje)
    modifies user`puntosTotales, user`transacciones, user`recompensas, recompensa`stockDisponible
    ensures r != ErrorCanje
    ensures r == PuntosInsuficientes <==> old(user.puntosTotales) < recompensa.puntosCosto
    ensures r == SinStock <==> old(user.puntosTotales) >= recompensa.puntosCosto && old(recompensa.stockDisponible) <= 0
    ensures r != Canjeado ==>
      user.puntosTotales == old(user.puntosTotales) && user.transacciones == old(user.transacciones) &&
      user.recompensas == old(user.recompensas) && recompensa.stockDisponible == old(recompensa.stockDisponible)
    ensures r == Canjeado ==>
      user.puntosTotales == old(user.puntosTotales) - recompensa.puntosCosto &&
      user.transacciones == old(user.transacciones) +
        [Transaction("canje", -recompensa.puntosCosto, DescripcionCanje(recompensa.nombre))] &&
      recompensa.stockDisponible == old(recompensa.stockDisponible) - 1 >= 0 &&
      |user.recompensas| == |old(user.recompensas)| + 1 &&
      user.recompensas[..|old(user.recompensas)|] == old(user.recompensas) &&
      fresh(user.recompensas[|old(user.recompensas)|]) &&
      user.recompensas[|old(user.recompensas)|].rewardId == recompensa.id &&
      user.recompensas[|old(user.recompensas)|].estado == "pendiente"
  {
    if user.puntosTotales < recompensa.puntosCosto {
      return PuntosInsuficientes;
    }
    if recompensa.stockDisponible <= 0 {
      return SinStock;
    }
    var ok := user.RestarPuntos(recompensa.puntosCosto, "canje", DescripcionCanje(recompensa.nombre));
    if ok {
      var canje := new UserReward(recompensa.id, "pendiente");
      recompensa.stockDisponible := recompensa.stockDisponible - 1;
      user.recompensas := user.recompensas + [canje];
      r := Canjeado;
    } else {
      assert false;
    }
  }
}
