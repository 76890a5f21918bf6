/** The recycling centre desk: crediting a delivery and handing over a redeemed reward. */
module StaffRoutes {
  import opened Opcion
  import opened Fechas
  import opened Models
  import opened Misiones

  /** A recyclable material and the points one unit is worth. */
  datatype Material = Material(id: int, nombre: string, puntosValor: int)

  /** The first user whose username or email equals `identificador`. */
  function BuscarUsuario(usuarios: seq<User>, identificador: string): (r: Option<User>)
    ensures r.None? <==> forall i :: 0 <= i < |usuarios| ==>
      usuarios[i].username != identificador && usuarios[i].email != identificador
    ensures r.Some? ==>
      exists i :: (0 <= i < |usuarios| && usuarios[i] == r.value &&
                   (r.value.username == identificador || r.value.email == identificador) &&
                   forall j :: 0 <= j < i ==> usuarios[j].username != identificador && usuarios[j].email != identificador)
  {
    if usuarios == [] then None
    else if usuarios[0].username == identificador || usuarios[0].email == identificador then Some(usuarios[0])
    else
      var r := BuscarUsuario(usuarios[1..], identificador);
      if r.Some? then
        var i :| 0 <= i < |usuarios| - 1 && usuarios[1..][i] == r.value &&
          (r.value.username == identificador || r.value.email == identificador) &&
          forall j :: 0 <= j < i ==> usuarios[1..][j].username != identificador && usuarios[1..][j].email != identificador;
        assert usuarios[i + 1] == r.value;
        r
      else r
  }

  /** The description of the credit for a delivery, naming the attending staff member. */
  function DescripcionEntrega(staff: string): string {
    "Entrega en centro de acopio (Atendido por: " + staff + ")"
  }

  /** The points a delivery earns: the material's unit value times the quantity. */
  function PuntosEntrega(material: Material, cantidad: int): (p: int)
    ensures material.puntosValor >= 0 && cantidad >= 0 ==> p >= 0
    ensures cantidad == 0 ==> p == 0
  {
    material.puntosValor * cantidad
  }

  /**
    Records a delivery of `cantidad` units of `material` by the user named
    `identificador`. Nobody matching changes nothing; otherwise the points
    are credited as "reciclaje" and "reciclaje" missions advance by `cantidad`.
   */
  method RegistrarEntrega(usuarios: seq<User>, identificador: string, material: Material, cantidad: int,
                          staff: string, hoy: Day) returns (estudiante: Option<User>, completadas: seq<Mision>)
    modifies set u | u in usuarios
    ensures estudiante == BuscarUsuario(usuarios, identificador)
    ensures estudiante.None? ==> completadas == [] && forall u :: u in usuarios ==> unchanged(u)
    ensures estudiante.Some? ==>
      var e := estudiante.value;
      completadas == Completadas(old(e.misiones), "reciclaje", cantidad, hoy) &&
      e.misiones == AvanzarTodas(old(e.misiones), "reciclaje", cantidad, hoy) &&
      e.puntosTotales == old(e.puntosTotales) + PuntosEntrega(material, cantidad) + Recompensa(completadas) &&
      e.transacciones == old(e.transacciones) +
        [Transaction("reciclaje", PuntosEntrega(material, cantidad), DescripcionEntrega(staff))] +
        TransaccionesRecompensa(completadas) &&
      e.puntosHistoricos == old(e.puntosHistoricos) +
        (if PuntosEntrega(material, cantidad) > 0 then PuntosEntrega(material, cantidad) else 0) +
        RecompensaPositiva(completadas) &&
      e.EstadoRacha() == SiguienteRacha(old(e.EstadoRacha()), hoy) &&
      LibroDe(e) == Pagar(Acreditar(old(LibroDe(e)),
                                    Transaction("reciclaje", PuntosEntrega(material, cantidad), DescripcionEntrega(staff)), hoy),
                          completadas, hoy) &&
      (e.puntosTotales >= 0 ==> EsNivelDe(e.nivel, e.puntosTotales)) &&
      (completadas == [] && e.puntosTotales < 0 ==> e.nivel == old(e.nivel)) &&
      e.HistorialIntacto() &&
      forall u :: u in usuarios && u != e ==> unchanged(u)
  {
    estudiante := BuscarUsuario(usuarios, identificador);
    completadas := [];
    if estudiante.Some? {
      var e := estudiante.value;
      var puntosGanados := PuntosEntrega(material, cantidad);
      ghost var l0 := LibroDe(e);
      var t := Transaction("reciclaje", puntosGanados, DescripcionEntrega(staff));
      completadas := AcreditarActividad(e, t, "reciclaje", cantidad, hoy);
      AcreditarPagar(l0, t, completadas, hoy);
    }
  }

  /**
    Marks a redeemed reward as handed over. A reward already handed over is
    left as it is, so marking twice is the same as marking once.
   */
  method MarcarEntregado(canje: UserReward) returns (yaEntregado: bool)
    modifies canje
    ensures yaEntregado <==> old(canje.estado) == "entregado"
    ensures canje.estado == "entregado"
  {
    if canje.estado == "entregado" {
      return true;
    }
    canje.estado := "entregado";
    return false;
  }
}
