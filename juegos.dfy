/**
  The three casino games. Each takes its random draws as arguments and
  decides whether the bet wins and by which multiplier.
 */
module Juegos {
  import opened Opcion

  /** The outcome of one roulette spin. */
  datatype ResultadoRuleta = ResultadoRuleta(numero: int, color: string, gano: bool, multiplicador: nat)

  /** The outcome of one slot-machine pull. */
  datatype ResultadoSlots = ResultadoSlots(rodillos: seq<string>, gano: bool, multiplicador: nat)

  /** The outcome of one dice roll. */
  datatype ResultadoDados = ResultadoDados(dado1: int, dado2: int, suma: int, gano: bool, multiplicador: nat)

  /** Whether the winning number lies in dozen `d` (0 for 1-12, 1 for 13-24, 2 for 25-36). */
  predicate EnDocena(n: int, d: int) {
    0 <= d <= 2 && 12 * d + 1 <= n <= 12 * d + 12
  }

  /**
    Settles a roulette bet of type `tipoApuesta` on the chosen value
    `numeroApostado` (None when absent) against the drawn number `numeroGanador`.
   */
  function JugarRuleta(numeroApostado: Option<int>, tipoApuesta: string, numeroGanador: int): (r: ResultadoRuleta)
    requires 0 <= numeroGanador <= 36
    ensures r.numero == numeroGanador
    ensures r.multiplicador in {0, 2, 3, 35}
    ensures r.gano <==> r.multiplicador > 0
    ensures r.color == "verde" <==> numeroGanador == 0
    ensures r.color == "rojo" <==> numeroGanador % 2 == 1
    ensures r.color == "negro" <==> numeroGanador != 0 && numeroGanador % 2 == 0
    ensures tipoApuesta == "numero" ==> (r.gano <==> numeroApostado == Some(numeroGanador)) && (r.gano ==> r.multiplicador == 35)
    ensures tipoApuesta == "par" ==> (r.gano <==> numeroGanador != 0 && numeroGanador % 2 == 0) && (r.gano ==> r.multiplicador == 2)
    ensures tipoApuesta == "impar" ==> (r.gano <==> numeroGanador % 2 == 1) && (r.gano ==> r.multiplicador == 2)
    ensures tipoApuesta == "alto" ==> (r.gano <==> 19 <= numeroGanador) && (r.gano ==> r.multiplicador == 2)
    ensures tipoApuesta == "bajo" ==> (r.gano <==> 1 <= numeroGanador <= 18) && (r.gano ==> r.multiplicador == 2)
    ensures tipoApuesta == "docena" ==>
      (r.gano <==> numeroApostado.Some? &&
                   (EnDocena(numeroGanador, numeroApostado.value) || (numeroGanador == 0 && numeroApostado.value == -1))) &&
      (r.gano ==> r.multiplicador == 3)
    ensures tipoApuesta !in {"numero", "par", "impar", "alto", "bajo", "docena"} ==> !r.gano
  {
    var color := if numeroGanador == 0 then "verde" else if numeroGanador % 2 == 1 then "rojo" else "negro";
    var pierde := ResultadoRuleta(numeroGanador, color, false, 0);
    if tipoApuesta == "numero" && numeroApostado == Some(numeroGanador) then
      pierde.(gano := true, multiplicador := 35)
    else if tipoApuesta == "par" && numeroGanador != 0 && numeroGanador % 2 == 0 then
      pierde.(gano := true, multiplicador := 2)
    else if tipoApuesta == "impar" && numeroGanador != 0 && numeroGanador % 2 == 1 then
      pierde.(gano := true, multiplicador := 2)
    else if tipoApuesta == "alto" && numeroGanador >= 19 then
      pierde.(gano := true, multiplicador := 2)
    else if tipoApuesta == "bajo" && 1 <= numeroGanador <= 18 then
      pierde.(gano := true, multiplicador := 2)
    else if tipoApuesta == "docena" then
      var docena := if numeroGanador > 0 then (numeroGanador - 1) / 12 else -1;
      if numeroApostado == Some(docena) then pierde.(gano := true, multiplicador := 3) else pierde
    else pierde
  }


  /** The reel symbols. */
  const Simbolos: seq<string> := ["🌱", "🌿", "🍃", "♻️", "🌍", "💚", "🌳", "🌲"]

  /** The recycling symbol, whose triple is the jackpot. */
  const Reciclaje: string := "♻️"

  /**
    Settles a slot-machine pull whose reels stop on the symbols at indices
    `i0`, `i1` and `i2`.
   */
  function JugarSlots(i0: nat, i1: nat, i2: nat): (r: ResultadoSlots)
    requires i0 < |Simbolos| && i1 < |Simbolos| && i2 < |Simbolos|
    ensures r.rodillos == [Simbolos[i0], Simbolos[i1], Simbolos[i2]]
    ensures r.gano <==> r.multiplicador > 0
    ensures r.multiplicador == 50 <==> r.rodillos == [Reciclaje, Reciclaje, Reciclaje]
    ensures r.multiplicador == 10 <==> r.rodillos[0] == r.rodillos[1] == r.rodillos[2] != Reciclaje
    ensures r.multiplicador == 3 <==>
      (r.rodillos[0] == r.rodillos[1] || r.rodillos[1] == r.rodillos[2] || r.rodillos[0] == r.rodillos[2]) &&
      !(r.rodillos[0] == r.rodillos[1] == r.rodillos[2])
    ensures r.multiplicador == 0 <==>
      r.rodillos[0] != r.rodillos[1] && r.rodillos[1] != r.rodillos[2] && r.rodillos[0] != r.rodillos[2]
  {
    var rodillos := [Simbolos[i0], Simbolos[i1], Simbolos[i2]];
    if rodillos[0] == Reciclaje && rodillos[1] == Reciclaje && rodillos[2] == Reciclaje then
      ResultadoSlots(rodillos, true, 50)
    else if rodillos[0] == rodillos[1] == rodillos[2] then
      ResultadoSlots(rodillos, true, 10)
    else if rodillos[0] == rodillos[1] || rodillos[1] == rodillos[2] || rodillos[0] == rodillos[2] then
      ResultadoSlots(rodillos, true, 3)
    else
      ResultadoSlots(rodillos, false, 0)
  }

  /** The payout table of a winning `suma` bet. */
  const MultiplicadoresSuma: map<int, nat> :=
    map[2 := 30, 3 := 15, 4 := 10, 5 := 8, 6 := 6, 7 := 5, 8 := 6, 9 := 8, 10 := 10, 11 := 15, 12 := 30]

  /** The multiplier of a winning sum, 5 for a sum missing from the table. */
  function MultiplicadorSuma(suma: int): (m: nat)
    ensures suma in MultiplicadoresSuma ==> m == MultiplicadoresSuma[suma]
    ensures suma !in MultiplicadoresSuma ==> m == 5
  {
    if suma in MultiplicadoresSuma then MultiplicadoresSuma[suma] else 5
  }

  /**
    Every sum of two dice is in the table, the table is symmetric around 7,
    and rarer sums pay more.
   */
  lemma TablaSumaCompleta()
    ensures forall s :: 2 <= s <= 12 <==> s in MultiplicadoresSuma
    ensures forall s :: 2 <= s <= 12 ==> MultiplicadoresSuma[s] == MultiplicadoresSuma[14 - s]
    ensures MultiplicadoresSuma[2] > MultiplicadoresSuma[3] > MultiplicadoresSuma[4] >
            MultiplicadoresSuma[5] > MultiplicadoresSuma[6] > MultiplicadoresSuma[7]
    ensures forall s :: MultiplicadorSuma(s) >= 5
    ensures forall s :: 2 <= s <= 12 ==> (MultiplicadorSuma(s) == 5 <==> s == 7)
  {
  }

  /**
    Settles a dice bet of type `tipoApuesta` on value `valorApostado` (None
    when absent) against the two drawn dice.
   */
  function JugarDados(tipoApuesta: string, valorApostado: Option<int>, dado1: int, dado2: int): (r: ResultadoDados)
    requires 1 <= dado1 <= 6 && 1 <= dado2 <= 6
    ensures r.dado1 == dado1 && r.dado2 == dado2 && r.suma == dado1 + dado2
    ensures 2 <= r.suma <= 12
    ensures r.gano <==> r.multiplicador > 0
    ensures tipoApuesta == "suma" ==> (r.gano <==> valorApostado == Some(r.suma)) &&
                                      (r.gano ==> r.multiplicador == MultiplicadoresSuma[r.suma])
    ensures tipoApuesta == "par" ==> (r.gano <==> r.suma % 2 == 0) && (r.gano ==> r.multiplicador == 2)
    ensures tipoApuesta == "impar" ==> (r.gano <==> r.suma % 2 == 1) && (r.gano ==> r.multiplicador == 2)
    ensures tipoApuesta == "mayor7" ==> (r.gano <==> r.suma > 7) && (r.gano ==> r.multiplicador == 2)
    ensures tipoApuesta == "menor7" ==> (r.gano <==> r.suma < 7) && (r.gano ==> r.multiplicador == 2)
    ensures tipoApuesta == "dobles" ==> (r.gano <==> dado1 == dado2) && (r.gano ==> r.multiplicador == 8)
    ensures tipoApuesta !in {"suma", "par", "impar", "mayor7", "menor7", "dobles"} ==> !r.gano
  {
    var suma := dado1 + dado2;
    var pierde := ResultadoDados(dado1, dado2, suma, false, 0);
    if tipoApuesta == "suma" && valorApostado == Some(suma) then
      pierde.(gano := true, multiplicador := MultiplicadorSuma(suma))
    else if tipoApuesta == "par" && suma % 2 == 0 then
      pierde.(gano := true, multiplicador := 2)
    else if tipoApuesta == "impar" && suma % 2 == 1 then
      pierde.(gano := true, multiplicador := 2)
    else if tipoApuesta == "mayor7" && suma > 7 then
      pierde.(gano := true, multiplicador := 2)
    else if tipoApuesta == "menor7" && suma < 7 then
      pierde.(gano := true, multiplicador := 2)
    else if tipoApuesta == "dobles" && dado1 == dado2 then
      pierde.(gano := true, multiplicador := 8)
    else pierde
  }
}
