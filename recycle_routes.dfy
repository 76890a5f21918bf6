/** Quizzes, scored all-or-nothing, and the fixed points table of events. */
module RecycleRoutes {
  import opened Opcion
  import opened Fechas
  import opened Models
  import opened Misiones
  import opened Logros

  /** A quiz question; only its id and the index of the right option matter here. */
  datatype QuizQuestion = QuizQuestion(id: int, respuestaCorrecta: int)

  /** A quiz of the catalogue. */
  datatype Quiz = Quiz(id: int, titulo: string, puntosRecompensa: int)

  /**
    The submitted form: for each question id, the answer read as an integer.
    A field that is missing or not an integer has no entry.
   */
  type Formulario = map<int, int>

  /** The answer read for a question, None when absent. */
  function Respuesta(form: Formulario, q: QuizQuestion): Option<int> {
    if q.id in form then Some(form[q.id]) else None
  }

  /** Whether the answer to question `q` is right. */
  predicate Acierta(form: Formulario, q: QuizQuestion) {
    Respuesta(form, q) == Some(q.respuestaCorrecta)
  }

  /** The answers read, question by question. */
  function Respuestas(preguntas: seq<QuizQuestion>, form: Formulario): (r: seq<Option<int>>)
    ensures |r| == |preguntas|
    ensures forall i :: 0 <= i < |preguntas| ==> r[i] == Respuesta(form, preguntas[i])
  {
    seq(|preguntas|, i requires 0 <= i < |preguntas| => Respuesta(form, preguntas[i]))
  }

  /** The number of right answers. */
  function CuentaCorrectas(preguntas: seq<QuizQuestion>, form: Formulario): (n: nat)
    ensures n <= |preguntas|
    ensures n == 0 <==> forall i :: 0 <= i < |preguntas| ==> !Acierta(form, preguntas[i])
  {
    if preguntas == [] then 0
    else
      var init := preguntas[..|preguntas| - 1];
      assert forall i :: 0 <= i < |init| ==> init[i] == preguntas[i];
      CuentaCorrectas(init, form) + (if Acierta(form, preguntas[|preguntas| - 1]) then 1 else 0)
  }

  /** A single question counts once exactly when its answer is right. */
  lemma CuentaCorrectasUna(q: QuizQuestion, form: Formulario)
    ensures CuentaCorrectas([q], form) == if Acierta(form, q) then 1 else 0
  {
    assert [q][..0] == [];
  }

  /** The right answers of two runs of questions add up. */
  lemma {:induction false} CuentaCorrectasConcat(a: seq<QuizQuestion>, b: seq<QuizQuestion>, form: Formulario)
    ensures CuentaCorrectas(a + b, form) == CuentaCorrectas(a, form) + CuentaCorrectas(b, form)
    decreases |b|
  {
    if b == [] {
      assert a + b == a;
    } else {
      var ab := a + b;
      var binit := b[..|b| - 1];
      assert ab[..|ab| - 1] == a + binit;
      assert ab[|ab| - 1] == b[|b| - 1];
      CuentaCorrectasConcat(a, binit, form);
      assert CuentaCorrectas(ab, form) ==
        CuentaCorrectas(a + binit, form) + (if Acierta(form, b[|b| - 1]) then 1 else 0);
    }
  }

  /** Every answer is right exactly when the count of right answers is the number of questions. */
  lemma {:induction false} TodasCorrectas(preguntas: seq<QuizQuestion>, form: Formulario)
    ensures CuentaCorrectas(preguntas, form) == |preguntas| <==> forall i :: 0 <= i < |preguntas| ==> Acierta(form, preguntas[i])
  {
    if preguntas != [] {
      var init := preguntas[..|preguntas| - 1];
      TodasCorrectas(init, form);
      if forall i :: 0 <= i < |preguntas| ==> Acierta(form, preguntas[i]) {
        assert forall i :: 0 <= i < |init| ==> init[i] == preguntas[i];
      }
      if CuentaCorrectas(preguntas, form) == |preguntas| {
        forall i | 0 <= i < |preguntas| ensures Acierta(form, preguntas[i]) {
          if i < |init| {
            assert init[i] == preguntas[i];
          }
        }
      }
    }
  }

  /** The points a submission earns: the full reward when every answer is right, else nothing. */
  function Puntos(quiz: Quiz, preguntas: seq<QuizQuestion>, form: Formulario): int {
    if CuentaCorrectas(preguntas, form) == |preguntas| then quiz.puntosRecompensa else 0
  }

  /** All-or-nothing scoring, stated on the answers; a quiz with no questions pays in full. */
  lemma PuntosTodoONada(quiz: Quiz, preguntas: seq<QuizQuestion>, form: Formulario)
    ensures (forall i :: 0 <= i < |preguntas| ==> Acierta(form, preguntas[i])) ==> Puntos(quiz, preguntas, form) == quiz.puntosRecompensa
    ensures (exists i :: 0 <= i < |preguntas| && !Acierta(form, preguntas[i])) ==> Puntos(quiz, preguntas, form) == 0
    ensures preguntas == [] ==> Puntos(quiz, preguntas, form) == quiz.puntosRecompensa
  {
    TodasCorrectas(preguntas, form);
  }

  /** Reads the answers and counts the right ones. */
  method Calificar(preguntas: seq<QuizQuestion>, form: Formulario) returns (respuestas: seq<Option<int>>, correctas: nat)
    ensures respuestas == Respuestas(preguntas, form)
    ensures correctas == CuentaCorrectas(preguntas, form)
  {
    respuestas := [];
    correctas := 0;
    var i := 0;
    while i < |preguntas|
      invariant 0 <= i <= |preguntas|
      invariant respuestas == Respuestas(preguntas[..i], form)
      invariant correctas == CuentaCorrectas(preguntas[..i], form)
    {
      var pregunta := preguntas[i];
      var respuesta := Respuesta(form, pregunta);
      respuestas := respuestas + [respuesta];
      if respuesta == Some(pregunta.respuestaCorrecta) {
        correctas := correctas + 1;
      }
      assert preguntas[..i + 1][..i] == preguntas[..i];
      i := i + 1;
    }
    assert preguntas[..i] == preguntas;
  }

  /** Whether the user already completed quiz `id`. */
  predicate Completado(hechos: seq<UserQuiz>, id: int) {
    exists k :: 0 <= k < |hechos| && hechos[k].quizId == id
  }

  /** The outcome of a quiz submission. */
  datatype ResultadoQuiz =
    | YaCompletado
    | Calificado(correctas: nat, puntos: int, misiones: seq<Mision>, logros: seq<Achievement>)

  /** The description of the credit for a perfect quiz. */
  function DescripcionQuiz(quiz: Quiz): string {
    "Quiz completado: " + quiz.titulo
  }

  /**
    Scores a submission. A quiz already completed is refused with nothing
    changed. Otherwise the attempt is recorded whatever its score, and only a
    positive score is credited, advances "quiz" missions by one and re-checks
    achievements.
   */
  method ResolverQuiz(user: User, quiz: Quiz, preguntas: seq<QuizQuestion>, form: Formulario,
                      catalogoLogros: seq<Achievement>, hoy: Day) returns (r: ResultadoQuiz)
    modifies user
    ensures Completado(old(user.quizzesCompletados), quiz.id) ==> r == YaCompletado && unchanged(user)
    ensures !Completado(old(user.quizzesCompletados), quiz.id) ==>
      r.Calificado? && r.correctas == CuentaCorrectas(preguntas, form) && r.puntos == Puntos(quiz, preguntas, form) &&
      user.quizzesCompletados == old(user.quizzesCompletados) + [UserQuiz(quiz.id, Respuestas(preguntas, form), r.puntos)] &&
      user.juegosCasino == old(user.juegosCasino) && user.recompensas == old(user.recompensas)
    ensures r.Calificado? && r.puntos <= 0 ==>
      r.misiones == [] && r.logros == [] &&
      user.puntosTotales == old(user.puntosTotales) && user.puntosHistoricos == old(user.puntosHistoricos) &&
      user.transacciones == old(user.transacciones) && user.misiones == old(user.misiones) &&
      user.logros == old(user.logros) && user.EstadoRacha() == old(user.EstadoRacha()) &&
      user.nivel == old(user.nivel)
    ensures r.Calificado? && r.puntos > 0 ==>
      r.misiones == Completadas(old(user.misiones), "quiz", 1, hoy) &&
      user.misiones == AvanzarTodas(old(user.misiones), "quiz", 1, hoy) &&
      user.puntosTotales == old(user.puntosTotales) + r.puntos + Recompensa(r.misiones) &&
      user.transacciones == old(user.transacciones) + [Transaction("quiz", r.puntos, DescripcionQuiz(quiz))] +
                            TransaccionesRecompensa(r.misiones) &&
      user.puntosHistoricos == old(user.puntosHistoricos) + r.puntos + RecompensaPositiva(r.misiones) &&
      user.EstadoRacha() == SiguienteRacha(old(user.EstadoRacha()), hoy) &&
      LibroDe(user) == Pagar(Acreditar(old(LibroDe(user)), Transaction("quiz", r.puntos, DescripcionQuiz(quiz)), hoy),
                             r.misiones, hoy) &&
      (user.puntosTotales >= 0 ==> EsNivelDe(user.nivel, user.puntosTotales)) &&
      (r.misiones == [] && user.puntosTotales < 0 ==> user.nivel == old(user.nivel)) &&
      r.logros == Otorgados(catalogoLogros, Ids(old(user.logros)), Cuenta(user.transacciones, "reciclaje"),
                            user.rachaActual, Cuenta(user.transacciones, "quiz")) &&
      user.logros == old(user.logros) + Registros(r.logros)
  {
    if Completado(user.quizzesCompletados, quiz.id) {
      return YaCompletado;
    }
    var respuestas, correctas := Calificar(preguntas, form);
    var puntos := if correctas == |preguntas| then quiz.puntosRecompensa else 0;
    user.quizzesCompletados := user.quizzesCompletados + [UserQuiz(quiz.id, respuestas, puntos)];
    if puntos > 0 {
      ghost var l0 := LibroDe(user);
      var t := Transaction("quiz", puntos, DescripcionQuiz(quiz));
      var misiones := AcreditarActividad(user, t, "quiz", 1, hoy);
      AcreditarPagar(l0, t, misiones, hoy);
      var logros := VerificarLogros(user, catalogoLogros);
      r := Calificado(correctas, puntos, misiones, logros);
    } else {
      r := Calificado(correctas, puntos, [], []);
    }
  }

  /** The events that award points: points and display name. */
  const EventosPuntos: map<string, (int, string)> := map[
    "limpieza_playa" := (80, "Limpieza de playa"),
    "reforestacion" := (100, "Reforestación"),
    "taller_ambiental" := (50, "Taller ambiental"),
    "charla_sostenibilidad" := (30, "Charla de sostenibilidad")
  ]

  /** Every event in the table awards a positive amount. */
  lemma EventosPositivos()
    ensures forall tipo :: tipo in EventosPuntos ==> EventosPuntos[tipo].0 > 0
    ensures |EventosPuntos| == 4
  {
    assert EventosPuntos.Keys == {"limpieza_playa", "reforestacion", "taller_ambiental", "charla_sostenibilidad"};
  }

  /**
    Registers participation in an event of type `tipo`. A known event credits
    its table value as an "evento" transaction and advances "evento" missions
    by one; an unknown type changes nothing and yields None.
   */
  method RegistrarEvento(user: User, tipo: string, hoy: Day) returns (r: Option<seq<Mision>>)
    modifies user
    ensures tipo !in EventosPuntos ==> r == None && unchanged(user)
    ensures tipo in EventosPuntos ==>
      var (puntos, nombre) := EventosPuntos[tipo];
      r == Some(Completadas(old(user.misiones), "evento", 1, hoy)) &&
      user.misiones == AvanzarTodas(old(user.misiones), "evento", 1, hoy) &&
      user.puntosTotales == old(user.puntosTotales) + puntos + Recompensa(r.value) &&
      user.transacciones == old(user.transacciones) + [Transaction("evento", puntos, "Participación en: " + nombre)] +
                            TransaccionesRecompensa(r.value) &&
      user.puntosHistoricos == old(user.puntosHistoricos) + puntos + RecompensaPositiva(r.value) &&
      user.EstadoRacha() == SiguienteRacha(old(user.EstadoRacha()), hoy) &&
      LibroDe(user) == Pagar(Acreditar(old(LibroDe(user)), Transaction("evento", puntos, "Participación en: " + nombre), hoy),
                             r.value, hoy) &&
      (user.puntosTotales >= 0 ==> EsNivelDe(user.nivel, user.puntosTotales)) &&
      (r.value == [] && user.puntosTotales < 0 ==> user.nivel == old(user.nivel)) &&
      user.HistorialIntacto()
  {
    if tipo in EventosPuntos {
      var (puntos, nombre) := EventosPuntos[tipo];
      EventosPositivos();
      ghost var l0 := LibroDe(user);
      var t := Transaction("evento", puntos, "Participación en: " + nombre);
      var completadas := AcreditarActividad(user, t, "evento", 1, hoy);
      AcreditarPagar(l0, t, completadas, hoy);
      r := Some(completadas);
    } else {
      r := None;
    }
  }
}
