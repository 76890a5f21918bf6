/**
  The achievement evaluator: every catalogue achievement the user does not
  hold yet is checked against counts of the user's history and granted once.
 */
module Logros {
  import opened Models

  /** The number of transactions of one type in the log. */
  function Cuenta(ts: seq<Transaction>, tipo: string): (n: nat)
    ensures n <= |ts|
    ensures n == 0 <==> forall i :: 0 <= i < |ts| ==> ts[i].tipo != tipo
    ensures n == |ts| <==> forall i :: 0 <= i < |ts| ==> ts[i].tipo == tipo
  {
    if ts == [] then 0
    else
      var resto := Cuenta(ts[1..], tipo);
      assert forall i :: 1 <= i < |ts| ==> ts[i] == ts[1..][i - 1];
      (if ts[0].tipo == tipo then 1 else 0) + resto
  }

  /** A single transaction counts once exactly when it has the type. */
  lemma CuentaUna(t: Transaction, tipo: string)
    ensures Cuenta([t], tipo) == if t.tipo == tipo then 1 else 0
  {
    assert [t][1..] == [];
  }

  /** Counting over a concatenated log adds the counts of the parts. */
  lemma {:induction false} CuentaConcat(a: seq<Transaction>, b: seq<Transaction>, tipo: string)
    ensures Cuenta(a + b, tipo) == Cuenta(a, tipo) + Cuenta(b, tipo)
    decreases |a|
  {
    if a == [] {
      assert a + b == b;
    } else {
      var ab := a + b;
      assert ab[0] == a[0];
      assert ab[1..] == a[1..] + b;
      CuentaConcat(a[1..], b, tipo);
      assert Cuenta(ab, tipo) == (if a[0].tipo == tipo then 1 else 0) + Cuenta(a[1..] + b, tipo);
    }
  }

  /** The criteria the evaluator knows. */
  const Criterios: set<string> := {"reciclaje_1", "racha_7", "reciclaje_100", "quiz_perfect_5"}

  /**
    Whether a criterion holds for the given recycling-transaction count,
    current streak and quiz-transaction count; an unknown criterion never holds.
   */
  predicate Cumple(criterio: string, reciclajes: nat, racha: int, quizzes: nat) {
    if criterio == "reciclaje_1" then reciclajes >= 1
    else if criterio == "racha_7" then racha >= 7
    else if criterio == "reciclaje_100" then reciclajes >= 100
    else if criterio == "quiz_perfect_5" then quizzes >= 5
    else false
  }

  /** The ids of the achievements a user holds. */
  function Ids(ls: seq<UserAchievement>): set<int> {
    set l | l in ls :: l.achievementId
  }

  /** The ids of a list of achievements. */
  function IdsDe(lista: seq<Achievement>): set<int> {
    set a | a in lista :: a.id
  }

  /** The holding records created for newly granted achievements. */
  function Registros(lista: seq<Achievement>): (r: seq<UserAchievement>)
    ensures |r| == |lista|
    ensures forall k :: 0 <= k < |lista| ==> r[k] == UserAchievement(lista[k].id, 100)
    ensures Ids(r) == IdsDe(lista)
    ensures forall x :: x in r ==> x.progreso == 100
  {
    seq(|lista|, k requires 0 <= k < |lista| => UserAchievement(lista[k].id, 100))
  }

  /**
    The achievements granted by one evaluation, in catalogue order, when the
    user already holds the ids in `tenidos`.
   */
  function Otorgados(catalogo: seq<Achievement>, tenidos: set<int>, reciclajes: nat, racha: int, quizzes: nat): seq<Achievement> {
    if catalogo == [] then []
    else
      var a := catalogo[0];
      if a.id !in tenidos && Cumple(a.criterio, reciclajes, racha, quizzes) then
        [a] + Otorgados(catalogo[1..], tenidos + {a.id}, reciclajes, racha, quizzes)
      else Otorgados(catalogo[1..], tenidos, reciclajes, racha, quizzes)
  }

  /** Whether the user holds achievement `id`. */
  predicate Tiene(ls: seq<UserAchievement>, id: int) {
    exists j :: 0 <= j < |ls| && ls[j].achievementId == id
  }

  lemma IdsConcat(ls: seq<UserAchievement>, a: Achievement)
    ensures Ids(ls + [UserAchievement(a.id, 100)]) == Ids(ls) + {a.id}
  {
    var ls' := ls + [UserAchievement(a.id, 100)];
    assert ls'[|ls|] == UserAchievement(a.id, 100);
    forall x | x in Ids(ls') ensures x in Ids(ls) + {a.id} {
      var l :| l in ls' && l.achievementId == x;
    }
  }

  /** One step of the evaluation, unfolded at position `i` of the catalogue. */
  lemma OtorgadosPaso(catalogo: seq<Achievement>, i: nat, tenidos: set<int>, reciclajes: nat, racha: int, quizzes: nat)
    requires i < |catalogo|
    ensures Otorgados(catalogo[i..], tenidos, reciclajes, racha, quizzes) ==
      if catalogo[i].id !in tenidos && Cumple(catalogo[i].criterio, reciclajes, racha, quizzes)
      then [catalogo[i]] + Otorgados(catalogo[i + 1..], tenidos + {catalogo[i].id}, reciclajes, racha, quizzes)
      else Otorgados(catalogo[i + 1..], tenidos, reciclajes, racha, quizzes)
  {
    assert catalogo[i..][1..] == catalogo[i + 1..];
  }

  /**
    Checks every catalogue achievement the user lacks and records, with
    progress 100, those whose criterion holds; returns the newly granted ones.
   */
  method VerificarLogros(user: User, catalogo: seq<Achievement>) returns (obtenidos: seq<Achievement>)
    modifies user`logros
    ensures obtenidos == Otorgados(catalogo, Ids(old(user.logros)), Cuenta(user.transacciones, "reciclaje"),
                                   user.rachaActual, Cuenta(user.transacciones, "quiz"))
    ensures user.logros == old(user.logros) + Registros(obtenidos)
  {
    var reciclajes := Cuenta(user.transacciones, "reciclaje");
    var quizzes := Cuenta(user.transacciones, "quiz");
    var racha := user.rachaActual;
    ghost var objetivo := Otorgados(catalogo, Ids(user.logros), reciclajes, racha, quizzes);
    ghost var inicial := user.logros;
    var logros := user.logros;
    obtenidos := [];
    var i := 0;
    while i < |catalogo|
      invariant 0 <= i <= |catalogo|
      invariant logros == inicial + Registros(obtenidos)
      invariant obtenidos + Otorgados(catalogo[i..], Ids(logros), reciclajes, racha, quizzes) == objetivo
    {
      var logro := catalogo[i];
      OtorgadosPaso(catalogo, i, Ids(logros), reciclajes, racha, quizzes);
      var yaTiene := Tiene(logros, logro.id);
      assert yaTiene <==> logro.id in Ids(logros) by {
        if logro.id in Ids(logros) {
          var l :| l in logros && l.achievementId == logro.id;
        }
      }
      if !yaTiene {
        var cumple := false;
        if logro.criterio == "reciclaje_1" {
          cumple := reciclajes >= 1;
        } else if logro.criterio == "racha_7" {
          cumple := racha >= 7;
        } else if logro.criterio == "reciclaje_100" {
          cumple := reciclajes >= 100;
        } else if logro.criterio == "quiz_perfect_5" {
          cumple := quizzes >= 5;
        }
        assert cumple == Cumple(logro.criterio, reciclajes, racha, quizzes);
        if cumple {
          IdsConcat(logros, logro);
          assert Registros(obtenidos + [logro]) == Registros(obtenidos) + [UserAchievement(logro.id, 100)];
          logros := logros + [UserAchievement(logro.id, 100)];
          obtenidos := obtenidos + [logro];
        }
      }
      i := i + 1;
    }
    assert catalogo[i..] == [];
    user.logros := logros;
  }

  /**
    Every granted achievement comes from the catalogue, was not held and has
    a known criterion that holds.
   */
  lemma {:induction false} OtorgadosCorrectos(catalogo: seq<Achievement>, tenidos: set<int>, reciclajes: nat, racha: int, quizzes: nat)
    ensures forall a :: a in Otorgados(catalogo, tenidos, reciclajes, racha, quizzes) ==>
      a in catalogo && a.id !in tenidos && a.criterio in Criterios && Cumple(a.criterio, reciclajes, racha, quizzes)
  {
    if catalogo != [] {
      var a := catalogo[0];
      if a.id !in tenidos && Cumple(a.criterio, reciclajes, racha, quizzes) {
        OtorgadosCorrectos(catalogo[1..], tenidos + {a.id}, reciclajes, racha, quizzes);
      } else {
        OtorgadosCorrectos(catalogo[1..], tenidos, reciclajes, racha, quizzes);
      }
    }
  }

  /** Whether the achievements in a list have pairwise distinct ids. */
  predicate IdsDistintos(g: seq<Achievement>) {
    forall k, l :: 0 <= k < l < |g| ==> g[k].id != g[l].id
  }

  /** An evaluation grants each achievement id at most once. */
  lemma {:induction false} OtorgadosDistintos(catalogo: seq<Achievement>, tenidos: set<int>, reciclajes: nat, racha: int, quizzes: nat)
    ensures IdsDistintos(Otorgados(catalogo, tenidos, reciclajes, racha, quizzes))
  {
    if catalogo != [] {
      var a := catalogo[0];
      if a.id !in tenidos && Cumple(a.criterio, reciclajes, racha, quizzes) {
        var resto := Otorgados(catalogo[1..], tenidos + {a.id}, reciclajes, racha, quizzes);
        OtorgadosDistintos(catalogo[1..], tenidos + {a.id}, reciclajes, racha, quizzes);
        OtorgadosCorrectos(catalogo[1..], tenidos + {a.id}, reciclajes, racha, quizzes);
        var g := [a] + resto;
        forall k, l | 0 <= k < l < |g| ensures g[k].id != g[l].id {
          assert g[l] == resto[l - 1];
          assert g[l] in resto;
          assert g[l].id !in tenidos + {a.id};
          if k > 0 {
            assert g[k] == resto[k - 1];
          }
        }
        assert IdsDistintos(g);
      } else {
        OtorgadosDistintos(catalogo[1..], tenidos, reciclajes, racha, quizzes);
        assert Otorgados(catalogo, tenidos, reciclajes, racha, quizzes) == Otorgados(catalogo[1..], tenidos, reciclajes, racha, quizzes);
      }
    }
  }

  /** After an evaluation the user holds every catalogue achievement whose criterion holds. */
  lemma {:induction false} OtorgadosCompletos(catalogo: seq<Achievement>, tenidos: set<int>, reciclajes: nat, racha: int, quizzes: nat)
    ensures forall a :: a in catalogo && Cumple(a.criterio, reciclajes, racha, quizzes) ==>
      a.id in tenidos + IdsDe(Otorgados(catalogo, tenidos, reciclajes, racha, quizzes))
  {
    if catalogo != [] {
      var a := catalogo[0];
      if a.id !in tenidos && Cumple(a.criterio, reciclajes, racha, quizzes) {
        OtorgadosCompletos(catalogo[1..], tenidos + {a.id}, reciclajes, racha, quizzes);
      } else {
        OtorgadosCompletos(catalogo[1..], tenidos, reciclajes, racha, quizzes);
      }
    }
  }

  /** Nothing is granted when every satisfied achievement is already held. */
  lemma {:induction false} NadaQueOtorgar(catalogo: seq<Achievement>, tenidos: set<int>, reciclajes: nat, racha: int, quizzes: nat)
    requires forall a :: a in catalogo && Cumple(a.criterio, reciclajes, racha, quizzes) ==> a.id in tenidos
    ensures Otorgados(catalogo, tenidos, reciclajes, racha, quizzes) == []
  {
    if catalogo != [] {
      NadaQueOtorgar(catalogo[1..], tenidos, reciclajes, racha, quizzes);
    }
  }

  /** Evaluating again with the same counts grants nothing more. */
  lemma OtorgarIdempotente(catalogo: seq<Achievement>, tenidos: set<int>, reciclajes: nat, racha: int, quizzes: nat)
    ensures Otorgados(catalogo, tenidos + IdsDe(Otorgados(catalogo, tenidos, reciclajes, racha, quizzes)),
                      reciclajes, racha, quizzes) == []
  {
    OtorgadosCompletos(catalogo, tenidos, reciclajes, racha, quizzes);
    NadaQueOtorgar(catalogo, tenidos + IdsDe(Otorgados(catalogo, tenidos, reciclajes, racha, quizzes)), reciclajes, racha, quizzes);
  }
}
