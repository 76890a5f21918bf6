/** Application constants: casino limits, level thresholds and the career catalogue. */
module Config {

  /** Smallest accepted casino bet. */
  const CasinoMinBet: int := 10

  /** The maximum bet is 30% of the balance, written as the fraction 3/10. */
  const CasinoMaxBetNum: int := 3
  const CasinoMaxBetDen: int := 10

  /** Level name and minimum points, in the order the configuration declares them. */
  const Niveles: seq<(string, int)> := [
    ("Semilla Verde", 0),
    ("Brote Ecológico", 101),
    ("Alumno Verde", 301),
    ("Guardián Ambiental", 601),
    ("Líder Sostenible", 1001),
    ("Eco Maestro", 1501)
  ]

  /** The level table sorted by threshold, highest first, as the level update iterates it. */
  const NivelesDesc: seq<(string, int)> := [
    ("Eco Maestro", 1501),
    ("Líder Sostenible", 1001),
    ("Guardián Ambiental", 601),
    ("Alumno Verde", 301),
    ("Brote Ecológico", 101),
    ("Semilla Verde", 0)
  ]

  /** NivelesDesc is the level table reversed, and its thresholds strictly decrease. */
  lemma NivelesDescOrdenado()
    ensures forall i, j :: 0 <= i < j < |NivelesDesc| ==> NivelesDesc[i].1 > NivelesDesc[j].1
    ensures forall i :: 0 <= i < |NivelesDesc| ==> NivelesDesc[i] == Niveles[|Niveles| - 1 - i]
  {
  }

  /** Career code and display name, faculty by faculty, in declaration order. */
  const Carreras: seq<(string, string)> := [
    ("ing_informatica", "Ingeniería Informática"),
    ("ing_civil", "Ingeniería Civil"),
    ("ing_industrial", "Ingeniería Industrial"),
    ("ing_electronica", "Ingeniería Electrónica"),
    ("arq", "Arquitectura"),
    ("analisis", "Análisis de Sistemas"),
    ("diseno_ind", "Industrial"),
    ("diseno", "Diseño Gráfico"),
    ("derecho", "Derecho"),
    ("notariado", "Notariado"),
    ("rel_inter", "Relaciones Internacionales"),
    ("admin", "Administración de Empresas"),
    ("contabilidad", "Contabilidad"),
    ("marketing", "Marketing"),
    ("comercio", "Comercio Internacional"),
    ("medicina", "Medicina"),
    ("enfermeria", "Enfermería"),
    ("nutricion", "Nutrición"),
    ("odontologia", "Odontología"),
    ("docentes", "Docentes"),
    ("personal_adm", "Personal Administrativo"),
    ("psicologia", "Psicología"),
    ("comunicacion", "Ciencias de la Comunicación"),
    ("sociologia", "Sociología"),
    ("teologia", "Teología"),
    ("historia", "Historia")
  ]
}
