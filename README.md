# EcoHistoria points core in Dafny

EcoHistoria is a campus recycling-gamification web application. Students earn
points for recycling deliveries, quizzes and events. Points raise a level and a
daily streak, drive daily and weekly missions, unlock achievements, can be
redeemed for rewards and can be wagered in three casino games. A small build
script compiles gettext `.po` catalogues into binary `.mo` files.

This project models that core and proves properties of it:

- `Models` (`models.dfy`): the `User` ledger as a class. It covers crediting,
  checked debiting, the level derived from the balance and the daily streak.
  `Reward` and `UserReward` are classes with fields updated in place. The other
  records are datatypes.
- `Misiones` (`misiones.dfy`): lazy assignment of one daily and one weekly
  mission. It also covers progress updates, which complete a mission and pay
  its reward exactly once.
- `Logros` (`logros.dfy`): the achievement check against its four criteria.
- `Juegos` (`juegos.dfy`): roulette, slots and dice, with the random draws as
  arguments.
- `Carreras` (`carreras.dfy`): the degree-code-to-name lookup with its
  title-case fallback.
- `CasinoRoutes`, `RewardsRoutes`, `RecycleRoutes`, `StaffRoutes`: the request
  handlers that validate bets and settle them, redeem rewards, score quizzes,
  register events, credit deliveries and hand over coupons.
- `CasinoJs`, `MainJs`: the browser-side bet validation, the thousands-separator
  formatter and the notification icon.
- `CompileTranslations`: `.po` parsing, key sorting and the `.mo` byte layout.
- `Opcion`, `Fechas`, `Config`, `Texto`: shared option type, day arithmetic,
  configuration constants and decimal rendering of integers.

Dates are day numbers. Day 1 (1 January of year 1) is a Monday, so the weekday of day `d` is `(d + 6) % 7`
in the proleptic calendar used by Python's `date.toordinal`. The current day is
an argument (`hoy`). Random choices are arguments too: indices into candidate
lists, the drawn roulette number, reel indices and dice values.

## Model

| member | source | states |
|---|---|---|
| Fechas.Weekday | utils.py:154 | the weekday of a day is in 0..6 |
| Fechas.InicioSemana | utils.py:154 | the start of the week is a Monday at most six days before the given day |
| Fechas.MismaSemana | utils.py:195 | two days have the same week start iff one lies in the seven days from the other's Monday |
| Config.NivelesDescOrdenado | config.py:20-27 | the level table sorted by threshold, highest first, is the reverse of the declared table with strictly decreasing thresholds |
| Models.NivelUnico | models.py:79-85 | at most one level fits a balance, and only a non-negative balance has a level |
| Models.SiguienteRachaIdempotente | models.py:87-106 | a second activity on the same day leaves the streak unchanged, and the last-activity day becomes today |
| Models.SiguienteRachaNoNegativa | models.py:87-106 | the streak stays non-negative and grows by at most one per activity |
| Models.User.constructor | models.py:25-29 | a new user starts with 0 points, level "Semilla Verde", streak 0 and empty records |
| Models.User.ActualizarNivel | models.py:79-85 | the level becomes the one whose threshold is the largest not above the balance; a negative balance keeps the old level |
| Models.User.ActualizarRacha | models.py:87-106 | same day: unchanged; next day: streak plus one; any other gap or no previous activity: streak 1; the last-activity day becomes today |
| Models.User.AgregarPuntos | models.py:108-121 | the balance moves by the amount, the historic total by its positive part, the level follows the balance, the streak advances, exactly one transaction is appended and no other record changes |
| Models.User.RestarPuntos | models.py:123-135 | succeeds iff the balance covers the amount; on success the balance drops by it and a negative transaction is logged, otherwise nothing changes |
| Misiones.Activas | utils.py:165 | a mission is kept iff it is active and of the frequency |
| Misiones.ActivasUna | utils.py:165 | a single mission is kept iff it is active and of the frequency |
| Misiones.ActivasConcat | utils.py:165 | filtering a concatenation filters each part and concatenates, so order and multiplicity are kept |
| Misiones.AsignarMisiones | utils.py:151-186 | appends exactly the daily and weekly assignments the user lacks |
| Misiones.NuevaDiariaForma | utils.py:156-169 | the daily step adds nothing when a daily is dated today, else at most one fresh daily from the active catalogue |
| Misiones.NuevaSemanalForma | utils.py:171-184 | the weekly step adds nothing when a weekly is dated this week, else at most one fresh weekly from the active catalogue |
| Misiones.AsignadasAcotadas | utils.py:156-184 | one call adds at most one daily and one weekly fresh assignment of active catalogue missions dated today, and none for a window already covered |
| Misiones.AsignadasCubren | utils.py:163-184 | after a call, each window the catalogue can fill holds an assignment |
| Misiones.AsignarIdempotente | tests/test_misiones.py:38-50 | a second call on the same day assigns nothing, whatever the draws |
| Misiones.ProcesarAsignacion | utils.py:208-216 | one assignment advances; if it completes, its reward is credited through the ledger |
| Misiones.ActualizarProgresoMision | utils.py:189-219 | every open assignment of the action type in its window gains the quantity and those reaching the goal complete; the completed missions are returned in order; the ledger afterwards is the ledger before paid with them: balance plus their rewards, historic total plus the positive ones, one "mision" transaction each, the streak advanced when any completed |
| Misiones.AcreditarPagar | models.py:108-121 | crediting an activity and then paying the completed missions gives the balance plus the amount and the rewards, the historic total plus their positive parts, the transaction followed by one per mission, and the streak advanced once for the day |
| Misiones.AcreditarActividad | utils.py:189-219 | an activity is credited through the ledger, its missions advance, and the ledger afterwards is the old ledger credited and then paid the completed missions; the level matches a non-negative balance, and is kept when the balance ends negative with no mission completed |
| Misiones.PagarConcat | utils.py:206-216 | paying the completed missions one at a time gives the same ledger as paying them all at once |
| Misiones.AvanzarEfecto | utils.py:197-210 | an assignment is complete afterwards iff it was or it reaches its goal now; only selected assignments change, by exactly the quantity |
| Misiones.CompletadasCaracteriza | utils.py:206-216 | the returned missions are exactly those of assignments completing in this update |
| Misiones.RecompensaUnaVez | utils.py:199 | over any series of updates a reward is paid at most once, and never after completion |
| Misiones.EjemploReciclajeSemanal | tests/test_misiones.py:52-73 | a weekly goal of 10 reached by two updates of 5 completes on the second and pays 50 once |
| Logros.Cuenta | utils.py:356-359 | the count is at most the number of transactions; it is 0 iff no transaction has the type and the full length iff all have it |
| Logros.CuentaUna | utils.py:356-359 | one transaction counts 1 iff it has the type |
| Logros.CuentaConcat | utils.py:356-359 | the count over a concatenation is the sum of the counts of the parts |
| Logros.Registros | utils.py:382-389 | the records carry exactly the ids of the granted achievements, each with progress 100 |
| Logros.VerificarLogros | utils.py:335-391 | returns exactly the catalogue achievements not yet held whose criterion holds, and appends one record for each |
| Logros.OtorgadosCorrectos | utils.py:355-389 | every granted achievement comes from the catalogue, was not held, and has a known criterion that holds |
| Logros.OtorgadosDistintos | utils.py:382-389 | no achievement is granted twice in one call when catalogue ids are distinct |
| Logros.OtorgadosCompletos | utils.py:355-389 | every catalogue achievement whose criterion holds is either already held or granted |
| Logros.NadaQueOtorgar | utils.py:355-389 | when every qualifying achievement is held, nothing is granted |
| Logros.OtorgarIdempotente | utils.py:355-389 | a second check right after the first grants nothing |
| Juegos.JugarRuleta | utils.py:224-259 | colour from the number; per bet type the exact win condition and multiplier 35, 2 or 3; unknown bet types never win |
| Juegos.JugarSlots | utils.py:262-291 | three recycling symbols pay 50; three other equal symbols pay 10; exactly two equal pay 3; otherwise a loss |
| Juegos.TablaSumaCompleta | utils.py:314 | the sum table has exactly the keys 2..12, is symmetric around 7 and pays strictly less from 2 down to 7, the most likely sum; the multiplier for any sum is at least 5, and within 2..12 it is 5 only for 7 |
| Juegos.JugarDados | utils.py:294-332 | the sum is in 2..12; per bet type the exact win condition and multiplier; unknown types never win |
| Carreras.Reemplazar | utils.py:146 | the replaced character no longer occurs, the replacement occurs iff either occurred before, and every other character occurs iff it did before |
| Carreras.TituloCaracteriza | utils.py:146 | title case: a letter after a non-letter or at the start is upper-cased, any other letter lower-cased, non-letters kept |
| Carreras.TituloIdempotente | utils.py:146 | title-casing twice is the same as once |
| Carreras.Buscar | utils.py:142-145 | the name of the first catalogue entry with the code, or none when no entry has it |
| Carreras.ObtenerNombreCarrera | utils.py:135-146 | a missing or empty code gives "Sin Carrera"; a known code gives its catalogue name; otherwise the code with underscores as spaces, title-cased |
| Carreras.CodigosDistintos | config.py:39-79 | the degree codes of the catalogue are pairwise distinct |
| Carreras.NombreCarreraCorrecto | utils.py:140-146 | for a non-empty code the result is the name of the entry carrying it; when none does, it is the code with underscores as spaces, title-cased, of the same length and with no underscore |
| Texto.NatToString | routes/casino.py:77 | the decimal rendering is all digits with no leading zero |
| Texto.ValorNatToString | routes/casino.py:77 | reading the decimal rendering back gives the number |
| Texto.LongitudNatToString | static/js/main.js:91 | a natural has at most three digits iff it is below 1000 |
| CasinoRoutes.MaxApuesta | routes/casino.py:53 | the cap is 30% of the balance truncated toward zero, for negative balances too |
| CasinoRoutes.ValidarApuesta | routes/casino.py:50-58 | accepted iff minimum <= bet <= cap and bet <= balance; the first failing check names the rejection, carrying the minimum or the cap |
| CasinoRoutes.SinPuntosInalcanzable | routes/casino.py:57-58 | for a non-negative balance the not-enough-points rejection cannot happen, and an accepted bet never exceeds the balance |
| CasinoRoutes.Ganancia | routes/casino.py:63-65 | the gross win is zero on a loss and never negative for a non-negative bet |
| CasinoRoutes.Liquidar | routes/casino.py:63-83 | the net gain is the gross win minus the bet; the balance moves by it and one round is recorded |
| CasinoRoutes.JugarRuletaPost | routes/casino.py:41-91 | rejected iff validation fails, with nothing changed; otherwise the round settles per the roulette rules, the balance stays non-negative and the drawn number is recorded |
| CasinoRoutes.JugarSlotsPost | routes/casino.py:103-150 | rejected iff validation fails, with nothing changed; otherwise the round settles per the slots rules and the joined symbols are recorded |
| CasinoRoutes.JugarDadosPost | routes/casino.py:162-211 | rejected iff validation fails, with nothing changed; otherwise the round settles per the dice rules and "d1+d2=sum" is recorded |
| CasinoJs.MaxCliente | static/js/casino.js:60 | the client cap is the floor of 30% of the balance |
| CasinoJs.ValidarApuesta | static/js/casino.js:57-75 | valid iff the bet is NaN or 10 <= bet <= cap and bet <= balance; each failing check gives its message, and NaN fails none of them |
| CasinoJs.NaNPasa | static/js/casino.js:57-75 | a NaN bet, which `parseInt` yields for an empty field, is accepted, while every accepted integer bet is at least 10 |
| CasinoJs.ValidoAcotado | static/js/casino.js:57-75 | for a non-negative balance a valid bet lies in 10..balance, and the not-enough-points message never shows |
| CasinoJs.ClienteCoincideConServidor | static/js/casino.js:57-75 | for every balance, the browser accepts exactly the integer bets the server accepts |
| MainJs.Racha | static/js/main.js:91 | the digit run starting at a position stays inside the text |
| MainJs.RachaDelimita | static/js/main.js:91 | the run is all digits and is followed by the end of the text or a non-digit |
| MainJs.AnticipaSiiRacha | static/js/main.js:91 | the lookahead `(\d{3})+(?!\d)` matches iff the digit run is a positive multiple of three |
| MainJs.QuitarComasInsertar | static/js/main.js:91 | inserting separators into digits adds only commas |
| MainJs.FormatNumberSinComas | static/js/main.js:90-92 | removing the commas from a formatted number gives back its decimal rendering |
| MainJs.InsertarAgrupa | static/js/main.js:91 | the left-to-right replacement equals grouping the digits in threes from the right |
| MainJs.FormatNumberAgrupa | static/js/main.js:90-92 | a non-negative number is rendered with a comma every three digits from the right |
| MainJs.FormatNumberNegativo | static/js/main.js:90-92 | a negative number is the minus sign followed by the formatted magnitude |
| MainJs.FormatNumberPequeno | static/js/main.js:90-92 | a number of magnitude below 1000 is rendered without a comma |
| MainJs.GetIcon | static/js/main.js:121-129 | success, danger and warning get their icons; every other type gets the info icon |
| RewardsRoutes.Canjear | routes/rewards.py:29-64 | too few points, then no stock, refuse with nothing changed; otherwise the cost is debited, a pending coupon is recorded and the stock drops by one without going negative; the error branch is unreachable |
| RecycleRoutes.CuentaCorrectas | routes/recycle.py:70-75 | the number of correct answers never exceeds the number of questions and is 0 iff no answer is correct |
| RecycleRoutes.CuentaCorrectasUna | routes/recycle.py:70-75 | one question counts 1 iff its answer is correct |
| RecycleRoutes.CuentaCorrectasConcat | routes/recycle.py:70-75 | the count over a concatenation of questions is the sum of the counts of the parts |
| RecycleRoutes.TodasCorrectas | routes/recycle.py:77 | the count equals the number of questions iff every answer is correct |
| RecycleRoutes.PuntosTodoONada | routes/recycle.py:77 | all correct earns the full reward, any wrong answer earns 0; a quiz with no questions earns the full reward |
| RecycleRoutes.Calificar | routes/recycle.py:66-75 | the loop collects exactly the answers read and counts exactly the correct ones |
| RecycleRoutes.ResolverQuiz | routes/recycle.py:53-106 | a completed quiz is refused with nothing changed; otherwise the attempt is recorded whatever its score, and only a positive score credits points, advances quiz missions by one and grants achievements; then the historic total grows by the points and the positive mission rewards, the streak advances once for the day, the level matches a non-negative balance and is kept when the balance ends negative with no mission completed, and the ledger is the old one credited with the quiz and paid the completed missions; a score of 0 changes nothing but the recorded attempt, the level included |
| RecycleRoutes.EventosPositivos | routes/recycle.py:125-130 | the four events in the table each award a positive amount |
| RecycleRoutes.RegistrarEvento | routes/recycle.py:121-146 | an unknown event changes nothing; a known one credits its points as "evento" and advances event missions by one; the historic total, the streak, the level (kept when the balance ends negative with no mission completed) and the ledger follow as for any credited activity |
| StaffRoutes.BuscarUsuario | routes/staff.py:39 | the first user whose username or email equals the identifier, or none iff there is no such user |
| StaffRoutes.PuntosEntrega | routes/staff.py:46 | a delivery's points are never negative for non-negative inputs, and zero for zero units |
| StaffRoutes.RegistrarEntrega | routes/staff.py:31-71 | an unknown identifier changes no user; otherwise only that user is credited with the delivery as "reciclaje" and recycling missions advance by the quantity; the historic total grows by the positive points and mission rewards, the streak advances once, the level matches a non-negative balance and is kept when the balance ends negative with no mission completed, and the ledger is the old one credited and paid |
| StaffRoutes.MarcarEntregado | routes/staff.py:93-103 | reports whether the coupon was already handed over; afterwards it is handed over either way |
| CompileTranslations.Ascii | compile_translations.py:53 | ASCII text encodes to the same code points, byte by byte, each below 128 |
| CompileTranslations.AsciiInyectiva | compile_translations.py:53 | two ASCII texts with the same encoding are equal |
| CompileTranslations.Strip | compile_translations.py:16 | the stripped line is a slice of the line with only whitespace cut on either side, and it starts and ends with a non-whitespace character |
| CompileTranslations.StripRecorte | compile_translations.py:16 | removing leading and then trailing whitespace leaves a slice with only whitespace outside it |
| CompileTranslations.Cuerpo | compile_translations.py:30 | for a line longer than the prefix, the line is the prefix, the result and the last byte, in that order; otherwise the result is empty |
| CompileTranslations.PutMiembros | compile_translations.py:21 | every entry after storing a message is the new pair or an entry that was already there |
| CompileTranslations.PutBuscar | compile_translations.py:21 | after storing, the key reads back the new value and every other key reads back its old value |
| CompileTranslations.PutTabla | compile_translations.py:21 | storing a non-empty pair into a well-formed table keeps it well formed: distinct keys, no empty key or translation |
| CompileTranslations.PutCorrecto | compile_translations.py:21 | storing a message keeps keys unique, maps the key to the new value and leaves every other key alone |
| CompileTranslations.QuitarVacia | compile_translations.py:48-49 | exactly the entries whose key is not empty survive |
| CompileTranslations.QuitarVaciaSinEfecto | compile_translations.py:20-49 | a table without an empty key is unchanged by the removal |
| CompileTranslations.Parsear | compile_translations.py:14-49 | the line-by-line loop computes the reference parse of the catalogue |
| CompileTranslations.RecorrerPreservaTabla | compile_translations.py:15-41 | every parsing step keeps the message table free of duplicate and empty keys |
| CompileTranslations.MensajesBienFormados | compile_translations.py:10-49 | a parsed catalogue has unique keys, and every key and translation is non-empty |
| CompileTranslations.MenorTransitivo | compile_translations.py:52 | the byte-wise key order is transitive |
| CompileTranslations.MenorTotal | compile_translations.py:52 | any two different keys are ordered |
| CompileTranslations.InsertarOrdenadoCorrecto | compile_translations.py:52 | inserting into a sorted table keeps it sorted and adds exactly the entry |
| CompileTranslations.OrdenarMiembros | compile_translations.py:52 | sorting keeps exactly the entries of the table |
| CompileTranslations.OrdenarCorrecto | compile_translations.py:52 | sorting yields keys in strictly increasing order and a permutation of the table |
| CompileTranslations.EscribirDescriptores | compile_translations.py:74-84 | the loop writes the (length, offset) pair of every string and ends at the offset after the last string and its NUL |
| CompileTranslations.DescriptorApunta | compile_translations.py:74-84 | descriptor i holds the length of string i and an offset where that string and a NUL are stored; each offset is the previous one plus the previous length plus one |
| CompileTranslations.Serializar | compile_translations.py:53-88 | the output is the header, the original and translation descriptor tables and the NUL-terminated strings, in that order |
| CompileTranslations.CabeceraYTamano | compile_translations.py:59-71 | the header is magic 0x950412de, revision 0, N, 28, 28+8N, 0, 0, and the file size is the header plus both tables plus the string data |
| CompileTranslations.OriginalApunta | compile_translations.py:74-78 | the i-th original descriptor gives the key's length and an offset at which the key's bytes followed by NUL are found |
| CompileTranslations.TraduccionApunta | compile_translations.py:81-84 | the i-th translation descriptor gives the translation's length and an offset at which its bytes followed by NUL are found |
| CompileTranslations.GenerarMo | compile_translations.py:8-88 | fails iff parsing fails; otherwise the entries are sorted, a permutation of the parsed table, and laid out as a `.mo` file |
| CompileTranslations.OrdenadaTabla | compile_translations.py:52-54 | a sorted permutation of a well-formed table is itself well formed |

## Left out

- Persistence, sessions, HTTP, templates, flash messages, translations of
  messages and CSRF are not modelled. Each handler becomes one method over
  in-memory objects.
- The clock is an argument. The source takes the streak day from UTC time and
  the mission windows from the local date. The model uses one day `hoy` for both.
- Randomness is an argument: the index drawn by `random.choice` and the
  drawn roulette number, reels and dice.
- Models.User.AgregarPuntos: the streak stores the day only, not the full
  timestamp of the last activity.
- Misiones.AsignarMisiones: the catalogue order is taken as the order the
  database returns, which the source does not fix.
- Logros.VerificarLogros: the catalogue order stands in for the order in which
  the database returns achievements.
- Carreras.TituloCaracteriza: letters are ASCII only; Python's Unicode
  `str.title` is not modelled (accented letters count as non-letters).
- CompileTranslations.Strip: only ASCII whitespace and the four separator
  controls 28-31 are stripped; Unicode whitespace is not.
- CompileTranslations.GenerarMo: text is a sequence of bytes, so UTF-8
  encoding is out of scope. Sorting compares bytes, which for UTF-8 matches
  code-point order. Offsets beyond 32 bits, which `struct.pack` would reject, are
  not modelled. Reading and writing files is not modelled. Two consequences of
  working on bytes: a file that is not valid UTF-8 makes the source raise a
  decoding error, while the model parses it; and `line[8:-1]` on an
  unterminated line drops the last character in the source but only its last
  byte in the model (`msgstr "café` stores "caf" there, and "caf" plus the
  byte 0xC3 here).
- CompileTranslations.Parsear: a quoted continuation line while no `msgid` is
  pending raises a type error in the source; the model reports it as a failed
  parse (None). This happens before the first `msgid`, and also after a comment
  or blank line that stored a complete entry and reset both pending values.
- CasinoRoutes.MaxApuesta: the source multiplies by the float 0.30; the model
  uses the exact fraction 3/10 with truncation toward zero.
- CasinoRoutes.ValidarApuesta: the bet is an integer. A JSON float such as 10.5
  passes the same checks in the source and is settled in floating point; a JSON
  string makes the comparison with the minimum raise a type error. Neither is
  modelled.
- Misiones.ActualizarProgresoMision: the assignments are visited in the order
  of the user's list, which stands for the unordered database query; that order
  also fixes the order of the returned missions and of their "mision"
  transactions.
- CasinoJs.ValidarApuesta: the balance is read as an integer; a NaN balance,
  from unreadable page text, is not modelled.
- CasinoJs.ClienteCoincideConServidor: holds for integer bets only. A NaN bet
  passes the browser (CasinoJs.NaNPasa) and is sent as `null`; the server's
  `None < 10` then raises a type error, which is not modelled.
- MainJs.FormatNumber: takes integers only. JavaScript numbers with a fraction
  are not modelled; the source would also group the digits after the point
  (1234.5678 becomes "1,234.5,678"). Magnitudes of 1e21 and above, which
  `toString` writes in exponent form ("1e+21"), and integers above 2^53, which
  JavaScript numbers do not hold exactly, are not modelled either.
- CasinoJs.MaxCliente: the browser computes `Math.floor(saldo * 0.30)` in
  floating point; the model uses the exact floor of 3/10 of the balance.
- MainJs.GetIcon: prototype property names such as `constructor` are not
  modelled; every unknown type yields the info icon.
- StaffRoutes.BuscarUsuario: the first user in list order stands for the row
  `.first()` returns from a query without ordering; the two can differ only when
  one user's username is another user's email.
- CasinoRoutes.JugarRuletaPost, CasinoRoutes.JugarSlotsPost and
  CasinoRoutes.JugarDadosPost take the bet, the bet type and the value already
  read from the request; the caller supplies the request defaults (bet 0, type
  "numero" for roulette and "suma" for dice, dice value 7).
- StaffRoutes.RegistrarEntrega: the identifier's `.strip()` and the JSON
  metadata written into the last transaction are not modelled; the identifier is
  taken as already stripped.
- The metadata JSON stored with a casino round (`detalles`) and the coupon code
  of a redemption are not modelled.
- Ranking, statistics, environmental-impact estimates, authentication, the
  admin panel and sharing are not part of this model.
