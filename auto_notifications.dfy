/**
 * The scheduled push notification (`supabase/functions/auto-notifications/index.ts`).
 *
 * The job converts the current UTC hour to Brasília time (UTC-3), sends
 * nothing outside the morning and evening windows, and otherwise sends one
 * message drawn at random from the pool for the current window. The clock
 * and `Math.random` are inputs; the OneSignal request is reduced to a flag
 * saying whether it (or reading its reply) threw.
 */
module AutoNotifications {
  import opened Wrappers

  datatype Message = Message(title: string, message: string)

  const MorningMessages: seq<Message> := [
    Message("☀️ Bom dia, professora!", "Já viu as +5000 atividades prontas para imprimir? Poupe horas de trabalho hoje!"),
    Message("📚 Comece o dia com criatividade!", "O Kit Completo da Alfabetização tem tudo para ensinar leitura de forma divertida."),
    Message("✨ Novidade na Oficina Criativa!", "Moldes novos todos os meses para manter suas aulas sempre atualizadas."),
    Message("🎨 Atividades prontas te esperando!", "Mais de 5000 moldes de EVA para imprimir e usar em atividades criativas."),
    Message("🏫 Prepare sua sala em 1 hora!", "Kit Sala de Aula com murais, calendários e decoração prontos para imprimir.")
  ]

  const EveningMessages: seq<Message> := [
    Message("🌙 Prepare o dia de amanhã!", "Com as +5000 Atividades, você tem material pronto para qualquer situação. Confira!"),
    Message("📖 Dica para amanhã!", "Use o Painel das Palavras para ajudar seus alunos a lerem com facilidade."),
    Message("💡 Já organizou as atividades?", "Palavras Escondidas transforma a leitura em brincadeira. As crianças adoram!"),
    Message("🎯 Planeje com antecedência!", "O Kit de Alfabetização tem exercícios interativos perfeitos para o dia a dia."),
    Message("✏️ Materiais novos disponíveis!", "Confira os moldes e atividades novas na Oficina Criativa.")
  ]

  datatype Request = Request(isPreflight: bool)

  datatype Response =
    | Preflight          // CORS headers, null body; nothing is sent
    | ServerError        // 500 {error}: missing key, or the OneSignal call threw
    | Skipped            // 200 {ok: true, skipped: true}
    | Sent(pick: Message) // 200 {ok: true, sent: pick}

  /** `(getUTCHours() - 3 + 24) % 24`: the hour in Brasília for a UTC hour. */
  function BrHour(utcHour: nat): (h: nat)
    requires utcHour < 24
    ensures h < 24
    ensures (h + 3) % 24 == utcHour
  {
    (utcHour - 3 + 24) % 24
  }

  predicate IsMorning(h: nat) {
    7 <= h < 12
  }

  predicate IsEvening(h: nat) {
    18 <= h < 22
  }

  /** The morning window is 10:00-14:59 UTC and the evening window 21:00-00:59 UTC; they never overlap. */
  lemma WindowsInUtc(utcHour: nat)
    requires utcHour < 24
    ensures IsMorning(BrHour(utcHour)) <==> 10 <= utcHour < 15
    ensures IsEvening(BrHour(utcHour)) <==> 21 <= utcHour || utcHour == 0
    ensures !(IsMorning(BrHour(utcHour)) && IsEvening(BrHour(utcHour)))
  {
  }

  /** `isMorning ? morningMessages : eveningMessages`. */
  function Pool(h: nat): (pool: seq<Message>)
    ensures |pool| == 5
  {
    if IsMorning(h) then MorningMessages else EveningMessages
  }

  /** `Math.floor(Math.random() * pool.length)` for a draw `rand` in [0, 1). */
  function PickIndex(rand: real, n: nat): (i: nat)
    requires 0.0 <= rand < 1.0 && n > 0
    ensures i < n
    ensures i as real <= rand * n as real < i as real + 1.0
  {
    var x := rand * n as real;
    ScaledDrawBelow(rand, n as real);
    FloorBelow(x, n);
    FloorBounds(x);
    x.Floor
  }

  lemma FloorBounds(x: real)
    ensures x.Floor as real <= x < x.Floor as real + 1.0
  {
  }

  lemma FloorBelow(x: real, n: nat)
    requires 0.0 <= x < n as real
    ensures 0 <= x.Floor < n
  {
    FloorBounds(x);
  }

  lemma ScaledDrawBelow(rand: real, n: real)
    requires 0.0 <= rand < 1.0 && n > 0.0
    ensures 0.0 <= rand * n < n
  {
    assert n - rand * n == (1.0 - rand) * n;
  }

  /**
   * One run of the job. `oneSignalKey` is the `ONESIGNAL_REST_API_KEY` variable
   * (missing or empty both count as not configured); `rand` is the value of
   * `Math.random()`; `sendFails` says whether the OneSignal call threw.
   */
  function Notify(req: Request, oneSignalKey: Option<string>, utcHour: nat, rand: real, sendFails: bool): (r: Response)
    requires utcHour < 24 && 0.0 <= rand < 1.0
    ensures req.isPreflight ==> r == Preflight
    ensures !req.isPreflight && (oneSignalKey.None? || oneSignalKey == Some("")) ==> r == ServerError
    ensures r.Sent? ==> oneSignalKey.Some? && oneSignalKey.value != "" && !sendFails
    ensures r.Sent? ==> ((IsMorning(BrHour(utcHour)) && r.pick in MorningMessages)
                      || (IsEvening(BrHour(utcHour)) && r.pick in EveningMessages))
    ensures r == Skipped <==> !req.isPreflight && oneSignalKey.Some? && oneSignalKey.value != ""
                              && !IsMorning(BrHour(utcHour)) && !IsEvening(BrHour(utcHour))
  {
    if req.isPreflight then Preflight
    else if oneSignalKey.None? || oneSignalKey.value == "" then ServerError
    else
      var h := BrHour(utcHour);
      if !IsMorning(h) && !IsEvening(h) then Skipped
      else
        var pool := Pool(h);
        var pick := pool[PickIndex(rand, |pool|)];
        if sendFails then ServerError else Sent(pick)
  }

  /** A configured run inside a window sends a message unless the OneSignal call throws. */
  lemma SendsInsideWindows(oneSignalKey: string, utcHour: nat, rand: real)
    requires utcHour < 24 && 0.0 <= rand < 1.0 && oneSignalKey != ""
    requires 10 <= utcHour < 15 || 21 <= utcHour || utcHour == 0
    ensures Notify(Request(false), Some(oneSignalKey), utcHour, rand, false).Sent?
    ensures Notify(Request(false), Some(oneSignalKey), utcHour, rand, true) == ServerError
  {
    WindowsInUtc(utcHour);
  }

  /** Every message of the pool is reachable: some draw picks it. */
  lemma EveryMessageReachable(oneSignalKey: string, utcHour: nat, k: nat)
    requires utcHour < 24 && oneSignalKey != "" && k < 5
    requires IsMorning(BrHour(utcHour)) || IsEvening(BrHour(utcHour))
    ensures Notify(Request(false), Some(oneSignalKey), utcHour, k as real / 5.0, false)
            == Sent(Pool(BrHour(utcHour))[k])
  {
    var rand := k as real / 5.0;
    assert rand * 5.0 == k as real;
    assert PickIndex(rand, 5) == k;
  }
}
