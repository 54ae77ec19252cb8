/**
 * The teaching-assistant edge function (`supabase/functions/assistente-ai/index.ts`).
 *
 * A request names an action; the action selects the model, the token budget
 * and the builder of the chat messages sent to the LLM gateway, and the reply's
 * first choice becomes the answer. The gateway call itself is not modelled:
 * the handler returns the request it would send, and the caller supplies the
 * gateway's parsed reply (or `None` when the call or the parse throws).
 */
module AssistenteAi {
  import opened Wrappers
  import opened Text

  datatype ChatMessage = ChatMessage(role: string, content: string)

  /**
   * The request body members the builders read. `None` is an absent member;
   * string members are modelled as strings and lists as sequences.
   */
  datatype AiBody = AiBody(
    action: Option<string>,
    ano: Option<string>,
    disciplina: Option<string>,
    turmaProfile: Option<string>,
    previousThemes: Option<seq<string>>,
    chatMessages: Option<seq<ChatMessage>>,
    objetivo: Option<string>,
    category: Option<string>,
    duracao: Option<string>,
    nivel: Option<string>,
    tema: Option<string>)

  /** `${x}` of a string member: an absent member is written "undefined". */
  function Render(o: Option<string>): (r: string)
    ensures o.Some? ==> r == o.value
  {
    if o.Some? then o.value else "undefined"
  }

  // ---- The action switch.

  datatype Dispatch = Dispatch(model: string, maxTokens: nat)

  const LiteModel := "google/gemini-2.5-flash-lite"
  const FlashModel := "google/gemini-3-flash-preview"

  /** The three actions and their (model, max_tokens); any other action has none. */
  function DispatchFor(action: Option<string>): (d: Option<Dispatch>)
    ensures d.Some? <==> action == Some("suggest-theme") || action == Some("refine-chat") || action == Some("generate")
  {
    if action == Some("suggest-theme") then Some(Dispatch(LiteModel, 100))
    else if action == Some("refine-chat") then Some(Dispatch(LiteModel, 500))
    else if action == Some("generate") then Some(Dispatch(FlashModel, 3000))
    else None
  }

  /** The table as the switch states it. */
  lemma DispatchTable()
    ensures DispatchFor(Some("suggest-theme")) == Some(Dispatch("google/gemini-2.5-flash-lite", 100))
    ensures DispatchFor(Some("refine-chat")) == Some(Dispatch("google/gemini-2.5-flash-lite", 500))
    ensures DispatchFor(Some("generate")) == Some(Dispatch("google/gemini-3-flash-preview", 3000))
    ensures DispatchFor(None).None?
  {
  }

  // ---- suggestThemeMessages.

  const SuggestSystem := "És assistente pedagógica do currículo português. Sugere UM tema concreto e curricular. Responde APENAS com o tema, sem explicações, sem aspas, sem marcadores. Português de Portugal."
  const AvoidPrefix := "Não sugirar estes temas: "
  const TurmaPrefix := "Perfil da turma: "

  /** `previousThemes?.length ? \`\\n…${previousThemes.join(", ")}\` : ""`. */
  function AvoidClause(themes: Option<seq<string>>): (r: string)
    ensures r == "" <==> themes.None? || themes.value == []
  {
    if themes.Some? && |themes.value| > 0 then "\n" + AvoidPrefix + Join(themes.value, ", ") else ""
  }

  /** `turmaProfile ? \`\\nPerfil da turma: ${turmaProfile}\` : ""`. */
  function TurmaClause(profile: Option<string>): (r: string)
    ensures r == "" <==> !Truthy(profile)
  {
    if Truthy(profile) then "\n" + TurmaPrefix + profile.value else ""
  }

  function SuggestSystemContent(b: AiBody): string {
    SuggestSystem + AvoidClause(b.previousThemes) + TurmaClause(b.turmaProfile)
  }

  function SuggestUserContent(b: AiBody): string {
    "Ano: " + Render(b.ano) + "\nDisciplina: " + Render(b.disciplina)
  }

  function SuggestThemeMessages(b: AiBody): (m: seq<ChatMessage>)
    ensures |m| == 2 && m[0].role == "system" && m[1].role == "user"
    ensures m[0].content == SuggestSystemContent(b) && m[1].content == SuggestUserContent(b)
  {
    [ChatMessage("system", SuggestSystemContent(b)), ChatMessage("user", SuggestUserContent(b))]
  }

  /** The lines the suggestion's system message has after the fixed instruction: the avoid line iff there are themes, the profile line iff there is a profile. */
  function SuggestExtraLines(b: AiBody): seq<string> {
    (if b.previousThemes.Some? && |b.previousThemes.value| > 0 then [AvoidPrefix + Join(b.previousThemes.value, ", ")] else [])
    + (if Truthy(b.turmaProfile) then [TurmaPrefix + b.turmaProfile.value] else [])
  }

  predicate OneLine(s: string) {
    '\n' !in s
  }

  predicate ThemesOneLine(themes: Option<seq<string>>) {
    themes.Some? ==> forall i :: 0 <= i < |themes.value| ==> OneLine(themes.value[i])
  }

  lemma {:induction false} JoinOneLine(parts: seq<string>, sep: string)
    requires OneLine(sep) && forall i :: 0 <= i < |parts| ==> OneLine(parts[i])
    ensures OneLine(Join(parts, sep))
  {
    if |parts| > 1 {
      JoinOneLine(parts[1..], sep);
    }
  }

  /** Appending "\n" and a line to the join of some lines is joining one more line. */
  lemma AppendLine(lines: seq<string>, text: string, line: string)
    requires |lines| >= 1 && text == Join(lines, "\n")
    ensures text + "\n" + line == Join(lines + [line], "\n")
  {
    JoinSnoc(lines, line, "\n");
  }

  /**
   * The suggestion messages line by line: the system message is the fixed
   * instruction followed, one per line, by the avoid line (the themes
   * ", "-joined in order) exactly when there are previous themes and the
   * profile line exactly when a profile is given; the user message is the
   * year line and the subject line.
   */
  lemma SuggestThemeLines(b: AiBody)
    requires ThemesOneLine(b.previousThemes) && OneLine(Render(b.turmaProfile))
    requires OneLine(Render(b.ano)) && OneLine(Render(b.disciplina))
    ensures var extra := SuggestExtraLines(b);
            if extra == [] then SuggestThemeMessages(b)[0].content == SuggestSystem
            else SuggestThemeMessages(b)[0].content == SuggestSystem + "\n" + Join(extra, "\n")
                 && Split(Join(extra, "\n"), '\n') == extra
    ensures Split(SuggestThemeMessages(b)[1].content, '\n') == ["Ano: " + Render(b.ano), "Disciplina: " + Render(b.disciplina)]
  {
    SuggestSystemSplit(b);
    assert OneLine("Ano: " + Render(b.ano)) && OneLine("Disciplina: " + Render(b.disciplina));
    PieceSplit("Ano: " + Render(b.ano), "\nDisciplina: ", "Disciplina: ", Render(b.disciplina));
  }

  /** A line, a piece "\nName: " and a value split back into the line and "Name: value". */
  lemma PieceSplit(first: string, piece: string, name: string, value: string)
    requires piece == "\n" + name && OneLine(first) && OneLine(name + value)
    ensures Split(first + piece + value, '\n') == [first, name + value]
  {
    var parts := [first, name + value];
    assert Join(parts, "\n") == first + "\n" + (name + value);
    assert first + piece + value == first + "\n" + (name + value);
    SplitJoin(parts, '\n');
  }

  lemma SuggestSystemSplit(b: AiBody)
    requires ThemesOneLine(b.previousThemes) && OneLine(Render(b.turmaProfile))
    ensures var extra := SuggestExtraLines(b);
            if extra == [] then SuggestSystemContent(b) == SuggestSystem
            else SuggestSystemContent(b) == SuggestSystem + "\n" + Join(extra, "\n")
                 && Split(Join(extra, "\n"), '\n') == extra
  {
    var extra := SuggestExtraLines(b);
    var avoids := if b.previousThemes.Some? && |b.previousThemes.value| > 0 then [AvoidPrefix + Join(b.previousThemes.value, ", ")] else [];
    var turmas := if Truthy(b.turmaProfile) then [TurmaPrefix + b.turmaProfile.value] else [];
    if avoids != [] {
      JoinOneLine(b.previousThemes.value, ", ");
    }
    ClausesAsLines(SuggestSystem, AvoidClause(b.previousThemes), TurmaClause(b.turmaProfile), avoids, turmas);
    if extra != [] {
      assert forall i :: 0 <= i < |extra| ==> OneLine(extra[i]);
      SplitJoin(extra, '\n');
    }
  }

  /** Optional clauses of the shape "\n" + line, appended to a text, are its extra lines. */
  lemma ClausesAsLines(text: string, c1: string, c2: string, l1: seq<string>, l2: seq<string>)
    requires |l1| <= 1 && |l2| <= 1
    requires (l1 == [] && c1 == "") || (l1 != [] && c1 == "\n" + l1[0])
    requires (l2 == [] && c2 == "") || (l2 != [] && c2 == "\n" + l2[0])
    ensures l1 + l2 == [] ==> text + c1 + c2 == text
    ensures l1 + l2 != [] ==> text + c1 + c2 == text + "\n" + Join(l1 + l2, "\n")
  {
    if l1 != [] && l2 != [] {
      assert l1 + l2 == [l1[0], l2[0]];
      assert Join([l1[0], l2[0]], "\n") == l1[0] + "\n" + l2[0];
    } else if l1 != [] {
      assert l1 + l2 == l1;
    } else if l2 != [] {
      assert l1 + l2 == l2;
    }
  }

  // ---- refineChatMessages.

  const RefineSystem := "És assistente pedagógica. Ajudas a refinar objetivos de aula. Respostas breves, claras, em Português de Portugal. Sem markdown (sem #, *, **). Objetivo atual: "

  /**
   * One system message, then the client's messages unchanged and in order.
   * Spreading an absent `chatMessages` throws, which is `None` here.
   */
  function RefineChatMessages(b: AiBody): (m: Option<seq<ChatMessage>>)
    ensures m.Some? <==> b.chatMessages.Some?
    ensures m.Some? ==> |m.value| == 1 + |b.chatMessages.value| && m.value[0].role == "system"
                        && m.value[1..] == b.chatMessages.value
    ensures m.Some? ==> StartsWith(m.value[0].content, RefineSystem)
  {
    if b.chatMessages.None? then None
    else
      var system := ChatMessage("system", RefineSystem + "\"" + Render(b.objetivo) + "\"" + TurmaClause(b.turmaProfile));
      assert (RefineSystem + "\"" + Render(b.objetivo) + "\"" + TurmaClause(b.turmaProfile))[..|RefineSystem|] == RefineSystem;
      Some([system] + b.chatMessages.value)
  }

  // ---- generateMessages.

  const GenerateSystem: string :=
    "És assistente pedagógica profissional do sistema educativo português. Geras conteúdo pedagógico estruturado e de alta qualidade.\n" +
    "\n" +
    "REGRAS OBRIGATÓRIAS:\n" +
    "- Escreve SEMPRE em Português de Portugal\n" +
    "- NÃO uses marcadores markdown (sem #, *, **, ___, ---)\n" +
    "- Usa texto limpo e bem formatado\n" +
    "- Parágrafos curtos e espaçados\n" +
    "- Linguagem clara, profissional e acessível\n" +
    "- Conteúdo baseado no currículo português real\n" +
    "\n" +
    "ESTRUTURA OBRIGATÓRIA:\n" +
    "\n" +
    "Começa SEMPRE com:\n" +
    "\"Olá! Entendi o que pretende trabalhar com a sua turma. Preparei uma proposta estruturada para si:\"\n" +
    "\n" +
    "Depois segue EXATAMENTE esta estrutura:\n" +
    "\n" +
    "TÍTULO E CONTEXTUALIZAÇÃO\n" +
    "(parágrafo breve)\n" +
    "\n" +
    "OBJETIVOS PEDAGÓGICOS\n" +
    "1.\n" +
    "2.\n" +
    "3.\n" +
    "\n" +
    "DESENVOLVIMENTO\n" +
    "1.\n" +
    "2.\n" +
    "3.\n" +
    "\n" +
    "DIFERENCIAÇÃO PEDAGÓGICA\n" +
    "(como adaptar a diferentes níveis)\n" +
    "\n" +
    "ESTRATÉGIA DE AVALIAÇÃO\n" +
    "(como avaliar)\n" +
    "\n" +
    "TAREFA DE CASA\n" +
    "(sugestão de tarefa)\n" +
    "\n" +
    "ATIVIDADES COMPLEMENTARES\n" +
    "1.\n" +
    "2.\n" +
    "3."

  const GenerateTurmaPrefix := "\n\nPERFIL DA TURMA:\n"
  const GenerateTurmaSuffix := "\nAdapta o conteúdo ao perfil desta turma, considerando as dificuldades, pontos fortes, ritmo e estratégias que funcionam."

  /** The `catName` table of the user message. */
  const CatNames: seq<(string, string)> := [
    ("planeamento", "Planeamento de Aula"),
    ("atividade", "Atividade Pedagógica"),
    ("avaliacao", "Avaliação ou Teste")
  ]

  /** `catName[category] || category`: the table label, or the raw category. */
  function CategoryLabel(category: Option<string>): (name: string)
    ensures category.Some? && Lookup(CatNames, category.value).Some? ==> name == Lookup(CatNames, category.value).value
    ensures (category.None? || Lookup(CatNames, category.value).None?) ==> name == Render(category)
  {
    if category.Some? && Lookup(CatNames, category.value).Some? then Lookup(CatNames, category.value).value
    else Render(category)
  }

  /** The three category keys get their labels. */
  lemma CategoryLabels()
    ensures CategoryLabel(Some("planeamento")) == "Planeamento de Aula"
    ensures CategoryLabel(Some("atividade")) == "Atividade Pedagógica"
    ensures CategoryLabel(Some("avaliacao")) == "Avaliação ou Teste"
  {
    LookupAt(CatNames, 0);
    assert CatNames[0].0 != CatNames[1].0 && CatNames[0].0 != CatNames[2].0 && CatNames[1].0 != CatNames[2].0;
    LookupAt(CatNames, 1);
    LookupAt(CatNames, 2);
  }

  /** `${x ? \`\\nLabel: ${x}\` : ""}`. */
  function OptionalLine(name: string, value: Option<string>): string {
    if Truthy(value) then "\n" + name + value.value else ""
  }

  /**
   * The class-profile paragraph of the generation instruction: the heading,
   * the profile and the request to adapt to it, or nothing without a profile.
   */
  function GenerateTurmaClause(profile: Option<string>): (r: string)
    ensures r == "" <==> !Truthy(profile)
  {
    if Truthy(profile) then GenerateTurmaPrefix + profile.value + GenerateTurmaSuffix else ""
  }

  function GenerateSystemContent(b: AiBody): string {
    GenerateSystem + GenerateTurmaClause(b.turmaProfile)
  }

  /** The generation instruction, then the user request. */
  function GenerateMessages(b: AiBody): (m: seq<ChatMessage>)
    ensures |m| == 2 && m[0].role == "system" && m[1].role == "user"
    ensures m[1].content == GenerateUserContent(b)
  {
    [ChatMessage("system", GenerateSystemContent(b)), ChatMessage("user", GenerateUserContent(b))]
  }

  /**
   * The generation instruction is the fixed text, extended exactly when a
   * class profile is given by the paragraph that quotes it.
   */
  lemma GenerateSystemProfile(b: AiBody)
    ensures !Truthy(b.turmaProfile) ==> GenerateMessages(b)[0].content == GenerateSystem
    ensures Truthy(b.turmaProfile) ==>
              GenerateMessages(b)[0].content == GenerateSystem + (GenerateTurmaPrefix + b.turmaProfile.value + GenerateTurmaSuffix)
  {
    if !Truthy(b.turmaProfile) {
      assert GenerateSystem + "" == GenerateSystem;
    }
  }


  function GenerateUserContent(b: AiBody): string {
    "Gera " + CategoryLabel(b.category) + ":"
    + "\nAno: " + Render(b.ano)
    + "\nDisciplina: " + Render(b.disciplina)
    + OptionalLine("Duração: ", b.duracao)
    + OptionalLine("Nível: ", b.nivel)
    + "\nTema: " + Render(b.tema)
    + "\nObjetivo: " + Render(b.objetivo)
  }

  /** The lines of the generation request: the Duração and Nível lines only when those fields are set. */
  function GenerateUserLines(b: AiBody): seq<string> {
    ["Gera " + CategoryLabel(b.category) + ":", "Ano: " + Render(b.ano), "Disciplina: " + Render(b.disciplina)]
    + (if Truthy(b.duracao) then ["Duração: " + b.duracao.value] else [])
    + (if Truthy(b.nivel) then ["Nível: " + b.nivel.value] else [])
    + ["Tema: " + Render(b.tema), "Objetivo: " + Render(b.objetivo)]
  }

  predicate GenerateFieldsOneLine(b: AiBody) {
    OneLine(Render(b.category)) && OneLine(Render(b.ano)) && OneLine(Render(b.disciplina))
    && OneLine(Render(b.duracao)) && OneLine(Render(b.nivel)) && OneLine(Render(b.tema)) && OneLine(Render(b.objetivo))
  }

  lemma CategoryLabelOneLine(category: Option<string>)
    requires OneLine(Render(category))
    ensures OneLine(CategoryLabel(category))
  {
  }

  /** An optional line appended to a join of lines is one more line when the field is set. */
  lemma OptionalLineJoin(lines: seq<string>, name: string, value: Option<string>)
    requires |lines| >= 1
    ensures Join(lines, "\n") + OptionalLine(name, value)
            == Join(lines + (if Truthy(value) then [name + value.value] else []), "\n")
  {
    if Truthy(value) {
      JoinSnoc(lines, name + value.value, "\n");
      assert "\n" + name + value.value == "\n" + (name + value.value);
    } else {
      assert lines + [] == lines;
    }
  }

  /** A template piece "\nName: " followed by a value adds the line "Name: value". */
  lemma TemplateLine(lines: seq<string>, text: string, piece: string, name: string, value: string)
    requires |lines| >= 1 && text == Join(lines, "\n") && piece == "\n" + name
    ensures text + piece + value == Join(lines + [name + value], "\n")
  {
    JoinSnoc(lines, name + value, "\n");
  }

  /**
   * The shape of the generation template: a first line, two "\nName: value"
   * pieces, two optional lines and two more pieces form the lines joined by "\n".
   */
  lemma TemplateJoin(l0: string, p1: string, n1: string, v1: string, p2: string, n2: string, v2: string,
                     m3: string, o3: Option<string>, m4: string, o4: Option<string>,
                     p5: string, n5: string, v5: string, p6: string, n6: string, v6: string)
    requires p1 == "\n" + n1 && p2 == "\n" + n2 && p5 == "\n" + n5 && p6 == "\n" + n6
    ensures l0 + p1 + v1 + p2 + v2 + OptionalLine(m3, o3) + OptionalLine(m4, o4) + p5 + v5 + p6 + v6
            == Join([l0, n1 + v1, n2 + v2] + (if Truthy(o3) then [m3 + o3.value] else [])
                    + (if Truthy(o4) then [m4 + o4.value] else []) + [n5 + v5, n6 + v6], "\n")
  {
    var opt3 := if Truthy(o3) then [m3 + o3.value] else [];
    var opt4 := if Truthy(o4) then [m4 + o4.value] else [];
    var lines, text := [l0], l0;
    TemplateLine(lines, text, p1, n1, v1);
    lines, text := lines + [n1 + v1], text + p1 + v1;
    TemplateLine(lines, text, p2, n2, v2);
    lines, text := lines + [n2 + v2], text + p2 + v2;
    OptionalLineJoin(lines, m3, o3);
    lines, text := lines + opt3, text + OptionalLine(m3, o3);
    OptionalLineJoin(lines, m4, o4);
    lines, text := lines + opt4, text + OptionalLine(m4, o4);
    TemplateLine(lines, text, p5, n5, v5);
    lines, text := lines + [n5 + v5], text + p5 + v5;
    TemplateLine(lines, text, p6, n6, v6);
    lines := lines + [n6 + v6];
    assert lines == [l0, n1 + v1, n2 + v2] + opt3 + opt4 + [n5 + v5, n6 + v6];
  }

  /** The user message of a generation request is its lines joined with "\n". */
  lemma GenerateUserJoin(b: AiBody)
    ensures GenerateUserContent(b) == Join(GenerateUserLines(b), "\n")
  {
    TemplateJoin("Gera " + CategoryLabel(b.category) + ":",
                 "\nAno: ", "Ano: ", Render(b.ano), "\nDisciplina: ", "Disciplina: ", Render(b.disciplina),
                 "Duração: ", b.duracao, "Nível: ", b.nivel,
                 "\nTema: ", "Tema: ", Render(b.tema), "\nObjetivo: ", "Objetivo: ", Render(b.objetivo));
  }

  lemma GenerateUserLinesOneLine(b: AiBody)
    requires GenerateFieldsOneLine(b)
    ensures forall i :: 0 <= i < |GenerateUserLines(b)| ==> OneLine(GenerateUserLines(b)[i])
  {
    CategoryLabelOneLine(b.category);
  }

  /**
   * The generation request line by line: the category label, year and subject,
   * the duration and level lines exactly when those are set, and always the
   * theme and the objective. It has 5 lines plus one per optional field set.
   */
  lemma GenerateLines(b: AiBody)
    requires GenerateFieldsOneLine(b)
    ensures Split(GenerateMessages(b)[1].content, '\n') == GenerateUserLines(b)
    ensures |Split(GenerateMessages(b)[1].content, '\n')| == 5 + (if Truthy(b.duracao) then 1 else 0) + (if Truthy(b.nivel) then 1 else 0)
  {
    GenerateUserJoin(b);
    GenerateUserLinesOneLine(b);
    SplitJoin(GenerateUserLines(b), '\n');
  }

  // ---- The gateway reply and the handler.

  datatype ReplyMessage = ReplyMessage(content: Option<string>)
  datatype Choice = Choice(message: Option<ReplyMessage>)
  datatype Reply = Reply(choices: Option<seq<Choice>>)

  /** `data.choices?.[0]?.message?.content || ""`. */
  function ContentOf(data: Reply): (c: string)
    ensures c != "" <==> data.choices.Some? && |data.choices.value| > 0 && data.choices.value[0].message.Some?
                         && Truthy(data.choices.value[0].message.value.content)
    ensures c != "" ==> Some(c) == data.choices.value[0].message.value.content
  {
    if data.choices.Some? && |data.choices.value| > 0 && data.choices.value[0].message.Some?
       && Truthy(data.choices.value[0].message.value.content)
    then data.choices.value[0].message.value.content.value
    else ""
  }

  /** What the gateway would be sent: `{model, messages, max_tokens}`. */
  datatype GatewayRequest = GatewayRequest(model: string, messages: seq<ChatMessage>, maxTokens: nat)

  datatype Response =
    | Preflight               // CORS headers, null body
    | NotConfigured           // 500 {error: "AI not configured"}
    | InvalidAction           // 400 {error: "Invalid action"}
    | Failed                  // 500 {error: <thrown error>}
    | Answer(content: string) // 200 {content}

  /** The messages the switch builds for an action, or `None` when building them throws. */
  function MessagesFor(b: AiBody): Option<seq<ChatMessage>>
    requires DispatchFor(b.action).Some?
  {
    if b.action == Some("suggest-theme") then Some(SuggestThemeMessages(b))
    else if b.action == Some("refine-chat") then RefineChatMessages(b)
    else Some(GenerateMessages(b))
  }

  /**
   * One request. `apiKey` is `LOVABLE_API_KEY`; `body` is the parsed JSON body
   * (`None` when the parse throws or yields no object); `reply` is the parsed
   * gateway reply (`None` when the call or the parse throws). The second
   * component is the gateway request, when one is sent.
   */
  function Handle(isPreflight: bool, apiKey: Option<string>, body: Option<AiBody>, reply: Option<Reply>)
    : (out: (Response, Option<GatewayRequest>))
    ensures isPreflight ==> out == (Preflight, None)
    ensures !isPreflight && !Truthy(apiKey) ==> out == (NotConfigured, None)
    ensures out.0 == NotConfigured <==> !isPreflight && !Truthy(apiKey)
    ensures out.0 == Failed <==> !isPreflight && Truthy(apiKey)
                                 && (body.None? || (DispatchFor(body.value.action).Some? && (out.1.None? || reply.None?)))
    ensures out.0 == InvalidAction <==> !isPreflight && Truthy(apiKey) && body.Some? && DispatchFor(body.value.action).None?
    ensures out.1.Some? <==> !isPreflight && Truthy(apiKey) && body.Some? && DispatchFor(body.value.action).Some?
                             && (body.value.action == Some("refine-chat") ==> body.value.chatMessages.Some?)
    ensures out.1.Some? ==> out.1.value.model == DispatchFor(body.value.action).value.model
                            && out.1.value.maxTokens == DispatchFor(body.value.action).value.maxTokens
    ensures out.1.Some? && body.value.action == Some("suggest-theme") ==> out.1.value.messages == SuggestThemeMessages(body.value)
    ensures out.1.Some? && body.value.action == Some("refine-chat") ==> Some(out.1.value.messages) == RefineChatMessages(body.value)
    ensures out.1.Some? && body.value.action == Some("generate") ==> out.1.value.messages == GenerateMessages(body.value)
    ensures out.0.Answer? <==> out.1.Some? && reply.Some?
    ensures out.0.Answer? ==> out.0.content == ContentOf(reply.value)
  {
    if isPreflight then (Preflight, None)
    else if !Truthy(apiKey) then (NotConfigured, None)
    else if body.None? then (Failed, None)
    else
      var d := DispatchFor(body.value.action);
      if d.None? then (InvalidAction, None)
      else
        var messages := MessagesFor(body.value);
        if messages.None? then (Failed, None)
        else
          var request := GatewayRequest(d.value.model, messages.value, d.value.maxTokens);
          if reply.None? then (Failed, Some(request)) else (Answer(ContentOf(reply.value)), Some(request))
  }

  /** A generation request sends the generation messages to the flash model with a 3000-token budget. */
  lemma GenerateRequest(apiKey: string, b: AiBody, reply: Option<Reply>)
    requires apiKey != "" && b.action == Some("generate")
    ensures Handle(false, Some(apiKey), Some(b), reply).1
            == Some(GatewayRequest("google/gemini-3-flash-preview", GenerateMessages(b), 3000))
  {
  }

  /** A refinement sends the system message followed by the conversation so far. */
  lemma RefineRequest(apiKey: string, b: AiBody, reply: Option<Reply>)
    requires apiKey != "" && b.action == Some("refine-chat") && b.chatMessages.Some?
    ensures var req := Handle(false, Some(apiKey), Some(b), reply).1;
            req.Some? && req.value.maxTokens == 500 && req.value.messages[1..] == b.chatMessages.value
            && req.value.messages[0].role == "system" && StartsWith(req.value.messages[0].content, RefineSystem)
  {
  }
}
