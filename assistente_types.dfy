/**
 * Shared definitions of the teaching assistant (`src/components/assistente/types.ts`):
 * the class profile ("turma") and its one-line-per-field rendering, the three
 * content categories with their labels, and `stripMarkdown`, the chain of
 * regular-expression rewrites applied to every generated text.
 */
module AssistenteTypes {
  import opened Wrappers
  import opened Text

  // ---- Categories.

  datatype Category = Planeamento | Atividade | Avaliacao

  datatype CategoryInfo = CategoryInfo(caption: string, description: string)

  /** The string literal that names a category. */
  function Key(c: Category): string {
    match c
    case Planeamento => "planeamento"
    case Atividade => "atividade"
    case Avaliacao => "avaliacao"
  }

  /** The category a string names, if any. */
  function ParseCategory(s: string): (c: Option<Category>)
    ensures c.Some? ==> Key(c.value) == s
    ensures c.None? <==> s != "planeamento" && s != "atividade" && s != "avaliacao"
  {
    if s == "planeamento" then Some(Planeamento)
    else if s == "atividade" then Some(Atividade)
    else if s == "avaliacao" then Some(Avaliacao)
    else None
  }

  /** `CATEGORY_INFO`: a label and a description for every category. */
  function Info(c: Category): (info: CategoryInfo)
    ensures info.caption != "" && info.description != ""
  {
    match c
    case Planeamento => CategoryInfo("Planeamento de Aula", "Crie planos de aula completos e estruturados")
    case Atividade => CategoryInfo("Geração de Atividade", "Gere atividades pedagógicas prontas a aplicar")
    case Avaliacao => CategoryInfo("Avaliação ou Teste", "Monte avaliações ajustadas ao nível da turma")
  }

  /** Category keys round-trip through `ParseCategory`. */
  lemma CategoryKeyRoundTrip(c: Category)
    ensures ParseCategory(Key(c)) == Some(c)
  {
    match c
    case Planeamento =>
    case Atividade => assert Key(c)[0] != 'p';
    case Avaliacao => assert Key(c)[0] != 'p' && Key(c)[1] != 't';
  }

  /** No two categories share a key or a label. */
  lemma CategoryTable(c: Category, d: Category)
    requires c != d
    ensures Key(c) != Key(d) && Info(c).caption != Info(d).caption
  {
    assert Key(c)[1] != Key(d)[1];
    assert Info(c).caption[0] != Info(d).caption[0];
  }

  // ---- The class profile.

  datatype Turma = Turma(
    id: string,
    nome: string,
    ano: string,
    descricao: string,
    dificuldades: string,
    pontosFortes: string,
    ritmo: string,
    comportamento: string,
    estrategias: string)

  /** `value && \`name${value}\``: empty (and so dropped later) when the field is empty. */
  function FieldLine(name: string, value: string): string {
    if value == "" then "" else name + value
  }

  /** The array literal of `buildTurmaProfile`, before `filter(Boolean)`. */
  function ProfileCandidates(t: Turma): seq<string> {
    [ "Nome: " + t.nome,
      "Ano: " + t.ano,
      FieldLine("Descrição: ", t.descricao),
      FieldLine("Dificuldades: ", t.dificuldades),
      FieldLine("Pontos fortes: ", t.pontosFortes),
      FieldLine("Ritmo: ", t.ritmo),
      FieldLine("Comportamento: ", t.comportamento),
      FieldLine("Estratégias: ", t.estrategias) ]
  }

  /** `filter(Boolean)` on strings: drops the empty ones, keeping the order. */
  function NonEmpty(xs: seq<string>): (r: seq<string>)
    ensures |r| <= |xs|
    ensures forall i :: 0 <= i < |r| ==> r[i] != "" && r[i] in xs
  {
    if xs == [] then []
    else
      var rest := NonEmpty(xs[1..]);
      if xs[0] == "" then rest else [xs[0]] + rest
  }

  function BuildTurmaProfile(t: Turma): string {
    Join(NonEmpty(ProfileCandidates(t)), "\n")
  }

  /** The optional fields as (label, value) pairs, in the order they are listed. */
  function OptionalFields(t: Turma): seq<(string, string)> {
    [ ("Descrição: ", t.descricao),
      ("Dificuldades: ", t.dificuldades),
      ("Pontos fortes: ", t.pontosFortes),
      ("Ritmo: ", t.ritmo),
      ("Comportamento: ", t.comportamento),
      ("Estratégias: ", t.estrategias) ]
  }

  /** One line per non-empty field value, in order: the profile's lines after the first two. */
  function PresentLines(fields: seq<(string, string)>): seq<string> {
    if fields == [] then []
    else (if fields[0].1 == "" then [] else [fields[0].0 + fields[0].1]) + PresentLines(fields[1..])
  }

  /** Number of non-empty field values. */
  function PresentCount(fields: seq<(string, string)>): nat {
    if fields == [] then 0 else (if fields[0].1 == "" then 0 else 1) + PresentCount(fields[1..])
  }

  lemma {:induction false} PresentLinesCount(fields: seq<(string, string)>)
    ensures |PresentLines(fields)| == PresentCount(fields)
  {
    if fields != [] {
      PresentLinesCount(fields[1..]);
    }
  }

  /** The labelled line of each field, empty where the value is. */
  function FieldLines(fields: seq<(string, string)>): (lines: seq<string>)
    ensures |lines| == |fields|
    ensures forall i :: 0 <= i < |fields| ==> lines[i] == FieldLine(fields[i].0, fields[i].1)
  {
    seq(|fields|, i requires 0 <= i < |fields| => FieldLine(fields[i].0, fields[i].1))
  }

  lemma {:induction false} NonEmptyOfFieldLines(fields: seq<(string, string)>)
    requires forall i :: 0 <= i < |fields| ==> fields[i].0 != ""
    ensures NonEmpty(FieldLines(fields)) == PresentLines(fields)
  {
    if fields != [] {
      assert FieldLines(fields)[1..] == FieldLines(fields[1..]);
      NonEmptyOfFieldLines(fields[1..]);
    }
  }

  /** The candidate array is the two fixed lines followed by one line per optional field. */
  lemma ProfileCandidatesShape(t: Turma)
    ensures ProfileCandidates(t) == ["Nome: " + t.nome] + (["Ano: " + t.ano] + FieldLines(OptionalFields(t)))
  {
    var c, lines := ProfileCandidates(t), FieldLines(OptionalFields(t));
    assert forall i :: 2 <= i < 8 ==> c[i] == lines[i - 2];
  }

  /**
   * The profile's lines are "Nome: …", "Ano: …" and then one line per non-empty
   * optional field, in the fixed order; so there are 2 + (number of non-empty
   * optional fields) of them.
   */
  lemma ProfileLines(t: Turma)
    ensures NonEmpty(ProfileCandidates(t)) == ["Nome: " + t.nome, "Ano: " + t.ano] + PresentLines(OptionalFields(t))
    ensures |NonEmpty(ProfileCandidates(t))| == 2 + PresentCount(OptionalFields(t))
  {
    ProfileCandidatesShape(t);
    var fields := OptionalFields(t);
    assert forall i :: 0 <= i < |fields| ==> fields[i].0 != "";
    FixedThenPresent("Nome: " + t.nome, "Ano: " + t.ano, fields);
  }

  /** Two non-empty lines followed by the field lines keep the two and the present fields. */
  lemma FixedThenPresent(first: string, second: string, fields: seq<(string, string)>)
    requires first != "" && second != ""
    requires forall i :: 0 <= i < |fields| ==> fields[i].0 != ""
    ensures NonEmpty([first] + ([second] + FieldLines(fields))) == [first, second] + PresentLines(fields)
    ensures |[first, second] + PresentLines(fields)| == 2 + PresentCount(fields)
  {
    var lines, present := FieldLines(fields), PresentLines(fields);
    NonEmptyOfFieldLines(fields);
    NonEmptyCons(second, lines);
    NonEmptyCons(first, [second] + lines);
    assert [first] + ([second] + present) == [first, second] + present;
    PresentLinesCount(fields);
  }

  lemma NonEmptyCons(x: string, xs: seq<string>)
    requires x != ""
    ensures NonEmpty([x] + xs) == [x] + NonEmpty(xs)
  {
    assert ([x] + xs)[1..] == xs;
  }

  /** A field no line break occurs in. */
  predicate SingleLine(s: string) {
    '\n' !in s
  }

  predicate TurmaSingleLine(t: Turma) {
    SingleLine(t.nome) && SingleLine(t.ano) && SingleLine(t.descricao) && SingleLine(t.dificuldades)
    && SingleLine(t.pontosFortes) && SingleLine(t.ritmo) && SingleLine(t.comportamento) && SingleLine(t.estrategias)
  }

  lemma {:induction false} PresentLinesSingle(fields: seq<(string, string)>)
    requires forall i :: 0 <= i < |fields| ==> SingleLine(fields[i].0) && SingleLine(fields[i].1)
    ensures forall i :: 0 <= i < |PresentLines(fields)| ==> SingleLine(PresentLines(fields)[i])
  {
    if fields != [] {
      PresentLinesSingle(fields[1..]);
    }
  }

  /**
   * Joined with "\n" and with no trailing separator: when no field holds a line
   * break, splitting the profile on "\n" gives back exactly its lines.
   */
  lemma ProfileSplitsIntoLines(t: Turma)
    requires TurmaSingleLine(t)
    ensures Split(BuildTurmaProfile(t), '\n') == ["Nome: " + t.nome, "Ano: " + t.ano] + PresentLines(OptionalFields(t))
    ensures |Split(BuildTurmaProfile(t), '\n')| == 2 + PresentCount(OptionalFields(t))
  {
    ProfileLines(t);
    var fields := OptionalFields(t);
    PresentLinesSingle(fields);
    var lines := NonEmpty(ProfileCandidates(t));
    assert forall i :: 0 <= i < |lines| ==> SingleLine(lines[i]) by {
      forall i | 0 <= i < |lines|
        ensures SingleLine(lines[i])
      {
        if i >= 2 {
          assert lines[i] == PresentLines(fields)[i - 2];
        }
      }
    }
    SplitJoin(lines, '\n');
  }

  // ---- stripMarkdown: nine global rewrites applied in order.

  /** Every character of `r` occurs in `s`: what a rewrite that only deletes or keeps text satisfies. */
  predicate CharsWithin(r: string, s: string) {
    forall c :: c in r ==> c in s
  }

  /** What is left after the rest of a `#{1,6}\s?` match: at most `budget` more '#', then one optional whitespace. */
  function AfterHashes(s: string, budget: nat): (r: string)
    ensures |r| <= |s| && r == s[|s| - |r|..]
  {
    if budget > 0 && s != [] && s[0] == '#' then AfterHashes(s[1..], budget - 1)
    else if s != [] && IsSpace(s[0]) then s[1..]
    else s
  }

  /** `replace(/#{1,6}\s?/g, "")`. */
  function StripHashes(s: string): (r: string)
    ensures '#' !in r
    ensures CharsWithin(r, s)
    decreases |s|
  {
    if s == [] then []
    else if s[0] == '#' then
      var rest := AfterHashes(s[1..], 5);
      assert CharsWithin(rest, s) by {
        assert forall k :: 0 <= k < |rest| ==> rest[k] == s[|s| - |rest| + k];
      }
      StripHashes(rest)
    else
      var tail := StripHashes(s[1..]);
      assert CharsWithin(s[1..], s) by { assert forall k :: 0 <= k < |s| - 1 ==> s[1..][k] == s[k + 1]; }
      [s[0]] + tail
  }

  /** `d` occurs in `t` at position `m`. */
  predicate OccursAt(t: string, d: string, m: nat) {
    m + |d| <= |t| && t[m..m + |d|] == d
  }

  /**
   * The lazy search for the closing delimiter `d` in `t`, from position `j` on:
   * the first position at which `d` occurs. Unless `anyChar`, the text before it
   * (the `.` of `(.+?)`) must not contain a line terminator.
   */
  function FindClose(t: string, d: string, j: nat, anyChar: bool): (k: Option<nat>)
    ensures k.Some? ==> j <= k.value && k.value + |d| <= |t| && t[k.value..k.value + |d|] == d
    ensures k.Some? ==> forall m :: j <= m < k.value ==> !OccursAt(t, d, m)
    ensures k.Some? && !anyChar && j >= 1 ==> forall i :: j - 1 <= i < k.value ==> !IsLineTerminator(t[i])
    decreases |t| - j
  {
    if j + |d| > |t| then None
    else if !anyChar && j >= 1 && IsLineTerminator(t[j - 1]) then None
    else if t[j..j + |d|] == d then Some(j)
    else FindClose(t, d, j + 1, anyChar)
  }

  /** `replace(/d(.+?)d/g, "$1")`: each delimited non-empty run on one line loses its delimiters. */
  function ReplacePaired(s: string, d: string): (r: string)
    requires d != []
    ensures CharsWithin(r, s)
    decreases |s|
  {
    if s == [] then []
    else if StartsWith(s, d) && FindClose(s[|d|..], d, 1, false).Some? then
      var t := s[|d|..];
      var j := FindClose(t, d, 1, false).value;
      var after := t[j + |d|..];
      var rest := ReplacePaired(after, d);
      assert CharsWithin(t[..j] + rest, s) by {
        assert forall k :: 0 <= k < j ==> t[..j][k] == s[|d| + k];
        assert forall k :: 0 <= k < |after| ==> after[k] == s[|d| + j + |d| + k];
      }
      t[..j] + rest
    else
      var tail := ReplacePaired(s[1..], d);
      assert CharsWithin(s[1..], s) by { assert forall k :: 0 <= k < |s| - 1 ==> s[1..][k] == s[k + 1]; }
      [s[0]] + tail
  }

  /** `replace(/```[\s\S]*?```/g, "")`: each fenced block, across lines, is removed. */
  function RemoveFenced(s: string): (r: string)
    ensures CharsWithin(r, s)
    decreases |s|
  {
    if s == [] then []
    else if StartsWith(s, "```") && FindClose(s[3..], "```", 0, true).Some? then
      var t := s[3..];
      var j := FindClose(t, "```", 0, true).value;
      var rest := t[j + 3..];
      assert CharsWithin(rest, s) by {
        assert forall k :: 0 <= k < |rest| ==> rest[k] == s[3 + j + 3 + k];
      }
      RemoveFenced(rest)
    else
      var tail := RemoveFenced(s[1..]);
      assert CharsWithin(s[1..], s) by { assert forall k :: 0 <= k < |s| - 1 ==> s[1..][k] == s[k + 1]; }
      [s[0]] + tail
  }

  /** `replace(/^---$/gm, "")`; `bol` says whether `s` starts at the beginning of a line. */
  function RemoveRules(s: string, bol: bool): (r: string)
    ensures CharsWithin(r, s)
    decreases |s|
  {
    if bol && StartsWith(s, "---") && (|s| == 3 || IsLineTerminator(s[3])) then
      var rest := s[3..];
      assert CharsWithin(rest, s) by { assert forall k :: 0 <= k < |rest| ==> rest[k] == s[k + 3]; }
      RemoveRules(rest, false)
    else if s == [] then []
    else
      var tail := RemoveRules(s[1..], IsLineTerminator(s[0]));
      assert CharsWithin(s[1..], s) by { assert forall k :: 0 <= k < |s| - 1 ==> s[1..][k] == s[k + 1]; }
      [s[0]] + tail
  }

  /** `replace(/^>\s/gm, "")`; `bol` says whether `s` starts at the beginning of a line. */
  function RemoveQuotes(s: string, bol: bool): (r: string)
    ensures CharsWithin(r, s)
    decreases |s|
  {
    if bol && |s| >= 2 && s[0] == '>' && IsSpace(s[1]) then
      var rest := s[2..];
      assert CharsWithin(rest, s) by { assert forall k :: 0 <= k < |rest| ==> rest[k] == s[k + 2]; }
      RemoveQuotes(rest, IsLineTerminator(s[1]))
    else if s == [] then []
    else
      var tail := RemoveQuotes(s[1..], IsLineTerminator(s[0]));
      assert CharsWithin(s[1..], s) by { assert forall k :: 0 <= k < |s| - 1 ==> s[1..][k] == s[k + 1]; }
      [s[0]] + tail
  }

  /** `stripMarkdown`: no '#' survives, and the result only holds characters of the input. */
  function StripMarkdown(text: string): (r: string)
    ensures '#' !in r
    ensures CharsWithin(r, text)
  {
    var s1 := StripHashes(text);
    var s2 := ReplacePaired(s1, "**");
    var s3 := ReplacePaired(s2, "*");
    var s4 := ReplacePaired(s3, "__");
    var s5 := ReplacePaired(s4, "_");
    var s6 := RemoveFenced(s5);
    var s7 := ReplacePaired(s6, "`");
    var s8 := RemoveRules(s7, true);
    RemoveQuotes(s8, true)
  }

  // ---- When stripMarkdown changes nothing.

  /** Whether position `i` of `s` is the start of a line (where a multiline `^` matches). */
  predicate AtLineStart(s: string, i: nat)
    requires i <= |s|
  {
    i == 0 || IsLineTerminator(s[i - 1])
  }

  /** No line of `s` is exactly "---". */
  predicate NoRuleLine(s: string) {
    forall i :: 0 <= i <= |s| - 3 && AtLineStart(s, i) && s[i..i + 3] == "---"
      ==> i + 3 < |s| && !IsLineTerminator(s[i + 3])
  }

  /** No line of `s` starts with '>' followed by whitespace. */
  predicate NoQuoteLine(s: string) {
    forall i :: 0 <= i < |s| - 1 && AtLineStart(s, i) && s[i] == '>' ==> !IsSpace(s[i + 1])
  }

  /** Text carrying none of the markup `stripMarkdown` removes. */
  predicate NoMarkup(s: string) {
    '#' !in s && '*' !in s && '_' !in s && '`' !in s && NoRuleLine(s) && NoQuoteLine(s)
  }

  lemma StripHashesIdentity(s: string)
    requires '#' !in s
    ensures StripHashes(s) == s
  {
    if s != [] {
      assert '#' !in s[1..] by { assert forall k :: 0 <= k < |s| - 1 ==> s[1..][k] == s[k + 1]; }
      StripHashesIdentity(s[1..]);
    }
  }

  lemma ReplacePairedIdentity(s: string, d: string)
    requires d != [] && d[0] !in s
    ensures ReplacePaired(s, d) == s
  {
    if s != [] {
      assert !StartsWith(s, d) by { assert s[0] != d[0]; }
      assert d[0] !in s[1..] by { assert forall k :: 0 <= k < |s| - 1 ==> s[1..][k] == s[k + 1]; }
      ReplacePairedIdentity(s[1..], d);
    }
  }

  lemma RemoveFencedIdentity(s: string)
    requires '`' !in s
    ensures RemoveFenced(s) == s
  {
    if s != [] {
      assert !StartsWith(s, "```") by { assert s[0] != '`'; }
      assert '`' !in s[1..] by { assert forall k :: 0 <= k < |s| - 1 ==> s[1..][k] == s[k + 1]; }
      RemoveFencedIdentity(s[1..]);
    }
  }

  lemma {:induction false} RemoveRulesIdentity(s: string, k: nat)
    requires NoRuleLine(s) && k <= |s|
    ensures RemoveRules(s[k..], AtLineStart(s, k)) == s[k..]
    decreases |s| - k
  {
    var t := s[k..];
    if AtLineStart(s, k) && StartsWith(t, "---") {
      assert s[k..k + 3] == t[..3];
    }
    if k < |s| {
      assert t[1..] == s[k + 1..];
      RemoveRulesIdentity(s, k + 1);
    }
  }

  lemma {:induction false} RemoveQuotesIdentity(s: string, k: nat)
    requires NoQuoteLine(s) && k <= |s|
    ensures RemoveQuotes(s[k..], AtLineStart(s, k)) == s[k..]
    decreases |s| - k
  {
    var t := s[k..];
    if k < |s| {
      assert t[1..] == s[k + 1..];
      RemoveQuotesIdentity(s, k + 1);
    }
  }

  /** Text without markup comes back from `stripMarkdown` unchanged. */
  lemma NoMarkupUnchanged(s: string)
    requires NoMarkup(s)
    ensures StripMarkdown(s) == s
  {
    ReplacePairedIdentity(s, "**");
    ReplacePairedIdentity(s, "*");
    AsterisksOnlyUnchanged(s);
  }

  /** Text whose only markup is asterisks that pair with nothing comes back unchanged. */
  lemma AsterisksOnlyUnchanged(s: string)
    requires '#' !in s && '_' !in s && '`' !in s && NoRuleLine(s) && NoQuoteLine(s)
    requires ReplacePaired(s, "**") == s && ReplacePaired(s, "*") == s
    ensures StripMarkdown(s) == s
  {
    StripHashesIdentity(s);
    ReplacePairedIdentity(s, "__");
    ReplacePairedIdentity(s, "_");
    RemoveFencedIdentity(s);
    ReplacePairedIdentity(s, "`");
    RemoveRulesIdentity(s, 0);
    RemoveQuotesIdentity(s, 0);
  }

  /**
   * The converse does not hold: an unpaired '*' is markup that `stripMarkdown`
   * leaves in place.
   */
  lemma LoneStarSurvives()
    ensures !NoMarkup("a*b") && StripMarkdown("a*b") == "a*b"
  {
    var s := "a*b";
    assert s[1] == '*';
    LoneStarNotBold();
    LoneStarNotItalic();
    assert NoRuleLine(s) && NoQuoteLine(s);
    AsterisksOnlyUnchanged(s);
  }

  /** "a*b" holds no "**" pair. */
  lemma LoneStarNotBold()
    ensures ReplacePaired("a*b", "**") == "a*b"
  {
    var s := "a*b";
    assert s[0] == 'a' && "*b"[1] == 'b';
    assert !StartsWith(s, "**");
    assert !StartsWith("*b", "**");
    assert "*b"[1..] == "b";
    ReplacePairedIdentity("b", "**");
  }

  /** The one '*' of "a*b" has no closing '*'. */
  lemma LoneStarNotItalic()
    ensures ReplacePaired("a*b", "*") == "a*b"
  {
    var s := "a*b";
    assert !StartsWith(s, "*");
    assert ReplacePaired("*b", "*") == "*b" by {
      assert FindClose("b", "*", 1, false).None?;
      ReplacePairedIdentity("b", "*");
    }
  }

  /** A line that is exactly "---" is emptied, the line break after it kept. */
  lemma RuleLineEmptied(rest: string)
    ensures RemoveRules("---\n" + rest, true) == "\n" + RemoveRules(rest, true)
  {
    var s := "---\n" + rest;
    assert s[3..] == "\n" + rest;
    assert ("\n" + rest)[1..] == rest;
  }

  /** "> " at the start of a line is removed, and only there. */
  lemma QuoteMarkerRemoved(rest: string)
    ensures RemoveQuotes("> " + rest, true) == RemoveQuotes(rest, false)
    ensures RemoveQuotes("> " + rest, false) == "> " + RemoveQuotes(rest, false)
  {
    var s := "> " + rest;
    assert s[2..] == rest;
    assert s[1..] == " " + rest;
    assert (" " + rest)[1..] == rest;
  }

  /** The first seven rewrites leave text without '#', '*', '_' and '`' alone. */
  lemma InlineRewritesIdentity(s: string)
    requires '#' !in s && '*' !in s && '_' !in s && '`' !in s
    ensures ReplacePaired(RemoveFenced(ReplacePaired(ReplacePaired(ReplacePaired(ReplacePaired(StripHashes(s), "**"), "*"), "__"), "_")), "`") == s
  {
    StripHashesIdentity(s);
    ReplacePairedIdentity(s, "**");
    ReplacePairedIdentity(s, "*");
    ReplacePairedIdentity(s, "__");
    ReplacePairedIdentity(s, "_");
    RemoveFencedIdentity(s);
    ReplacePairedIdentity(s, "`");
  }

  lemma RemoveQuotesNoMarker(s: string, bol: bool)
    requires '>' !in s
    ensures RemoveQuotes(s, bol) == s
  {
    if s != [] {
      assert '>' !in s[1..] by { assert forall k :: 0 <= k < |s| - 1 ==> s[1..][k] == s[k + 1]; }
      RemoveQuotesNoMarker(s[1..], IsLineTerminator(s[0]));
    }
  }

  lemma RemoveRulesNoDash(s: string, bol: bool)
    requires '-' !in s
    ensures RemoveRules(s, bol) == s
  {
    if s != [] {
      assert !StartsWith(s, "---") by { assert s[0] != '-'; }
      assert '-' !in s[1..] by { assert forall k :: 0 <= k < |s| - 1 ==> s[1..][k] == s[k + 1]; }
      RemoveRulesNoDash(s[1..], IsLineTerminator(s[0]));
    }
  }

  /** A text that is a single "---" line is emptied. */
  lemma RuleExample()
    ensures StripMarkdown("---") == ""
  {
    InlineRewritesIdentity("---");
  }

  /** A "> " opening a plain text is dropped. */
  lemma QuoteOpeningDropped(rest: string)
    requires '#' !in rest && '*' !in rest && '_' !in rest && '`' !in rest && '-' !in rest && '>' !in rest
    ensures StripMarkdown("> " + rest) == rest
  {
    var s := "> " + rest;
    assert '#' !in s && '*' !in s && '_' !in s && '`' !in s && '-' !in s by {
      assert forall k :: 2 <= k < |s| ==> s[k] == rest[k - 2];
    }
    InlineRewritesIdentity(s);
    RemoveRulesNoDash(s, true);
    QuoteMarkerRemoved(rest);
    RemoveQuotesNoMarker(rest, false);
  }
}
