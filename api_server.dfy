/**
 * The serverless backend (api/index.js): the `/api/chat` answer resolution,
 * with accent-insensitive keyword matching and a model fallback whose prompt
 * carries the conversation history, and `/api/create-preference`.
 */
module ApiServer {
  import opened Wrappers
  import opened Text
  import opened Normalization
  import opened ChatTypes
  import opened MercadoPago

  // ---------------------------------------------------------------------------
  // Local answers

  /** A keyword hits a normalised message when its own comparison form is non-empty and occurs in it. */
  predicate KeywordHits(msgNormalized: string, keyword: string)
    ensures KeywordHits(msgNormalized, keyword) ==> 0 < |Normalize(keyword)| <= |msgNormalized|
  {
    var k := Normalize(keyword);
    k != [] && Includes(msgNormalized, k)
  }

  /** `item.keywords.some(...)`: some keyword of the entry hits. */
  predicate EntryMatches(msgNormalized: string, e: Entry)
    ensures EntryMatches(msgNormalized, e) ==> e.keywords != [] && msgNormalized != []
  {
    exists k :: k in e.keywords && KeywordHits(msgNormalized, k)
  }

  /**
   * What `findLocalAnswer` yields: the answer of the first entry, in list
   * order, that matches the normalised message; nothing when no entry matches
   * or the knowledge could not be read.
   */
  function LocalAnswer(message: string, knowledge: Option<seq<Entry>>): (r: Option<string>)
    ensures r.Some? <==>
      (knowledge.Some? && exists i :: 0 <= i < |knowledge.value| && EntryMatches(Normalize(message), knowledge.value[i]))
    ensures r.Some? ==>
      (exists i :: 0 <= i < |knowledge.value|
        && EntryMatches(Normalize(message), knowledge.value[i])
        && r.value == knowledge.value[i].answer
        && forall j :: 0 <= j < i ==> !EntryMatches(Normalize(message), knowledge.value[j]))
  {
    match knowledge
    case None => None
    case Some(items) =>
      var m := Normalize(message);
      match FirstWhere(items, e => EntryMatches(m, e))
      case None => None
      case Some(i) => Some(items[i].answer)
  }

  /**
   * `findLocalAnswer`: scans the entries in order and returns the first
   * matching entry's answer. `knowledge` is `None` when the query returned no
   * data or threw.
   */
  method FindLocalAnswer(message: string, knowledge: Option<seq<Entry>>) returns (answer: Option<string>)
    ensures answer == LocalAnswer(message, knowledge)
  {
    var msgNormalized := Normalize(message);
    if knowledge.None? {
      return None;
    }
    var items := knowledge.value;
    ghost var matches := e => EntryMatches(msgNormalized, e);
    for i := 0 to |items|
      invariant forall j :: 0 <= j < i ==> !matches(items[j])
    {
      if EntryMatches(msgNormalized, items[i]) {
        FirstWhereAt(items, matches, i);
        assert LocalAnswer(message, knowledge) == Some(items[i].answer);
        return Some(items[i].answer);
      }
    }
    assert FirstWhere(items, matches).None?;
    assert LocalAnswer(message, knowledge) == None;
    return None;
  }

  /** An entry matches exactly when one of its keywords has a non-empty comparison form occurring in the message's. */
  lemma EntryMatchesIff(message: string, e: Entry)
    ensures EntryMatches(Normalize(message), e) <==>
      exists k, i :: k in e.keywords && Normalize(k) != [] && OccursAt(Normalize(message), Normalize(k), i)
  {
    var m := Normalize(message);
    forall k | k in e.keywords
      ensures KeywordHits(m, k) <==> Normalize(k) != [] && exists i :: OccursAt(m, Normalize(k), i)
    {
      IncludesIff(m, Normalize(k));
    }
  }

  /** A keyword that normalises to nothing never hits, not even the empty message. */
  lemma BlankKeywordNeverHits(message: string, keyword: string)
    requires Normalize(keyword) == []
    ensures !KeywordHits(Normalize(message), keyword)
  {
  }

  /** An entry whose keywords all normalise to nothing never matches. */
  lemma BlankEntryNeverMatches(message: string, e: Entry)
    requires forall k :: k in e.keywords ==> Normalize(k) == []
    ensures !EntryMatches(Normalize(message), e)
  {
  }

  /** A keyword whose comparison form occurs in the message's hits it, whatever its case and accents. */
  lemma KeywordHitsInfix(before: string, keyword: string, after: string)
    requires Normalize(keyword) != []
    ensures KeywordHits(Normalize(before + keyword + after), keyword)
  {
    NormalizeAppend(before + keyword, after);
    NormalizeAppend(before, keyword);
    IncludesInfix(Normalize(before), Normalize(keyword), Normalize(after));
  }

  /** A capital I with an acute accent compares as a plain "i". */
  lemma AcuteCapitalI()
    ensures NormalizeChar('Í') == "i"
  {
    assert Decompose('í') == ['i', '\U{301}'];
  }

  /** "ENVÍOS" and "envios" have the same comparison form. */
  lemma EnviosComparisonForm()
    ensures Normalize("ENVÍOS") == "envios" && Normalize("envios") == "envios"
  {
    var upper, lower := "ENVÍOS", "envios";
    forall i | 0 <= i < |upper| ensures NormalizeChar(upper[i]) == [lower[i]] {
      if i == 3 {
        AcuteCapitalI();
      } else {
        NormalizeAsciiLetter(upper[i]);
      }
    }
    forall i | 0 <= i < |lower| ensures NormalizeChar(lower[i]) == [lower[i]] {
      NormalizeAsciiLetter(lower[i]);
    }
    NormalizePointwise(upper, lower);
    NormalizePointwise(lower, lower);
  }

  /** A keyword hits any message containing a word with the same comparison form. */
  lemma KeywordHitsSameForm(before: string, written: string, after: string, keyword: string)
    requires Normalize(written) == Normalize(keyword) != []
    ensures KeywordHits(Normalize(before + written + after), keyword)
  {
    NormalizeAppend(before + written, after);
    NormalizeAppend(before, written);
    IncludesInfix(Normalize(before), Normalize(keyword), Normalize(after));
  }

  /** A one-entry knowledge base answers any message containing a word with the same comparison form as its keyword. */
  lemma SameFormAnswer(before: string, written: string, after: string, keyword: string, answer: string)
    requires Normalize(written) == Normalize(keyword) != []
    ensures LocalAnswer(before + written + after, Some([Entry([keyword], answer)])) == Some(answer)
  {
    var e := Entry([keyword], answer);
    var m := Normalize(before + written + after);
    KeywordHitsSameForm(before, written, after, keyword);
    assert EntryMatches(m, e);
    FirstWhereAt([e], x => EntryMatches(m, x), 0);
  }

  /** A message writing "ENVÍOS" in capitals and with an accent finds the entry keyed by plain "envios". */
  lemma AccentInsensitiveAnswer(before: string, after: string, answer: string)
    ensures LocalAnswer(before + "ENVÍOS" + after, Some([Entry(["envios"], answer)])) == Some(answer)
  {
    EnviosComparisonForm();
    SameFormAnswer(before, "ENVÍOS", after, "envios", answer);
  }

  /** Of two matching entries the earlier one answers. */
  lemma FirstMatchWins(message: string, first: Entry, second: Entry)
    requires EntryMatches(Normalize(message), first)
    ensures LocalAnswer(message, Some([first, second])) == Some(first.answer)
  {
    FirstWhereAt([first, second], e => EntryMatches(Normalize(message), e), 0);
  }

  // ---------------------------------------------------------------------------
  // The model prompt

  /** The persona preamble that opens every prompt. */
  const Preamble: string :=
    "Responde como BombónBot de 'SOS Bombones' en Salta (Ibazeta 580). Tono: Argentino cálido y corto.\n\n"

  /** `msg.role === 'user' ? 'Usuario' : 'Bot'`. */
  function RoleLabel(role: string): (r: string)
    ensures r == "Usuario" <==> role == "user"
    ensures r == "Usuario" || r == "Bot"
  {
    if role == "user" then "Usuario" else "Bot"
  }

  /** One history line: `<Role>: <message>` and a newline. */
  function HistoryLine(t: Turn): string {
    RoleLabel(t.role) + ": " + t.message + "\n"
  }

  /** The history lines, one per turn, in order. */
  function HistoryText(history: seq<Turn>): (r: string)
    ensures r == [] <==> history == []
    ensures history != [] ==> r[|r| - 1] == '\n'
  {
    if history == [] then []
    else HistoryText(history[..|history| - 1]) + HistoryLine(history[|history| - 1])
  }

  /** The lines of two stretches of history follow each other. */
  lemma {:induction false} HistoryTextAppend(a: seq<Turn>, b: seq<Turn>)
    ensures HistoryText(a + b) == HistoryText(a) + HistoryText(b)
    decreases |b|
  {
    if b == [] {
      assert a + b == a;
    } else {
      var b', last := b[..|b| - 1], b[|b| - 1];
      HistoryTextLast(a, b);
      HistoryTextAppend(a, b');
      AppendAssoc(HistoryText(a), HistoryText(b'), HistoryLine(last));
    }
  }

  /** The last turn of a joined stretch of history gives the last line. */
  lemma HistoryTextLast(a: seq<Turn>, b: seq<Turn>)
    requires b != []
    ensures HistoryText(a + b) == HistoryText(a + b[..|b| - 1]) + HistoryLine(b[|b| - 1])
  {
    assert (a + b)[..|a + b| - 1] == a + b[..|b| - 1];
    assert (a + b)[|a + b| - 1] == b[|b| - 1];
  }

  /** The history text is the turns' lines, first turn first. */
  lemma HistoryTextCons(t: Turn, rest: seq<Turn>)
    ensures HistoryText([t] + rest) == HistoryLine(t) + HistoryText(rest)
  {
    HistoryTextAppend([t], rest);
    assert [t][..0] == [];
    assert HistoryText([t]) == HistoryLine(t);
  }

  /** History is used only when it is an array. */
  function HistoryPart(history: Option<seq<Turn>>): string {
    if history.Some? then HistoryText(history.value) else []
  }

  /** The closing line: the user's message and the cue for the bot's turn. */
  function UserLine(message: string): (r: string)
    ensures |r| == |message| + 14
    ensures r[9..9 + |message|] == message
  {
    "Usuario: " + message + "\nBot:"
  }

  /** The text sent to the model: preamble, history lines, then the user's message and the bot cue. */
  function Prompt(history: Option<seq<Turn>>, message: string): (r: string)
    ensures IsPrefix(Preamble, r)
    ensures history.None? ==> r == Preamble + UserLine(message)
    ensures |r| == |Preamble| + |HistoryPart(history)| + |message| + 14
  {
    Preamble + HistoryPart(history) + UserLine(message)
  }

  /** The prompt opens with the preamble, closes with the user's line, and carries the history text in between. */
  lemma PromptLayout(history: Option<seq<Turn>>, message: string)
    ensures var p, n, h := Prompt(history, message), |Preamble|, |HistoryPart(history)|;
      && |p| == n + h + |message| + 14
      && p[..n] == Preamble
      && p[n..n + h] == HistoryPart(history)
      && p[n + h..] == UserLine(message)
  {
    Framed(Preamble, HistoryPart(history), UserLine(message));
  }

  lemma Framed(a: string, b: string, c: string)
    ensures var s := a + b + c;
      s[..|a|] == a && s[|a|..|a| + |b|] == b && s[|a| + |b|..] == c
  {
  }

  /** History that is absent or not an array leaves the prompt as for an empty history. */
  lemma PromptIgnoresNonArrayHistory(message: string)
    ensures Prompt(None, message) == Prompt(Some([]), message)
  {
  }

  /** `context += ...` over `history.forEach`: builds the prompt line by line. */
  method BuildPrompt(history: Option<seq<Turn>>, message: string) returns (context: string)
    ensures context == Prompt(history, message)
  {
    var lines := "";
    if history.Some? {
      var h := history.value;
      for i := 0 to |h|
        invariant lines == HistoryText(h[..i])
      {
        assert h[..i + 1][..i] == h[..i];
        lines := lines + HistoryLine(h[i]);
      }
      assert h[..|h|] == h;
    }
    context := Preamble + lines + UserLine(message);
  }

  // ---------------------------------------------------------------------------
  // The chat endpoint

  /** A chat reply: the HTTP status and the `text` field. */
  datatype ChatReply = ChatReply(status: nat, text: string)

  const Maintenance: string := "Modo mantenimiento. Contactanos por WhatsApp. 🍬"
  const Apology: string := "¡Ups! Escribinos al WhatsApp mientras arreglo esto. 🍫"

  /**
   * `/api/chat`: a non-empty local answer as it is; else the maintenance text
   * when no API key is configured (`apiKey` is "" when unset); else the model's
   * text for the prompt. A request without a message string, and a model call
   * that fails, end in status 500 with the fixed apology. `generate` is the
   * model: the text it produces for a prompt, or the error it throws.
   */
  function Chat(req: ChatRequest, knowledge: Option<seq<Entry>>, apiKey: string,
                generate: string -> Result<string>): (r: ChatReply)
    ensures r.status == 200 || r.status == 500
    ensures r.status == 500 ==> r.text == Apology
    ensures req.message.None? ==> r == ChatReply(500, Apology)
  {
    match req.message
    case None => ChatReply(500, Apology)
    case Some(m) =>
      var local := LocalAnswer(m, knowledge);
      if local.Some? && local.value != "" then ChatReply(200, local.value)
      else if apiKey == "" then ChatReply(200, Maintenance)
      else match generate(Prompt(req.history, m))
        case Ok(text) => ChatReply(200, text)
        case Err(_) => ChatReply(500, Apology)
  }

  /** The `/api/chat` handler: local lookup, key check, prompt building, model call. */
  method HandleChat(req: ChatRequest, knowledge: Option<seq<Entry>>, apiKey: string,
                    generate: string -> Result<string>) returns (reply: ChatReply)
    ensures reply == Chat(req, knowledge, apiKey, generate)
  {
    if req.message.None? {
      return ChatReply(500, Apology);
    }
    var message := req.message.value;
    var localAnswer := FindLocalAnswer(message, knowledge);
    if localAnswer.Some? && localAnswer.value != "" {
      return ChatReply(200, localAnswer.value);
    }
    if apiKey == "" {
      return ChatReply(200, Maintenance);
    }
    var context := BuildPrompt(req.history, message);
    var result := generate(context);
    match result {
      case Ok(text) => reply := ChatReply(200, text);
      case Err(_) => reply := ChatReply(500, Apology);
    }
  }

  /** A non-empty local answer is the reply, whatever the key and the model. */
  lemma LocalAnswerIsReply(req: ChatRequest, knowledge: Option<seq<Entry>>, apiKey: string,
                           generate: string -> Result<string>)
    requires req.message.Some?
    requires LocalAnswer(req.message.value, knowledge).Some?
    requires LocalAnswer(req.message.value, knowledge).value != ""
    ensures Chat(req, knowledge, apiKey, generate) == ChatReply(200, LocalAnswer(req.message.value, knowledge).value)
  {
  }

  /** Without an API key an unanswered message gets the maintenance text, and the model is never consulted. */
  lemma NoKeyMeansMaintenance(req: ChatRequest, knowledge: Option<seq<Entry>>,
                              g1: string -> Result<string>, g2: string -> Result<string>)
    requires req.message.Some?
    requires LocalAnswer(req.message.value, knowledge).None? || LocalAnswer(req.message.value, knowledge) == Some("")
    ensures Chat(req, knowledge, "", g1) == ChatReply(200, Maintenance)
    ensures Chat(req, knowledge, "", g1) == Chat(req, knowledge, "", g2)
  {
  }

  /** With a key and no usable local answer the model receives the prompt and its text is the reply. */
  lemma ModelTextIsReply(req: ChatRequest, knowledge: Option<seq<Entry>>, apiKey: string,
                         generate: string -> Result<string>)
    requires req.message.Some? && apiKey != ""
    requires LocalAnswer(req.message.value, knowledge).None? || LocalAnswer(req.message.value, knowledge) == Some("")
    requires generate(Prompt(req.history, req.message.value)).Ok?
    ensures Chat(req, knowledge, apiKey, generate) == ChatReply(200, generate(Prompt(req.history, req.message.value)).value)
  {
  }

  /** A failing model call yields the apology, whatever the error says. */
  lemma ModelErrorIsHidden(req: ChatRequest, knowledge: Option<seq<Entry>>, apiKey: string,
                           generate: string -> Result<string>)
    requires req.message.Some? && apiKey != ""
    requires LocalAnswer(req.message.value, knowledge).None? || LocalAnswer(req.message.value, knowledge) == Some("")
    requires generate(Prompt(req.history, req.message.value)).Err?
    ensures Chat(req, knowledge, apiKey, generate) == ChatReply(500, Apology)
  {
  }

  // ---------------------------------------------------------------------------
  // The checkout endpoint

  const DefaultFrontend: string := "https://sos-bombones.vercel.app"

  /**
   * `items.map((item, index) => ...)`: one preference item per cart line, in
   * order. A falsy id becomes the line's 1-based position; a missing name
   * becomes the text "undefined"; quantity and price go through unchanged, NaN
   * included.
   */
  function PreferenceItems(lines: seq<CartLine>): (r: seq<PreferenceItem>)
    ensures |r| == |lines|
    ensures forall i :: 0 <= i < |r| ==>
      && r[i].currencyId == Currency
      && r[i].id == (if lines[i].id != [] then lines[i].id else NatToString(i + 1))
      && r[i].title == (if lines[i].name.Some? then lines[i].name.value else "undefined")
      && r[i].quantity == lines[i].quantity
      && r[i].unitPrice == lines[i].price
  {
    seq(|lines|, i requires 0 <= i < |lines| =>
      var line := lines[i];
      PreferenceItem(
        if line.id != [] then line.id else NatToString(i + 1),
        if line.name.Some? then line.name.value else "undefined",
        line.quantity, line.price, Currency))
  }

  /** Every item sent carries a non-empty id, and items of distinct positions without ids get distinct ids. */
  lemma PreferenceItemIds(lines: seq<CartLine>, i: nat, j: nat)
    requires i < j < |lines|
    requires lines[i].id == [] && lines[j].id == []
    ensures PreferenceItems(lines)[i].id != [] && PreferenceItems(lines)[i].id != PreferenceItems(lines)[j].id
  {
    NatToStringInjective(i + 1, j + 1);
  }

  /**
   * `/api/create-preference`: 400 for a missing or empty item list; otherwise
   * the body is handed to the processor (`create`) and its id and checkout
   * link, or its error message as details of a 500, are the reply.
   * `frontendEnv` is "" when the variable is unset; `now` is the clock.
   */
  function CreatePreference(items: Option<seq<CartLine>>, payerEmail: Option<string>, frontendEnv: string, now: nat,
                            create: PreferenceBody -> Result<Created>): (r: Reply)
    ensures r.status == 400 <==> items.None? || |items.value| == 0
    ensures r.status == 400 ==> r.body == ErrorBody("No hay productos", None, false)
    ensures r.status != 400 ==>
      var body := Body(PreferenceItems(items.value), payerEmail,
                       if frontendEnv != "" then frontendEnv else DefaultFrontend, now);
      && (r.status == 200 <==> create(body).Ok?)
      && (create(body).Ok? ==> r.body == PreferenceIds(create(body).value.id, create(body).value.initPoint, None))
      && (create(body).Err? ==> r == Reply(500, ErrorBody("Error al procesar pago", Some(create(body).message), false)))
  {
    if items.None? || |items.value| == 0 then Reply(400, ErrorBody("No hay productos", None, false))
    else
      var frontend := if frontendEnv != "" then frontendEnv else DefaultFrontend;
      match create(Body(PreferenceItems(items.value), payerEmail, frontend, now))
      case Ok(c) => Reply(200, PreferenceIds(c.id, c.initPoint, None))
      case Err(m) => Reply(500, ErrorBody("Error al procesar pago", Some(m), false))
  }
}
