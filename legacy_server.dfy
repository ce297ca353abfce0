/**
 * The standalone Express backend (backend/server.js): `/create-preference`
 * with defaults for unusable item fields, and the older `/chat` endpoint whose
 * keyword matching only lower-cases and whose prompt ignores the history.
 */
module LegacyServer {
  import opened Wrappers
  import opened Text
  import opened Normalization
  import opened ChatTypes
  import opened MercadoPago

  // ---------------------------------------------------------------------------
  // The checkout endpoint

  const DefaultFrontend: string := "http://localhost:5173"

  /**
   * `items.map(...)` with fallbacks: a falsy id becomes the line's 1-based
   * position, a missing or empty name "Producto", a quantity that is NaN or 0
   * becomes 1 and a price that is NaN or 0 becomes 0.
   */
  function PreferenceItems(lines: seq<CartLine>): (r: seq<PreferenceItem>)
    ensures |r| == |lines|
    ensures forall i :: 0 <= i < |r| ==>
      && r[i].currencyId == Currency
      && r[i].id == (if lines[i].id != [] then lines[i].id else NatToString(i + 1))
      && r[i].title == (if lines[i].name.Some? && lines[i].name.value != [] then lines[i].name.value else "Producto")
      && r[i].quantity == Some(if lines[i].quantity.Some? && lines[i].quantity.value != 0 then lines[i].quantity.value else 1)
      && r[i].unitPrice == Some(if lines[i].price.Some? then lines[i].price.value else 0)
  {
    seq(|lines|, i requires 0 <= i < |lines| =>
      var line := lines[i];
      PreferenceItem(
        if line.id != [] then line.id else NatToString(i + 1),
        if line.name.Some? && line.name.value != [] then line.name.value else "Producto",
        Some(if line.quantity.Some? && line.quantity.value != 0 then line.quantity.value else 1),
        Some(if line.price.Some? then line.price.value else 0),
        Currency))
  }

  /** Unlike the serverless variant, this one never sends a NaN, an empty title or a zero quantity. */
  lemma ItemsAlwaysUsable(lines: seq<CartLine>)
    ensures forall it :: it in PreferenceItems(lines) ==>
      it.title != [] && it.id != [] && it.quantity.Some? && it.quantity.value != 0 && it.unitPrice.Some?
  {
    forall it | it in PreferenceItems(lines)
      ensures it.title != [] && it.id != [] && it.quantity.Some? && it.quantity.value != 0 && it.unitPrice.Some?
    {
      var i :| 0 <= i < |PreferenceItems(lines)| && PreferenceItems(lines)[i] == it;
    }
  }

  /**
   * `/create-preference`: 400 for a missing or empty item list; otherwise the
   * processor's ids, sandbox link included, or a 500 with its error message
   * and the error object itself as `full_error`.
   */
  function CreatePreference(items: Option<seq<CartLine>>, payerEmail: Option<string>, frontendEnv: string, now: nat,
                            create: PreferenceBody -> Result<Created>): (r: Reply)
    ensures r.status == 400 <==> items.None? || |items.value| == 0
    ensures r.status == 400 ==> r.body == ErrorBody("No hay productos en el carrito", None, false)
    ensures r.status != 400 ==>
      var body := Body(PreferenceItems(items.value), payerEmail,
                       if frontendEnv != "" then frontendEnv else DefaultFrontend, now);
      && (r.status == 200 <==> create(body).Ok?)
      && (create(body).Ok? ==> r.body == PreferenceIds(create(body).value.id, create(body).value.initPoint,
                                                       Some(create(body).value.sandboxInitPoint)))
      && (create(body).Err? ==> r == Reply(500, ErrorBody("Error al procesar el pago", Some(create(body).message), true)))
  {
    if items.None? || |items.value| == 0 then Reply(400, ErrorBody("No hay productos en el carrito", None, false))
    else
      var frontend := if frontendEnv != "" then frontendEnv else DefaultFrontend;
      var c := create(Body(PreferenceItems(items.value), payerEmail, frontend, now));
      match c
      case Ok(c) => Reply(200, PreferenceIds(c.id, c.initPoint, Some(c.sandboxInitPoint)))
      case Err(m) => Reply(500, ErrorBody("Error al procesar el pago", Some(m), true))
  }

  // ---------------------------------------------------------------------------
  // Local answers, lower-casing only

  /** `msg.includes(k.toLowerCase())`: a keyword hits when its lower case occurs in the lower-cased message. */
  predicate KeywordHits(msgLower: string, keyword: string)
    ensures keyword == [] ==> KeywordHits(msgLower, keyword)
    ensures KeywordHits(msgLower, keyword) ==> |keyword| <= |msgLower|
  {
    Includes(msgLower, ToLower(keyword))
  }

  /** An entry matches when one of its keywords hits. */
  predicate EntryMatches(msgLower: string, e: Entry)
    ensures EntryMatches(msgLower, e) ==> e.keywords != []
  {
    exists k :: k in e.keywords && KeywordHits(msgLower, k)
  }

  /** An entry matches exactly when the lower case of one of its keywords occurs in the lower-cased message. */
  lemma EntryMatchesIff(message: string, e: Entry)
    ensures EntryMatches(ToLower(message), e) <==>
      exists k, i :: k in e.keywords && OccursAt(ToLower(message), ToLower(k), i)
  {
    var m := ToLower(message);
    if EntryMatches(m, e) {
      var k :| k in e.keywords && KeywordHits(m, k);
      IncludesIff(m, ToLower(k));
      var i :| OccursAt(m, ToLower(k), i);
      assert k in e.keywords && OccursAt(m, ToLower(k), i);
    }
    if exists k, i :: k in e.keywords && OccursAt(m, ToLower(k), i) {
      var k, i :| k in e.keywords && OccursAt(m, ToLower(k), i);
      IncludesIff(m, ToLower(k));
      assert KeywordHits(m, k);
    }
  }

  /** The answer of the first entry matching the lower-cased message, if any. */
  function LocalAnswer(message: string, knowledge: Option<seq<Entry>>): (r: Option<string>)
    ensures r.Some? <==>
      (knowledge.Some? && exists i :: 0 <= i < |knowledge.value| && EntryMatches(ToLower(message), knowledge.value[i]))
    ensures r.Some? ==>
      (exists i :: 0 <= i < |knowledge.value|
        && EntryMatches(ToLower(message), knowledge.value[i])
        && r.value == knowledge.value[i].answer
        && forall j :: 0 <= j < i ==> !EntryMatches(ToLower(message), knowledge.value[j]))
  {
    match knowledge
    case None => None
    case Some(items) =>
      var m := ToLower(message);
      match FirstWhere(items, e => EntryMatches(m, e))
      case None => None
      case Some(i) => Some(items[i].answer)
  }

  /** `findLocalAnswer`: the scan over the entries in order. */
  method FindLocalAnswer(message: string, knowledge: Option<seq<Entry>>) returns (answer: Option<string>)
    ensures answer == LocalAnswer(message, knowledge)
  {
    var msg := ToLower(message);
    if knowledge.None? {
      return None;
    }
    var items := knowledge.value;
    ghost var matches := e => EntryMatches(msg, e);
    for i := 0 to |items|
      invariant forall j :: 0 <= j < i ==> !matches(items[j])
    {
      if EntryMatches(msg, items[i]) {
        FirstWhereAt(items, matches, i);
        return Some(items[i].answer);
      }
    }
    assert FirstWhere(items, matches).None?;
    return None;
  }

  /** An empty keyword matches every message, so its entry shadows all entries after it. */
  lemma EmptyKeywordMatchesEverything(message: string, e: Entry)
    requires "" in e.keywords
    ensures EntryMatches(ToLower(message), e)
  {
    IncludesEmpty(ToLower(message));
    assert KeywordHits(ToLower(message), "");
  }

  /** Case does not matter: a keyword hits a message that contains it in any case. */
  lemma KeywordHitsAnyCase(before: string, written: string, after: string, keyword: string)
    requires ToLower(written) == ToLower(keyword)
    ensures KeywordHits(ToLower(before + written + after), keyword)
  {
    var s := before + written + after;
    var l := ToLower(s);
    assert l == ToLower(before) + ToLower(written) + ToLower(after);
    IncludesInfix(ToLower(before), ToLower(written), ToLower(after));
  }

  /** Accents do: the keyword "envios" does not hit the message "envíos". */
  lemma AccentedMessageMissesPlainKeyword()
    ensures !KeywordHits(ToLower("envíos"), "envios")
  {
    assert ToLower("envíos") == "envíos";
    assert ToLower("envios") == "envios";
    IncludesSameLength("envíos", "envios");
    assert "envíos"[3] != "envios"[3];
  }

  // ---------------------------------------------------------------------------
  // The chat endpoint

  /**
   * A reply of `/chat`, or none at all: without a message string the lookup
   * fails before the handler's error handling, and the request is never answered.
   */
  datatype ChatOutcome =
    | Replied(status: nat, text: string, error: Option<string>)
    | Unanswered

  const Maintenance: string :=
    "¡Hola! Estoy en modo mantenimiento. Por favor contactanos por WhatsApp al 3876856022. 🍬"
  const Apology: string :=
    "¡Ups! No pude procesar tu mensaje. ¿Me podrías preguntar de otra forma o escribirnos al WhatsApp? 🍫"

  /** The opening of the prompt, with the line breaks and indentation of its template. */
  const PromptHead: string :=
    "Responde como BombónBot, asistente de 'SOS Bombones' en Salta (Ibazeta 580). \n        Tono: Argentino cálido y corto. \n        Usuario: "

  /** The prompt: the fixed head followed by the message; the conversation history plays no part. */
  function Prompt(message: string): (p: string)
    ensures |p| == |PromptHead| + |message| && p[|PromptHead|..] == message
  {
    PromptHead + message
  }

  /**
   * `/chat`: a non-empty local answer; else the maintenance text flagged
   * `missing_api_key` when no key is set; else the model's text, or a 500
   * flagged `ai_error` when the model fails.
   */
  function Chat(message: Option<string>, knowledge: Option<seq<Entry>>, apiKey: string,
                generate: string -> Result<string>): (r: ChatOutcome)
    ensures r.Unanswered? <==> message.None?
    ensures r.Replied? ==> (r.status == 500 <==> r.error == Some("ai_error"))
    ensures r.Replied? && r.status == 500 ==> r.text == Apology
    ensures r.Replied? && r.status == 200 && r.error.None? ==>
      LocalAnswer(message.value, knowledge) == Some(r.text) || generate(Prompt(message.value)) == Ok(r.text)
  {
    match message
    case None => Unanswered
    case Some(m) =>
      var local := LocalAnswer(m, knowledge);
      if local.Some? && local.value != "" then Replied(200, local.value, None)
      else if apiKey == "" then Replied(200, Maintenance, Some("missing_api_key"))
      else match generate(Prompt(m))
        case Ok(text) => Replied(200, text, None)
        case Err(_) => Replied(500, Apology, Some("ai_error"))
  }

  /** The `/chat` handler. */
  method HandleChat(message: Option<string>, knowledge: Option<seq<Entry>>, apiKey: string,
                    generate: string -> Result<string>) returns (outcome: ChatOutcome)
    ensures outcome == Chat(message, knowledge, apiKey, generate)
  {
    if message.None? {
      return Unanswered;
    }
    var localAnswer := FindLocalAnswer(message.value, knowledge);
    if localAnswer.Some? && localAnswer.value != "" {
      return Replied(200, localAnswer.value, None);
    }
    if apiKey == "" {
      return Replied(200, Maintenance, Some("missing_api_key"));
    }
    var result := generate(Prompt(message.value));
    match result {
      case Ok(text) => outcome := Replied(200, text, None);
      case Err(_) => outcome := Replied(500, Apology, Some("ai_error"));
    }
  }

  /** Two messages give the model the same prompt only when they are the same message. */
  lemma PromptInjective(m1: string, m2: string)
    requires Prompt(m1) == Prompt(m2)
    ensures m1 == m2
  {
    assert Prompt(m1)[|PromptHead|..] == m1;
  }

  /** A non-empty local answer is the reply, whatever the key and the model. */
  lemma LocalAnswerIsReply(message: string, knowledge: Option<seq<Entry>>, apiKey: string,
                           generate: string -> Result<string>)
    requires LocalAnswer(message, knowledge).Some? && LocalAnswer(message, knowledge).value != ""
    ensures Chat(Some(message), knowledge, apiKey, generate) == Replied(200, LocalAnswer(message, knowledge).value, None)
  {
  }

  /** With a key and no usable local answer the model receives the prompt and its text is the reply. */
  lemma ModelTextIsReply(message: string, knowledge: Option<seq<Entry>>, apiKey: string,
                         generate: string -> Result<string>)
    requires apiKey != ""
    requires LocalAnswer(message, knowledge).None? || LocalAnswer(message, knowledge) == Some("")
    requires generate(Prompt(message)).Ok?
    ensures Chat(Some(message), knowledge, apiKey, generate) == Replied(200, generate(Prompt(message)).value, None)
  {
  }

  /** A failing model call yields status 500, the apology and the `ai_error` flag, whatever the error says. */
  lemma ModelErrorIsHidden(message: string, knowledge: Option<seq<Entry>>, apiKey: string,
                           generate: string -> Result<string>)
    requires apiKey != ""
    requires LocalAnswer(message, knowledge).None? || LocalAnswer(message, knowledge) == Some("")
    requires generate(Prompt(message)).Err?
    ensures Chat(Some(message), knowledge, apiKey, generate) == Replied(500, Apology, Some("ai_error"))
  {
  }

  /** Without a key the model is never consulted. */
  lemma NoKeyMeansMaintenance(message: string, knowledge: Option<seq<Entry>>,
                              g1: string -> Result<string>, g2: string -> Result<string>)
    requires LocalAnswer(message, knowledge).None? || LocalAnswer(message, knowledge) == Some("")
    ensures Chat(Some(message), knowledge, "", g1) == Replied(200, Maintenance, Some("missing_api_key"))
    ensures Chat(Some(message), knowledge, "", g1) == Chat(Some(message), knowledge, "", g2)
  {
  }
}
