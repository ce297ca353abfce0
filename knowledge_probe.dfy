/**
 * The knowledge probe script (backend/test-db.js): reads the knowledge table
 * once and, for each of four fixed messages, logs which entry answers it under
 * accent-insensitive matching, or that none does.
 */
module KnowledgeProbe {
  import opened Wrappers
  import opened Text
  import opened Normalization
  import opened ChatTypes
  import ApiServer

  /** One console line of the probe. */
  datatype LogLine =
    | FetchFailed(error: string)
    | Banner
    | Matched(message: string, firstKeyword: string)
    | NoMatch(message: string)

  /** The console text of a line. */
  function LineText(l: LogLine): (r: string)
    ensures l.FetchFailed? ==> IsPrefix("Error fetching knowledge: " + l.error, r)
    ensures l.Matched? ==> IsPrefix("✅ MATCH [" + l.message + "]: Coincide con [" + l.firstKeyword, r)
    ensures l.NoMatch? ==> IsPrefix("❌ NO MATCH [" + l.message + "]", r)
  {
    match l
    case FetchFailed(e) => "Error fetching knowledge: " + e
    case Banner => "--- Probando Lógica de Normalización ---"
    case Matched(m, k) => "✅ MATCH [" + m + "]: Coincide con [" + k + "...]"
    case NoMatch(m) => "❌ NO MATCH [" + m + "]"
  }

  /** The messages the probe tries, in order. */
  const TestMessages: seq<string> := ["envios", "ubicacion", "hacer pedido", "PAGOS"]

  /** The probe's keyword test: the keyword's comparison form occurs in the message's, with no guard for an empty form. */
  predicate KeywordHits(msgNormalized: string, keyword: string)
    ensures Normalize(keyword) == [] ==> KeywordHits(msgNormalized, keyword)
    ensures KeywordHits(msgNormalized, keyword) ==> |Normalize(keyword)| <= |msgNormalized|
  {
    Includes(msgNormalized, Normalize(keyword))
  }

  /** An entry matches when one of its keywords hits. */
  predicate EntryMatches(msgNormalized: string, e: Entry)
    ensures EntryMatches(msgNormalized, e) ==> e.keywords != []
  {
    exists k :: k in e.keywords && KeywordHits(msgNormalized, k)
  }

  /** An entry matches exactly when the comparison form of one of its keywords occurs in the message's, an empty form included. */
  lemma EntryMatchesIff(message: string, e: Entry)
    ensures EntryMatches(Normalize(message), e) <==>
      exists k, i :: k in e.keywords && OccursAt(Normalize(message), Normalize(k), i)
  {
    var m := Normalize(message);
    forall k | k in e.keywords
      ensures KeywordHits(m, k) <==> exists i :: OccursAt(m, Normalize(k), i)
    {
      IncludesIff(m, Normalize(k));
    }
  }

  /** The line logged for one message: the first matching entry's first keyword, or no match. */
  function ProbeLine(message: string, knowledge: seq<Entry>): (r: LogLine)
    ensures r.NoMatch? <==> forall i :: 0 <= i < |knowledge| ==> !EntryMatches(Normalize(message), knowledge[i])
    ensures r.Matched? || r.NoMatch?
    ensures r.message == message
    ensures r.Matched? ==>
      exists i :: 0 <= i < |knowledge| && EntryMatches(Normalize(message), knowledge[i])
        && (forall j :: 0 <= j < i ==> !EntryMatches(Normalize(message), knowledge[j]))
        && |knowledge[i].keywords| > 0 && r.firstKeyword == knowledge[i].keywords[0]
  {
    match FirstWhere(knowledge, e => EntryMatches(Normalize(message), e))
    case None => NoMatch(message)
    case Some(i) => Matched(message, knowledge[i].keywords[0])
  }

  /** A message that entry `i` matches, and no entry before it, is logged with entry `i`'s first keyword. */
  lemma ProbeLineAt(message: string, knowledge: seq<Entry>, i: nat)
    requires i < |knowledge| && EntryMatches(Normalize(message), knowledge[i])
    requires forall j :: 0 <= j < i ==> !EntryMatches(Normalize(message), knowledge[j])
    ensures |knowledge[i].keywords| > 0
    ensures ProbeLine(message, knowledge) == Matched(message, knowledge[i].keywords[0])
  {
    FirstWhereAt(knowledge, e => EntryMatches(Normalize(message), e), i);
  }

  /** The lines for a list of messages, one each, in order. */
  function ProbeLines(messages: seq<string>, knowledge: seq<Entry>): (r: seq<LogLine>)
    ensures |r| == |messages|
    ensures forall i :: 0 <= i < |r| ==> r[i] == ProbeLine(messages[i], knowledge)
  {
    if messages == [] then []
    else ProbeLines(messages[..|messages| - 1], knowledge) + [ProbeLine(messages[|messages| - 1], knowledge)]
  }

  /** The whole log: the fetch error alone, or the banner and one line per test message. */
  function ProbeLog(fetched: Result<seq<Entry>>): (r: seq<LogLine>)
    ensures fetched.Err? ==> r == [FetchFailed(fetched.message)]
    ensures fetched.Ok? ==> |r| == 1 + |TestMessages| && r[0] == Banner
    ensures fetched.Ok? ==> r[1..] == ProbeLines(TestMessages, fetched.value)
  {
    match fetched
    case Err(e) => [FetchFailed(e)]
    case Ok(k) => [Banner] + ProbeLines(TestMessages, k)
  }

  /** The inner scan of `testKnowledge` for one message: a `found` flag and an early exit at the first match. */
  method ProbeMessage(msg: string, knowledge: seq<Entry>) returns (line: LogLine)
    ensures line == ProbeLine(msg, knowledge)
  {
    var msgNormalized := Normalize(msg);
    ghost var matches := e => EntryMatches(msgNormalized, e);
    var found := false;
    var i := 0;
    while i < |knowledge|
      invariant 0 <= i <= |knowledge|
      invariant forall j :: 0 <= j < i ==> !matches(knowledge[j])
      invariant !found
    {
      if EntryMatches(msgNormalized, knowledge[i]) {
        found := true;
        break;
      }
      i := i + 1;
    }
    if found {
      FirstWhereAt(knowledge, matches, i);
      line := Matched(msg, knowledge[i].keywords[0]);
    } else {
      line := NoMatch(msg);
    }
  }

  /** The outer loop of `testKnowledge`: one line per message, in order. */
  method ProbeMessages(messages: seq<string>, knowledge: seq<Entry>) returns (lines: seq<LogLine>)
    ensures lines == ProbeLines(messages, knowledge)
  {
    lines := [];
    for m := 0 to |messages|
      invariant lines == ProbeLines(messages[..m], knowledge)
    {
      var line := ProbeMessage(messages[m], knowledge);
      assert messages[..m + 1][..m] == messages[..m];
      lines := lines + [line];
    }
    assert messages[..|messages|] == messages;
  }

  /** `testKnowledge`: the banner, then one line per test message, unless the fetch failed. */
  method TestKnowledge(fetched: Result<seq<Entry>>) returns (log: seq<LogLine>)
    ensures log == ProbeLog(fetched)
  {
    if fetched.Err? {
      log := [FetchFailed(fetched.message)];
      return;
    }
    var lines := ProbeMessages(TestMessages, fetched.value);
    log := [Banner] + lines;
  }

  /**
   * With no keyword whose comparison form is empty, the probe decides a match
   * exactly as the serverless chat endpoint does.
   */
  lemma AgreesWithChatEndpoint(message: string, e: Entry)
    requires forall k :: k in e.keywords ==> Normalize(k) != []
    ensures EntryMatches(Normalize(message), e) <==> ApiServer.EntryMatches(Normalize(message), e)
  {
  }

  /** Without the guard, a keyword whose comparison form is empty makes its entry match every message. */
  lemma BlankKeywordMatchesEverything(message: string, e: Entry, k: string)
    requires k in e.keywords && Normalize(k) == []
    ensures EntryMatches(Normalize(message), e)
    ensures !ApiServer.EntryMatches(Normalize(message), Entry([k], e.answer))
  {
    IncludesEmpty(Normalize(message));
    assert KeywordHits(Normalize(message), k);
  }
}
