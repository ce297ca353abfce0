/**
 * The chat widget (src/components/Chatbot.tsx): a transcript that opens with
 * a greeting, a send action that appends the user's message and then exactly
 * one bot message (the reply or an error notice), the history it sends along,
 * and the text transform that renders bold spans and line breaks.
 */
module Chatbot {
  import opened Wrappers
  import opened Text
  import opened ChatTypes
  import ApiServer

  datatype Sender = User | Bot

  datatype Message = Message(id: int, text: string, sender: Sender)

  /** The sender as the backend's history expects it. */
  function RoleOf(s: Sender): (r: string)
    ensures r == "user" <==> s == User
  {
    match s
    case User => "user"
    case Bot => "bot"
  }

  /**
   * What the request to the backend came to. `NotOk` carries the status and
   * the `text` of the error body ("" when it has none or is not JSON); `OkJson`
   * carries the `text` of the reply ("" when it is missing or empty).
   */
  datatype FetchOutcome =
    | Thrown(message: string)
    | NotOk(status: nat, errorText: string)
    | OkJson(text: string)

  const Greeting: string :=
    "¡Hola! Soy BombónBot 🍫. ¿En qué puedo ayudarte hoy? Consultame sobre chocolates, envíos o regalos."

  const ErrorPrefix: string := "Lo siento, hubo un problema: "

  /** `messages.slice(-10).map(...)`: at most the last ten messages, as turns, in order. */
  function SentHistory(messages: seq<Message>): (r: seq<Turn>)
    ensures |r| == if |messages| < 10 then |messages| else 10
  {
    var recent := if |messages| < 10 then messages else messages[|messages| - 10..];
    seq(|recent|, i requires 0 <= i < |recent| => Turn(RoleOf(recent[i].sender), recent[i].text))
  }

  /** Turn `i` of the history is the `i`-th of the last messages, with its sender as the role. */
  lemma SentHistoryIsTail(messages: seq<Message>)
    ensures var r := SentHistory(messages);
      forall i :: 0 <= i < |r| ==>
        r[i] == Turn(RoleOf(messages[|messages| - |r| + i].sender), messages[|messages| - |r| + i].text)
  {
  }

  /**
   * When the widget is pointed at the /api chat endpoint, that server labels
   * the widget's own messages "Usuario" and its replies "Bot".
   */
  lemma HistoryLabelsAgree(messages: seq<Message>)
    ensures forall i :: 0 <= i < |SentHistory(messages)| ==>
      ApiServer.RoleLabel(SentHistory(messages)[i].role)
        == (if messages[|messages| - |SentHistory(messages)| + i].sender == User then "Usuario" else "Bot")
  {
    SentHistoryIsTail(messages);
  }

  /** The error a failed request is reported with. */
  function FailureText(outcome: FetchOutcome): (r: string)
    requires !(outcome.OkJson? && outcome.text != "")
    ensures outcome.Thrown? ==> r == outcome.message
    ensures outcome.NotOk? && outcome.errorText != "" ==> r == outcome.errorText
  {
    match outcome
    case Thrown(m) => m
    case NotOk(status, t) => if t != "" then t else "Error del servidor (" + NatToString(status) + ")"
    case OkJson(_) => "Respuesta vacía del servidor"
  }

  /** The bot message that follows a send: the reply's text, or the apology with the error. */
  function ReplyText(outcome: FetchOutcome): (r: string)
    ensures outcome.OkJson? && outcome.text != "" ==> r == outcome.text
    ensures !(outcome.OkJson? && outcome.text != "") ==> IsPrefix(ErrorPrefix, r)
  {
    if outcome.OkJson? && outcome.text != "" then outcome.text
    else ErrorPrefix + FailureText(outcome)
  }

  /** The widget's state. */
  class ChatWidget {
    var messages: seq<Message>
    var input: string
    var loading: bool

    /** A fresh widget: only the greeting, an empty field, not loading. */
    constructor()
      ensures messages == [Message(1, Greeting, Bot)] && input == "" && !loading
    {
      messages := [Message(1, Greeting, Bot)];
      input := "";
      loading := false;
    }

    /**
     * `handleSendMessage`. Blank input, or any input while a reply is
     * pending, changes nothing. Otherwise the trimmed input is appended as the
     * user's message (stamped `now`), the field is cleared, the request goes
     * out with the trimmed text and the history from before it, and exactly one
     * bot message (stamped `later + 1`) follows. `backend` stands for the
     * request to the chat endpoint.
     */
    method SendMessage(now: int, later: int, backend: (string, seq<Turn>) -> FetchOutcome)
      modifies this
      ensures Trim(old(input)) == [] || old(loading) ==> unchanged(this)
      ensures Trim(old(input)) != [] && !old(loading) ==>
        var sent := Trim(old(input));
        && messages == old(messages) + [Message(now, sent, User),
                                        Message(later + 1, ReplyText(backend(sent, SentHistory(old(messages)))), Bot)]
        && input == ""
        && !loading
    {
      var userMessage := Trim(input);
      if userMessage == [] || loading {
        return;
      }
      input := "";
      var before := messages;
      var history := SentHistory(before);
      var question := Message(now, userMessage, User);
      messages := before + [question];
      loading := true;
      var outcome := backend(userMessage, history);
      var answer := Message(later + 1, ReplyText(outcome), Bot);
      messages := messages + [answer];
      assert messages == before + [question, answer];
      loading := false;
    }
  }
}

/**
 * How the chat widget shows a message's text (src/components/Chatbot.tsx):
 * double-asterisk spans become strong elements and new lines become breaks.
 */
module ChatMarkup {
  import opened Wrappers

  /** The characters `.` does not match in a JavaScript regular expression. */
  predicate IsLineTerminator(c: char) {
    c == '\n' || c == '\r' || c == '\U{2028}' || c == '\U{2029}'
  }

  /** A double asterisk starts at `i`. */
  predicate StarsAt(s: string, i: nat) {
    i + 2 <= |s| && s[i] == '*' && s[i + 1] == '*'
  }

  /**
   * Where the lazy `(.*?)` followed by a double asterisk, tried from `from`,
   * ends: the first double asterisk at or after `from`, provided no line
   * terminator comes before it.
   */
  function CloseAt(s: string, from: nat): (r: Option<nat>)
    requires from <= |s|
    ensures r.Some? ==> from <= r.value && StarsAt(s, r.value)
    ensures r.Some? ==> forall k :: from <= k < r.value ==> !IsLineTerminator(s[k]) && !StarsAt(s, k)
    decreases |s| - from
  {
    if StarsAt(s, from) then Some(from)
    else if from < |s| && !IsLineTerminator(s[from]) then CloseAt(s, from + 1)
    else None
  }

  /** The element a bold span becomes. */
  function Strong(x: string): string {
    "<strong>" + x + "</strong>"
  }

  // The global replacement of a double-asterisk span, matched lazily, by
  // `<strong>$1</strong>`, scanning left to right.
  function Bold(s: string): (r: string)
    ensures |r| >= |s|
    decreases |s|
  {
    if s == [] then []
    else if StarsAt(s, 0) && CloseAt(s, 2).Some? then
      var j := CloseAt(s, 2).value;
      Strong(s[2..j]) + Bold(s[j + 2..])
    else [s[0]] + Bold(s[1..])
  }

  /** Text without asterisks is left as it is. */
  lemma {:induction false} BoldPlain(s: string)
    requires '*' !in s
    ensures Bold(s) == s
    decreases |s|
  {
    if s != [] {
      assert !StarsAt(s, 0);
      BoldPlain(s[1..]);
      assert [s[0]] + s[1..] == s;
    }
  }

  /** A span between double asterisks, on one line and without asterisks, becomes a strong element. */
  lemma BoldSpan(x: string, rest: string)
    requires '*' !in x
    requires forall k :: 0 <= k < |x| ==> !IsLineTerminator(x[k])
    ensures Bold("**" + x + "**" + rest) == Strong(x) + Bold(rest)
  {
    var s := "**" + x + "**" + rest;
    assert StarsAt(s, 0);
    CloseAtSpan(x, rest, 2);
    assert s[2..|x| + 2] == x;
    assert s[|x| + 4..] == rest;
  }

  /** Scanning a starless one-line span from any of its positions finds the double asterisk right after it. */
  lemma {:induction false} CloseAtSpan(x: string, rest: string, from: nat)
    requires '*' !in x
    requires forall k :: 0 <= k < |x| ==> !IsLineTerminator(x[k])
    requires 2 <= from <= |x| + 2
    ensures CloseAt("**" + x + "**" + rest, from) == Some(|x| + 2)
    decreases |x| + 2 - from
  {
    var s := "**" + x + "**" + rest;
    if from < |x| + 2 {
      assert s[from] == x[from - 2];
      CloseAtSpan(x, rest, from + 1);
    } else {
      assert s[from] == '*' && s[from + 1] == '*';
    }
  }

  /** What one character is shown as: a new line becomes a break. */
  function BreakChar(c: char): string {
    if c == '\n' then "<br/>" else [c]
  }

  /** The global replacement of every new line by `<br/>`. */
  function LineBreaks(s: string): (r: string)
    ensures |r| >= |s|
    ensures s == [] <==> r == []
  {
    if s == [] then [] else BreakChar(s[0]) + LineBreaks(s[1..])
  }

  /** No new line survives. */
  lemma {:induction false} LineBreaksNoNewLine(s: string)
    ensures '\n' !in LineBreaks(s)
  {
    if s != [] {
      LineBreaksNoNewLine(s[1..]);
      assert '\n' !in BreakChar(s[0]);
    }
  }

  /** Text without new lines is left as it is. */
  lemma {:induction false} LineBreaksPlain(s: string)
    requires '\n' !in s
    ensures LineBreaks(s) == s
  {
    if s != [] {
      LineBreaksPlain(s[1..]);
      assert [s[0]] + s[1..] == s;
    }
  }

  /** Line breaks are replaced piece by piece. */
  lemma {:induction false} LineBreaksAppend(a: string, b: string)
    ensures LineBreaks(a + b) == LineBreaks(a) + LineBreaks(b)
    decreases |a|
  {
    if a != [] {
      var ab := a + b;
      assert ab[0] == a[0] && ab[1..] == a[1..] + b;
      LineBreaksAppend(a[1..], b);
    } else {
      assert a + b == b;
    }
  }

  /** The markup a message is shown with: no raw new line is left in it. */
  function Render(text: string): (r: string)
    ensures '\n' !in r
  {
    LineBreaksNoNewLine(Bold(text));
    LineBreaks(Bold(text))
  }

  /** Plain one-line text is shown exactly as written. */
  lemma RenderPlain(text: string)
    requires '*' !in text && '\n' !in text
    ensures Render(text) == text
  {
    BoldPlain(text);
    LineBreaksPlain(text);
  }

  /** A new line is never the start of a bold span. */
  lemma BoldNewLine(rest: string)
    ensures Bold("\n" + rest) == "\n" + Bold(rest)
  {
    var s := "\n" + rest;
    assert s[0] == '\n' && s[1..] == rest;
    assert !StarsAt(s, 0);
  }

  /** A new line is shown as a break. */
  lemma LineBreaksNewLine(rest: string)
    ensures LineBreaks("\n" + rest) == "<br/>" + LineBreaks(rest)
  {
    var s := "\n" + rest;
    assert s[0] == '\n' && s[1..] == rest;
    assert BreakChar(s[0]) == "<br/>";
  }

  /** A strong element holds no new line of its own. */
  lemma StrongOneLine(x: string)
    requires '\n' !in x
    ensures '\n' !in Strong(x)
  {
  }

  /** A bold span followed by a new line renders as a strong element followed by a break. */
  lemma RenderBoldLine(x: string, rest: string)
    requires '*' !in x && '\n' !in x
    requires forall k :: 0 <= k < |x| ==> !IsLineTerminator(x[k])
    ensures Render("**" + x + "**" + "\n" + rest) == Strong(x) + "<br/>" + Render(rest)
  {
    assert "**" + x + "**" + "\n" + rest == "**" + x + "**" + ("\n" + rest);
    BoldSpan(x, "\n" + rest);
    BoldNewLine(rest);
    StrongOneLine(x);
    LineBreaksPlain(Strong(x));
    LineBreaksAppend(Strong(x), "\n" + Bold(rest));
    LineBreaksNewLine(Bold(rest));
  }
}
