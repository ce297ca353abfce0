/**
 * What both chatbot backends and the knowledge test script share: the rows
 * of the knowledge table, the request body of a chat call, and the
 * first-match search that every variant of the matcher performs.
 */
module ChatTypes {
  import opened Wrappers

  /** A row of the knowledge table: trigger keywords and the answer to give. */
  datatype Entry = Entry(keywords: seq<string>, answer: string)

  /** One turn of the conversation history a client sends: `{ role, message }`. */
  datatype Turn = Turn(role: string, message: string)

  /**
   * The JSON body of a chat request. `message` is `None` when the body has no
   * message string; `history` is `None` when it is absent or not an array.
   */
  datatype ChatRequest = ChatRequest(message: Option<string>, history: Option<seq<Turn>>)

  /** The index of the first element of `s` that satisfies `p`, if there is one. */
  function FirstWhere<T>(s: seq<T>, p: T -> bool): (r: Option<nat>)
    ensures r.Some? ==> r.value < |s| && p(s[r.value])
    ensures r.Some? ==> forall j :: 0 <= j < r.value ==> !p(s[j])
    ensures r.None? <==> forall j :: 0 <= j < |s| ==> !p(s[j])
  {
    if s == [] then None
    else if p(s[0]) then Some(0)
    else match FirstWhere(s[1..], p)
      case None => None
      case Some(k) => Some(k + 1)
  }

  /** Whichever element satisfies `p` with none before it is the one `FirstWhere` finds. */
  lemma FirstWhereAt<T>(s: seq<T>, p: T -> bool, i: nat)
    requires i < |s| && p(s[i])
    requires forall j :: 0 <= j < i ==> !p(s[j])
    ensures FirstWhere(s, p) == Some(i)
  {
  }
}
