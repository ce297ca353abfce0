/**
 * The checkout request both backends receive, the preference body they send
 * to the payment processor, and the replies they give. The processor itself is
 * not modelled: its answer to a preference body is an input.
 */
module MercadoPago {
  import opened Wrappers
  import opened Text

  /**
   * One cart line of a checkout request. `id` is "" when it is falsy;
   * `name` is `None` when it is missing; `quantity` and `price` are what
   * `parseInt` and `parseFloat` make of the sent values, `None` for NaN.
   */
  datatype CartLine = CartLine(id: string, name: Option<string>, quantity: Option<int>, price: Option<int>)

  /** One item of a preference body; a `None` quantity or price is a NaN sent as it is. */
  datatype PreferenceItem = PreferenceItem(
    id: string, title: string, quantity: Option<int>, unitPrice: Option<int>, currencyId: string)

  datatype BackUrls = BackUrls(success: string, failure: string, pending: string)

  /**
   * The preference body; `payerEmail` is `None` when the body has no payer,
   * `externalReference` names the order after the clock reading it was made at.
   */
  datatype PreferenceBody = PreferenceBody(
    items: seq<PreferenceItem>, payerEmail: Option<string>, backUrls: BackUrls,
    statementDescriptor: string, externalReference: string)

  /** What the processor returns for a created preference. */
  datatype Created = Created(id: string, initPoint: string, sandboxInitPoint: string)

  /**
   * The JSON a checkout endpoint answers with. `fullError` says whether an
   * error body also carries the processor's error object as `full_error`.
   */
  datatype ReplyBody =
    | ErrorBody(error: string, details: Option<string>, fullError: bool)
    | PreferenceIds(id: string, initPoint: string, sandboxInitPoint: Option<string>)

  datatype Reply = Reply(status: nat, body: ReplyBody)

  const Currency: string := "ARS"
  const StatementDescriptor: string := "SOS BOMBONES"

  /** The three return addresses, under the frontend's base URL. */
  function BackUrlsFor(frontend: string): (r: BackUrls)
    ensures IsPrefix(frontend, r.success) && IsPrefix(frontend, r.failure) && IsPrefix(frontend, r.pending)
    ensures r.success != r.failure && r.failure != r.pending && r.success != r.pending
  {
    var success, failure, pending := frontend + "/pago-exitoso", frontend + "/pago-fallido", frontend + "/pago-pendiente";
    assert success[|frontend| + 6] == 'e' && failure[|frontend| + 6] == 'f' && pending[|frontend| + 6] == 'p';
    BackUrls(success, failure, pending)
  }

  /** `order_${Date.now()}`: the external reference for an order made at clock reading `now`. */
  function OrderReference(now: nat): (r: string)
    ensures IsPrefix("order_", r) && |r| > 6
  {
    "order_" + NatToString(now)
  }

  /** The body both backends build around their own item list. */
  function Body(items: seq<PreferenceItem>, payerEmail: Option<string>, frontend: string, now: nat): (r: PreferenceBody)
    ensures r.items == items && r.statementDescriptor == StatementDescriptor
    ensures r.payerEmail.Some? <==> payerEmail.Some? && payerEmail.value != ""
    ensures r.backUrls == BackUrlsFor(frontend) && r.externalReference == OrderReference(now)
  {
    PreferenceBody(items, PayerOf(payerEmail), BackUrlsFor(frontend), StatementDescriptor, OrderReference(now))
  }

  /** `payer?.email ? { email } : undefined`: the payer only when it has a non-empty email. */
  function PayerOf(email: Option<string>): (r: Option<string>)
    ensures r.Some? <==> email.Some? && email.value != ""
    ensures r.Some? ==> r == email
  {
    if email.Some? && email.value != "" then email else None
  }
}
