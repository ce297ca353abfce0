/**
 * The contact details the contact page shows (src/pages/Contact.tsx), each
 * read from the site settings with a fixed fallback.
 */
module ContactPage {
  import opened Wrappers
  import opened Text
  import opened SiteSettings

  const DefaultWhatsApp: string := "5493876856022"
  const DefaultAddress: string := "Ibazeta 580, Salta"
  const DefaultPhone: string := "3876856022"
  const DefaultEmail: string := "sosbombones.salta@gmail.com"

  const WhatsAppBase: string := "https://wa.me/"
  const MailtoScheme: string := "mailto:"

  /** What the page shows and links to. */
  datatype Details = Details(
    whatsAppHref: string, address: string, phone: string, emailHref: string, emailText: string)

  /** `https://wa.me/` followed by the number in the settings, or by the shop's number. */
  function WhatsAppLink(settings: map<string, string>): (r: string)
    ensures IsPrefix(WhatsAppBase, r)
    ensures r[|WhatsAppBase|..] == Lookup(settings, "whatsapp_number", DefaultWhatsApp)
  {
    WhatsAppBase + Lookup(settings, "whatsapp_number", DefaultWhatsApp)
  }

  /** The contact details for the given settings. */
  function DetailsFor(settings: map<string, string>): (r: Details)
    ensures r.whatsAppHref == WhatsAppLink(settings)
    ensures r.address == Lookup(settings, "contact_address", DefaultAddress)
    ensures r.phone == Lookup(settings, "contact_phone", DefaultPhone)
    ensures r.emailText == Lookup(settings, "contact_email", DefaultEmail)
    ensures r.emailHref == MailtoScheme + r.emailText
  {
    var email := Lookup(settings, "contact_email", DefaultEmail);
    Details(WhatsAppLink(settings), Lookup(settings, "contact_address", DefaultAddress),
            Lookup(settings, "contact_phone", DefaultPhone), MailtoScheme + email, email)
  }

  /** Every detail is filled in, whatever the settings hold. */
  lemma DetailsNeverBlank(settings: map<string, string>)
    ensures var d := DetailsFor(settings);
      d.address != [] && d.phone != [] && d.emailText != []
      && |d.whatsAppHref| > |WhatsAppBase|
  {
    LookupNonEmpty(settings, "whatsapp_number", DefaultWhatsApp);
    LookupNonEmpty(settings, "contact_address", DefaultAddress);
    LookupNonEmpty(settings, "contact_phone", DefaultPhone);
    LookupNonEmpty(settings, "contact_email", DefaultEmail);
  }

  /** Before the settings arrive, or when the query returns no data, the page shows the shop's own details. */
  lemma NoDataShowsDefaults()
    ensures DetailsFor(Loaded(None)) == Details(
      WhatsAppBase + DefaultWhatsApp, DefaultAddress, DefaultPhone,
      MailtoScheme + DefaultEmail, DefaultEmail)
  {
  }

  /** The mail link always opens the address the page displays. */
  lemma MailLinkMatchesText(settings: map<string, string>)
    ensures var d := DetailsFor(settings);
      IsPrefix(MailtoScheme, d.emailHref) && d.emailHref[|MailtoScheme|..] == d.emailText
  {
    var d := DetailsFor(settings);
    assert d.emailHref[|MailtoScheme|..] == d.emailText;
  }
}
