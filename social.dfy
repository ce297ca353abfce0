/**
 * The floating social buttons (src/components/SocialFloatingButtons.tsx):
 * five links in a fixed order, four of them read from the site settings with
 * a fallback, each fading in a little after the one before.
 */
module SocialButtons {
  import opened Wrappers
  import opened Text
  import opened SiteSettings
  import ContactPage

  /** A button: its label and where it leads. */
  datatype Link = Link(name: string, url: string)

  const MapsUrl: string := "https://maps.app.goo.gl/CUySEjNxqB8KPv8C7"
  const DefaultTikTok: string := "https://www.tiktok.com/@s.o.s.bombones"
  const DefaultInstagram: string := "https://www.instagram.com/s.o.s.bombones/"
  const DefaultFacebook: string := "https://www.facebook.com/S.O.S.BombonesRegaleDulzura?locale=es_LA"

  const Names: seq<string> := ["Ubicación", "TikTok", "WhatsApp", "Instagram", "Facebook"]

  /** The buttons for the given settings. */
  function Links(settings: map<string, string>): (r: seq<Link>)
    ensures |r| == 5
    ensures forall i :: 0 <= i < 5 ==> r[i].name == Names[i]
    ensures r[0].url == MapsUrl
    ensures r[1].url == Lookup(settings, "tiktok_url", DefaultTikTok)
    ensures r[2].url == "https://wa.me/" + Lookup(settings, "whatsapp_number", "5493876856022")
    ensures r[3].url == Lookup(settings, "instagram_url", DefaultInstagram)
    ensures r[4].url == Lookup(settings, "facebook_url", DefaultFacebook)
  {
    [ Link("Ubicación", MapsUrl),
      Link("TikTok", Lookup(settings, "tiktok_url", DefaultTikTok)),
      Link("WhatsApp", "https://wa.me/" + Lookup(settings, "whatsapp_number", "5493876856022")),
      Link("Instagram", Lookup(settings, "instagram_url", DefaultInstagram)),
      Link("Facebook", Lookup(settings, "facebook_url", DefaultFacebook)) ]
  }

  /** No setting moves the location button: its link is the same for any two settings. */
  lemma LocationIsFixed(a: map<string, string>, b: map<string, string>)
    ensures Links(a)[0] == Links(b)[0]
  {
  }

  /** Every button leads somewhere, whatever the settings hold. */
  lemma NoButtonIsBlank(settings: map<string, string>)
    ensures forall i :: 0 <= i < 5 ==> Links(settings)[i].url != []
  {
    LookupNonEmpty(settings, "tiktok_url", DefaultTikTok);
    LookupNonEmpty(settings, "instagram_url", DefaultInstagram);
    LookupNonEmpty(settings, "facebook_url", DefaultFacebook);
  }

  /** The WhatsApp button and the contact page's WhatsApp card lead to the same chat. */
  lemma WhatsAppAgreesWithContactPage(settings: map<string, string>)
    ensures Links(settings)[2].url == ContactPage.DetailsFor(settings).whatsAppHref
  {
  }

  /** The fade-in delays, in milliseconds: button `i` waits `i * 50`. */
  function Delays(count: nat): (r: seq<nat>)
    ensures |r| == count
    ensures count > 0 ==> r[0] == 0
    ensures forall i :: 0 < i < count ==> r[i] == r[i - 1] + 50
  {
    seq(count, i => i * 50)
  }
}
