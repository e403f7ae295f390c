/**
 * The site configuration of `data.js` that the hero scrubber reads: the two
 * hero slides and the WhatsApp contact number.
 */
module SiteData {
  import opened Opt
  import opened Variants
  import opened Catalog

  const PotMixture: Variant := Variant("pot-mixture", "POT MIXTURE", "frames/pot-mixture", 192, None)
  const Vermicompost: Variant :=
    Variant("vermicompost", "VERMICOMPOST", "frames/vermicompost", 192, Some("experience.html?id=vermicompost"))

  /** The hero slides, in page order. */
  const Slides: seq<Variant> := [PotMixture, Vermicompost]

  /** The contact number the enquiry links open a chat with. */
  const Phone: string := "919022166328"

  /** Both slides have frames, and the longest animation has 192 of them. */
  lemma SlidesWellFormed()
    ensures WellFormed(Slides) && MaxFrameCount(Slides) == 192
  {
    MaxFrameCountAttained(Slides);
  }

  /**
   * The `id` query parameter picks the slide with that id; the page starts on
   * the first slide without the parameter, with an empty one, or with an id
   * no slide has.
   */
  lemma StartFromQuery()
    ensures StartVariant(Slides, Some("vermicompost")) == 1
    ensures StartVariant(Slides, Some("pot-mixture")) == 0
    ensures StartVariant(Slides, Some("cow-dung-manure")) == 0
    ensures StartVariant(Slides, Some("")) == 0
    ensures StartVariant(Slides, None) == 0
  {
    assert Slides[0].id == "pot-mixture" && Slides[1].id == "vermicompost";
    assert "pot-mixture" != "vermicompost" && "pot-mixture" != "cow-dung-manure" && "vermicompost" != "cow-dung-manure";
  }

  /**
   * The "Enquire Now" link of the first product of the grid opens a chat with
   * the contact number, carrying the encoded greeting that names the product.
   */
  lemma VermicompostEnquiry(encode: string -> string)
    ensures EnquireLink(Phone, "Vermicompost (Gaandul Khat)", encode) ==
              "https://wa.me/919022166328?text=" + encode("Hey, I want to buy Vermicompost (Gaandul Khat)")
  {
    assert EnquiryGreeting + "Vermicompost (Gaandul Khat)" == "Hey, I want to buy Vermicompost (Gaandul Khat)";
    ChatPrefix();
  }

  lemma ChatPrefix()
    ensures WhatsAppBase + Phone + TextParameter == "https://wa.me/919022166328?text="
  {
  }
}
