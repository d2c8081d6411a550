/** Concrete listings and runs, checked against the model. */
module Scenarios {
  import opened Wrappers
  import opened Text
  import opened Markup
  import opened Veterinarians
  import opened Pagination

  function Star(): Element {
    Element("span", [])
  }

  /** A full listing: four star indicators and a "128 Bewertungen" caption. */
  function SampleListing(subtitle: Option<string>): Listing {
    Listing(Some("Dr. Muster"), subtitle, Some("Mo 9-18"), Some("Hauptstr. 1"),
            Some(Element("div", [Star(), Star(), Star(), Star()])),
            Some("128 Bewertungen"))
  }

  /** The caption's first word becomes the review count, the four
      indicators the rating; a missing subtitle leaves only the clinic
      empty. */
  lemma SampleListingParses()
    ensures ParseListing(SampleListing(None))
      == Success(Veterinarian("Dr. Muster", None, "Mo 9-18", "Hauptstr. 1", 4, "128"))
    ensures ParseListing(SampleListing(Some("Praxis"))).value.clinic == Some("Praxis")
  {
    var note := "128 Bewertungen";
    assert TokenLength(note[3..]) == 0;
    assert TokenLength(note) == 3;
    assert note[..3] == "128";
    var stars := [Star(), Star(), Star(), Star()];
    assert FindAllIn("span", stars[3..][1..]) == [];
    assert |FindAllIn("span", stars)| == 4;
  }

  /** Indicators nested inside other elements are counted too. */
  lemma NestedIndicatorsCount()
    ensures |FindAll(RatingIndicator, Element("div", [Star(), Element("i", [Star()])]))| == 2
  {
    var inner := [Star()];
    assert FindAllIn("span", inner) == [Star()] by {
      assert inner[1..] == [];
    }
    var outer := [Star(), Element("i", inner)];
    assert outer[1..][1..] == [];
  }

  /** A listing without a title aborts extraction of its whole page. */
  lemma MissingTitleFailsPage(l: Listing)
    ensures ExtractPage(Page([SampleListing(None), SampleListing(None).(title := None), l]))
      == Failure(MissingTitle)
  {
    var ls := [SampleListing(None), SampleListing(None).(title := None), l];
    assert ls[1..][0] == SampleListing(None).(title := None);
  }

  /** Two pages holding three and two records give five records, those of
      the first page first. */
  lemma TwoPageRun(url: string, render: Renderer, a: seq<Veterinarian>, b: seq<Veterinarian>)
    requires PageResult(url, render, ExtractPage, 1) == Success(a) && |a| == 3
    requires PageResult(url, render, ExtractPage, 2) == Success(b) && |b| == 2
    ensures RunPages(url, render, ExtractPage, 2).result == Success(a + b)
    ensures |RunPages(url, render, ExtractPage, 2).result.value| == 5
  {
    assert RunPages(url, render, ExtractPage, 1).result == Success([] + a);
    assert [] + a == a;
  }
}
