/** Concrete instances of the properties proved in the other modules, on
    values taken from the dataset's conventions. */
module Examples {
  import opened Results
  import opened PostalCode
  import opened Tariff
  import opened Geolocalisation

  lemma SpacedCodes()
    ensures StripSpaces("29 200") == "29200"
    ensures StripSpaces("75 001") == "75001"
  {
  }

  lemma Decimal29200()
    ensures ToDecimal(29200) == "29200"
  {
  }

  lemma Decimal75001()
    ensures ToDecimal(75001) == "75001"
  {
  }

  lemma Decimal30000()
    ensures ToDecimal(30000) == "30000"
  {
  }

  lemma Decimal29999()
    ensures ToDecimal(29999) == "29999"
  {
  }

  /** `"29 200"` reads as 29200, and `"75 001"` as 75001: the zeros after the space are kept. */
  lemma NormalizeSpacedExamples()
    ensures Normalize("29 200") == Success(29200)
    ensures Normalize("75 001") == Success(75001)
  {
    SpacedCodes();
    Decimal29200();
    Decimal75001();
    NormalizeSpaced("29 200", 29200);
    NormalizeSpaced("75 001", 75001);
  }

  /** The underscore adds no digit to the value. */
  lemma UnderscoreSkipped()
    ensures DigitsValue("29_200") == 29200
  {
    assert "29_200"[..5] == "29_20";
    assert "29_20"[..4] == "29_2";
    assert "29_2"[..3] == "29_";
    assert "29_"[..2] == "29";
    assert "29"[..1] == "2";
    assert "2"[..0] == "";
  }

  /** `int()` accepts single underscores between digits: `"29_200"` reads as 29200. */
  lemma UnderscoreLiteral()
    ensures IsDigitRun("29_200")
  {
  }

  lemma NormalizeUnderscoreExample()
    ensures Normalize("29_200") == Success(29200)
  {
    StripSpacesNoSpace("29_200");
    UnderscoreLiteral();
    UnderscoreSkipped();
  }

  /** Two underscores in a row are refused. */
  lemma NormalizeDoubleUnderscore()
    ensures Normalize("29__200").Failure?
  {
    StripSpacesNoSpace("29__200");
    assert "29__200"[2] == '_' && !IsDigit("29__200"[3]);
  }

  /** A trailing underscore is refused. */
  lemma NormalizeTrailingUnderscore()
    ensures Normalize("29200_").Failure?
  {
    StripSpacesNoSpace("29200_");
    assert "29200_"[5] == '_';
  }

  /** Categories are compared exactly: "Libre participation", the empty
      category and a differently capitalised "gratuit" all go to the
      "Libre participation" layer with a black icon. */
  lemma TariffExamples()
    ensures DestinationOf("Libre participation") == LibreParticipationLayer
    ensures DestinationOf("") == LibreParticipationLayer
    ensures DestinationOf("gratuit") == LibreParticipationLayer
    ensures IconColour("gratuit") == Black
    ensures IconColour("Tarifs non communiqués") == Blue
  {
    assert "gratuit"[0] != Gratuit[0];
  }

  /** The range is half-open: 29000 and 29999 are kept, 28999 and 30000 are not. */
  lemma RangeBoundaries()
    ensures InRange(29000) && InRange(29999)
    ensures !InRange(28999) && !InRange(30000)
  {
  }

  lemma UpperBoundaryCode()
    ensures Normalize("30000") == Success(30000)
  {
    StripSpacesNoSpace("30000");
    Decimal30000();
    ParseIntToDecimal(30000);
  }

  lemma LastKeptCode()
    ensures Normalize("29999") == Success(29999)
  {
    StripSpacesNoSpace("29999");
    Decimal29999();
    ParseIntToDecimal(29999);
  }

  /** Three records: a free museum, a paid site and a pay-what-you-wish chapel. */
  function ScenarioRows(museum: string, site: string, chapel: string): seq<Row> {
    [ Row(museum, 48.1, -4.1, "Musee", Gratuit),
      Row(site, 48.3, -4.3, "Site payant", Payant),
      Row(chapel, 48.5, -4.5, "Chapelle", "Libre participation") ]
  }

  /** With the museum at 29200, the site at 30000 (just outside the range)
      and the chapel at 29999, the museum and the chapel are kept. */
  lemma ScenarioKept(museum: string, site: string, chapel: string)
    requires Normalize(museum) == Success(29200)
    requires Normalize(site) == Success(30000)
    requires Normalize(chapel) == Success(29999)
    ensures CodesParse(ScenarioRows(museum, site, chapel), 3)
    ensures KeptIndices(ScenarioRows(museum, site, chapel), 3) == [0, 2]
  {
    var rows := ScenarioRows(museum, site, chapel);
    assert CodesParse(rows, 3);
    assert KeptIndices(rows, 1) == [0];
    assert KeptIndices(rows, 2) == [0];
  }

  /** Sums and groups over the museum and the chapel. */
  lemma ScenarioGroups(rows: seq<Row>)
    requires |rows| == 3
    requires rows[0] == Row(rows[0].postalCode, 48.1, -4.1, "Musee", Gratuit)
    requires rows[2] == Row(rows[2].postalCode, 48.5, -4.5, "Chapelle", "Libre participation")
    ensures Sum(rows, [0, 2], Latitude) == 96.6
    ensures Sum(rows, [0, 2], Longitude) == -8.6
    ensures Grouped(rows, [0, 2]) == Groups(
      [Marker(48.1, -4.1, Red, "Musee", 0)], [], [],
      [Marker(48.5, -4.5, Black, "Chapelle", 2)])
  {
    var idx: seq<nat> := [0, 2];
    var first: seq<nat> := [0];
    assert idx[..1] == first && first[..0] == [];
    assert DestinationOf("Libre participation") == LibreParticipationLayer;
    assert Sum(rows, first, Latitude) == 48.1;
    assert Sum(rows, first, Longitude) == -4.1;
    assert Grouped(rows, first) == Groups([MarkerFor(rows, 0)], [], [], []);
  }

  /** The centre is the mean of the two kept records, and each lands in the
      group of its category. */
  lemma ScenarioOutcome(museum: string, site: string, chapel: string)
    requires Normalize(museum) == Success(29200)
    requires Normalize(site) == Success(30000)
    requires Normalize(chapel) == Success(29999)
    ensures CodesParse(ScenarioRows(museum, site, chapel), 3)
    ensures Expected(ScenarioRows(museum, site, chapel)) == Success(MapView(48.3, -4.3, Groups(
      [Marker(48.1, -4.1, Red, "Musee", 0)], [], [],
      [Marker(48.5, -4.5, Black, "Chapelle", 2)])))
  {
    ScenarioKept(museum, site, chapel);
    ScenarioGroups(ScenarioRows(museum, site, chapel));
  }

  /** The scenario with the codes as the dataset writes them: "29 200",
      "30000" and "29999". */
  lemma ScenarioWithDatasetCodes()
    ensures CodesParse(ScenarioRows("29 200", "30000", "29999"), 3)
    ensures Expected(ScenarioRows("29 200", "30000", "29999")) == Success(MapView(48.3, -4.3, Groups(
      [Marker(48.1, -4.1, Red, "Musee", 0)], [], [],
      [Marker(48.5, -4.5, Black, "Chapelle", 2)])))
  {
    NormalizeSpacedExamples();
    UpperBoundaryCode();
    LastKeptCode();
    ScenarioOutcome("29 200", "30000", "29999");
  }
}
