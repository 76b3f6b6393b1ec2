/**
 * The pure part of handleShare in the earlier component,
 * nomad/app/components/ShareItinerary.tsx: the same file name and the same
 * "Day N" blocks, but each place item holds only the place name, its opening
 * hours and its Google Maps link (no icon), and the page has no title.
 */
module SharePdfLegacy {
  import opened ItineraryPdf
  import opened JsText
  import opened Wrappers

  /** The list item of one place: its name, opening hours and maps link. */
  datatype PlaceItem = PlaceItem(name: string, hours: string, link: MapsLink)

  function Item(p: Place): PlaceItem {
    PlaceItem(p.name, p.hours, LinkTo(p))
  }

  /** The header (city, then the meta line with the number of days and of
      locations) and the body. */
  datatype Document = Document(city: string, days: int, locations: int, body: seq<Element<PlaceItem>>)

  /** What handleShare hands to the printer: the file name and the document. */
  datatype Share = Share(fileName: string, document: Document)

  function HandleShare(city: string, days: int, locations: int, details: Option<seq<DayPlan>>): (r: Share)
    ensures NoWhitespace(r.fileName) && |r.fileName| >= |Suffix| && r.fileName[|r.fileName| - |Suffix|..] == Suffix
    ensures r.document.body == [] || r.document.body[0].DayHeading?
    ensures Headings(r.document.body) == |DetailsOrDefault(details)|
  {
    HeadingPerDay(DetailsOrDefault(details), Item);
    Share(FileName(city), Document(city, days, locations, Body(DetailsOrDefault(details), Item)))
  }

  /** The meta line shows days and locations exactly as given, whatever
      `details` holds. */
  lemma MetaAsGiven(city: string, days: int, locations: int, d1: Option<seq<DayPlan>>, d2: Option<seq<DayPlan>>)
    ensures var doc := HandleShare(city, days, locations, d1).document;
      doc.city == city && doc.days == days && doc.locations == locations
    ensures var (x, y) := (HandleShare(city, days, locations, d1).document,
                           HandleShare(city, days, locations, d2).document);
      x.city == y.city && x.days == y.days && x.locations == y.locations
  {
  }

  /** Without `details` the body holds no day at all. */
  lemma NoDetailsNoDays(city: string, days: int, locations: int)
    ensures HandleShare(city, days, locations, None).document.body == []
  {
  }

  /** One "Day N" heading per entry of `details`; reading the body back gives
      those days in order, each with one item per place in order, and every
      item links to its own place by name and coordinates. */
  lemma DaysInOrder(city: string, days: int, locations: int, details: seq<DayPlan>)
    ensures var body := HandleShare(city, days, locations, Some(details)).document.body;
      (body == [] || body[0].DayHeading?)
      && Headings(body) == |details|
      && Sections(body) == Expected(details, Item)
    ensures var sections := Sections(HandleShare(city, days, locations, Some(details)).document.body);
      |sections| == |details|
      && forall i :: 0 <= i < |details| ==>
           sections[i].day == details[i].day
           && |sections[i].entries| == |details[i].places|
           && forall j :: 0 <= j < |details[i].places| ==>
                var p := details[i].places[j];
                sections[i].entries[j] == PlaceItem(p.name, p.hours, MapsLink(p.name, p.lat, p.lng))
  {
    HeadingPerDay(details, Item);
    SectionsOfBody(details, Item);
  }
}
