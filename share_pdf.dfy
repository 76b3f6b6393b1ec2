/**
 * The pure part of handleShare in nomad/components/ShareItinerary.tsx: the
 * file name, the document header, and the body of "Day N" blocks whose
 * place items carry an icon chosen from the place name, the place name, its
 * opening hours and its Google Maps link.
 */
module SharePdf {
  import opened ItineraryPdf
  import opened JsText
  import opened Wrappers

  // ---------------------------------------------------------------------
  // Icons
  // ---------------------------------------------------------------------

  datatype Icon = Beach | Food | Shop | Pin

  /** The emoji an icon is written as. */
  function Glyph(icon: Icon): string {
    match icon
    case Beach => "\U{1F3D6}\U{FE0F}"
    case Food => "\U{1F374}"
    case Shop => "\U{1F6D2}"
    case Pin => "\U{1F4CD}"
  }

  /** ASCII lower-casing. For an all-lower-case ASCII keyword, a regular
      expression with the `i` flag matches a character exactly when this
      maps the character to the keyword's character. */
  function Lower(c: char): char {
    if 'A' <= c <= 'Z' then (c as int + 32) as char else c
  }

  function LowerAll(s: string): (r: string)
    ensures |r| == |s|
    ensures forall k :: 0 <= k < |s| ==> r[k] == Lower(s[k])
  {
    seq(|s|, k requires 0 <= k < |s| => Lower(s[k]))
  }

  /** `keyword` occurs in `name` at index i, ignoring case. */
  predicate MatchesAt(name: string, keyword: string, i: nat)
    requires i + |keyword| <= |name|
  {
    forall j :: 0 <= j < |keyword| ==> Lower(name[i + j]) == keyword[j]
  }

  /** `/keyword/i.test(name)`. */
  predicate Mentions(name: string, keyword: string) {
    exists i: nat :: i + |keyword| <= |name| && MatchesAt(name, keyword, i)
  }

  /** `/mercado|market|restaurant|food|boqueria/i.test(name)`. */
  predicate MentionsFood(name: string) {
    Mentions(name, "mercado") || Mentions(name, "market") || Mentions(name, "restaurant")
    || Mentions(name, "food") || Mentions(name, "boqueria")
  }

  /** The icon rule: the first of beach, food and "corte" the name mentions
      decides; a name mentioning none gets the pin. */
  function IconFor(name: string): Icon {
    if Mentions(name, "beach") then Beach
    else if MentionsFood(name) then Food
    else if Mentions(name, "corte") then Shop
    else Pin
  }

  /** Scans `name` from index i for `keyword`, ignoring case. */
  function SearchFrom(name: string, keyword: string, i: nat): bool
    decreases |name| - i
  {
    if i + |keyword| > |name| then false
    else MatchesAt(name, keyword, i) || SearchFrom(name, keyword, i + 1)
  }

  lemma {:induction false} SearchFromFinds(name: string, keyword: string, i: nat)
    ensures SearchFrom(name, keyword, i)
      <==> exists k: nat :: i <= k && k + |keyword| <= |name| && MatchesAt(name, keyword, k)
    decreases |name| - i
  {
    if i + |keyword| <= |name| {
      SearchFromFinds(name, keyword, i + 1);
      if !MatchesAt(name, keyword, i) {
        forall k: nat | i <= k && k + |keyword| <= |name| && MatchesAt(name, keyword, k)
          ensures i + 1 <= k
        {
        }
      }
    }
  }

  /** The scan finds the keyword exactly when the name mentions it. */
  lemma SearchAgreesWithMentions(name: string, keyword: string)
    ensures SearchFrom(name, keyword, 0) <==> Mentions(name, keyword)
  {
    SearchFromFinds(name, keyword, 0);
  }

  /** The icon of a place, chosen as the component does: start from the pin
      and overwrite it by the first keyword test that succeeds. */
  method PlaceIcon(name: string) returns (icon: string)
    ensures icon == Glyph(IconFor(name))
  {
    SearchAgreesWithMentions(name, "beach");
    SearchAgreesWithMentions(name, "mercado");
    SearchAgreesWithMentions(name, "market");
    SearchAgreesWithMentions(name, "restaurant");
    SearchAgreesWithMentions(name, "food");
    SearchAgreesWithMentions(name, "boqueria");
    SearchAgreesWithMentions(name, "corte");
    icon := Glyph(Pin);
    if SearchFrom(name, "beach", 0) {
      icon := Glyph(Beach);
    } else if SearchFrom(name, "mercado", 0) || SearchFrom(name, "market", 0)
      || SearchFrom(name, "restaurant", 0) || SearchFrom(name, "food", 0)
      || SearchFrom(name, "boqueria", 0)
    {
      icon := Glyph(Food);
    } else if SearchFrom(name, "corte", 0) {
      icon := Glyph(Shop);
    }
  }

  /** Case does not matter to the keyword tests. */
  lemma {:induction false} SearchIgnoresCase(name: string, keyword: string, i: nat)
    ensures SearchFrom(LowerAll(name), keyword, i) == SearchFrom(name, keyword, i)
    decreases |name| - i
  {
    if i + |keyword| <= |name| {
      var low := LowerAll(name);
      assert MatchesAt(low, keyword, i) == MatchesAt(name, keyword, i) by {
        forall k | i <= k < i + |keyword|
          ensures Lower(low[k]) == Lower(name[k])
        {
        }
      }
      SearchIgnoresCase(name, keyword, i + 1);
    }
  }

  lemma MentionsIgnoresCase(name: string, keyword: string)
    ensures Mentions(LowerAll(name), keyword) == Mentions(name, keyword)
  {
    SearchIgnoresCase(name, keyword, 0);
    SearchAgreesWithMentions(name, keyword);
    SearchAgreesWithMentions(LowerAll(name), keyword);
  }

  /** A place gets the same icon whatever the case of its name. */
  lemma IconIgnoresCase(name: string)
    ensures IconFor(LowerAll(name)) == IconFor(name)
  {
    MentionsIgnoresCase(name, "beach");
    MentionsIgnoresCase(name, "mercado");
    MentionsIgnoresCase(name, "market");
    MentionsIgnoresCase(name, "restaurant");
    MentionsIgnoresCase(name, "food");
    MentionsIgnoresCase(name, "boqueria");
    MentionsIgnoresCase(name, "corte");
  }

  /** A name in which a lower-case keyword occurs mentions it. */
  lemma MentionedWhereItOccurs(a: string, keyword: string, b: string)
    requires LowerAll(keyword) == keyword
    ensures Mentions(a + keyword + b, keyword)
  {
    var name := a + keyword + b;
    assert forall j :: 0 <= j < |keyword| ==> name[|a| + j] == keyword[j];
    assert forall j :: 0 <= j < |keyword| ==> Lower(keyword[j]) == LowerAll(keyword)[j];
    assert MatchesAt(name, keyword, |a|);
  }

  /** "beach" outranks every other keyword: a beach market gets the beach. */
  lemma BeachOutranksFood(a: string, b: string)
    ensures IconFor(a + "beach" + b) == Beach
  {
    MentionedWhereItOccurs(a, "beach", b);
  }

  // ---------------------------------------------------------------------
  // The document
  // ---------------------------------------------------------------------

  /** The list item of one place: its icon, name, opening hours and maps link. */
  datatype PlaceItem = PlaceItem(icon: string, name: string, hours: string, link: MapsLink)

  function Item(p: Place): PlaceItem {
    PlaceItem(Glyph(IconFor(p.name)), p.name, p.hours, LinkTo(p))
  }

  /** The page title, the header (city, then the number of days and of
      locations) and the body. */
  datatype Document = Document(title: string, city: string, days: int, locations: int,
                               body: seq<Element<PlaceItem>>)

  /** What handleShare hands to the printer: the file name and the document. */
  datatype Share = Share(fileName: string, document: Document)

  function HandleShare(city: string, days: int, locations: int, details: Option<seq<DayPlan>>): (r: Share)
    ensures NoWhitespace(r.fileName) && |r.fileName| >= |Suffix| && r.fileName[|r.fileName| - |Suffix|..] == Suffix
    ensures r.document.body == [] || r.document.body[0].DayHeading?
    ensures Headings(r.document.body) == |DetailsOrDefault(details)|
  {
    HeadingPerDay(DetailsOrDefault(details), Item);
    Share(FileName(city),
          Document(city + " Itinerary", city, days, locations, Body(DetailsOrDefault(details), Item)))
  }

  /** The header shows the city, days and locations exactly as given, whatever
      `details` holds: nothing in it is counted from the days. */
  lemma HeaderAsGiven(city: string, days: int, locations: int, d1: Option<seq<DayPlan>>, d2: Option<seq<DayPlan>>)
    ensures var doc := HandleShare(city, days, locations, d1).document;
      doc.title == city + " Itinerary" && doc.city == city
      && doc.days == days && doc.locations == locations
    ensures var (x, y) := (HandleShare(city, days, locations, d1).document,
                           HandleShare(city, days, locations, d2).document);
      x.title == y.title && x.city == y.city && x.days == y.days && x.locations == y.locations
  {
  }

  /** Without `details` the body holds no day at all. */
  lemma NoDetailsNoDays(city: string, days: int, locations: int)
    ensures HandleShare(city, days, locations, None).document.body == []
  {
  }

  /** The body has one "Day N" heading per entry of `details`, and reading it
      back gives those days in order, each with one item per place in order:
      the place's icon, its name, its hours and its maps link. */
  lemma DaysInOrder(city: string, days: int, locations: int, details: seq<DayPlan>)
    ensures var body := HandleShare(city, days, locations, Some(details)).document.body;
      (body == [] || body[0].DayHeading?)
      && Headings(body) == |details|
      && Sections(body) == Expected(details, Item)
    ensures var sections := Sections(HandleShare(city, days, locations, Some(details)).document.body);
      |sections| == |details|
      && forall i :: 0 <= i < |details| ==>
           sections[i].day == details[i].day
           && |sections[i].entries| == |details[i].places|
           && forall j :: 0 <= j < |details[i].places| ==>
                var p := details[i].places[j];
                sections[i].entries[j] == PlaceItem(Glyph(IconFor(p.name)), p.name, p.hours, MapsLink(p.name, p.lat, p.lng))
  {
    HeadingPerDay(details, Item);
    SectionsOfBody(details, Item);
  }
}
