/**
 * What both ShareItinerary components (nomad/components/ShareItinerary.tsx and
 * the earlier nomad/app/components/ShareItinerary.tsx) have in common: the
 * itinerary they are given, the name of the PDF file, and the layout of the
 * body as a run of "Day N" headings, each followed by the entries of that
 * day's places.
 */
module ItineraryPdf {
  import opened JsText
  import opened Wrappers

  /** One place of a day, as the components receive it. */
  datatype Place = Place(name: string, hours: string, lat: real, lng: real)

  /** One entry of `details`: a day number and its places in visiting order. */
  datatype DayPlan = DayPlan(day: int, places: seq<Place>)

  /** The Google Maps link of a place: the query is the place name and the
      coordinates follow it after "+@". */
  datatype MapsLink = MapsLink(query: string, lat: real, lng: real)

  function LinkTo(p: Place): MapsLink {
    MapsLink(p.name, p.lat, p.lng)
  }

  /** `details` is optional and defaults to no days. */
  function DetailsOrDefault(details: Option<seq<DayPlan>>): seq<DayPlan> {
    match details
    case None => []
    case Some(ds) => ds
  }

  // ---------------------------------------------------------------------
  // The file name
  // ---------------------------------------------------------------------

  const Suffix := "_itinerary.pdf"

  /** `s.replace(/\s+/g, "_")`, read left to right: a white-space character
      that starts a run becomes '_', one that continues a run (`inRun`)
      disappears, and every other character is kept. */
  function Collapse(s: string, inRun: bool): (r: string)
    ensures |r| <= |s|
  {
    if s == "" then ""
    else if IsWhitespace(s[0]) then (if inRun then "" else "_") + Collapse(s[1..], true)
    else [s[0]] + Collapse(s[1..], false)
  }

  function CollapseWhitespace(s: string): string {
    Collapse(s, false)
  }

  /** Whether the scan is inside a run after reading `s`. */
  function EndsInRun(s: string, inRun: bool): bool {
    if s == "" then inRun else IsWhitespace(s[|s| - 1])
  }

  /** The name the PDF is saved under, built from the city name. */
  function FileName(city: string): (r: string)
    ensures |r| >= |Suffix| && r[|r| - |Suffix|..] == Suffix
    ensures NoWhitespace(r)
  {
    CollapsedHasNoWhitespace(city, false);
    assert NoWhitespace(Suffix);
    NoWhitespaceConcat(CollapseWhitespace(city), Suffix);
    CollapseWhitespace(city) + Suffix
  }

  /** What collapsing leaves holds no white space. */
  lemma {:induction false} CollapsedHasNoWhitespace(s: string, inRun: bool)
    ensures NoWhitespace(Collapse(s, inRun))
  {
    if s != "" {
      var ws := IsWhitespace(s[0]);
      CollapsedHasNoWhitespace(s[1..], ws);
      var head := if !ws then [s[0]] else if inRun then "" else "_";
      NoWhitespaceConcat(head, Collapse(s[1..], ws));
    }
  }

  /** Collapsing a concatenation collapses the first part, then the second
      part as the scan left off after the first. */
  lemma {:induction false} CollapseConcat(a: string, b: string, inRun: bool)
    ensures Collapse(a + b, inRun) == Collapse(a, inRun) + Collapse(b, EndsInRun(a, inRun))
  {
    if a == "" {
      assert a + b == b;
    } else {
      assert (a + b)[0] == a[0] && (a + b)[1..] == a[1..] + b;
      var ws := IsWhitespace(a[0]);
      CollapseConcat(a[1..], b, ws);
      assert EndsInRun(a[1..], ws) == EndsInRun(a, inRun);
      var head := if !ws then [a[0]] else if inRun then "" else "_";
      Assoc(head, Collapse(a[1..], ws), Collapse(b, EndsInRun(a, inRun)));
    }
  }

  /** Text that does not start with white space collapses the same whether or
      not a run came before it. */
  lemma CollapseAfterAnything(b: string)
    requires b == "" || !IsWhitespace(b[0])
    ensures Collapse(b, true) == Collapse(b, false)
  {
  }

  /** A run of white space, however long, becomes a single '_'. */
  lemma CollapseRun(w: string)
    requires w != "" && AllWhitespace(w)
    ensures CollapseWhitespace(w) == "_"
  {
    RunVanishes(w[1..]);
  }

  lemma {:induction false} RunVanishes(w: string)
    requires AllWhitespace(w)
    ensures Collapse(w, true) == ""
  {
    if w != "" {
      RunVanishes(w[1..]);
    }
  }

  /** A character that is not white space is kept as it is. */
  lemma CollapseKeeps(c: char)
    requires !IsWhitespace(c)
    ensures CollapseWhitespace([c]) == [c]
  {
  }

  /** Where the two halves do not both have white space at the seam, the
      halves are collapsed independently: no run is split by the cut. */
  lemma CollapseSplits(a: string, b: string)
    requires a == "" || b == "" || !IsWhitespace(a[|a| - 1]) || !IsWhitespace(b[0])
    ensures CollapseWhitespace(a + b) == CollapseWhitespace(a) + CollapseWhitespace(b)
  {
    CollapseConcat(a, b, false);
    if b != "" && !IsWhitespace(b[0]) {
      CollapseAfterAnything(b);
    }
  }

  /** Collapsing changes a string exactly when it holds white space. */
  lemma {:induction false} CollapseFixesExactly(s: string)
    ensures CollapseWhitespace(s) == s <==> NoWhitespace(s)
  {
    CollapsedHasNoWhitespace(s, false);
    if s != "" && NoWhitespace(s) {
      CollapseFixesExactly(s[1..]);
      assert [s[0]] + s[1..] == s;
    }
  }

  /** Collapsing twice is collapsing once. */
  lemma CollapseIdempotent(s: string)
    ensures CollapseWhitespace(CollapseWhitespace(s)) == CollapseWhitespace(s)
  {
    CollapsedHasNoWhitespace(s, false);
    CollapseFixesExactly(CollapseWhitespace(s));
  }

  /** A city name without white space is used as it is. */
  lemma FileNameOfPlainCity(city: string)
    requires NoWhitespace(city)
    ensures FileName(city) == city + Suffix
  {
    CollapseFixesExactly(city);
  }

  /** A maximal run of white space between two parts of a string turns into
      one '_' between the parts' own collapsed forms. */
  lemma CollapseAroundRun(a: string, w: string, b: string)
    requires w != "" && AllWhitespace(w)
    requires a == "" || !IsWhitespace(a[|a| - 1])
    requires b == "" || !IsWhitespace(b[0])
    ensures CollapseWhitespace(a + w + b) == CollapseWhitespace(a) + ("_" + CollapseWhitespace(b))
  {
    CollapseRun(w);
    CollapseSplits(w, b);
    CollapseSplits(a, w + b);
    Assoc(a, w, b);
  }

  /** In the file name, a maximal run of white space in the city name becomes
      one '_' between the file-name forms of the parts around it. */
  lemma FileNameSplitsAtRun(a: string, w: string, b: string)
    requires w != "" && AllWhitespace(w)
    requires a == "" || !IsWhitespace(a[|a| - 1])
    requires b == "" || !IsWhitespace(b[0])
    ensures FileName(a + w + b) == CollapseWhitespace(a) + "_" + CollapseWhitespace(b) + Suffix
  {
    CollapseAroundRun(a, w, b);
    Regroup(CollapseWhitespace(a), "_", CollapseWhitespace(b), Suffix);
  }

  lemma Assoc<T>(x: seq<T>, y: seq<T>, z: seq<T>)
    ensures x + (y + z) == x + y + z
  {
  }

  lemma Regroup<T>(x: seq<T>, y: seq<T>, z: seq<T>, u: seq<T>)
    ensures x + (y + z) + u == x + y + z + u
  {
  }

  // ---------------------------------------------------------------------
  // The body: one heading per day, then that day's entries
  // ---------------------------------------------------------------------

  /** One element of the body in document order: a "Day N" heading, or the
      list item a component renders for a place. */
  datatype Element<E> = DayHeading(day: int) | Entry(entry: E)

  /** What a component renders for each place, in input order. */
  function Rendered<E>(places: seq<Place>, render: Place -> E): (r: seq<E>)
    ensures |r| == |places|
    ensures forall j :: 0 <= j < |r| ==> r[j] == render(places[j])
  {
    seq(|places|, j requires 0 <= j < |places| => render(places[j]))
  }

  /** The list items of a day's places, in input order. */
  function Entries<E>(places: seq<Place>, render: Place -> E): (r: seq<Element<E>>)
    ensures |r| == |places|
    ensures forall j :: 0 <= j < |r| ==> r[j] == Entry(render(places[j]))
  {
    seq(|places|, j requires 0 <= j < |places| => Entry(render(places[j])))
  }

  /** `details.map(day => heading + places.map(...).join("")).join("")`. */
  function Body<E>(details: seq<DayPlan>, render: Place -> E): (r: seq<Element<E>>)
    ensures r == [] <==> details == []
    ensures r != [] ==> r[0] == DayHeading(details[0].day)
  {
    if details == [] then []
    else [DayHeading(details[0].day)] + Entries(details[0].places, render)
         + Body(details[1..], render)
  }

  /** A day as a reader of the document finds it: a heading and the items
      under it. */
  datatype Section<E> = Section(day: int, entries: seq<E>)

  /** The entries at the front of `body`, up to the next heading, and what
      follows them. */
  function TakeEntries<E>(body: seq<Element<E>>): (r: (seq<E>, seq<Element<E>>))
    ensures |r.1| <= |body|
  {
    if body == [] || body[0].DayHeading? then ([], body)
    else
      var (more, rest) := TakeEntries(body[1..]);
      ([body[0].entry] + more, rest)
  }

  /** Reads a body back into its sections; items before the first heading
      belong to no day and are passed over. */
  function Sections<E>(body: seq<Element<E>>): seq<Section<E>>
    decreases |body|
  {
    if body == [] then []
    else if body[0].Entry? then Sections(body[1..])
    else
      var (entries, rest) := TakeEntries(body[1..]);
      [Section(body[0].day, entries)] + Sections(rest)
  }

  /** The sections a list of days should produce: one per day, in order,
      each with one item per place, in order. */
  function Expected<E>(details: seq<DayPlan>, render: Place -> E): (r: seq<Section<E>>)
    ensures |r| == |details|
  {
    seq(|details|, i requires 0 <= i < |details| =>
      Section(details[i].day, Rendered(details[i].places, render)))
  }

  lemma {:induction false} TakeEntriesOf<E>(places: seq<Place>, render: Place -> E, rest: seq<Element<E>>)
    requires rest == [] || rest[0].DayHeading?
    ensures TakeEntries(Entries(places, render) + rest)
      == (Rendered(places, render), rest)
  {
    var all := Entries(places, render) + rest;
    if places == [] {
      assert all == rest;
    } else {
      assert all[0] == Entry(render(places[0]));
      assert all[1..] == Entries(places[1..], render) + rest;
      TakeEntriesOf(places[1..], render, rest);
      assert Rendered(places, render) == [render(places[0])] + Rendered(places[1..], render);
    }
  }

  /** Reading the body back gives exactly one section per entry of
      `details`, in order, holding that day's places in order. */
  lemma {:induction false} SectionsOfBody<E>(details: seq<DayPlan>, render: Place -> E)
    ensures Body(details, render) == [] || Body(details, render)[0].DayHeading?
    ensures Sections(Body(details, render)) == Expected(details, render)
  {
    if details != [] {
      var d := details[0];
      var tail := Body(details[1..], render);
      var body := Body(details, render);
      assert body[1..] == Entries(d.places, render) + tail;
      assert tail == [] || tail[0].DayHeading?;
      TakeEntriesOf(d.places, render, tail);
      SectionsOfBody(details[1..], render);
      assert body[0] == DayHeading(d.day);
      var front := Rendered(d.places, render);
      assert TakeEntries(body[1..]) == (front, tail);
      assert Sections(body) == [Section(d.day, front)] + Sections(tail);
      var e := Expected(details, render);
      assert e[0] == Section(d.day, Rendered(d.places, render));
      assert forall i :: 0 <= i < |details| - 1 ==> Expected(details[1..], render)[i] == e[i + 1];
      assert e == [e[0]] + Expected(details[1..], render);
    }
  }

  /** The body holds one heading per day. */
  function Headings<E>(body: seq<Element<E>>): nat {
    if body == [] then 0
    else (if body[0].DayHeading? then 1 else 0) + Headings(body[1..])
  }

  lemma {:induction false} HeadingsOfEntries<E>(places: seq<Place>, render: Place -> E, rest: seq<Element<E>>)
    ensures Headings(Entries(places, render) + rest) == Headings(rest)
  {
    if places != [] {
      assert (Entries(places, render) + rest)[1..] == Entries(places[1..], render) + rest;
      HeadingsOfEntries(places[1..], render, rest);
    } else {
      assert Entries(places, render) + rest == rest;
    }
  }

  lemma {:induction false} HeadingPerDay<E>(details: seq<DayPlan>, render: Place -> E)
    ensures Headings(Body(details, render)) == |details|
  {
    if details != [] {
      var body := Body(details, render);
      assert body[1..] == Entries(details[0].places, render) + Body(details[1..], render);
      HeadingsOfEntries(details[0].places, render, Body(details[1..], render));
      HeadingPerDay(details[1..], render);
    }
  }
}
