/** `router()`: the location hash `#/<route>/<slug>` picks a page; detail pages look their record
    up in the dataset and fall back to a not-found view when there is none. The page markup is
    not modelled: a `Page` records which view is shown and the data it shows. */
module Router {
  import opened Wrappers
  import opened Seqs
  import opened Strings
  import opened Data
  import opened Labels
  import opened Listing
  import opened Slug
  import opened Breadcrumbs

  /** The not-found views: `renderNotFound()` for an unknown route, the plain `notFound()` of the
      stay and area pages, and the dedicated views of the other detail pages. */
  datatype NotFoundKind =
    | UnknownRoute
    | Generic
    | ThingsCategory
    | ItineraryMissing
    | DiningMissing
    | TransportMissing

  datatype Page =
    | Home(itineraries: seq<Itinerary>)
    | Plan
    | About
    | Faqs(items: seq<Faq>)
    | Contact
    | ThingsIndex(featured: seq<string>, more: seq<OtherActivity>)
    | Beaches
    | MerritonDistrict
    | AreaMerriton
    | ActivityFromData(activity: Activity)
    | ActivityPlaceholder
    | ActivityTopic(title: string)
    | StayList(stays: ListView<Stay>)
    | StayDetail(stay: Stay, trail: seq<Item>)
    | DiningList(venues: ListView<Venue>)
    | DiningDetail(venue: Venue, title: string, cuisineLabels: seq<string>, dietLabels: seq<string>)
    | TransportIndex
    | TransportDetail(title: string)
    | ItineraryIndex(itineraries: seq<Itinerary>)
    | ItineraryDetail(itinerary: Itinerary, title: string)
    | NotFound(kind: NotFoundKind)

  /** The cases of the `switch` in `router()`. */
  const Routes: set<string> :=
    {"home", "plan", "things", "stay", "dining", "transport", "about", "faqs", "contact",
     "itinerary", "activity", "area"}

  /** `parts[1]` and `parts[2]` of the split hash; `None` is `undefined`. */
  datatype Request = Request(route: Option<string>, slug: Option<string>)

  /** `location.hash || '#/home'` */
  function EffectiveHash(hash: string): (h: string)
    ensures h != ""
    ensures hash != "" ==> h == hash
  {
    if hash == "" then "#/home" else hash
  }

  /** `parts[i]`: `undefined` past the end. */
  function Component(parts: seq<string>, i: nat): (r: Option<string>)
    ensures r.Some? <==> i < |parts|
    ensures r.Some? ==> r.value == parts[i]
  {
    if i < |parts| then Some(parts[i]) else None
  }

  /** The route and slug of a hash: the second and third pieces of its split on `/`. */
  function ParseHash(hash: string): (req: Request)
    ensures req.route.Some? ==> '/' !in req.route.value
    ensures req.slug.Some? ==> '/' !in req.slug.value && req.route.Some?
  {
    var parts := Split(EffectiveHash(hash), '/');
    Request(Component(parts, 1), Component(parts, 2))
  }

  /** `slug ? … : …`: an empty slug counts as no slug. */
  function Truthy(slug: Option<string>): (r: Option<string>)
    ensures r.Some? <==> slug.Some? && slug.value != ""
    ensures r.Some? ==> r == slug
  {
    if slug.Some? && slug.value != "" then slug else None
  }

  // ------------------------------------------------------------------ things and activities

  /** The featured activities of the Things to Do index, in this order when present. */
  const FeaturedOrder: seq<string> := ["volcano", "rainforest", "museum"]

  /** `Pages.things(slug)`; `None` is a missing slug, and the empty slug is falsy too. */
  function ThingsPage(data: Dataset, slug: Option<string>): (p: Page)
    ensures p != NotFound(UnknownRoute)
    ensures slug == Some("activity") ==> p == ActivityIndex(data)
    ensures p.ThingsIndex? <==> slug.None? || slug == Some("")
    ensures p.ThingsIndex? ==> IsSubsequence(p.featured, FeaturedOrder)
    ensures p.ThingsIndex? ==> forall k :: k in p.featured <==> k in FeaturedOrder && k in data.activities
    ensures p.ThingsIndex? ==> p.more == data.otherActivities
    ensures slug == Some("beaches") ==> p == Beaches
    ensures slug == Some("merriton") || slug == Some("merriton-landing") ==> p == MerritonDistrict
    ensures p == NotFound(ThingsCategory) <==>
      slug.Some? && slug.value !in {"", "activity", "beaches", "merriton", "merriton-landing"}
  {
    if slug == Some("activity") then ActivityIndex(data)
    else if slug.None? || slug.value == "" then
      ThingsIndex(Filter(k => k in data.activities, FeaturedOrder), data.otherActivities)
    else if slug.value == "beaches" then Beaches
    else if slug.value == "merriton" || slug.value == "merriton-landing" then MerritonDistrict
    else NotFound(ThingsCategory)
  }

  /** `originalActivity()`: the first `Pages.activity`, called without a slug, so it looks up
      the key `"undefined"`. */
  function ActivityIndex(data: Dataset): (p: Page)
    ensures p == ActivityPlaceholder <==> "undefined" !in data.activities
    ensures p.ActivityFromData? ==> p.activity == data.activities["undefined"]
    ensures p.ActivityFromData? || p == ActivityPlaceholder
  {
    if "undefined" in data.activities then ActivityFromData(data.activities["undefined"])
    else ActivityPlaceholder
  }

  /** `Pages.activity(slug)`: every non-empty slug gets a page titled after it; a missing or
      empty slug shows the original activity index. */
  function ActivityPage(data: Dataset, slug: Option<string>): (p: Page)
    ensures p != NotFound(UnknownRoute)
    ensures slug.None? || slug == Some("") ==> p == ActivityIndex(data)
    ensures slug.Some? && slug.value != "" ==> p.ActivityTopic? && p.title != "" && IsTitle(p.title)
    ensures slug.Some? && slug.value != "" ==> p == ActivityTopic(ActivityTitle(slug.value))
    ensures slug.Some? && HumanizeSlug(slug.value) != "" ==> p == ActivityTopic(HumanizeSlug(slug.value))
    ensures slug.Some? && slug.value != "" && HumanizeSlug(slug.value) == "" ==> p == ActivityTopic("Activity")
  {
    if slug.None? || slug.value == "" then ActivityIndex(data) else ActivityTopic(ActivityTitle(slug.value))
  }

  /** `Pages.area(slug)` */
  function AreaPage(slug: Option<string>): (p: Page)
    ensures p == AreaMerriton <==> slug == Some("merriton")
    ensures p != AreaMerriton ==> p == NotFound(Generic)
  {
    if slug == Some("merriton") then AreaMerriton else NotFound(Generic)
  }

  // ------------------------------------------------------------------ FAQs

  /** One FAQ entry as shown: `f.q || 'Question'` and `f.a || 'Answer'`. */
  function FaqShown(f: Faq): Faq {
    Faq(if f.q != "" then f.q else "Question", if f.a != "" then f.a else "Answer")
  }

  /** The entries of `Pages.faqs()`, one per FAQ of the dataset, in order. */
  function FaqItems(faqs: seq<Faq>): (items: seq<Faq>)
    ensures |items| == |faqs|
    ensures forall i :: 0 <= i < |items| ==> items[i].q != "" && items[i].a != ""
    ensures forall i :: 0 <= i < |items| ==> (faqs[i].q != "" ==> items[i].q == faqs[i].q)
    ensures forall i :: 0 <= i < |items| ==> (faqs[i].a != "" ==> items[i].a == faqs[i].a)
    ensures forall i :: 0 <= i < |items| ==> (faqs[i].q == "" ==> items[i].q == "Question")
    ensures forall i :: 0 <= i < |items| ==> (faqs[i].a == "" ==> items[i].a == "Answer")
  {
    seq(|faqs|, i requires 0 <= i < |faqs| => FaqShown(faqs[i]))
  }

  // ------------------------------------------------------------------ detail pages

  /** `s.id === id`: only a string id equal to the slug matches. */
  function StayHasId(slug: string): Stay -> bool {
    (s: Stay) => s.id == StrId(slug)
  }

  /** `Pages.stayDetail(id)`: the first stay whose id is the slug, or `notFound()`. The trail is
      the one the source builds, with the name escaped twice. */
  function StayDetailPage(data: Dataset, slug: string): (p: Page)
    ensures p.StayDetail? || p == NotFound(Generic)
    ensures p == NotFound(Generic) <==> forall s :: s in data.stays ==> s.id != StrId(slug)
    ensures p.StayDetail? ==> p.stay.id == StrId(slug)
    ensures p.StayDetail? ==> exists i :: (0 <= i < |data.stays| && data.stays[i] == p.stay &&
      forall j :: 0 <= j < i ==> data.stays[j].id != StrId(slug))
    ensures p.StayDetail? ==> p.trail == Crumbs(StayDetailTrailAsWritten(p.stay.name))
  {
    match FindFirst(StayHasId(slug), data.stays)
    case None => NotFound(Generic)
    case Some(i) => StayDetail(data.stays[i], Crumbs(StayDetailTrailAsWritten(data.stays[i].name)))
  }

  /** `String(x.id) === String(slug)` */
  function ItineraryHasId(slug: string): Itinerary -> bool {
    (it: Itinerary) => IdText(it.id) == slug
  }

  /** `Pages.itinerary(slug)` with a slug: the first itinerary whose id reads as the slug. */
  function ItineraryDetailPage(data: Dataset, slug: string): (p: Page)
    ensures p.ItineraryDetail? || p == NotFound(ItineraryMissing)
    ensures p == NotFound(ItineraryMissing) <==>
      forall it :: it in data.itineraries ==> IdText(it.id) != slug
    ensures p.ItineraryDetail? ==> IdText(p.itinerary.id) == slug
    ensures p.ItineraryDetail? ==> exists i :: (0 <= i < |data.itineraries| &&
      data.itineraries[i] == p.itinerary &&
      forall j :: 0 <= j < i ==> IdText(data.itineraries[j].id) != slug)
    ensures p.ItineraryDetail? ==> p.title != ""
    ensures p.ItineraryDetail? && p.itinerary.name != "" ==> p.title == p.itinerary.name
    ensures p.ItineraryDetail? && p.itinerary.name == "" ==> p.title == "Itinerary"
  {
    match FindFirst(ItineraryHasId(slug), data.itineraries)
    case None => NotFound(ItineraryMissing)
    case Some(i) =>
      var it := data.itineraries[i];
      ItineraryDetail(it, if it.name != "" then it.name else "Itinerary")
  }

  /** `String(x.id) === String(slug)` */
  function VenueHasId(slug: string): Venue -> bool {
    (v: Venue) => IdText(v.id) == slug
  }

  /** `Pages.diningDetail(slug)`: the first venue whose id reads as the slug, with its cuisines
      and diets shown by their labels. */
  function DiningDetailPage(data: Dataset, slug: string): (p: Page)
    ensures p.DiningDetail? || p == NotFound(DiningMissing)
    ensures p == NotFound(DiningMissing) <==> forall v :: v in data.dining ==> IdText(v.id) != slug
    ensures p.DiningDetail? ==> IdText(p.venue.id) == slug
    ensures p.DiningDetail? ==> exists i :: (0 <= i < |data.dining| && data.dining[i] == p.venue &&
      forall j :: 0 <= j < i ==> IdText(data.dining[j].id) != slug)
    ensures p.DiningDetail? && p.venue.name != "" ==> p.title == p.venue.name
    ensures p.DiningDetail? && p.venue.name == "" ==> p.title == "Dining"
    ensures p.DiningDetail? ==> p.cuisineLabels == CuisineLabelsOf(p.venue.cuisines)
    ensures p.DiningDetail? ==> p.dietLabels == DietLabelsOf(p.venue.diet)
  {
    match FindFirst(VenueHasId(slug), data.dining)
    case None => NotFound(DiningMissing)
    case Some(i) =>
      var v := data.dining[i];
      DiningDetail(v, if v.name != "" then v.name else "Dining", CuisineLabelsOf(v.cuisines), DietLabelsOf(v.diet))
  }

  /** The cards of the Getting Around index: the slug each links to and its title. */
  const TransportCards: seq<(string, string)> :=
    [("bus", "City Buses"), ("taxi", "Taxis"), ("rental", "Rental Cars"), ("bike", "Bicycles"),
     ("walk", "Walking")]

  /** The titles of the transport detail pages, by slug. */
  const TransportTitles: map<string, string> :=
    map["bus" := "City Buses", "taxi" := "Taxis", "rental" := "Rental Cars",
        "bike" := "Bicycles", "walk" := "Walking"]

  /** Property names every plain JavaScript object inherits from `Object.prototype`. */
  const ObjectPrototypeNames: set<string> :=
    {"constructor", "hasOwnProperty", "isPrototypeOf", "propertyIsEnumerable", "toLocaleString",
     "toString", "valueOf", "__proto__", "__defineGetter__", "__defineSetter__",
     "__lookupGetter__", "__lookupSetter__"}

  /** `Pages.transportDetail(slug)` as written: `map[slug]` also finds the inherited members of
      the object literal, which are truthy and have no `title`, so the page is titled with
      `escapeHtml(undefined)`, the text "undefined". */
  function TransportDetailPageAsWritten(slug: string): (p: Page)
    ensures slug in TransportTitles ==> p == TransportDetail(TransportTitles[slug])
    ensures slug in ObjectPrototypeNames ==> p == TransportDetail("undefined")
    ensures p == NotFound(TransportMissing) <==> slug !in TransportTitles && slug !in ObjectPrototypeNames
  {
    if slug in TransportTitles then TransportDetail(TransportTitles[slug])
    else if slug in ObjectPrototypeNames then TransportDetail("undefined")
    else NotFound(TransportMissing)
  }

  /** `Pages.transportDetail(slug)` looking the slug up among the table's own keys only. */
  function TransportDetailPage(slug: string): (p: Page)
    ensures p == NotFound(TransportMissing) <==> slug !in TransportTitles
    ensures slug in TransportTitles ==> p == TransportDetail(TransportTitles[slug])
  {
    if slug in TransportTitles then TransportDetail(TransportTitles[slug])
    else NotFound(TransportMissing)
  }

  // ------------------------------------------------------------------ dispatch

  /** The `switch (route)` of `router()`, given the dataset and the two filter selections. */
  function Dispatch(req: Request, data: Dataset, stayKeys: set<string>, diningKeys: set<string>): (p: Page)
    ensures p == NotFound(UnknownRoute) <==> req.route.None? || req.route.value !in Routes
    ensures req.route == Some("stay") && Truthy(req.slug).Some? ==> p == StayDetailPage(data, req.slug.value)
    ensures req.route == Some("stay") && Truthy(req.slug).None? ==> p == StayList(RenderStayList(data.stays, stayKeys))
    ensures req.route == Some("dining") && Truthy(req.slug).Some? ==> p == DiningDetailPage(data, req.slug.value)
    ensures req.route == Some("dining") && Truthy(req.slug).None? ==>
      p == DiningList(RenderDiningList(data.dining, diningKeys))
    ensures req.route == Some("itinerary") && Truthy(req.slug).Some? ==>
      p == ItineraryDetailPage(data, req.slug.value)
    ensures req.route == Some("transport") && Truthy(req.slug).Some? ==>
      p == TransportDetailPageAsWritten(req.slug.value)
    ensures req.route == Some("itinerary") && Truthy(req.slug).None? ==> p == ItineraryIndex(data.itineraries)
    ensures req.route == Some("transport") && Truthy(req.slug).None? ==> p == TransportIndex
    ensures req.route == Some("things") ==> p == ThingsPage(data, req.slug)
    ensures req.route == Some("area") ==> p == AreaPage(Truthy(req.slug))
    ensures req.route == Some("home") ==> p == Home(data.itineraries)
    ensures req.route == Some("faqs") ==> p == Faqs(FaqItems(data.faqs))
    ensures req.route == Some("plan") ==> p == Plan
    ensures req.route == Some("about") ==> p == About
    ensures req.route == Some("contact") ==> p == Contact
    ensures req.route == Some("activity") ==> p == ActivityPage(data, req.slug)
  {
    var slug := Truthy(req.slug);
    if req.route.None? then NotFound(UnknownRoute)
    else
      var route := req.route.value;
      if route == "home" then Home(data.itineraries)
      else if route == "plan" then Plan
      else if route == "things" then ThingsPage(data, slug)
      else if route == "stay" then
        (if slug.Some? then StayDetailPage(data, slug.value)
         else StayList(RenderStayList(data.stays, stayKeys)))
      else if route == "dining" then
        (if slug.Some? then DiningDetailPage(data, slug.value)
         else DiningList(RenderDiningList(data.dining, diningKeys)))
      else if route == "transport" then
        (if slug.Some? then TransportDetailPageAsWritten(slug.value) else TransportIndex)
      else if route == "about" then About
      else if route == "faqs" then Faqs(FaqItems(data.faqs))
      else if route == "contact" then Contact
      else if route == "itinerary" then
        (if slug.Some? then ItineraryDetailPage(data, slug.value) else ItineraryIndex(data.itineraries))
      else if route == "activity" then ActivityPage(data, slug)
      else if route == "area" then AreaPage(slug)
      else NotFound(UnknownRoute)
  }

  /** `router()` for a location hash. */
  function Route(hash: string, data: Dataset, stayKeys: set<string>, diningKeys: set<string>): (p: Page)
    ensures p == NotFound(UnknownRoute) <==>
      ParseHash(hash).route.None? || ParseHash(hash).route.value !in Routes
  {
    Dispatch(ParseHash(hash), data, stayKeys, diningKeys)
  }

  // ------------------------------------------------------------------ parsing lemmas

  /** A hash built from `/`-free pieces parses to its second and third pieces. */
  lemma ParseHashOfJoin(parts: seq<string>)
    requires |parts| >= 1
    requires forall i :: 0 <= i < |parts| ==> '/' !in parts[i]
    requires Join(parts, "/") != ""
    ensures ParseHash(Join(parts, "/")) == Request(Component(parts, 1), Component(parts, 2))
  {
    SplitJoin(parts, '/');
  }

  /** `#/<route>/<slug>` names the route and the slug. */
  lemma ParseRouteAndSlug(route: string, slug: string)
    requires '/' !in route && '/' !in slug
    ensures ParseHash("#/" + route + "/" + slug) == Request(Some(route), Some(slug))
  {
    var parts := ["#", route, slug];
    assert Join(parts, "/") == "#/" + route + "/" + slug by {
      assert Join(parts[1..], "/") == route + "/" + slug by {
        assert parts[1..][1..] == [slug];
      }
    }
    ParseHashOfJoin(parts);
  }

  /** `#/<route>` names the route and no slug. */
  lemma ParseRouteOnly(route: string)
    requires '/' !in route
    ensures ParseHash("#/" + route) == Request(Some(route), None)
  {
    var parts := ["#", route];
    assert Join(parts, "/") == "#/" + route by {
      assert parts[1..] == [route];
    }
    ParseHashOfJoin(parts);
  }

  /** An empty hash shows the home page, exactly as `#/home` does. */
  lemma EmptyHashIsHome(data: Dataset, stayKeys: set<string>, diningKeys: set<string>)
    ensures Route("", data, stayKeys, diningKeys) == Home(data.itineraries)
    ensures Route("#/home", data, stayKeys, diningKeys) == Home(data.itineraries)
  {
    ParseRouteOnly("home");
    assert "#/" + "home" == "#/home";
    assert ParseHash("") == ParseHash("#/home") == Request(Some("home"), None);
  }

  /** A non-empty hash without `/` names no route and shows the not-found page. */
  lemma HashWithoutSlashIsUnknown(hash: string, data: Dataset, stayKeys: set<string>, diningKeys: set<string>)
    requires hash != "" && '/' !in hash
    ensures Route(hash, data, stayKeys, diningKeys) == NotFound(UnknownRoute)
  {
    SplitJoin([hash], '/');
  }

  /** A route outside the `switch` shows the not-found page, and a known one never does. */
  lemma UnknownRouteIsNotFound(route: string, data: Dataset, stayKeys: set<string>, diningKeys: set<string>)
    requires '/' !in route
    ensures Route("#/" + route, data, stayKeys, diningKeys) == NotFound(UnknownRoute) <==> route !in Routes
  {
    ParseRouteOnly(route);
  }

  // ------------------------------------------------------------------ detail lemmas

  /** A stay slug that is no stay's id shows the plain not-found view, from the hash on. */
  lemma {:induction false} StayMissIsNotFound(data: Dataset, slug: string, stayKeys: set<string>, diningKeys: set<string>)
    requires slug != "" && '/' !in slug
    requires forall s :: s in data.stays ==> s.id != StrId(slug)
    ensures Route("#/stay/" + slug, data, stayKeys, diningKeys) == NotFound(Generic)
  {
    ParseRouteAndSlug("stay", slug);
    assert "#/" + "stay" + "/" + slug == "#/stay/" + slug;
  }

  /** With the fallback dataset every record slug is not found. */
  lemma EmptyDatasetFindsNothing(slug: string)
    ensures StayDetailPage(EmptyDataset, slug) == NotFound(Generic)
    ensures ItineraryDetailPage(EmptyDataset, slug) == NotFound(ItineraryMissing)
    ensures DiningDetailPage(EmptyDataset, slug) == NotFound(DiningMissing)
  {
  }

  /** With the fallback dataset both lists show their message and the indexes are empty. */
  lemma EmptyDatasetListsNothing(stayKeys: set<string>, diningKeys: set<string>)
    ensures RenderStayList(EmptyDataset.stays, stayKeys) == NoResults(NoStaysMessage)
    ensures RenderDiningList(EmptyDataset.dining, diningKeys) == NoResults(NoVenuesMessage)
    ensures ActivityIndex(EmptyDataset) == ActivityPlaceholder
    ensures ThingsPage(EmptyDataset, None) == ThingsIndex([], [])
  {
    assert Filter(k => k in EmptyDataset.activities, FeaturedOrder) == [];
  }

  /** A stay whose id is a JSON number is never found by its detail route, while an itinerary
      or a venue with the same numeric id is. */
  lemma NumericIdsMatchOnlyWithCoercion(n: nat, s: Stay, it: Itinerary, v: Venue, data: Dataset)
    requires s.id == NumId(n) && it.id == NumId(n) && v.id == NumId(n)
    requires data.stays == [s] && data.itineraries == [it] && data.dining == [v]
    ensures StayDetailPage(data, Decimal(n)) == NotFound(Generic)
    ensures ItineraryDetailPage(data, Decimal(n)).ItineraryDetail?
    ensures DiningDetailPage(data, Decimal(n)).DiningDetail?
  {
  }

  /** Every card of the Getting Around index names a transport slug whose page has the card's title. */
  lemma TransportCardsHaveDetails()
    ensures forall c :: c in TransportCards ==>
      c.0 != "" && '/' !in c.0 && c.0 in TransportTitles && TransportTitles[c.0] == c.1
  {
  }

  /** Every card of the Getting Around index opens a detail page with the card's title. */
  lemma TransportCardsResolve(data: Dataset, stayKeys: set<string>, diningKeys: set<string>)
    ensures forall c :: c in TransportCards ==>
      Dispatch(Request(Some("transport"), Some(c.0)), data, stayKeys, diningKeys) == TransportDetail(c.1)
  {
    TransportCardsHaveDetails();
  }

  /** As written, `#/transport/constructor` shows a transport page titled "undefined"; the own-key
      lookup shows the not-found view, and the two agree on every other slug. */
  lemma TransportPrototypeNames(slug: string)
    ensures TransportDetailPageAsWritten("constructor") == TransportDetail("undefined")
    ensures TransportDetailPage("constructor") == NotFound(TransportMissing)
    ensures slug !in ObjectPrototypeNames ==> TransportDetailPageAsWritten(slug) == TransportDetailPage(slug)
  {
  }

  /** The inherited names are non-empty, contain no `/` and are none of the five transport slugs. */
  lemma PrototypeNamesAreOtherSlugs()
    ensures forall name :: name in ObjectPrototypeNames ==>
      name != "" && '/' !in name && name !in TransportTitles
  {
  }

  /** `#/transport/<slug>` shows `Pages.transportDetail(slug)` as written. */
  lemma {:induction false} TransportSlugRoute(slug: string, data: Dataset, stayKeys: set<string>, diningKeys: set<string>)
    requires slug != "" && '/' !in slug
    ensures Route("#/transport/" + slug, data, stayKeys, diningKeys) == TransportDetailPageAsWritten(slug)
  {
    ParseRouteAndSlug("transport", slug);
    assert "#/" + "transport" + "/" + slug == "#/transport/" + slug;
  }

  /** `#/transport/<name>` for an inherited `Object.prototype` name such as `constructor` shows a
      transport page titled "undefined". */
  lemma {:induction false} TransportPrototypeRoute(name: string, data: Dataset, stayKeys: set<string>, diningKeys: set<string>)
    requires name in ObjectPrototypeNames
    ensures Route("#/transport/" + name, data, stayKeys, diningKeys) == TransportDetail("undefined")
  {
    PrototypeNamesAreOtherSlugs();
    TransportSlugRoute(name, data, stayKeys, diningKeys);
  }

  /** The filter selections affect the stay and dining lists only. */
  lemma FiltersOnlyAffectLists(req: Request, data: Dataset, s1: set<string>, d1: set<string>,
                               s2: set<string>, d2: set<string>)
    requires Truthy(req.slug).Some? || (req.route != Some("stay") && req.route != Some("dining"))
    ensures Dispatch(req, data, s1, d1) == Dispatch(req, data, s2, d2)
  {
  }
}
