/** The list filters of the lodging page (`renderStayList`) and the dining page
    (`renderDiningList`). Each is stated twice: as the source computes it (`StayPasses`,
    `VenuePasses`) and as the combination rule it implements (`StayRule`, `VenueRule`). */
module Listing {
  import opened Seqs
  import opened Strings
  import opened Labels
  import opened Wrappers
  import opened Data

  /** What replaces the list: the cards of the kept records, or the empty-state message. */
  datatype ListView<T> = Cards(items: seq<T>) | NoResults(message: string)

  /** The records a view shows. */
  function Shown<T>(v: ListView<T>): seq<T> {
    match v
    case Cards(items) => items
    case NoResults(_) => []
  }

  const NoStaysMessage: string := "No stays found. Clear a filter or try a different price band."
  const NoVenuesMessage: string := "No venues match all filters. Try fewer dietary restrictions or a wider area."

  // ---------------------------------------------------------------- lodging

  const PricePrefix: string := "price-"

  /** The price-band keys of the lodging toolbar, in the order the source checks them. */
  const PriceBandKeys: seq<string> := ["price-$", "price-$$", "price-$$$"]

  /** `key.replace('price-', '')` for a key that starts with the prefix. */
  function BandOf(key: string): string {
    if StartsWith(key, PricePrefix) then key[|PricePrefix|..] else key
  }

  /** `priceOK` inside the predicate passed to `stays.filter`, as the source computes it. */
  function PriceOK(f: set<string>, price: string): bool {
    var pf := Filter(k => k in f, PriceBandKeys);
    if |pf| > 0 then exists k :: k in pf && BandOf(k) == price else true
  }

  /** `tf`: the selected keys that do not start with `price-`. */
  function TagKeys(f: set<string>): (tf: set<string>)
    ensures forall k :: k in tf <==> k in f && !StartsWith(k, PricePrefix)
  {
    set k | k in f && !StartsWith(k, PricePrefix)
  }

  /** `tagOK` inside the predicate passed to `stays.filter`, as the source computes it. */
  function TagOK(f: set<string>, tags: seq<string>): bool {
    var tf := TagKeys(f);
    if |tf| > 0 then forall t :: t in tf ==> t in tags else true
  }

  /** The predicate passed to `stays.filter`. */
  function StayPasses(f: set<string>, item: Stay): bool {
    PriceOK(f, item.price) && TagOK(f, item.tags)
  }

  /** `item => StayPasses(f, item)` */
  function KeepStay(f: set<string>): Stay -> bool {
    item => StayPasses(f, item)
  }

  /** Price bands are OR-combined; no selected band means no price constraint. */
  predicate PriceRule(f: set<string>, price: string) {
    (forall b :: b in PriceBandKeys ==> b !in f) ||
    (exists b :: b in PriceBandKeys && b in f && b == PricePrefix + price)
  }

  /** Every selected key that does not start with `price-` is a tag the stay must have (AND). */
  predicate TagRule(f: set<string>, tags: seq<string>) {
    forall k :: k in f && !StartsWith(k, PricePrefix) ==> k in tags
  }

  /** The lodging rule. */
  predicate StayRule(f: set<string>, item: Stay) {
    PriceRule(f, item.price) && TagRule(f, item.tags)
  }

  /** Stripping the prefix from a band key gives a price exactly when the key is the prefixed price. */
  lemma BandOfIff(b: string, price: string)
    requires StartsWith(b, PricePrefix)
    ensures BandOf(b) == price <==> b == PricePrefix + price
  {
    assert b == b[..|PricePrefix|] + b[|PricePrefix|..];
    if b == PricePrefix + price {
      assert b[|PricePrefix|..] == price;
    }
  }

  /** The three band keys start with `price-`. */
  lemma BandKeysArePrefixed()
    ensures forall b :: b in PriceBandKeys ==> StartsWith(b, PricePrefix)
  {
    forall b | b in PriceBandKeys ensures StartsWith(b, PricePrefix) {
      assert b[..|PricePrefix|] == PricePrefix;
    }
  }

  lemma PriceOKIff(f: set<string>, price: string)
    ensures PriceOK(f, price) <==> PriceRule(f, price)
  {
    var pf := Filter(k => k in f, PriceBandKeys);
    BandKeysArePrefixed();
    forall b | b in PriceBandKeys
      ensures BandOf(b) == price <==> b == PricePrefix + price
    {
      BandOfIff(b, price);
    }
    if |pf| > 0 {
      assert pf[0] in pf;
    } else {
      assert forall b :: b in PriceBandKeys ==> b !in f;
    }
  }

  lemma TagOKIff(f: set<string>, tags: seq<string>)
    ensures TagOK(f, tags) <==> TagRule(f, tags)
  {
    var tf := TagKeys(f);
    if |tf| == 0 {
      assert tf == {};
    }
  }

  lemma StayPassesIff(f: set<string>, item: Stay)
    ensures StayPasses(f, item) <==> StayRule(f, item)
  {
    PriceOKIff(f, item.price);
    TagOKIff(f, item.tags);
  }

  /** `renderStayList()` over the stays and the selected lodging keys. */
  function RenderStayList(stays: seq<Stay>, f: set<string>): (v: ListView<Stay>)
    ensures v.NoResults? <==> forall s :: s in stays ==> !StayRule(f, s)
    ensures v.NoResults? ==> v.message == NoStaysMessage
    ensures v.Cards? ==> |v.items| > 0
    ensures IsSubsequence(Shown(v), stays)
    ensures forall s :: s in Shown(v) <==> s in stays && StayRule(f, s)
    ensures forall s :: StayRule(f, s) ==> multiset(Shown(v))[s] == multiset(stays)[s]
  {
    var keep := KeepStay(f);
    var items := Filter(keep, stays);
    assert forall s :: keep(s) <==> StayRule(f, s) by {
      forall s ensures keep(s) <==> StayRule(f, s) { StayPassesIff(f, s); }
    }
    assert |items| > 0 ==> items[0] in items;
    if |items| == 0 then NoResults(NoStaysMessage) else Cards(items)
  }

  /** The stays `RenderStayList` shows are those `KeepStay` keeps. */
  lemma ShownStays(stays: seq<Stay>, f: set<string>)
    ensures Shown(RenderStayList(stays, f)) == Filter(KeepStay(f), stays)
  {
  }

  /** Selecting one more tag can only remove stays from the list (tags are AND-combined). */
  lemma AddingTagNarrowsStays(stays: seq<Stay>, f: set<string>, tag: string)
    requires !StartsWith(tag, PricePrefix)
    ensures IsSubsequence(Shown(RenderStayList(stays, f + {tag})), Shown(RenderStayList(stays, f)))
    ensures forall s :: StayRule(f + {tag}, s) <==> StayRule(f, s) && tag in s.tags
  {
    forall s ensures StayRule(f + {tag}, s) <==> StayRule(f, s) && tag in s.tags {
      assert PriceRule(f + {tag}, s.price) <==> PriceRule(f, s.price);
    }
    forall s ensures KeepStay(f + {tag})(s) ==> KeepStay(f)(s) {
      StayPassesIff(f + {tag}, s);
      StayPassesIff(f, s);
    }
    FilterStrongerIsSubsequence(KeepStay(f + {tag}), KeepStay(f), stays);
    ShownStays(stays, f);
    ShownStays(stays, f + {tag});
  }

  /** Once some price band is selected, selecting another can only add stays (bands are OR-combined). */
  lemma AddingBandWidensStays(stays: seq<Stay>, f: set<string>, band: string)
    requires band in PriceBandKeys
    requires exists b :: b in PriceBandKeys && b in f
    ensures IsSubsequence(Shown(RenderStayList(stays, f)), Shown(RenderStayList(stays, f + {band})))
  {
    assert StartsWith(band, PricePrefix);
    forall s ensures KeepStay(f)(s) ==> KeepStay(f + {band})(s) {
      StayPassesIff(f + {band}, s);
      StayPassesIff(f, s);
    }
    FilterStrongerIsSubsequence(KeepStay(f), KeepStay(f + {band}), stays);
    ShownStays(stays, f);
    ShownStays(stays, f + {band});
  }

  /** A key that starts with `price-` but is none of the three bands constrains nothing. */
  lemma UnknownPriceKeyIgnored(stays: seq<Stay>, f: set<string>, k: string)
    requires StartsWith(k, PricePrefix) && k !in PriceBandKeys
    ensures RenderStayList(stays, f + {k}) == RenderStayList(stays, f)
  {
    forall s ensures KeepStay(f + {k})(s) <==> KeepStay(f)(s) {
      StayPassesIff(f + {k}, s);
      StayPassesIff(f, s);
      assert PriceRule(f + {k}, s.price) <==> PriceRule(f, s.price);
      assert TagRule(f + {k}, s.tags) <==> TagRule(f, s.tags);
    }
    FilterSameCondition(KeepStay(f + {k}), KeepStay(f), stays);
  }

  /** The stay of the lodging scenario: one beachfront stay priced `$$`. */
  const ScenarioStay: Stay := Stay(StrId("s1"), "Sea View", "$$", ["beachfront"])

  /** With `$$` and `beachfront` selected, the scenario's stay is listed. */
  lemma StayScenarioKept()
    ensures RenderStayList([ScenarioStay], {"price-$$", "beachfront"}) == Cards([ScenarioStay])
  {
    var f := {"price-$$", "beachfront"};
    assert "price-$$" in PriceBandKeys && "price-$$" == PricePrefix + ScenarioStay.price;
    assert PriceRule(f, ScenarioStay.price);
    assert !StartsWith("price-$$", PricePrefix) ==> false by {
      assert "price-$$"[..|PricePrefix|] == PricePrefix;
    }
    assert !StartsWith("beachfront", PricePrefix) by { assert "beachfront"[0] == 'b'; }
    assert TagRule(f, ScenarioStay.tags);
    StayPassesIff(f, ScenarioStay);
    FilterAll(KeepStay(f), [ScenarioStay]);
  }

  /** With only `$` selected, no stay of the scenario is listed and the message shows. */
  lemma StayScenarioExcluded()
    ensures RenderStayList([ScenarioStay], {"price-$"}) == NoResults(NoStaysMessage)
  {
    assert "price-$" != PricePrefix + ScenarioStay.price;
    assert !PriceRule({"price-$"}, ScenarioStay.price);
  }

  // ---------------------------------------------------------------- dining

  /** `array.includes(value)` where the looked-up value may be `undefined`, which no string equals. */
  predicate Includes(xs: seq<string>, x: Option<string>) {
    x.Some? && x.value in xs
  }

  /** The selected keys that start with `prefix` (`hasDiet`, `hasCui`). */
  function KeysWithPrefix(f: set<string>, prefix: string): (r: set<string>)
    ensures forall k :: k in r <==> k in f && StartsWith(k, prefix)
  {
    set k | k in f && StartsWith(k, prefix)
  }

  /** `dietOK` inside the predicate passed to `venues.filter`, as the source computes it. */
  function DietOK(f: set<string>, diet: seq<string>): bool {
    var hasDiet := KeysWithPrefix(f, DietPrefix);
    if |hasDiet| > 0 then forall k :: k in hasDiet ==> Includes(diet, ToDiet(k)) else true
  }

  /** `cuiOK` inside the predicate passed to `venues.filter`, as the source computes it. */
  function CuiOK(f: set<string>, cuisines: seq<string>): bool {
    var hasCui := KeysWithPrefix(f, CuisinePrefix);
    if |hasCui| > 0 then exists k :: k in hasCui && Includes(cuisines, ToCui(k)) else true
  }

  /** The predicate passed to `venues.filter`. */
  function VenuePasses(f: set<string>, v: Venue): bool {
    DietOK(f, v.diet) && CuiOK(f, v.cuisines)
  }

  /** `v => VenuePasses(f, v)` */
  function KeepVenue(f: set<string>): Venue -> bool {
    v => VenuePasses(f, v)
  }

  /** Every selected `diet-` key must be a known diet key whose value the venue offers (AND). */
  predicate DietRule(f: set<string>, diet: seq<string>) {
    forall k :: k in f && StartsWith(k, DietPrefix) ==> k in DietKeys && k[|DietPrefix|..] in diet
  }

  /** When any `cui-` key is selected, one of them must be a known cuisine key whose value the
      venue serves (OR); with none selected there is no cuisine constraint. */
  predicate CuisineRule(f: set<string>, cuisines: seq<string>) {
    (forall k :: k in f ==> !StartsWith(k, CuisinePrefix)) ||
    (exists k :: k in f && k in CuisineKeys && k[|CuisinePrefix|..] in cuisines)
  }

  /** The dining rule; keys with other prefixes are ignored. */
  predicate VenueRule(f: set<string>, v: Venue) {
    DietRule(f, v.diet) && CuisineRule(f, v.cuisines)
  }

  lemma DietOKIff(f: set<string>, diet: seq<string>)
    ensures DietOK(f, diet) <==> DietRule(f, diet)
  {
    var hasDiet := KeysWithPrefix(f, DietPrefix);
    if |hasDiet| == 0 {
      assert hasDiet == {};
    }
  }

  lemma CuiOKIff(f: set<string>, cuisines: seq<string>)
    ensures CuiOK(f, cuisines) <==> CuisineRule(f, cuisines)
  {
    var hasCui := KeysWithPrefix(f, CuisinePrefix);
    if |hasCui| == 0 {
      assert hasCui == {};
    } else {
      var c :| c in hasCui;
      assert !forall k :: k in f ==> !StartsWith(k, CuisinePrefix);
    }
    forall k | k in CuisineKeys ensures StartsWith(k, CuisinePrefix) {}
  }

  lemma VenuePassesIff(f: set<string>, v: Venue)
    ensures VenuePasses(f, v) <==> VenueRule(f, v)
  {
    DietOKIff(f, v.diet);
    CuiOKIff(f, v.cuisines);
  }

  /** The three prefixes exclude each other. */
  lemma PrefixesDisjoint(k: string)
    ensures StartsWith(k, DietPrefix) ==> !StartsWith(k, CuisinePrefix) && !StartsWith(k, PricePrefix)
    ensures StartsWith(k, CuisinePrefix) ==> !StartsWith(k, DietPrefix) && !StartsWith(k, PricePrefix)
  {
    if StartsWith(k, DietPrefix) { assert k[0] == 'd'; }
    if StartsWith(k, CuisinePrefix) { assert k[0] == 'c'; }
  }

  /** `renderDiningList()` over the venues and the selected dining keys. */
  function RenderDiningList(venues: seq<Venue>, f: set<string>): (r: ListView<Venue>)
    ensures r.NoResults? <==> forall v :: v in venues ==> !VenueRule(f, v)
    ensures r.NoResults? ==> r.message == NoVenuesMessage
    ensures r.Cards? ==> |r.items| > 0
    ensures IsSubsequence(Shown(r), venues)
    ensures forall v :: v in Shown(r) <==> v in venues && VenueRule(f, v)
    ensures forall v :: VenueRule(f, v) ==> multiset(Shown(r))[v] == multiset(venues)[v]
  {
    var keep := KeepVenue(f);
    var items := Filter(keep, venues);
    assert forall v :: keep(v) <==> VenueRule(f, v) by {
      forall v ensures keep(v) <==> VenueRule(f, v) { VenuePassesIff(f, v); }
    }
    assert |items| > 0 ==> items[0] in items;
    if |items| == 0 then NoResults(NoVenuesMessage) else Cards(items)
  }

  /** Selecting one more diet key can only remove venues (diet keys are AND-combined). */
  lemma AddingDietNarrowsVenues(venues: seq<Venue>, f: set<string>, k: string)
    requires StartsWith(k, DietPrefix)
    ensures IsSubsequence(Shown(RenderDiningList(venues, f + {k})), Shown(RenderDiningList(venues, f)))
  {
    var narrow, wide := KeepVenue(f + {k}), KeepVenue(f);
    forall v ensures narrow(v) ==> wide(v) {
      VenuePassesIff(f + {k}, v);
      VenuePassesIff(f, v);
    }
    FilterStrongerIsSubsequence(narrow, wide, venues);
  }

  /** Once some cuisine key is selected, selecting another can only add venues (OR-combined). */
  lemma AddingCuisineWidensVenues(venues: seq<Venue>, f: set<string>, k: string)
    requires StartsWith(k, CuisinePrefix)
    requires exists c :: c in f && StartsWith(c, CuisinePrefix)
    ensures IsSubsequence(Shown(RenderDiningList(venues, f)), Shown(RenderDiningList(venues, f + {k})))
  {
    var narrow, wide := KeepVenue(f), KeepVenue(f + {k});
    PrefixesDisjoint(k);
    forall v ensures narrow(v) ==> wide(v) {
      VenuePassesIff(f + {k}, v);
      VenuePassesIff(f, v);
    }
    FilterStrongerIsSubsequence(narrow, wide, venues);
  }

  /** A `diet-` key outside the toolbar's three maps to `undefined`, so no venue passes. */
  lemma UnknownDietKeyEmptiesList(venues: seq<Venue>, f: set<string>, k: string)
    requires StartsWith(k, DietPrefix) && k !in DietKeys
    ensures RenderDiningList(venues, f + {k}) == NoResults(NoVenuesMessage)
  {
    assert forall v: Venue :: !DietRule(f + {k}, v.diet);
  }

  /** Keys with neither prefix leave the dining list unchanged. */
  lemma OtherKeysIgnoredByDining(venues: seq<Venue>, f: set<string>, k: string)
    requires !StartsWith(k, DietPrefix) && !StartsWith(k, CuisinePrefix)
    ensures RenderDiningList(venues, f + {k}) == RenderDiningList(venues, f)
  {
    var p, q := KeepVenue(f + {k}), KeepVenue(f);
    forall v ensures p(v) <==> q(v) {
      VenuePassesIff(f + {k}, v);
      VenuePassesIff(f, v);
    }
    FilterSameCondition(p, q, venues);
  }
}
