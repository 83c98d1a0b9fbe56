# Taniti travel guide: routing, filters and escaping

The Taniti travel guide is a single-page site driven by `app.js`. A location hash such as
`#/stay/seaview` picks a page. Detail pages look their record up in the dataset (`data.json`)
and show a not-found view when there is none. The lodging and dining pages filter their lists
by the filter chips the visitor selects; the selection lives in two sets that the chip click
handlers and the brand link change in place. Names, labels and other text taken from the data
are passed through `escapeHtml` before they go into the markup; record ids and action links
placed in `href` attributes are not. Breadcrumb trails mark their last item as the
current page.

This Dafny project models that core:

- `Escape`: `escapeHtml`, with a decoder for its five references. Lemmas prove the round trip,
  injectivity, the fixed points, and that no raw markup character survives.
- `Strings`, `Seqs`: JavaScript's `split` on one character, `join`, `filter` and `find`, with
  their round trips and ordering properties.
- `Labels`: `labelCuisine`, `labelDiet` and the chip-key translations `toDiet` and `toCui`.
- `Listing`: `renderStayList` and `renderDiningList`. Each filter predicate, written as the
  source computes it, is proved equal to a plain statement of the filtering rule. Further lemmas
  state the list that results, its order and its multiplicities, and how adding a key narrows
  or widens the list.
- `FilterState`: the filter selection as a class whose sets the chip clicks and the brand link
  update. It keeps the `aria-checked` flag each rendered chip carries, because the click handler
  branches on that flag.
- `Slug`: `humanizeSlug`, the shape of the titles it produces, and its idempotence.
- `Breadcrumbs`: the structure `crumbs` produces.
- `Router`: hash parsing, the route `switch`, and every page's choice of view. This includes
  the not-found fallbacks of the detail pages and the overriding versions of the Things to Do,
  activity, itinerary, dining detail and transport pages.

Where `Pages` is reassigned later in `app.js`, the model follows the later, effective
definition. The home, plan, stay list, stay detail, dining list and area pages, and the
original activity page that the later activity page falls back to, come from the first
`Pages` literal; all other pages come from the later reassignments.

The router computes what the program does, including the transport and breadcrumb defects recorded under
"## Findings": `#/transport/<slug>` goes through the `map[slug]` lookup as written, and the
stay detail page carries the breadcrumb trail as written, with the name escaped twice. The
corrected definitions stand beside them, with the intended properties proved.

## Model

| member | source | states |
|---|---|---|
| Escape.EscapeChar | app.js:22-30 | a character is rewritten exactly when it is one of `& < > " '`; its replacement begins with a character reference, contains no other `&` and no raw markup character |
| Escape.EscapeHtml | app.js:22-30 | escaped text holds no raw `< > " '` and is never shorter than the input |
| Escape.EscapeHtmlAppend | app.js:22-30 | escaping distributes over concatenation |
| Escape.EscapeHtmlFixedPoint | app.js:22-30 | escaping leaves a string unchanged exactly when it holds none of the five special characters |
| Escape.EscapeHtmlAmpersandsStartReferences | app.js:22-30 | every `&` in escaped text begins one of the five references |
| Escape.UnescapeEscapeHtml | app.js:22-30 | decoding the five references recovers the original text (round trip) |
| Escape.EscapeHtmlInjective | app.js:22-30 | distinct strings escape to distinct strings |
| Strings.Split | app.js:424 | `split('/')` yields at least one piece and no piece contains the separator |
| Strings.JoinSplit | app.js:424 | joining the pieces of a split with the separator restores the string |
| Strings.SplitJoin | app.js:424 | splitting a join of separator-free pieces restores the pieces |
| Seqs.Filter | app.js:326-332 | `filter` keeps exactly the elements satisfying the predicate, in their order, with their multiplicities |
| Seqs.FindFirst | app.js:882 | `find` returns the first element satisfying the predicate, and nothing exactly when no element does |
| Labels.LabelCuisine | app.js:392-399 | a known cuisine key maps to its label, which differs from the key; an unknown key is shown unchanged |
| Labels.LabelDiet | app.js:402-409 | a known diet key maps to its label, which differs from the key; an unknown key is shown unchanged |
| Labels.ToDiet | app.js:360-362 | a chip key has a diet value exactly when it is one of the three diet chips, and the key is `diet-` plus that value |
| Labels.ToCui | app.js:363-365 | a chip key has a cuisine value exactly when it is one of the three cuisine chips, and the key is `cui-` plus that value |
| Labels.CuisineLabelsOf | app.js:934 | one label per cuisine key, in order, each the key's cuisine label |
| Labels.DietLabelsOf | app.js:935 | one label per diet key, in order, each the key's diet label |
| Listing.PriceOKIff | app.js:327-328 | the source's price test equals the rule: no band selected, or the stay's price is a selected band |
| Listing.TagOKIff | app.js:329-330 | the source's tag test equals the rule: every selected non-price key is among the stay's tags |
| Listing.StayPassesIff | app.js:326-332 | the predicate passed to `stays.filter` equals the conjunction of the price and tag rules |
| Listing.RenderStayList | app.js:321-351 | the no-results message is shown exactly when no stay satisfies the rule; otherwise the shown stays are the matching stays in data order with their multiplicities |
| Listing.AddingTagNarrowsStays | app.js:329-331 | selecting one more tag keeps exactly the previously shown stays that carry it (tags are AND-combined) |
| Listing.AddingBandWidensStays | app.js:327-328 | once a band is selected, selecting another only adds stays (bands are OR-combined) |
| Listing.UnknownPriceKeyIgnored | app.js:327-329 | a `price-` key that is not one of the three bands changes nothing |
| Listing.StayScenarioKept | app.js:321-336 | a beachfront stay at `$$` is listed under {`price-$$`, `beachfront`} |
| Listing.StayScenarioExcluded | app.js:321-336 | the same stay gives the no-results message under {`price-$`} |
| Listing.DietOKIff | app.js:357-368 | the source's diet test equals the rule: every selected `diet-` key names a diet value the venue offers |
| Listing.CuiOKIff | app.js:358-369 | the source's cuisine test equals the rule: no `cui-` key selected, or some selected key names a cuisine the venue serves |
| Listing.VenuePassesIff | app.js:367-371 | the predicate passed to `venues.filter` equals the conjunction of the diet and cuisine rules |
| Listing.RenderDiningList | app.js:353-390 | the no-results message is shown exactly when no venue satisfies the rule; otherwise the shown venues are the matching venues in data order with their multiplicities |
| Listing.AddingDietNarrowsVenues | app.js:368 | selecting one more diet key only removes venues |
| Listing.AddingCuisineWidensVenues | app.js:369 | once a cuisine key is selected, selecting another only adds venues |
| Listing.UnknownDietKeyEmptiesList | app.js:360-368 | a `diet-` key outside the three chips translates to `undefined`, so no venue passes |
| Listing.OtherKeysIgnoredByDining | app.js:357-358 | keys with neither prefix leave the dining list unchanged |
| FilterState.Toggled | app.js:510 | toggling flips the key's membership and leaves every other key as it was |
| FilterState.ToggleTwice | app.js:510 | toggling a key twice restores the selection |
| FilterState.ClickedAsWritten | app.js:508-510 | the click handler removes the key when the chip shows checked and adds it otherwise; no other key changes |
| FilterState.ClickedAsWrittenToggles | app.js:508-510 | while the chip shows the key's membership, a click toggles the key |
| FilterState.StaleChipClickKeepsKey | app.js:312-314 | a chip rendered unchecked for a selected key: the click keeps the key, where a toggle would remove it |
| FilterState.FilterSelection.constructor | app.js:3-4 | both selections start empty, with every chip in step |
| FilterState.FilterSelection.RenderToolbar | app.js:312-314 | rendering a toolbar marks all its chips unchecked and leaves both selections unchanged |
| FilterState.FilterSelection.ClickChipAsWritten | app.js:506-524 | the clicked toolbar's selection changes as the handler's branch on `aria-checked` says and the chip's flag flips; the other toolbar is untouched; starting in step, the click is a toggle and keeps the chips in step |
| FilterState.FilterSelection.ToggleChip | app.js:506-524 | a click toggles the key in the clicked toolbar's selection and the chip shows the outcome; the other toolbar is untouched and chips in step stay in step |
| FilterState.FilterSelection.ClearAll | app.js:257-262 | the brand link empties both selections |
| FilterState.ToggleChipTwice | app.js:506-524 | two clicks on the same chip restore both selections |
| Slug.HyphenateWhitespace | app.js:782 | no whitespace character is left |
| Slug.HyphenateKeepsPlainText | app.js:782 | text without whitespace is kept unchanged |
| Slug.HyphenateRun | app.js:782 | a maximal run of whitespace becomes exactly one `-`, with the text before it kept |
| Slug.LowerChar | app.js:783 | an upper-case ASCII letter becomes its lower-case letter; any character other than the Kelvin sign and the dotted capital I that is not an upper-case ASCII letter is kept |
| Slug.LowerHasNoUpperCase | app.js:783 | the lower-cased text holds no upper-case ASCII letter |
| Slug.Capitalize | app.js:787 | same length; a leading lower-case ASCII letter becomes upper case and the rest is kept |
| Slug.CapitalizeAll | app.js:787 | one word per word, each capitalised |
| Slug.Words | app.js:782-786 | every word is a non-empty run of lower-case ASCII letters and digits |
| Slug.WordsOfSpacedWords | app.js:782-786 | slug words separated by spaces give back those words (`rain forest` gives `rain`, `forest`) |
| Slug.WordsOfTitle | app.js:782-786 | the words of a capitalised title are its words lower-cased (`Rain Forest` gives `rain`, `forest`) |
| Slug.HumanizeSlug | app.js:780-789 | the result is a title: ASCII letters, digits and single spaces, no leading or trailing space, each word beginning with an upper-case letter or a digit and continuing in lower case |
| Slug.HumanizeCanonicalSlug | app.js:780-789 | a slug of lower-case words joined by hyphens humanizes to those words capitalised and joined by spaces |
| Slug.HumanizeSlugIdempotent | app.js:780-789 | humanizing a humanized slug changes nothing |
| Slug.ActivityTitle | app.js:795 | the activity title is never empty and is a title; it is the humanized slug when that is not empty, and `Activity` otherwise |
| Data.Decimal | app.js:882 | `String(n)` of a non-negative integer: non-empty, decimal digits only, no leading zero, and the digits read back as `n` |
| Data.DecimalInjective | app.js:882 | distinct numbers have distinct decimal texts |
| Data.IdText | app.js:882 | `String(id)`: a string id is its own text; a numeric id gives decimal digits that read back as the number |
| Breadcrumbs.Crumbs | app.js:266-282 | one item per entry; every label escaped; exactly the last item is the current page; an earlier item is a link exactly when its entry has a non-empty `href`, and links keep that `href` |
| Breadcrumbs.StayDetailTrailShowsName | app.js:309 | in the corrected stay trail, the current item decodes to the stay's name |
| Breadcrumbs.StayDetailTrailAsWrittenShowsEscapedName | app.js:309 | in the trail as written, the current item decodes to the escaped name, which differs from the name exactly when the name holds a special character |
| Breadcrumbs.StayDetailTrailAsWrittenExample | app.js:309 | a stay called `B&B` is shown as `B&amp;B` |
| Breadcrumbs.StayDetailTrailAsWrittenEscapesName | app.js:309 | the stay trail as written is the corrected trail of the escaped name: the first two entries agree and only the current label differs |
| Router.EffectiveHash | app.js:421 | an empty hash stands for `#/home`; any other hash is kept |
| Router.Component | app.js:425-426 | `parts[i]` exists exactly when `i` is within the pieces |
| Router.ParseHash | app.js:421-426 | route and slug contain no `/`, and a slug is only present with a route |
| Router.Truthy | app.js:432-441 | an empty slug counts as no slug |
| Router.ThingsPage | app.js:656-777 | `activity` shows the activity index; a missing or empty slug shows the index, whose featured activities are those of `volcano`, `rainforest`, `museum` present in the data, in that order, followed by all of `otherActivities`; `beaches` shows the beaches page; `merriton` and `merriton-landing` show the Merriton district page; any other slug shows the category-not-found view |
| Router.ActivityIndex | app.js:309 | the original activity page, looking up the key `undefined`, shows that record if present and the placeholder otherwise |
| Router.ActivityPage | app.js:791-826 | a missing or empty slug shows the original activity index; any other slug shows a topic page titled by `ActivityTitle`: the humanized slug when that is non-empty, and `Activity` otherwise |
| Router.AreaPage | app.js:309 | only `merriton` shows the Merriton Landing page; everything else, no slug included, is not found |
| Router.StayDetailPage | app.js:309 | not found exactly when no stay has the slug as a string id; otherwise the first such stay, with the breadcrumb trail the source builds, whose last label is the escaped name escaped again |
| Router.ItineraryDetailPage | app.js:879-918 | not found exactly when no itinerary's id reads as the slug; otherwise the first such itinerary, titled by its name, or "Itinerary" when the name is empty |
| Router.DiningDetailPage | app.js:920-935 | not found exactly when no venue's id reads as the slug; otherwise the first such venue, titled by its name, or "Dining" when the name is empty, with every cuisine and diet shown by its label |
| Router.TransportDetailPageAsWritten | app.js:1007-1014 | the five transport slugs show their titles; inherited `Object.prototype` names show a page titled "undefined"; only other slugs are not found |
| Router.TransportDetailPage | app.js:984-1031 | not found exactly when the slug is not one of the five transport slugs; otherwise the page carries that slug's title |
| Router.Dispatch | app.js:429-443 | every case of the `switch`: the unknown-route page exactly when the route is missing or outside it; `home` with the dataset's itineraries, `faqs` with the FAQ entries, and the constant `plan`, `about` and `contact` pages; `stay`, `dining`, `itinerary` and `transport` show that slug's detail page for a non-empty slug (transport through the `map[slug]` lookup as written) and otherwise the filtered list or the index; `things` and `activity` pass the slug to their pages and `area` passes it when non-empty |
| Router.Route | app.js:420-443 | for a whole location hash, the unknown-route page is shown exactly when the hash names no route of the `switch` |
| Router.ParseHashOfJoin | app.js:424-426 | a hash built from `/`-free pieces parses to its second and third pieces |
| Router.ParseRouteAndSlug | app.js:424-426 | `#/<route>/<slug>` yields that route and slug |
| Router.ParseRouteOnly | app.js:424-426 | `#/<route>` yields that route and no slug |
| Router.EmptyHashIsHome | app.js:421 | an empty hash and `#/home` both show the home page with the dataset's itineraries |
| Router.HashWithoutSlashIsUnknown | app.js:424-442 | a non-empty hash without `/` shows the unknown-route page |
| Router.UnknownRouteIsNotFound | app.js:429-442 | `#/<route>` shows the unknown-route page exactly when the route is not one of the twelve cases |
| Router.TransportSlugRoute | app.js:420-443 | the hash `#/transport/<slug>` shows the transport detail page as written, looked up with `map[slug]` |
| Router.TransportPrototypeRoute | app.js:1007-1017 | the hash `#/transport/constructor`, or any other inherited `Object.prototype` name, shows a transport page titled "undefined" |
| Router.StayMissIsNotFound | app.js:420-443 | the hash `#/stay/<slug>` for a slug that names no stay shows the generic not-found view |
| Router.EmptyDatasetFindsNothing | app.js:578 | with the fallback dataset, every stay, itinerary and dining slug shows the not-found view |
| Router.EmptyDatasetListsNothing | app.js:578 | with the fallback dataset, both lists show their no-results message whatever the filters, the activity page shows its placeholder and the Things to Do index features nothing and lists no other activities |
| Router.NumericIdsMatchOnlyWithCoercion | app.js:882 | a numeric id is never found by the stay detail page (`===`) but is found by the itinerary and dining pages (`String()` comparison) |
| Router.TransportCardsHaveDetails | app.js:963-1014 | every card of the Getting Around index has a detail page with the card's title |
| Router.TransportCardsResolve | app.js:963-981 | the transport route with any card's id as its slug shows the detail page with the card's title |
| Router.TransportPrototypeNames | app.js:1007 | as written `#/transport/constructor` shows a page titled "undefined"; the own-key lookup shows not-found; the two agree on every other slug |
| Router.FaqItems | app.js:1034-1056 | one entry per FAQ of the dataset, in order; each question and answer is the FAQ's own when non-empty and `Question` or `Answer` otherwise |
| Router.FiltersOnlyAffectLists | app.js:420-443 | the filter selections change only the stay and dining list pages |

## Left out

- The booking and reservation modals (app.js:52-245), all DOM wiring, focus handling, scrolling, the menu toggle, the FAQ accordion and the contact form: these are browser interaction, with no logic beyond what is modelled here.
- The network fetch in `loadData`: only the empty fallback dataset (app.js:578) is modelled, as `Data.EmptyDataset`.
- The HTML text of the templates: each page is modelled as the view it selects and the records it shows (the home page's itineraries, the FAQ entries, the featured and other activities, the filtered lists, the detail records). Fixed text, the fast facts of the home page, and the card details built from a record (the first three steps of an itinerary, an activity's type and overview) are not modelled.
- `linkifyItineraryStep`: it decorates the steps of an itinerary; it is not part of this model.
- `setActiveNav`'s highlighting of navigation links: it is presentation only. The brand link's clearing of the filters is modelled as `FilterSelection.ClearAll`.
- Breadcrumb `href` values are inserted into the markup without escaping. All breadcrumb `href` values in the source are constants, so the model keeps them as given.
- Record ids in links: the list and home pages put `d.id`, `v.id` and `i.id` into `href` attributes without escaping (app.js:309, 345, 384), and the activity pages put their action links in raw (app.js:310). The markup is not modelled, so these unescaped values are not either.
- Missing arrays in the data: every record is assumed to carry all the arrays the pages read (a stay's `tags` and `amenities`, a venue's `cuisines` and `diet`, an itinerary's `steps`). In the source, a record lacking one makes the page throw a `TypeError` and no page is written: a listed stay without `tags` throws at app.js:342-343 whatever is selected, and with a tag key selected already at app.js:330; a listed venue without `cuisines` or `diet` throws at app.js:382 whatever is selected; the stay detail page throws on a missing `amenities` or `tags` and the home page on an itinerary without `steps` (app.js:309). The model shows the list, detail or home page instead. The dining detail page alone shows no labels for a missing array (app.js:934-935).
- Non-string inputs (`String(s)` of `null` or of objects, `s || ''`): the model takes strings. Record ids are a JSON string or a non-negative integer number.
- Slug.Lower: lower-cases the ASCII letters, the Kelvin sign and the dotted capital I. Other Unicode case mappings are not modelled; after the `[^a-z0-9-]` filter only ASCII survives, and only characters that lower-case into ASCII could matter.
- Labels.LabelCuisine and Labels.LabelDiet: `map[key] || key` also finds inherited `Object.prototype` names. For such keys the source returns a function, which the model does not represent.
- Slug.Words: the exact words are stated for text whose lower-cased, hyphenated form is lower-case words joined by `-` (`WordsFromJoin`), which covers slug words joined by hyphens or spaces and capitalised titles; for text with other characters, such as punctuation that the filter drops, only the shape of each word is stated.
- Data.Decimal: numbers of `1e21` and above, negative numbers and fractions are outside the model, because `String()` formats them differently.
- Router.ItineraryDetailPage: the day cards and the step text are template content and are not modelled.
- Rendering `aria-checked` for chips of other toolbars and re-rendering the list after a click: the model records the chip flags and the selection; the list is a function of the selection (`Listing`).
- The `humanizeSlug` titles: digits do not change under `toUpperCase`, so a word that starts with a digit keeps that digit first. The model states "starts with an upper-case letter or a digit", which is what the code does, rather than "every word starts with an upper-case letter".

## Findings

| source | as written | input that shows it | evidently intended | confidence | as-written member | corrected member |
|---|---|---|---|---|---|---|
| app.js:1007-1008 | `map[slug]` on an object literal also finds inherited `Object.prototype` members | `#/transport/constructor` shows a transport page titled "undefined" | only the five transport slugs open a detail page; every other slug shows the transport not-found view | high, not executed | Router.TransportDetailPageAsWritten | Router.TransportDetailPage |
| app.js:309 | the stay detail trail passes `escapeHtml(d.name)` to `crumbs`, which escapes every label again | a stay named `B&B` is shown as `B&amp;B` in its breadcrumb | the breadcrumb shows the stay's name | high, not executed | Breadcrumbs.StayDetailTrailAsWrittenShowsEscapedName | Breadcrumbs.StayDetailTrailShowsName |
| app.js:508-510 | `chip()` (app.js:312-314) always renders `aria-checked="false"`, and the click handler branches on that flag, not on the selection | select `beachfront`, leave the lodging page and return: the chip shows unchecked, and the first click keeps `beachfront` selected | a click toggles the key and the chip shows whether the key is selected | medium, not executed | FilterState.StaleChipClickKeepsKey | FilterState.FilterSelection.ToggleChip |
