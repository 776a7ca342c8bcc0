# market-finder in Dafny

A model of the core of market-finder. This is a small Next.js application in which a user:

- picks a US state on a map;
- picks a business type (Personal or Commercial);
- picks a line of business (LOB, such as "Personal Auto");
- gets the insurance carriers that serve that state and line, split into "Online Applications" and "Contact Required".

The selection exists in two separate variants, and the model keeps them apart.

- **URL-driven page** (`src/app/page.tsx`, module `MarketPage`).
  - The selection is read from the `state`, `type` and `lob` query parameters.
  - Handlers rewrite those parameters with reset rules and produce the URL to navigate to.
  - The visible panels are derived from the three fields.
  - Query parameters follow the `URLSearchParams` interface of the WHATWG URL Standard, section 6.2 (module `QueryParams`). They are an ordered list of name/value pairs:
    - `get` reads the first pair with the name;
    - `set` overwrites the first pair, drops the rest, or appends one;
    - `delete` drops every pair with the name.
  - `updateURL` is modelled as a method with a loop over the update record, proved against the function `ApplyUpdates`.
- **Store-driven map and dialog**:
  - `src/store/useMarketStore.ts` (class `MarketStore.Store`). It has three fields and three setters, and each setter changes only its own field. A ghost log of setter calls lets contracts state "no update" and "exactly once".
  - `src/components/USAMap.tsx` (module `UsaMap`): the state lookup, the licensed guard on clicks, the style of each region, and the code read from a region id.
  - `src/components/StateSelector.tsx` (module `StateSelector`): the render guard, the close/Continue reset, the Continue enablement and the LOB option list.
- **Filter engine** (`src/components/CarrierList.tsx`, module `CarrierList`).
  - The available carriers are those offering the selected LOB in the selected state. They are then split into an online bucket and a contact-required bucket, and "Online" wins over "Offline".
  - The module also models the initials shown for a carrier without a logo.
  - The generic order-preserving filter and its subsequence and partition facts are in `Seqs`.
- **Product dropdown** (`src/components/ProductDropdown.tsx`, module `ProductDropdown`).
  - The product list for the business type, and the selected-item marking.
  - The open/closed flag, as class `ProductDropdown.Dropdown`.
- **Helpers** (`src/lib/helpers.ts`, module `Helpers`).
  - `slugify` is a chain of pure string functions. JavaScript's white-space set is modelled exactly, code point by code point.
  - `groupByTag` is a method that builds its map in a loop.
- **Dataset** (`src/data/carriers.ts`, module `CarriersData`): the twenty carriers, entry for entry, with lemmas about concrete selections.

The state table (`src/data/states`) and the LOB catalog (`src/data/lobs`) are not part of this model. Every operation that uses them takes them as parameters:

- a `seq<StateInfo>` for the state table;
- a `map<BusinessType, seq<string>>` for the catalog.

The two components import the catalog under different names: `lobs` at ProductDropdown.tsx:5 and `LOBs` at StateSelector.tsx:4. Both are modelled as the same catalog parameter.

The model follows the code where one might expect otherwise:

- The page's `handleStateSelect` makes no licensed check. Only the store-driven map click checks the licence.
- The store's reset sets the business type to `"Personal"`, not to `""`.
- The store's `setBusinessType` does not clear the LOB.
- No query parameter is checked against the state table or the catalog when it is read.
- `gainsco` does list AZ and Personal Auto.

## Model

| member | source | states |
|---|---|---|
| MarketTypes.BusinessTypeName | src/types/market.d.ts:16 | a business type is written as "Personal" or "Commercial", never as the empty string |
| MarketTypes.ParseBusinessType | src/components/ProductDropdown.tsx:18 | only the two exact names are business types, and each reads back as itself |
| Seqs.Filter | src/components/CarrierList.tsx:33-44 | `filter` keeps exactly the elements satisfying the predicate, and never more elements than the input |
| Seqs.FilterMultiset | src/components/CarrierList.tsx:33-44 | `filter` keeps every occurrence of each element satisfying the predicate and no occurrence of any other: counted with repetition, the result holds each kept element as often as the input |
| Seqs.FilterCons | src/components/CarrierList.tsx:33-44 | filtering a list with a first element is filtering that element and then the rest |
| Seqs.FilterIsSubseq | src/components/CarrierList.tsx:33-44 | `filter` keeps the input order: the result is a subsequence of the input |
| Seqs.DisjointFilterSizes | src/components/CarrierList.tsx:38-44 | two filters by predicates that never hold together yield at most as many elements as the input, and exactly as many when every element satisfies one of them |
| QueryParams.Get | src/app/page.tsx:17-19 | `get` is null exactly when no pair has the name, otherwise it is the value of a pair with the name |
| QueryParams.GetFindsFirst | src/app/page.tsx:17-19 | `get` returns the value of the first pair with the name |
| QueryParams.Delete | src/app/page.tsx:31 | `delete` leaves no pair with the name, keeps every other pair, and leaves `get` of every other name unchanged |
| QueryParams.Set | src/app/page.tsx:29 | after `set`, `get` of the name is the new value; other names keep their pairs and values; a new name is appended at the end |
| QueryParams.DeleteIsFilter | src/app/page.tsx:31 | `delete` keeps exactly the pairs with another name, each occurrence, in their order |
| QueryParams.FirstIndex | src/app/page.tsx:29 | the position found carries the name and no earlier position does |
| QueryParams.SetReplacesFirst | src/app/page.tsx:29 | for a name already present, `set` gives the pairs before its first occurrence, the new pair in that place, then the remaining pairs with the name deleted |
| QueryParams.SetLeavesOnePair | src/app/page.tsx:29 | after `set` exactly one pair carries the name: at the position of its first occurrence, or appended last when it was absent |
| QueryParams.Serialize | src/app/page.tsx:35 | the query string is empty exactly when there are no parameters |
| MarketPage.ParamOrEmpty | src/app/page.tsx:17-19 | a missing parameter reads as "", and a present one is taken verbatim |
| MarketPage.ReadSelection | src/app/page.tsx:17-19 | state, type and LOB are the `get` values of `state`, `type` and `lob`, or "" when missing, with no validation |
| MarketPage.ApplyUpdatesSemantics | src/app/page.tsx:24-33 | every key with a non-empty value is set to it; every key with null or "" is absent; every key not in the update keeps its value and pairs |
| MarketPage.TargetUrl | src/app/page.tsx:35-36 | the URL is "/" exactly when there are no parameters, otherwise "/?" followed by the query string |
| MarketPage.UpdateUrl | src/app/page.tsx:24-38 | the loop of `set`/`delete` calls produces the parameters `ApplyUpdates` specifies, and the URL is the target URL of those parameters |
| MarketPage.SelectStateEffect | src/app/page.tsx:41-47 | selecting a state sets `state` and removes `type` and `lob`, with no licensed check; other keys are unchanged |
| MarketPage.SelectBusinessTypeEffect | src/app/page.tsx:50-55 | selecting a business type sets `type` and removes `lob`, even for the current type; `state` and other keys are unchanged |
| MarketPage.SelectLobEffect | src/app/page.tsx:58-60 | selecting an LOB changes only `lob`, and selecting "" removes it |
| MarketPage.VisiblePanels | src/app/page.tsx:63-83 | results are shown iff all three fields are non-empty; the refine panel iff a state is selected and results are not shown; the product dropdown (line 137) iff the refine panel is shown and a type is set |
| MarketPage.HandleStateSelect | src/app/page.tsx:41-47 | the new selection is (code, "", ""), and for a non-empty code only the refine panel is shown |
| MarketPage.HandleBusinessTypeSelect | src/app/page.tsx:50-55 | the new selection keeps the state, takes the type and has no LOB; with a state, the refine panel and dropdown are shown |
| MarketPage.HandleLobSelect | src/app/page.tsx:58-60 | only the LOB changes; with state and type set, results are shown iff the LOB is non-empty |
| MarketPage.SelectionRoundTrip | src/app/page.tsx:17-60 | selecting state c, then type t, then LOB l (non-empty) and reading the query back gives exactly (c, t, l), and only results are shown |
| MarketPage.QueryFromEmpty | src/app/page.tsx:24-60 | from an empty query the three selections produce exactly the pairs `state`, `type`, `lob` in that order |
| CarrierList.CarrierResults | src/components/CarrierList.tsx:26-28 | nothing is rendered exactly when the state, business type or LOB is empty |
| CarrierList.FilterContract | src/components/CarrierList.tsx:33-44 | available is exactly the carriers serving the state and LOB, in dataset order; online is exactly the available carriers tagged "Online"; contact-required is exactly those tagged "Offline" and not "Online"; the buckets are disjoint and ordered; their sizes add to at most the available count, and equal it when every available carrier is tagged |
| CarrierList.Placement | src/components/CarrierList.tsx:33-44 | a carrier of the list is available iff it matches, and then goes online or contact-required according to its tags |
| CarrierList.BothTagsListedOnline | src/components/CarrierList.tsx:38-44 | a matching carrier tagged both ways is listed online and never as contact required |
| CarrierList.SoleOffering | src/components/CarrierList.tsx:33-36 | when one carrier alone offers a line, the available list for that line is that carrier where it operates, and nothing else |
| CarrierList.BusinessTypeIrrelevant | src/components/CarrierList.tsx:26-44 | two complete selections that differ only in business type give identical lists |
| CarrierList.NoCarriersPanel | src/components/CarrierList.tsx:125-140 | the "No carriers available" panel appears iff no carrier matches, and then neither bucket section is shown |
| CarrierList.SplitOn | src/components/CarrierList.tsx:67 | `split(' ')` gives at least one piece, and no piece contains a space |
| CarrierList.JoinSplitOn | src/components/CarrierList.tsx:67 | `split` loses nothing: joining the pieces with the separator gives the input back |
| CarrierList.FirstCharsOfSplit | src/components/CarrierList.tsx:67 | the first characters of the split pieces, with empty pieces contributing nothing, are exactly the characters that start a space-separated word |
| CarrierList.InitialsAreWordStarts | src/components/CarrierList.tsx:67 | the initials are at most 3 characters with no space; they are a prefix of the word-start characters, in order; their length is the number of words when below 3, and 3 otherwise |
| Helpers.LowerChar | src/lib/helpers.ts:5 | an upper-case ASCII letter becomes the lower-case letter 32 code points up; every other character is unchanged |
| Helpers.Lower | src/lib/helpers.ts:5 | lower-casing keeps the length, maps the character at every position by the case mapping, and leaves no upper-case ASCII letter |
| Helpers.TrimStart | src/lib/helpers.ts:6 | the removed prefix is all white space and the result does not start with white space |
| Helpers.TrimEnd | src/lib/helpers.ts:6 | the removed suffix is all white space and the result does not end with white space |
| Helpers.Trim | src/lib/helpers.ts:6 | the trimmed text neither starts nor ends with white space |
| Helpers.TrimRemovesOnlyEndSpace | src/lib/helpers.ts:6 | the input is white space, then the trimmed text, then white space: only leading and trailing white space is removed |
| Helpers.CollapseClean | src/lib/helpers.ts:7 | after the white-space runs are replaced, no white space and no upper-case letter remains |
| Helpers.KeepWordChars | src/lib/helpers.ts:8 | only `\w` characters and `-` remain |
| Helpers.KeepWordCharsIsFilter | src/lib/helpers.ts:8 | every `\w` and `-` character of the input is kept, each occurrence, in order, and nothing else |
| Helpers.SlugChars | src/lib/helpers.ts:3-9 | a slug consists only of lower-case letters, digits, `_` and `-`, and so contains no white space |
| Helpers.SlugifyIdempotent | src/lib/helpers.ts:3-9 | `slugify(slugify(x)) == slugify(x)` |
| Helpers.CollapseRun | src/lib/helpers.ts:7 | each maximal white-space run between two pieces of text becomes exactly one `-` |
| Helpers.HyphensKept | src/lib/helpers.ts:7 | text without white space passes through the run replacement unchanged, so existing hyphens are not merged ("a--b" stays) |
| Helpers.TagKey | src/lib/helpers.ts:15 | the group key is the first tag, or "Other" when there are no tags or the first is ""; it is never empty |
| Helpers.FirstKeyIndex | src/lib/helpers.ts:14-18 | the position of the first carrier with the key, where `forEach` creates its group; no earlier carrier has the key; the list's length when no carrier has it |
| Helpers.FirstKeyIndexSnoc | src/lib/helpers.ts:14-18 | visiting one more carrier keeps the first position of every key already met, and gives a new key the new carrier's position |
| Helpers.GroupByTag | src/lib/helpers.ts:11-23 | each group is exactly the carriers with that key, in input order; no group is empty; every carrier is in the group of its key and in no other; the key order lists each key once, in the order of each key's first carrier, which is the order the groups were created; group sizes sum to the input length |
| MarketStore.Store.constructor | src/store/useMarketStore.ts:14-16 | the store starts at state "", business type "Personal" and LOB "" |
| MarketStore.Store.SetState | src/store/useMarketStore.ts:17 | only the state changes, and one `setState` call is recorded |
| MarketStore.Store.SetBusinessType | src/store/useMarketStore.ts:18 | only the business type changes (the LOB is kept), and one call is recorded |
| MarketStore.Store.SetLob | src/store/useMarketStore.ts:19 | only the LOB changes, and one call is recorded |
| UsaMap.GetStateByCode | src/components/USAMap.tsx:19-21 | the lookup fails exactly when no row has the code, otherwise it returns a row with the code |
| UsaMap.GetStateByCodeFirst | src/components/USAMap.tsx:19-21 | the lookup returns the first row with the code |
| UsaMap.HandleStateClick | src/components/USAMap.tsx:23-28 | a licensed code is written to the store with exactly one `setState` call; an unknown or unlicensed code causes no store update |
| UsaMap.GetStateStyle | src/components/USAMap.tsx:30-52 | unknown or unlicensed codes get gray, not-allowed and opacity 0.7, selected or not; licensed codes get `#1e40af` when selected and `#60a5fa` otherwise; the pointer cursor marks exactly the clickable regions |
| UsaMap.IndexOf | src/components/USAMap.tsx:65 | the position found is where the pattern first occurs, and none is found only when it occurs nowhere |
| UsaMap.ExtractStripsPrefix | src/components/USAMap.tsx:60-65 | for an id beginning `US-`, the code is the id with that first `US-` removed |
| UsaMap.RegionCodesStripPrefix | src/components/USAMap.tsx:95-99 | the region codes are the `US-` ids without their prefix, in document order |
| StateSelector.Renders | src/components/StateSelector.tsx:12-14 | the dialog renders exactly when a state is selected |
| StateSelector.HandleClose | src/components/StateSelector.tsx:17-21 | closing leaves the store at ("", "Personal", "") whatever it held, with the three setter calls in order |
| StateSelector.ContinueDisabledIffNoLob | src/components/StateSelector.tsx:97 | Continue is disabled iff no LOB is selected (the store's business type is never empty) |
| StateSelector.Continue | src/components/StateSelector.tsx:95-97 | an enabled Continue resets the store exactly as close does and hides the dialog; a disabled one changes nothing |
| StateSelector.ChooseBusinessType | src/components/StateSelector.tsx:51 | a business-type button only calls `setBusinessType`, so the LOB is kept and the dialog stays open |
| StateSelector.ChooseLob | src/components/StateSelector.tsx:74 | the select passes the chosen value to `setLOB`, nothing else changes and the dialog stays open |
| StateSelector.LobOptions | src/components/StateSelector.tsx:78-83 | the options are the "" placeholder followed by the catalog's products for the type, in catalog order |
| StateSelector.ContinueAfterOption | src/components/StateSelector.tsx:78-97 | after choosing option i, Continue is enabled iff a real product (not the placeholder) was chosen |
| ProductDropdown.Products | src/components/ProductDropdown.tsx:18 | the products are empty for type "" and are the catalog entry for a known type; they are undefined exactly for a non-empty type the catalog lacks |
| ProductDropdown.Renders | src/components/ProductDropdown.tsx:36 | the dropdown renders exactly for a non-empty business type |
| ProductDropdown.RenderGuard | src/components/ProductDropdown.tsx:18-36 | whenever the page shows the dropdown its guard lets it render, and where the guard hides it the product list is empty |
| ProductDropdown.UnknownTypeLeavesNoProducts | src/components/ProductDropdown.tsx:18-36 | for `?state=CA&type=Foo` the page shows the dropdown while its product list is undefined |
| ProductDropdown.ProductsOrEmpty | src/components/ProductDropdown.tsx:18 | corrected list: the catalog entry for a known type, and empty for anything else |
| ProductDropdown.ProductsOrEmptyAgrees | src/components/ProductDropdown.tsx:18 | the corrected list equals the written one wherever that one is defined |
| ProductDropdown.ButtonLabel | src/components/ProductDropdown.tsx:51 | the button shows the selected LOB, or a non-empty prompt when there is none |
| ProductDropdown.Marked | src/components/ProductDropdown.tsx:66-71 | a product is marked iff it equals the selected LOB |
| ProductDropdown.OpenItems | src/components/ProductDropdown.tsx:58-76 | the open dropdown lists the corrected product list in catalog order, each product marked iff it equals the selected LOB |
| ProductDropdown.MarkedAtMostOne | src/components/ProductDropdown.tsx:66-71 | among distinct products exactly one is marked when the selected LOB is one of them, and none otherwise |
| ProductDropdown.Dropdown.constructor | src/components/ProductDropdown.tsx:15 | the dropdown starts closed |
| ProductDropdown.Dropdown.Toggle | src/components/ProductDropdown.tsx:45 | the toggle flips the open flag |
| ProductDropdown.Dropdown.HandleSelect | src/components/ProductDropdown.tsx:31-34 | selecting calls `onLOBSelect` once with the product and closes the dropdown |
| ProductDropdown.Dropdown.MouseDown | src/components/ProductDropdown.tsx:21-25 | a press outside the rendered dropdown closes it; any other press leaves it as it was |
| CarriersData.DatasetWellFormed | src/data/carriers.ts:3-169 | twenty entries, each with non-empty states within CA, TX and AZ, non-empty lines, and non-empty tags within "Online" and "Offline" |
| CarriersData.IdsUnique | src/data/carriers.ts:3-169 | no two entries share an id |
| CarriersData.OneTwoThreeInsurance | src/data/carriers.ts:85-92 | `123-insurance` is listed online exactly for Arizona and Personal Auto, and never as contact required |
| CarriersData.Gainsco | src/data/carriers.ts:95-102 | `gainsco` is listed as contact required exactly for Texas or Arizona and Personal Auto, and never online |
| CarriersData.OnlyProgressiveCommercialAuto | src/data/carriers.ts:137-144 | Progressive is the only entry offering "Commercial Auto" |
| CarriersData.CommercialAutoIsProgressive | src/data/carriers.ts:137-144 | for any state, the available list for "Commercial Auto" holds Progressive where it operates, and nothing else |
| CarriersData.BothTaggedIds | src/data/carriers.ts:121-168 | the entries tagged both "Online" and "Offline" are exactly state-farm, allstate, mercury and travelers |
| CarriersData.BothTaggedNeverContactRequired | src/data/carriers.ts:121-168 | whatever the selection, none of those four is listed as contact required |

## Left out

- Browser and framework work is not modelled:
  - the SVG fetch and its parsing (USAMap.tsx:11-17);
  - inline style assignment and `innerHTML` replacement (USAMap.tsx:54-104);
  - `router.push` and scroll handling (page.tsx:37);
  - Suspense, React hooks and JSX markup, CSS classes and icons.
  
  `updateURL` returns the target URL instead of navigating.
- The hover fills (USAMap.tsx:74-84) are attached to the parsed document. They are lost when it is serialised to `outerHTML` at line 92, so they are not modelled as behaviour.
- Any link between the two selection variants is not modelled. `page.tsx:76-79` passes props that `USAMap` does not accept, and map clicks go to the store.
- Percent-encoding and form-urlencoded serialisation inside `URLSearchParams` are not modelled. Names and values are opaque strings joined with `=` and `&`.
- The state table (`src/data/states`) and the LOB catalog (`src/data/lobs`) are not part of this model. They are parameters.
- Helpers.Lower: lower-cases only the ASCII letters A-Z. JavaScript's full Unicode case mapping is not modelled (for example U+0130 becomes two characters). The slug properties are therefore stated for this ASCII mapping.
- Helpers.GroupByTag: the result is a Dafny map plus the key creation order. It does not model the ordering JavaScript objects give integer-like keys, or keys that collide with `Object.prototype` members such as "constructor".
- CarrierList.Initials: `word[0]` and `.slice(0, 3)` count UTF-16 code units, while the model counts characters. A name whose word starts with a character outside the Basic Multilingual Plane would give half a surrogate pair in the source and a whole character here.
- ProductDropdown.Products: keys that collide with `Object.prototype` members (for example `type=constructor`) are read as missing. The source would find an inherited function there.
- MarketStore.Store.SetState: the parameter is any string. The source's `'' | 'CA' | 'TX' | 'AZ'` type is a compile-time cast (USAMap.tsx:26) and is not enforced at run time.
- The dialog title `selectedStateData?.name` (StateSelector.tsx:29) and the highlighted business-type button (StateSelector.tsx:53) are display only.
- `src/components/CarrierCard.tsx`, `src/app/layout.tsx` and `next.config.ts` only render or configure, so they are not modelled.

## Findings

| source | as written | input that shows it | evidently intended | confidence | as-written member | corrected member |
|---|---|---|---|---|---|---|
| src/components/ProductDropdown.tsx:18 | `lobs[businessType]` is read with the `type` query parameter, which the page passes unchecked (page.tsx:18, 137-141); an unknown type yields `undefined`, and opening the dropdown evaluates `products.map` (line 61) on it | `/?state=CA&type=Foo`, then a click on the dropdown button | a type the catalog lacks gives an empty product list | not executed | ProductDropdown.UnknownTypeLeavesNoProducts | ProductDropdown.ProductsOrEmptyAgrees |
