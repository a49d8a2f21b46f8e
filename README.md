# Rick and Morty dashboard — verified model of its core logic

This project models, in Dafny, the logic of a Next.js dashboard over the Rick and Morty GraphQL
API:

- the data-access services, which fetch characters and locations page by page, validate every
  response, walk all pages of a collection, and wrap every failure in a prefixed message;
- the normalisation of the pagination block, where `null` becomes 0;
- the Fisher–Yates shuffle of the chart palette;
- the label rule of the pie chart;
- the selection and hover state shared by the pie chart and its legend;
- the avatar's image fallback chain and its render decision.

The GraphQL client is a parameter of the model. It is a total function from query variables to
either a payload or a thrown value. A payload is either accepted or rejected by the response
schema. `Math.random` is a parameter too: a function from the call number to a value in [0, 1).

Modules follow the source files:

- `Pagination`: `schemas/shared.ts`.
- `Fetching`: the fetch-validate-or-wrap body common to every service, and `Promise.all`.
- `PageWalker`: the page walk that `getAllCharacters` and `getAllLocations` share.
- `CharacterService` and `LocationService`: the two service files.
- `Entities`: the response types.
- `Colors`: `utils/colors.ts`.
- `PieHelpers` and `Pie`: `ui/pie`.
- `Avatar`: `ui/avatar`.

Shapes:

- The page walk is a method with a loop over the joined pages.
- The shuffle works in place on a Dafny `array`.
- The pie provider and the pie component state are classes whose methods update their fields.
- The avatar is a class whose `OnError` updates `imgSrc`.
- `Pie.StandaloneClicks`, `Pie.SharedSelection` and `Avatar.BrokenImageWithInitials` are scenario methods. Each drives the classes through a sequence of events and states what the user sees.
- Everything else is a function.

## Model

| member | source | states |
|---|---|---|
| Wrappers.Coalesce | src/app/ui/pie/pie.tsx:54-58 | `a ?? b`: the first operand when it is defined, the second otherwise |
| Pagination.NullableNumber | src/app/data-access/schemas/shared.ts:3-6 | `null` becomes 0 and any number passes unchanged |
| Pagination.NormalizeInfo | src/app/data-access/schemas/shared.ts:11-16 | each of `count`, `pages`, `next` and `prev` is normalised by the nullable-number rule |
| Pagination.NormalizeExact | src/app/data-access/schemas/shared.ts:3-16 | a block without `null` survives normalisation unchanged; an all-`null` block becomes all zeros |
| Pagination.NormalizeIdempotent | src/app/data-access/schemas/shared.ts:3-16 | normalising an already normalised block changes nothing |
| Pagination.FieldsIndependent | src/app/data-access/schemas/shared.ts:11-16 | changing the raw `pages` field changes only the normalised `pages` field |
| Fetching.Describe | src/app/data-access/services/character.ts:35-39 | an `Error`'s message, or "Unknown error" for any other thrown value |
| Fetching.Guarded | src/app/data-access/services/character.ts:24-40 | the call succeeds iff the query resolves and the schema accepts `data`; a throw becomes `prefix` + its description; a schema rejection becomes `prefix` + the issue; every error starts with `prefix` |
| Fetching.Validated | src/app/data-access/services/character.ts:30 | validation keeps the results and normalises the info block; a `null` page count becomes 0 |
| Fetching.FetchPage | src/app/data-access/services/location.ts:17-37 | a list call succeeds iff the query is accepted, returns the validated page, and prefixes every error |
| Fetching.JoinAll | src/app/data-access/services/character.ts:94-96 | `Promise.all` succeeds iff every request does, then gives every value in input order; otherwise it fails with the error of the first failed request |
| Fetching.FirstFailure | src/app/data-access/services/character.ts:94-96 | the position of the first failed request: every earlier request succeeded, and the one there failed, unless none did |
| PageWalker.RemainingPages | src/app/data-access/services/character.ts:89-92 | the pages after the first are exactly 2..pages, in order; none when pages ≤ 1 |
| PageWalker.Requests | src/app/data-access/services/character.ts:94-96 | one request per remaining page, in order, each with the page number and the caller's filter |
| PageWalker.Responses | src/app/data-access/services/character.ts:95 | one response per requested page, in request order, each asked with the same filter |
| PageWalker.RequestedPages | src/app/data-access/services/character.ts:84-96 | a walk requests pages 1..max(1, pages) in order, and only page 1 when page 1 fails |
| PageWalker.FlattenAppend | src/app/data-access/services/character.ts:98-100 | concatenating the results of two runs of pages is the results of the joined run |
| PageWalker.FlattenLength | src/app/data-access/services/character.ts:86-100 | the collected results are exactly as many as the pages' results together |
| PageWalker.FlattenAt | src/app/data-access/services/character.ts:86-100 | result `j` of page `p` sits right after all the results of the earlier pages |
| PageWalker.FetchAllPages | src/app/data-access/services/character.ts:83-103 | the walk requests page 1 with the caller's filter, then pages 2..pages with the same filter, each once; it returns all results in page order when every page succeeds, and otherwise `prefix` + the error of one failed page |
| PageWalker.AppendResults | src/app/data-access/services/character.ts:98-100 | the loop appends the results of every page, in page order, after what was collected before |
| PageWalker.RequestedInOrder | src/app/data-access/services/character.ts:84-96 | page 1's request followed by those for pages 2..pages are the requests for pages 1, 2, … in order |
| PageWalker.RemainingFailed | src/app/data-access/services/character.ts:94-111 | when page 1 succeeds and the join of the remaining pages fails, the prefixed join error is an admissible outcome of the walk |
| PageWalker.FailedAt | src/app/data-access/services/character.ts:94-111 | the failure of any requested page is an admissible outcome of the walk |
| PageWalker.SucceededWith | src/app/data-access/services/character.ts:86-100 | with page 1 and the join succeeding, the walk returns page 1's results followed by the others' |
| PageWalker.JoinedWalk | src/app/data-access/services/character.ts:84-96 | page 1 followed by the joined remaining pages is the join of the whole walk |
| PageWalker.SinglePageWalk | src/app/data-access/services/character.ts:86-103 | when page 1 reports at most one page, the walk returns exactly page 1's results |
| PageWalker.AllOrNothing | src/app/data-access/services/character.ts:94-111 | the walk succeeds iff every requested page succeeds; when it fails some requested page failed and nothing partial is returned |
| PageWalker.WalkInPageOrder | src/app/data-access/services/character.ts:86-100 | a successful walk returns as many results as its pages hold, and result `j` of page `p` sits right after all the results of pages 1..p-1 |
| PageWalker.PageInOrder | src/app/data-access/services/character.ts:94-100 | result `j` of the `k`-th joined page sits right after all the results of the pages before it |
| PageWalker.JoinedInOrder | src/app/data-access/services/character.ts:94-100 | the same position rule, stated on the joined pages and their concatenation |
| PageWalker.JoinedAt | src/app/data-access/services/character.ts:94-96 | the `k`-th value of a successful join is the value of the `k`-th request |
| PageWalker.ResponseAt | src/app/data-access/services/character.ts:84-96 | the `p`-th response of a walk answers the request for page `p` |
| PageWalker.NotCollectedWhenFailed | src/app/data-access/services/character.ts:94-111 | a single failing requested page leaves no collection |
| PageWalker.FailedWalkCollectsNothing | src/app/data-access/services/character.ts:94-111 | a walk that ends in an error has collected nothing |
| CharacterService.GetCharacters | src/app/data-access/services/character.ts:21-41 | a validated page with normalised info, or "Failed to fetch characters: " + the cause's message or "Unknown error" |
| CharacterService.GetCharacter | src/app/data-access/services/character.ts:51-71 | the validated character with its episodes, or "Failed to fetch character: " + the cause |
| CharacterService.GetAllCharacters | src/app/data-access/services/character.ts:80-112 | the page walk over `getCharacters` with the caller's filter; every error reads "Failed to fetch all characters: Failed to fetch characters: …" |
| CharacterService.NullPagesFetchesFirstPageOnly | src/app/data-access/schemas/shared.ts:6 | a `null` page count on page 1 makes the walk request only page 1 and return its results |
| LocationService.GetLocations | src/app/data-access/services/location.ts:17-37 | a validated page of locations, or "Failed to fetch locations: " + the cause |
| LocationService.GetAllLocations | src/app/data-access/services/location.ts:46-78 | the page walk over `getLocations`; every error reads "Failed to fetch all locations: Failed to fetch locations: …" |
| LocationService.WithResidentCount | src/app/data-access/services/location.ts:101-107 | one record per location in the same order, `id`, `name`, `type` and `dimension` copied, `residentCount` the number of residents |
| LocationService.GetLocationsWithResidentCount | src/app/data-access/services/location.ts:87-116 | succeeds iff the whole walk collects, and then projects it; otherwise the error is "Failed to fetch locations with resident count: " followed by an error the walk of locations admits, which is its own two prefixes and then the error of a failed page |
| Colors.Pick | src/app/utils/colors.ts:91 | the index drawn at step `i` lies in 0..i |
| Colors.PickIsFloorOfProduct | src/app/utils/colors.ts:91 | the drawn index is the floor of the draw times `i + 1` |
| Colors.ScaledIsProduct | src/app/utils/colors.ts:91 | the repeated sum used for `Math.random() * (i + 1)` equals the product |
| Colors.ScaledBelow | src/app/utils/colors.ts:91 | a draw in [0, 1) times `n` lies in [0, n) |
| Colors.Swap | src/app/utils/colors.ts:92 | the destructuring swap exchanges positions `i` and `j` and leaves every other position alone |
| Colors.ShuffleFrom | src/app/utils/colors.ts:90-93 | the loop from counter `i` keeps the length |
| Colors.Shuffle | src/app/utils/colors.ts:88-95 | the whole shuffle keeps the length |
| Colors.SwapPermutes | src/app/utils/colors.ts:92 | a swap is a permutation |
| Colors.ShufflePermutes | src/app/utils/colors.ts:90-93 | the shuffle is a permutation: every element as often as before |
| Colors.ShuffleKeepsSettled | src/app/utils/colors.ts:90-92 | positions above the loop counter are never touched again |
| Colors.ShortArraysUnchanged | src/app/utils/colors.ts:90 | arrays of length 0 or 1 come back unchanged |
| Colors.ShuffleArray | src/app/utils/colors.ts:88-95 | returns a new array, leaves the argument unchanged, holds the shuffle of the argument and is a permutation of it |
| Colors.Copy | src/app/utils/colors.ts:89 | `[...array]` is a new array with the same elements |
| Colors.ShuffleInPlace | src/app/utils/colors.ts:90-93 | the loop leaves the array holding the shuffle of what it held before |
| Colors.SwapAt | src/app/utils/colors.ts:92 | the destructuring swap on the array leaves it holding the swapped sequence |
| Colors.ShuffleStep | src/app/utils/colors.ts:90-93 | one loop turn leaves the rest of the loop to finish the shuffle |
| Colors.SwappedInPlace | src/app/utils/colors.ts:92 | the in-place swap leaves the array holding the swapped sequence |
| Colors.RandomColors | src/app/utils/colors.ts:97-99 | a new array holding the shuffle of the palette |
| Colors.RandomColorsArePalette | src/app/utils/colors.ts:97-99 | every result holds the palette colours, each exactly as often as the palette does |
| Colors.PaletteSize | src/app/utils/colors.ts:1-82 | the palette has 80 colours, and so has every result |
| PieHelpers.Round | src/app/ui/pie/pie.helpers.ts:2 | `Math.round`: the integer nearest to `x`, with halves rounded up |
| PieHelpers.FontPixels | src/app/ui/pie/pie.helpers.ts:8-12 | the font size lies between 4 and 8 pixels |
| PieHelpers.Px | src/app/ui/pie/pie.helpers.ts:8-12 | the CSS length is the digit followed by "px" |
| PieHelpers.FormatLabelPercentage | src/app/ui/pie/pie.helpers.ts:1-18 | no label iff the rounded value is below 2; otherwise the rounded percentage with 4px below 3, 5px below 5, 6px below 7, 7px below 10 and 8px from 10 |
| PieHelpers.FontSizeMonotone | src/app/ui/pie/pie.helpers.ts:8-12 | a larger percentage never gets a smaller font |
| PieHelpers.LabelMonotone | src/app/ui/pie/pie.helpers.ts:1-18 | a larger value is labelled whenever a smaller one is, and never in a smaller font |
| PieHelpers.Examples | src/app/ui/pie/pie.helpers.test.ts:6-26 | 0.5 has no label; 2, 3, 5, 7 and 10 get 4px, 5px, 6px, 7px and 8px |
| Pie.Toggle | src/app/ui/pie/pie.tsx:91-97 | a click clears the selection iff it hits the selected index, and otherwise selects that index |
| Pie.ToggleAlternates | src/app/ui/pie/pie.tsx:91-97 | from any selection other than the segment, a click selects it, a second clears it and a third selects it again |
| Pie.Highlight | src/app/ui/pie/pie.tsx:60-84 | same length and order as the data with every item kept; the shadow exactly on the selected index; opacity 0.4 exactly on dimmed items; 1 otherwise |
| Pie.Legend | src/app/ui/pie/pie.tsx:199-216 | one row per item in order; marked selected exactly on the selected index; inactive exactly when dimmed |
| Pie.ChartAndLegendAgree | src/app/ui/pie/pie.tsx:199-216 | under the same state, a chart segment has the shadow iff its legend row is selected, and fades iff its row is inactive |
| Pie.AtMostOneShadow | src/app/ui/pie/pie.tsx:61-75 | no two segments carry the selection shadow |
| Pie.IdleChartIsPlain | src/app/ui/pie/pie.tsx:60-66 | with nothing selected or hovered, nothing is dimmed |
| Pie.OutOfRangeSelectionFades | src/app/ui/pie/pie.tsx:61-65 | a selection past the last segment dims every segment that is not hovered |
| Pie.SegmentShift | src/app/ui/pie/pie.tsx:86-89 | the shift is 3 exactly at the selected index and 0 elsewhere |
| Pie.ShiftTotal | src/app/ui/pie/pie.tsx:86-89 | the shifts add up to 3 when the selection names a segment and to 0 otherwise |
| Pie.GridColumns | src/app/ui/pie/pie.tsx:185-196 | vertical with 1, 2 or more than 2 columns gives the 1-, 2- or 3-column set; horizontal gives the 5-column set whatever `columns` is; vertical with fewer than 1 column gives none |
| Pie.LegendGrid | src/app/ui/pie/pie.tsx:153-196 | an absent `orientation` is vertical and an absent `columns` is 1, whatever the orientation: a legend given neither prop is a single column, and one given only an orientation gets that orientation's grid for one column |
| Pie.ColumnsThatMatter | src/app/ui/pie/pie.tsx:185-196 | a horizontal legend ignores `columns`; a vertical one gives 1, 2 and 3 distinct grids, and every value above 2 the same grid |
| Pie.Provider.constructor | src/app/ui/pie/pie.tsx:272-283 | the provider starts with nothing selected or hovered |
| Pie.SegmentState.constructor | src/app/ui/pie/pie.tsx:46-53 | the component's own cells start undefined |
| Pie.SegmentState.Selected | src/app/ui/pie/pie.tsx:54-54 | the effective selection is the provider's, else the `selected` prop, else the component's own |
| Pie.SegmentState.Hovered | src/app/ui/pie/pie.tsx:57-57 | the effective hover is the provider's, else the component's own |
| Pie.SegmentState.SetSelected | src/app/ui/pie/pie.tsx:55-56 | writes the provider when there is one, else hands the value to `onSelect` when given, else writes the own cell; nothing else changes |
| Pie.SegmentState.SetHovered | src/app/ui/pie/pie.tsx:58-58 | writes the provider's hover when there is one, else the own cell; nothing else changes |
| Pie.SegmentState.Click | src/app/ui/pie/pie.tsx:91-97 | routes the toggle of the effective selection through `setSelected` |
| Pie.SegmentState.MouseOver | src/app/ui/pie/pie.tsx:213-213 | the hovered index becomes the effective hover; the effective selection, the provider's selection, the component's own selection and the `onSelect` calls are unchanged |
| Pie.SegmentState.MouseOut | src/app/ui/pie/pie.tsx:214-214 | the effective hover becomes undefined; the effective selection, the provider's selection, the component's own selection and the `onSelect` calls are unchanged |
| Pie.SharedProviderAgrees | src/app/ui/pie/pie.tsx:53-58 | two components under one provider with the same `selected` prop show the same selection and hover |
| Pie.StandaloneClicks | src/app/ui/pie/pie.tsx:46-97 | without provider or props, a click selects a segment and a second click clears it |
| Pie.SharedSelection | src/app/ui/pie/pie.tsx:272-283 | a chart and a legend under one provider, as on the species report: a legend click selects the chart's segment, a legend hover highlights it, and a chart click clears the legend's selection |
| Avatar.Render | src/app/ui/avatar/avatar.tsx:59-95 | a truthy `imgSrc` gives that image with an error handler; else truthy initials give the initials; else the default picture without a handler; the trailing `null` is never reached |
| Avatar.AfterError | src/app/ui/avatar/avatar.tsx:27-33 | a failure switches to the fallback exactly when `imgSrc` is still `src`, and drops the image otherwise |
| Avatar.ErrorsSettle | src/app/ui/avatar/avatar.tsx:14-33 | from a present `src` other than the fallback, one failure shows the fallback and any further failure leaves no image; when `src` is the fallback, failures never change it |
| Avatar.DroppedStaysDropped | src/app/ui/avatar/avatar.tsx:27-33 | once the image is dropped, further failures leave it dropped |
| Avatar.SecondFailureIsFinal | src/app/ui/avatar/avatar.tsx:27-95 | after the fallback fails, nothing on screen can report another failure |
| Avatar.AvatarState.constructor | src/app/ui/avatar/avatar.tsx:25 | `imgSrc` starts as `src` |
| Avatar.AvatarState.View | src/app/ui/avatar/avatar.tsx:43-48 | the avatar always shows something, and what it shows can report a load failure exactly when `imgSrc` is truthy |
| Avatar.AvatarState.OnError | src/app/ui/avatar/avatar.tsx:27-33 | the state moves by the fallback transition |
| Avatar.BrokenImageWithInitials | src/app/ui/avatar/avatar.test.tsx:44-56 | a broken image with initials shows the fallback after one failure and the initials after the second |
| Avatar.NoImageNoInitials | src/app/ui/avatar/avatar.tsx:80-92 | with no image and no initials, the default picture shows, and it has no error handler |

## Left out

- The GraphQL client, its cache and the network are not part of this model. Each query is a total function from variables to a payload or a thrown value.
- The zod response schemas are not part of this model. Validation is a payload the schema either accepts or rejects with an issue, and the issue stands for the validation error's message.
- `console.error` logging in the services is not modelled, because it has no observable effect on results.
- Fetching.JoinAll: `Promise.all` rejects with the first rejection in time, which depends on completion order. The model takes the first failure in page order. `PageWalker.Walked`, the description of a walk's outcome, still admits the error of any failed page.
- The remaining-page requests run concurrently in the source. The model issues them in page order, which is the only order the results can observe.
- Numbers are modelled as unbounded integers (`pages`, `count`, segment values, legend `columns`) or as reals (percentages, random draws). Floating-point rounding is not modelled. `Math.round` is `Floor(x + 0.5)` over the reals.
- Colors.ShuffleArray: the uniform distribution of the shuffle is not modelled. `Math.random` is any function from the call number to a `Draw`, a real in [0, 1).
- Pie.SegmentState: `onSelect` is code of the parent. Its calls are recorded in `notified`, and the parent's later re-render with a new `selected` prop is not modelled. Props are fixed for the component's life.
- JSX markup and the class strings assembled by `cn` are not modelled, apart from the legend's grid columns. The chart drawing of `react-minimal-pie-chart` and the percentage it computes per segment are not modelled either.
- Avatar.AvatarState: `src` is fixed for the component's life. In the source a new `src` prop does not reset `imgSrc`, because `useState` reads its argument only once, but `onError` compares `imgSrc` with the current prop. After a `src` change the old image keeps showing, and its first failure drops straight to the initials without trying the fallback. The model does not capture that sequence. The `size` classes and `next/image` loading are not modelled.
- The infinite-scroll list loader and the species aggregation of the reports page are not part of this model.
