# PropertyPins dashboard: a Dafny model

PropertyPins is a small real-estate listing application. A REST service stores
Property records, and a React dashboard lists them, filters them by search text
and type, and adds new ones through a form. This project models the client-side
logic of the dashboard and proves properties about it:

- **Filtering and type options** (`DashboardFilter`). These are the `filtered`
  and `types` values the dashboard page derives from the loaded records, the
  search text and the selected type. They are pure functions. Lemmas prove
  soundness, completeness with multiplicities, order preservation, idempotence,
  insensitivity to case and padding, and the shape of the option list.
- **JavaScript string and array primitives** (`JsString`, `JsSort`). `trim`
  uses the exact ECMAScript white-space and line-terminator set.
  `toLowerCase` covers ASCII letters only. `includes` has a proved
  occurrence characterisation. `new Set` is de-duplication; its
  order is not stated because the result is sorted straight after. The default `sort` is ordering by character, with its
  order proved to be a strict total order.
- **Dashboard page state** (`Dashboard.Page`). This class holds the
  `properties`, `loading`, `query`, selected type, `openAdd` and
  `isSubmitting` state. Its methods model `fetchProperties`,
  `addProperty` and the `onCreated` callback. Every network reply is a
  parameter (`ListReply`, `PostReply`).
- **Add-property form** (`PropertyForm.AddPropertyForm`). This class holds the
  `values`, `error` and `loading` state. It has `update` and an `onSubmit`
  that is split at its `await` into `BeginSubmit` and `CompleteSubmit`, so the
  state while `onCreated` runs can be seen. The outcome of `onCreated` is a
  parameter (`Settled`).

The source's `type` field is called `kind` in the model, because `type` is a
Dafny keyword.

A failed create does not keep the form's values. The dashboard's `onCreated`
(Dashboard.tsx lines 134-145) catches every error, so the promise the form
awaits always resolves, and the form resets its values even when the POST
failed. The dialog stays open. `Dashboard.Page.SubmitForm` states this.

## Model

| member | source | states |
|---|---|---|
| JsString.TrimStart | frontend/src/pages/Dashboard.tsx:57 | the result is the suffix of the input after its leading white space; everything removed is white space and the result does not start with white space |
| JsString.TrimEnd | frontend/src/pages/Dashboard.tsx:57 | the result is the prefix of the input before its trailing white space; everything removed is white space and the result does not end with white space |
| JsString.Trim | frontend/src/pages/Dashboard.tsx:57 | definition with no contract of its own (`TrimStart` then `TrimEnd`); specified by the TrimIsSlice, TrimBlank and TrimIgnoresPadding rows |
| JsString.TrimIsSlice | frontend/src/pages/Dashboard.tsx:57 | `trim` returns one contiguous slice of the query, with only white space cut on either side, and the slice neither starts nor ends with white space |
| JsString.TrimBlank | frontend/src/pages/Dashboard.tsx:57 | a query trims to the empty string exactly when every character of it is white space |
| JsString.TrimIgnoresPadding | frontend/src/pages/Dashboard.tsx:57 | white space added before or after a string does not change its trimmed form |
| JsString.TrimLowerCommute | frontend/src/pages/Dashboard.tsx:57 | trimming then lower-casing equals lower-casing then trimming |
| JsString.ToLower | frontend/src/pages/Dashboard.tsx:57-60 | keeps the length; otherwise a definition (ASCII letters mapped to lower case); specified by the ToLowerIdempotent and TrimLowerCommute rows |
| JsString.ToLowerIdempotent | frontend/src/pages/Dashboard.tsx:57-60 | lower-cased text has no upper-case ASCII letter, and lower-casing it again changes nothing |
| JsString.Includes | frontend/src/pages/Dashboard.tsx:60 | `includes` is true exactly when the needle occurs at some index of the haystack |
| JsString.IncludesEmpty | frontend/src/pages/Dashboard.tsx:60 | the empty string is included in every string |
| JsSort.LexLess | frontend/src/pages/Dashboard.tsx:54 | definition with no contract of its own (the comparison of the default `sort`); specified by the LexLessSpec, LexIrreflexive, LexTransitive and LexTotal rows |
| JsSort.LexLessSpec | frontend/src/pages/Dashboard.tsx:54 | the sort order holds exactly when the first string is a proper prefix of the second, or is smaller at the first differing character |
| JsSort.LexIrreflexive | frontend/src/pages/Dashboard.tsx:54 | no string sorts before itself |
| JsSort.LexTransitive | frontend/src/pages/Dashboard.tsx:54 | the sort order is transitive |
| JsSort.LexTotal | frontend/src/pages/Dashboard.tsx:54 | two strings are ordered one way round exactly when they differ, and never both ways |
| JsSort.Dedupe | frontend/src/pages/Dashboard.tsx:54 | `Array.from(new Set(xs))` holds the same elements as `xs`, each once |
| JsSort.Insert | frontend/src/pages/Dashboard.tsx:54 | inserting adds exactly one copy of the element |
| JsSort.SortStrings | frontend/src/pages/Dashboard.tsx:54 | the sorted array is a permutation of its input |
| JsSort.InsertSorted | frontend/src/pages/Dashboard.tsx:54 | inserting into a sorted list keeps it sorted |
| JsSort.SortStringsSorted | frontend/src/pages/Dashboard.tsx:54 | the sort output is ordered: no element is smaller than one before it |
| JsSort.InsertStrictlySorted | frontend/src/pages/Dashboard.tsx:54 | inserting a new element into a strictly sorted list keeps it strictly sorted |
| JsSort.SortStringsStrict | frontend/src/pages/Dashboard.tsx:54 | sorting a list without duplicates gives a strictly increasing list |
| JsSort.StrictlySortedUnique | frontend/src/pages/Dashboard.tsx:54 | two strictly sorted lists with the same elements are equal, so the options do not depend on the sorting algorithm |
| DashboardFilter.NormalizeQuery | frontend/src/pages/Dashboard.tsx:57 | definition with no contract of its own (`query.trim().toLowerCase()`); specified by the QueryCaseInsensitive, QueryPaddingIgnored and ShowAllWhenBlank rows |
| DashboardFilter.MatchesType | frontend/src/pages/Dashboard.tsx:59 | definition with no contract of its own; specified by the FilteredSound, FilteredComplete and TypeCaseInsensitive rows |
| DashboardFilter.MatchesQuery | frontend/src/pages/Dashboard.tsx:60 | definition with no contract of its own; specified by the FilteredSound and FilteredComplete rows, with `includes` as in the Includes row |
| DashboardFilter.FilterBy | frontend/src/pages/Dashboard.tsx:58-62 | every record `filter` keeps comes from the loaded list and passes both the type and the query predicate; the result is no longer than the input |
| DashboardFilter.Filtered | frontend/src/pages/Dashboard.tsx:56-63 | definition with no contract of its own (the `filtered` memo); specified by the FilteredSound, FilteredComplete, FilterByCount, FilteredKeepsOrder and FilteredIdempotent rows |
| DashboardFilter.FilteredSound | frontend/src/pages/Dashboard.tsx:58-61 | every shown record is a loaded record that matches the selected type and the trimmed, lower-cased query |
| DashboardFilter.FilterByCount | frontend/src/pages/Dashboard.tsx:58-62 | each record occurs in the result as often as in the input when it passes, and not at all otherwise |
| DashboardFilter.FilteredComplete | frontend/src/pages/Dashboard.tsx:58-61 | every loaded record that matches both predicates is shown |
| DashboardFilter.FilterByKeepsOrder | frontend/src/pages/Dashboard.tsx:58 | the kept records form a subsequence of the input, in the input's relative order |
| DashboardFilter.FilteredKeepsOrder | frontend/src/pages/Dashboard.tsx:58 | the shown list is a subsequence of the loaded list |
| DashboardFilter.FilterByKeepsAll | frontend/src/pages/Dashboard.tsx:58-62 | when every record passes, filtering returns the list unchanged |
| DashboardFilter.ShowAllWhenBlank | frontend/src/pages/Dashboard.tsx:57-60 | with type "all" and a query made only of white space (so empty after trimming), the shown list equals the loaded list |
| DashboardFilter.FilteredIdempotent | frontend/src/pages/Dashboard.tsx:56-63 | filtering the filtered list again with the same query and type changes nothing |
| DashboardFilter.FilterByAgrees | frontend/src/pages/Dashboard.tsx:58-62 | two filters that keep the same loaded records give the same list |
| DashboardFilter.QueryCaseInsensitive | frontend/src/pages/Dashboard.tsx:57 | queries with the same lower-case form show the same records |
| DashboardFilter.QueryPaddingIgnored | frontend/src/pages/Dashboard.tsx:57 | leading or trailing white space in the query does not change what is shown |
| DashboardFilter.TypeCaseInsensitive | frontend/src/pages/Dashboard.tsx:59 | two selections other than the "all" sentinel with the same lower-case form show the same records |
| DashboardFilter.TypeOptions | frontend/src/pages/Dashboard.tsx:54 | definition with no contract of its own (the `types` memo); specified by the TypeOptionsSpec and TypeOptionsUnique rows |
| DashboardFilter.TypeOptionsSpec | frontend/src/pages/Dashboard.tsx:54 | the options start with "all"; the rest is strictly sorted, contains every record's type and nothing else |
| DashboardFilter.TypeOptionsUnique | frontend/src/pages/Dashboard.tsx:54 | any strictly sorted list of exactly the record types equals the options after "all" |
| DashboardFilter.CaseVariantsListedSeparately | frontend/src/pages/Dashboard.tsx:54 | the distinct set is case-sensitive: "House" and "house" are both offered |
| DashboardFilter.SentinelCanRepeat | frontend/src/pages/Dashboard.tsx:54 | a record whose type is "all" puts "all" in the options twice |
| Dashboard.Page.constructor | frontend/src/pages/Dashboard.tsx:13-19 | the page starts with no records, loading, an empty query, type "all", the dialog closed and no create in flight |
| Dashboard.Page.Visible | frontend/src/pages/Dashboard.tsx:56-63 | definition with no contract of its own: the `filtered` memo of the current state; the SetQuery and SetType rows state how it changes |
| Dashboard.Page.Options | frontend/src/pages/Dashboard.tsx:54 | definition with no contract of its own: the `types` memo of the current records; the SetQuery and SetType rows state that it does not change |
| Dashboard.Page.SetQuery | frontend/src/pages/Dashboard.tsx:81 | the search box sets the query and nothing else; the shown cards become the filter of the same records with the new query, and the type options do not change |
| Dashboard.Page.SetType | frontend/src/pages/Dashboard.tsx:91 | the selector sets the selected type and nothing else; the shown cards become the filter of the same records with the new type, and the type options do not change |
| Dashboard.Page.SetOpenAdd | frontend/src/pages/Dashboard.tsx:119 | the dialog's open-change handler sets `openAdd` and nothing else |
| Dashboard.Page.FetchProperties | frontend/src/pages/Dashboard.tsx:22-34 | afterwards loading is false; a reply that arrived, was ok and parsed replaces the records with its body, and an unreachable service, a non-ok status or a parse failure leaves them unchanged |
| Dashboard.Page.AddProperty | frontend/src/pages/Dashboard.tsx:41-52 | `addProperty` rejects exactly when the POST did not answer ok: with the network error's message when there was no response, with "Failed to create property" on a non-ok status, and then nothing changes; a successful POST refetches and resolves even when the refetch fails |
| Dashboard.Page.OnCreated | frontend/src/pages/Dashboard.tsx:134-145 | always resolves; afterwards no create is in flight; the dialog closes on success and is otherwise unchanged; on failure the records are unchanged |
| Dashboard.Page.SubmitForm | frontend/src/pages/Dashboard.tsx:133-146 | a form submit in the dialog passes the form's values to `onCreated` only when they pass the presence check; a failed check sets the form's message and changes nothing else on either side; otherwise the form always resets and stops loading, even when the POST failed, the dialog closes only on a successful POST, the records follow the refetch, and the query and type are untouched throughout |
| PropertyForm.Get | frontend/src/components/dev/addPropertyForm.tsx:28 | reading a field returns a value tagged with that field's key |
| PropertyForm.With | frontend/src/components/dev/addPropertyForm.tsx:28-30 | the named field takes the new value and every other field keeps its old one |
| PropertyForm.WithCurrentValue | frontend/src/components/dev/addPropertyForm.tsx:28-30 | writing a field's current value back changes nothing |
| PropertyForm.WithCommutes | frontend/src/components/dev/addPropertyForm.tsx:28-30 | updates to different fields commute; of two updates to the same field, the later one wins |
| PropertyForm.PassesPresenceCheck | frontend/src/components/dev/addPropertyForm.tsx:35 | definition with no contract of its own (the truthiness test of name, type, price and location); specified by the InitialDraftRejected and PriceCheckIsTruthiness rows |
| PropertyForm.InitialDraftRejected | frontend/src/components/dev/addPropertyForm.tsx:17-26 | submitting the untouched form never passes the presence check |
| PropertyForm.PriceCheckIsTruthiness | frontend/src/components/dev/addPropertyForm.tsx:35 | with the text fields filled, the check passes exactly when the price is not 0, so a negative price passes |
| PropertyForm.FailureText | frontend/src/components/dev/addPropertyForm.tsx:53 | the error text is the rejection's message when one is present and non-empty, and "Failed to add property" when it is missing or empty; it is never empty |
| PropertyForm.AddPropertyForm.constructor | frontend/src/components/dev/addPropertyForm.tsx:15-26 | the form starts with the initial record, no error and not loading |
| PropertyForm.AddPropertyForm.Update | frontend/src/components/dev/addPropertyForm.tsx:28-30 | `update(k, v)` sets field k to v and leaves every other field, the error and loading unchanged |
| PropertyForm.AddPropertyForm.BeginSubmit | frontend/src/components/dev/addPropertyForm.tsx:32-41 | the error is cleared; when the check fails it is set to the fixed message and loading is untouched; otherwise loading becomes true and `onCreated` receives exactly the current values |
| PropertyForm.AddPropertyForm.CompleteSubmit | frontend/src/components/dev/addPropertyForm.tsx:41-56 | on resolve the values reset to the initial record; on reject the values are kept and the error is the failure text; loading ends false either way |
| PropertyForm.AddPropertyForm.OnSubmit | frontend/src/components/dev/addPropertyForm.tsx:32-57 | the whole submit: `onCreated` is called with the current values only when the check passes; the resulting values, error and loading are as for the two halves |

## Left out

- Rendering: the JSX, dialogs, the skeleton grid, option-label capitalisation, toasts, the details modal and the property card are not modelled.
- The listing service (backend/server.js) and its database schema validation are not part of this model. Replies from it are parameters.
- `fetch`, JSON parsing and the scheduling of `async`/`await` are not modelled. A JSON body is either a list of well-typed records or a parse failure. Any other JSON shape the service might send is not modelled.
- The mount effect (Dashboard.tsx lines 36-38) is the constructor followed by one `FetchProperties`. Overlapping fetches are not modelled, because the model is sequential.
- JsString.ToLower: lower-cases only the ASCII letters A-Z, because full Unicode case mapping is out of scope.
- JsSort.LexLess: compares Unicode scalar values rather than UTF-16 code units. The two orders differ only for characters outside the Basic Multilingual Plane.
- PropertyForm.PassesPresenceCheck: a price is a whole number here. NaN, which the source also rejects, and fractional prices are not modelled. Coordinates are kept as opaque optional reals.
- The message of the network error `fetch` rejects with is browser-specific; it is a parameter of `PostUnreachable`. It never reaches the form, because `onCreated` catches it.
- The `selected` card state and `DetailsModal` are display only and are not modelled.
