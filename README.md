# SearchSpot search engines, in Dafny

SearchSpot is a Firefox add-on that replaces the browser's search box with a
panel that queries several search engines at once. This project models its
core in Dafny and proves properties of the model:

- **The engine record** (`SearchEngine` in `lib/browser-search-engine.js`).
  An engine keeps its site, host, name, query URL, optional suggestion URL and
  icon, plus a mutable tag list. Its URL templates are filled by replacing the
  first `{searchLocation}` and then the first `{searchTerms}` with
  URI-encoded values. `removeTag` is `splice(indexOf(tag), 1)`.
- **The registry** (`BrowserSearchEngines`). It has two parts:
  - the persisted store, an engine per host;
  - the tag index, which maps each tag to an array of engines.
  Adding an engine updates or appends its slot under each of its tags, then
  stores it. Removing a tag from an engine deletes the engine's array slot,
  which leaves a hole. Removing an engine touches the store only. Lookups go
  by engine or host, and by tag, with `_default` when no tag is given.
- **The system-event mapping** (`SystemBrowserSearchEngines._observer`). It
  turns the browser's search-service notifications into `removed`, `added`,
  `changed` and `current` events. The registry listens to `added` and
  `changed` only.
- **The search box handler** (`openpanel` in `lib/main.js`):
  - it decides which panel to open;
  - it sends the arrow keys and Enter to the open panel;
  - it schedules a refresh only when the query changed;
  - the refresh asks each `_default` engine that has a suggestion URL.
- **The reply handler.** It drops a stale reply. Yelp's body is passed through.
  Other replies are normalised into at most three `{title, url}` results that
  skip the typed terms; Wikipedia results link to the article.
- **The panel resize clamp.**

Engines are a Dafny `class`, because the store and every tag array share the
same engine objects. `appendTag`/`removeTag` therefore show through all of
them. The registry is a class whose fields are:

- `storage`: the persisted store;
- `buckets`: the tag index, whose arrays hold `Filled(engine)` or `Hole`;
- `tagOrder`: the key order of the index object.

Its methods are proved against pure functions (`Upsert`, `UpsertTags`,
`Enrolled`, `HoleFirst`, `WithoutTag`, `GetURL`, `Normalise`, `RequestsFor`),
and lemmas state what those functions promise.

`encodeURIComponent` is a parameter `enc`. The geolocated address is a
parameter `geoAddress`. The text box value, the panel's visibility and the
key code are parameters of the handler.

Behaviour of the code worth knowing:

- the registry has no listener for `removed`, so an engine removed or hidden
  in the browser stays registered;
- the reply handler filters out the typed terms before it applies the cap of
  three, so an exact match does not use up a place;
- `remove` leaves the tag arrays as they are;
- when storage already exists at start-up, `_init` is not run and the tag
  index starts empty.

## Model

| member | source | states |
|---|---|---|
| UrlTemplate.FindFirst | lib/browser-search-engine.js:206-211 | the first index where the pattern occurs, or none when it occurs nowhere (what `String.replace` with a string pattern locates) |
| UrlTemplate.ReplaceFirst | lib/browser-search-engine.js:206-211 | `String.replace` with a string pattern: no occurrence leaves the string as it is; otherwise the text before the first occurrence is kept, the replacement follows, and then the text after the occurrence |
| UrlTemplate.ShiftMatches | lib/browser-search-engine.js:206-211 | an occurrence at j in s is exactly an occurrence at j-1 in s without its first character |
| UrlTemplate.FirstMatchAt | lib/browser-search-engine.js:206-211 | an occurrence with no earlier occurrence of the pattern's first character is the one replaced |
| UrlTemplate.FirstMatchIs | lib/browser-search-engine.js:206-211 | an occurrence with no occurrence before it is the first one |
| UrlTemplate.ReplaceAt | lib/browser-search-engine.js:206-211 | when the first occurrence follows a known prefix, replacing it splices the replacement between that prefix and the rest |
| UrlTemplate.NoMatchWithoutFirstChar | lib/browser-search-engine.js:206-211 | a string without the pattern's first character has no occurrence |
| Engine.IndexOf | lib/browser-search-engine.js:202-204 | `indexOf`: -1 exactly when absent, otherwise the first position holding the tag |
| Engine.SpliceOne | lib/browser-search-engine.js:202-204 | `splice(start, 1)`: one element is removed unless the list is empty or the start is past its end, and only elements of the list remain; an in-range start removes exactly that position |
| Engine.WithoutTag | lib/browser-search-engine.js:202-204 | `removeTag` always removes exactly one tag from a non-empty list, and only tags of the list remain |
| Engine.RemovePresentTag | lib/browser-search-engine.js:202-204 | removing a present tag deletes its first occurrence only; the multiset loses exactly one copy |
| Engine.RemoveAbsentTagDropsLast | lib/browser-search-engine.js:202-204 | removing an absent tag is `splice(-1, 1)`, which drops the last tag |
| Engine.RemoveUndoesAppend | lib/browser-search-engine.js:199-204 | removing a freshly appended new tag restores the old list |
| Engine.Located | lib/browser-search-engine.js:213-224 | an empty location falls back to the geolocated address |
| Engine.GetURL | lib/browser-search-engine.js:206-211 | a template with neither placeholder comes back unchanged |
| Engine.PlaceholderChars | lib/browser-search-engine.js:206-211 | the two placeholders start with their only `{` and differ at position 7 |
| Engine.TermsIsNotLocation | lib/browser-search-engine.js:206-211 | a `{searchTerms}` occurrence is never a `{searchLocation}` occurrence |
| Engine.GetURLWithoutPlaceholders | lib/browser-search-engine.js:206-211 | a template without `{` comes back unchanged |
| Engine.PlainPrefix | lib/browser-search-engine.js:206-211 | no placeholder can start inside a prefix free of `{` |
| Engine.ReplaceTermsAfter | lib/browser-search-engine.js:209-210 | the terms placeholder after a `{`-free prefix is the one replaced |
| Engine.NoLocationBefore | lib/browser-search-engine.js:207-208 | no location placeholder occurs before the given one |
| Engine.ReplaceLocationAfter | lib/browser-search-engine.js:207-208 | in a terms-then-location template, the location placeholder is the one the first replacement hits |
| Engine.GetURLSubstitutesTerms | lib/browser-search-engine.js:206-211 | a template with one terms placeholder yields prefix + encoded terms + suffix |
| Engine.GetURLSubstitutesBoth | lib/browser-search-engine.js:206-211 | a template with terms then location placeholders gets the encoded terms and the encoded location in place |
| Engine.SearchEngine.constructor | lib/browser-search-engine.js:175-189 | an engine built by hand keeps exactly the fields and tags it is given |
| Engine.SearchEngine.FromSystem | lib/browser-search-engine.js:165-172 | an engine mirrored from the search service takes its URLs, name, icon and host, with a string suggestion URL |
| Engine.SearchEngine.SuggestionURL | lib/browser-search-engine.js:195 | a missing suggestion URL reads as `""` |
| Engine.SearchEngine.AppendTag | lib/browser-search-engine.js:199-201 | the tag is added at the end and nothing else changes |
| Engine.SearchEngine.RemoveTag | lib/browser-search-engine.js:202-204 | the tag list becomes `splice(indexOf(tag), 1)` of the old one |
| Engine.SearchEngine.GetSubmission | lib/browser-search-engine.js:213-218 | the query template filled by GetURL with the terms and the location, the geolocated address standing in for a missing one; a template without placeholders is returned as it is |
| Engine.SearchEngine.SubmissionSubstitutes | lib/browser-search-engine.js:213-218 | a terms-then-location query template gets the encoded terms and the encoded location in place, the geolocated address when no location is given |
| Engine.SearchEngine.GetSuggestion | lib/browser-search-engine.js:219-224 | the suggestion template filled by GetURL with the terms and the location, the geolocated address standing in for a missing one; an engine without a suggestion URL yields `""` |
| Engine.SearchEngine.SuggestionFallsBackToGeolocation | lib/browser-search-engine.js:219-224 | asked without a location, as a refresh asks, a terms-then-location suggestion template gets the encoded terms and the encoded geolocated address in place |
| Engine.SearchEngine.ToJSON | lib/browser-search-engine.js:225-234 | the record carries the engine's fields; its suggestion URL is the engine's `suggestionURL` value, which is `""` exactly when the engine has none |
| Buckets.FindHost | lib/browser-search-engine.js:485-492 | the first slot holding an engine with the host, or none; holes are skipped |
| Buckets.Upsert | lib/browser-search-engine.js:484-497 | the array grows by at most one slot and never shrinks |
| Buckets.HoleFirst | lib/browser-search-engine.js:514-520 | the length is kept and the only slot that can change held the host and becomes a hole |
| Buckets.UpsertTags | lib/browser-search-engine.js:467-471 | the engine's last tag has an array afterwards |
| Buckets.Enrolled | lib/browser-search-engine.js:479-482 | the key order only grows |
| Buckets.UpsertPlacesOnce | lib/browser-search-engine.js:478-498 | after `_updateTags` the array holds the engine in exactly one slot and still has no host twice |
| Buckets.UpsertInPlace | lib/browser-search-engine.js:484-497 | a known host is replaced in place at the same length; an unknown one is pushed at the end |
| Buckets.UpsertIdempotent | lib/browser-search-engine.js:478-498 | updating the same engine twice equals updating it once |
| Buckets.HoleFirstSpec | lib/browser-search-engine.js:514-520 | removing a tag deletes only the first slot with the host, leaving a hole and the length unchanged |
| Buckets.UpsertTagsSpec | lib/browser-search-engine.js:467-471 | `add` touches exactly the arrays of the engine's tags, each becoming `_updateTags` of the old one |
| Buckets.UpsertTagsSnoc | lib/browser-search-engine.js:467-471 | each further tag of `add` updates its array on top of the earlier tags' updates |
| Buckets.EnrolledSnoc | lib/browser-search-engine.js:479-482 | each further tag of `add` becomes a new key at the end unless it is already a key |
| Buckets.AddPlacesOnce | lib/browser-search-engine.js:467-498 | after `add` every array has no host twice and each of the engine's tags lists it exactly once |
| Buckets.AddTwiceIsAddOnce | lib/browser-search-engine.js:422-426 | re-adding the same engine leaves the tag index as one add did, so duplicates are handled |
| Buckets.FoundReAddKeepsDefaultSlot | lib/browser-search-engine.js:422-426 | a changed engine re-added as `_found` does not touch the `_default` array, which keeps the old engine object |
| Buckets.EnrolledSpec | lib/browser-search-engine.js:479-482 | new tags are appended once each, in first-seen order, after the existing keys: the old keys are kept in place and what follows them is `FirstSeen` of the tags |
| Buckets.FirstSeen | lib/browser-search-engine.js:479-482 | the front-to-back first-seen filter of the tags not yet keys: only such tags are listed |
| Buckets.EnrolledConcat | lib/browser-search-engine.js:479-482 | creating keys for `a + b` is creating them for `a`, then for `b` |
| Buckets.EnrolledIsFirstSeen | lib/browser-search-engine.js:479-482 | the key order after `add` is the old key order followed by the engine's new tags in first-seen order |
| Buckets.UpsertKeepsOthers | lib/browser-search-engine.js:484-497 | updating one host keeps another host's single slot where it was |
| Buckets.UpsertAt | lib/browser-search-engine.js:485-491 | in an array without duplicate hosts, the slot holding the host is the one replaced |
| Buckets.AppendedSpec | lib/browser-search-engine.js:406-411 | the hosts `_init` appends are the seeded hosts the array did not have, each once |
| Buckets.SeededStart | lib/browser-search-engine.js:406 | before any step the `_default` array is its old self |
| Buckets.SeededStep | lib/browser-search-engine.js:407-410 | one more seeded engine keeps the `_default` array as old slots (refreshed) followed by the new hosts in first-seen order |
| Buckets.SeededReplace | lib/browser-search-engine.js:485-491 | a host already in the array is refreshed in its slot |
| Buckets.SeededAppend | lib/browser-search-engine.js:494-497 | a new host is pushed after every earlier slot |
| Buckets.SeededOnce | lib/browser-search-engine.js:406-411 | after seeding, each seeded host has exactly one slot, holding its stored engine |
| Buckets.HostsIn | lib/browser-search-engine.js:406-411 | the hosts of the engines `_init` creates, in order |
| Buckets.ReseededSpec | lib/browser-search-engine.js:406-411 | upserting the created engines in turn keeps hosts unique and yields the old slots followed by the new hosts in order, each holding its stored engine |
| Buckets.StoredLast | lib/browser-search-engine.js:474 | the last created engine with a host is the one stored under it |
| Buckets.StoredAllSpec | lib/browser-search-engine.js:473-474 | storing the created engines adds exactly their hosts, each holding one of them, and keeps every other entry |
| Buckets.FoldsSnoc | lib/browser-search-engine.js:407-410 | one more created engine is one more upsert and one more store |
| Observer.Classify | lib/browser-search-engine.js:300-328 | each notification maps to its event; `engine-changed` on a hidden engine means removed; other subjects map to nothing |
| Registry.TagKey | lib/browser-search-engine.js:532-534 | a missing or empty tag means `_default` |
| Registry.HostsOf | lib/browser-search-engine.js:406-411 | the hosts of the visible system engines |
| Registry.HostSeq | lib/browser-search-engine.js:406-411 | the hosts of the visible engines, in list order |
| Registry.BrowserSearchEngines.SameHosts | lib/browser-search-engine.js:406-411 | the created engines have the visible engines' hosts, position by position |
| Registry.BrowserSearchEngines.InitStorage | lib/browser-search-engine.js:406-411 | `_init` adds exactly the visible hosts to the store, each holding a created engine, and keeps other entries |
| Registry.BrowserSearchEngines.InitDefault | lib/browser-search-engine.js:406-411 | after `_init` each visible host has one `_default` slot, the stored engine mirrors the last visible engine with that host, and the array is the old slots followed by the new hosts |
| Registry.BrowserSearchEngines.constructor | lib/browser-search-engine.js:361-366 | with existing storage the store is restored and the index is empty; otherwise every visible engine is stored fresh with tag `_default`, the engine stored under each host mirrors the last visible engine with that host, and the `_default` array lists the visible hosts once each, in first-seen order, each slot holding the stored engine; the key order is `[_default]`, or empty when no engine is visible |
| Registry.BrowserSearchEngines.Init | lib/browser-search-engine.js:406-411 | each visible host is stored with a fresh `_default` engine that mirrors the last visible engine with that host, held by exactly one `_default` slot; the old `_default` slots keep their places (refreshed where a host is re-seeded), new hosts are appended in first-seen order, and nothing else is in that array; other tags and other stored hosts are untouched; `_default` is enrolled in the key order, and with no visible engine nothing changes at all |
| Registry.BrowserSearchEngines.Seed | lib/browser-search-engine.js:407-410 | one `_init` step stores a fresh `_default` engine that mirrors the system engine (site, host, name, URLs, icon), upserts it into the `_default` array and enrols `_default`, keeping earlier engines' single slots and other tags |
| Registry.BrowserSearchEngines.SeedStep | lib/browser-search-engine.js:406-411 | one `_init` step keeps every earlier engine's single `_default` slot |
| Registry.BrowserSearchEngines.Tags | lib/browser-search-engine.js:340-346 | the tags getter lists every key of the index once, in creation order |
| Registry.BrowserSearchEngines.Locate | lib/browser-search-engine.js:484-492 | the loop stops at the first slot holding the host, skipping holes, or finds none |
| Registry.BrowserSearchEngines.UpdateTags | lib/browser-search-engine.js:478-498 | the tag's array is created if missing, then the first slot with the host is replaced or the engine is pushed |
| Registry.BrowserSearchEngines.Add | lib/browser-search-engine.js:467-476 | the arrays of all the engine's tags are updated in order and the engine is stored under its host |
| Registry.BrowserSearchEngines.Found | lib/browser-search-engine.js:415-426 | a new or changed system engine becomes a fresh engine mirroring it, tagged `_found` only; it is added to the `_found` array, `_found` is enrolled, and it is stored under its host |
| Registry.BrowserSearchEngines.OnSystemEvent | lib/browser-search-engine.js:392-393 | `added` and `changed` events store a fresh `_found` engine mirroring the system engine, upsert it into `_found` and enrol the tag; every other event leaves the registry unchanged |
| Registry.BrowserSearchEngines.AddTagByHost | lib/browser-search-engine.js:501-506 | for a stored host the engine gains the tag and the tag's array is updated; an unknown host fails with nothing changed |
| Registry.BrowserSearchEngines.RemoveTagByHost | lib/browser-search-engine.js:509-521 | for a stored host the engine's tag list is spliced and the first slot with the host in that tag's array becomes a hole; an unknown host fails with nothing changed |
| Registry.BrowserSearchEngines.Remove | lib/browser-search-engine.js:523-526 | the host leaves the store and the tag index is unchanged |
| Registry.BrowserSearchEngines.Get | lib/browser-search-engine.js:528-530 | the stored engine under the engine's host or the given host, if any |
| Registry.BrowserSearchEngines.GetByTag | lib/browser-search-engine.js:532-535 | the array of the tag (`_default` when none), which never lists a host twice |
| Registry.BrowserSearchEngines.GetSubmission | lib/browser-search-engine.js:537-541 | the stored engine's query URL filled with the terms and the geolocated address; nothing for an unknown engine |
| Suggestions.ProviderFor | lib/main.js:231-238 | Wikipedia is the only `match` provider, with the article base URL; every other host is `suggest` with no base URL |
| Suggestions.Entry | lib/main.js:275 | a result keeps the completion as its title and has a URL only for a `match` provider |
| Suggestions.Normalise | lib/main.js:268-277 | never more results than completions |
| Suggestions.WithoutTermSnoc | lib/main.js:274 | dropping the terms from a longer list extends the shorter result by the new item unless it is the terms |
| Suggestions.NormaliseIsCappedFilter | lib/main.js:268-277 | the results are the first three completions that differ from the terms, in order, each with its provider's URL |
| Suggestions.NormaliseTitles | lib/main.js:268-277 | the titles kept are the first three completions that differ from the terms |
| Suggestions.NormaliseEntries | lib/main.js:275 | each result's URL is what its provider type gives for its title |
| Suggestions.NormaliseBounds | lib/main.js:268-277 | at most three results; none equals the terms; each is a completion; the URL is the base plus the title for `match` and `""` for `suggest` |
| Suggestions.WithoutTermMembers | lib/main.js:274 | the items kept are exactly those that differ from the terms |
| Suggestions.JsonExample | lib/main.js:253-277 | `["jsonline","json","json validator","jsonp"]` for `json` gives jsonline, json validator and jsonp |
| Suggestions.WikipediaExample | lib/main.js:235-237 | a Wikipedia completion links to its article |
| Suggestions.BuildResults | lib/main.js:268-277 | the `forEach` loop computes the normalised results |
| Suggestions.BodyOf | lib/main.js:264 | Yelp's `body` field is read only from a JSON object that has one |
| SearchInput.OpeningFor | lib/main.js:187-198 | an empty box opens nothing; a hidden panel shows results with geolocation allowed and the permission panel without; an open panel gets the terms |
| SearchInput.NavCommand | lib/main.js:200-216 | keys 40, 38 and 13 mean next, previous and go; no other key steers |
| SearchInput.Decide | lib/main.js:186-221 | empty box: nothing; steering key on the open panel: navigation only; otherwise a refresh is scheduled exactly when the box differs from the last query |
| SearchInput.RequestsFor | lib/main.js:227-292 | the requests one refresh issues, slot by slot in bucket order; what they are is stated by RequestsForSound, RequestsForComplete and RequestsForInOrder, and Refresh is proved to issue exactly these |
| SearchInput.TrueIndices | lib/main.js:289-292 | the positions of a mask that hold true, strictly increasing, each one true and every true one listed |
| SearchInput.RequestsForInOrder | lib/main.js:227-292 | a refresh issues exactly one request per asked slot and nothing else, in slot order: the k-th request is for the k-th asked slot |
| SearchInput.RequestsForSound | lib/main.js:227-292 | every request a refresh issues is for an asked engine of the bucket (filled slot, non-empty suggestion URL), with the box value as terms; no more requests than slots |
| SearchInput.RequestsForComplete | lib/main.js:289-292 | every engine of the bucket whose suggestion URL expands to a non-empty URL is asked |
| SearchInput.NoSuggestionURLNoRequest | lib/main.js:289-292 | an engine without a suggestion URL is never asked |
| SearchInput.Refresh | lib/main.js:227-292 | the refresh loop issues exactly the requests the bucket calls for |
| SearchInput.QuerySession.constructor | lib/main.js:165-166 | no query yet and no refresh pending |
| SearchInput.QuerySession.KeyUp | lib/main.js:186-221 | the handler's panel action and outcome; a scheduled refresh records the query and is pending; otherwise nothing changes |
| SearchInput.QuerySession.Fire | lib/main.js:224-299 | the pending refresh runs against `_default` and issues its requests; the query is kept |
| SearchInput.QuerySession.Complete | lib/main.js:246-283 | no emission for a non-200 status or a stale query; Yelp's body is passed through unless the reply fails to parse or is `null`; other providers emit the normalised results only for a suggestions array |
| SearchInput.TypingSession | lib/main.js:186-299 | typing a, ap, app schedules a refresh each time; retyping app schedules nothing; the down arrow steers to the next result; after the query moves on, a reply for app is dropped |
| Panel.Max | lib/main.js:80 | `Math.max` of two values |
| Panel.PanelSize | lib/main.js:76-80 | the resized panel is at least 300 wide and 50 high and never smaller than requested |
| Panel.PanelSizeIntended | lib/main.js:129-133 | with the search box's width read, the panel is also never narrower than the box; unreadable, it behaves as written |
| Panel.PanelSizeIdempotent | lib/main.js:76-80 | clamping an already clamped size changes nothing |
| Panel.NarrowerThanSearchBox | lib/main.js:76-80 | a 350-wide request under a 400-wide box stays 350 as written, where 400 was intended |

## Findings

| source | as written | input that shows it | evidently intended | confidence | as-written member | corrected member |
|---|---|---|---|---|---|---|
| lib/main.js:76-80 and lib/main.js:129-133 | the statement reading the search box's `clientWidth` discards the value, so `textbox` is always 300 | requested width 350, height 100, search box 400 wide: the panel is 350 wide | assign the box's width to `textbox` so the panel is never narrower than the search box, with 300 when it cannot be read | high; not executed | Panel.PanelSize, Panel.NarrowerThanSearchBox | Panel.PanelSizeIntended |

## Left out

- The search service itself (XPCOM `SearchService`) is left out; system engines arrive as `SystemEngine` values. The SystemSearchEngine wrapper and `SuggestMap`/`addSuggest` are also left out.
- URL parsing is left out (`URL.URL`, `site.replace(site.path, "")`): an engine's site and host are given, not derived.
- `decodeURIComponent` of the service's URLs is left out. `encodeURIComponent` is an opaque function parameter.
- Replacement patterns such as `$&` in `String.replace` are not modelled. Encoded values contain no `$`.
- Engine discovery is left out: page scanning (PageMod, `_onAttach`, `collect`), `addByURL`'s HTTP check and the Yelp engine added on geolocation.
- Timers are reduced to a pending flag. XMLHttpRequest is reduced to a request record plus a status and decoded reply given to `Complete`.
- The geolocation getter and setter, private browsing, `unload` and the quota handler `_overQuota` are left out. The quota handler's loop body only reads `SimpleStorage.storage.engines` and changes nothing, so once the quota usage is above 1 it busy-waits forever (lib/browser-search-engine.js:543-547); that hang is not modelled.
- Panels, the DOM, key events beyond the key code, the click handler that opens the result, the toolbar button, window tracking and data/preferences.js are left out.
- JSON parsing is reduced to the reply shapes the handler distinguishes. A completion that is not a string and an object with a key `"1"` are not modelled.
- Registry.BrowserSearchEngines.Get: the fallback lookup under the engine object's own string form (`"[object Object]"`) and under `"undefined"` is not modelled.
- Tag keys that JavaScript enumerates out of insertion order (integer-like keys) and keys inherited from `Object.prototype` are not modelled.
- Registry.BrowserSearchEngines.constructor: engines restored from persisted storage are plain records after a restart; the model restores them as engine objects.
- An engine's icon is a string; a missing icon is not modelled.
