# PokeGuide data layer in Dafny

PokeGuide is a single-page viewer for the public PokeAPI catalogue, written in one
browser script, `script.js`. Underneath its DOM code sits a small data layer:

- **Retry loops.** Four fetch routines share a loop of up to three attempts. It has a
  linear backoff of `1000 * attempt` ms after each failure that is not the last.
- **Session caches.** Two caches, `pokemonListCache` (the minimal list entry per name)
  and `pokemonFullCache` (the parsed detail record per name), are filled together.
- **Batch resolver.** It maps names to list entries and silently drops the failures.
- **Slice loader.** It pairs the surviving entries with a slice of the catalogue and
  returns the new cursor.
- **Incremental loader.** It loads an initial slice of 6, then slices of 20 on scroll or
  on a button click.
- **Evolution walk.** The detail view follows the first successor at every node of the
  evolution chain.
- **Search.** It keeps the entries whose name contains the lower-cased term and renders
  them 50 at a time.

This project models that layer. The network is an oracle: a `Records.Network` maps each
name or URL to the outcome of every attempt, `Ok(record)` or `Fail`. Attempts past the
end of the script fail. Requested delays add up in a ghost counter; nothing waits.

The files:

- `wrappers.dfy`: `Option` and `Outcome`.
- `retry.dfy`: the retry loop. `Retry.RetryLoop` is the `while (attempt < retries)` loop.
  `Retry.RunRetries` is the function that specifies it, and `Retry.Characterizes` states
  the loop's promise independently of how it runs.
- `records.dfy`: the records and the oracle, with these definitions:
  - the caches as a value;
  - the invariants `Coherent` (same names in both caches, and every list entry is the
    projection of its full record) and `Sourced` (every cached record is what fetching
    its name yields);
  - the detail path as written, which a finding below concerns.
- `batch.dfy`: dropping failures, slicing, the `batch[index]` pairing and its
  misalignment.
- `evolution.dfy`: the first-branch walk and the evolution list of the detail view.
- `search.dfy`: lower-casing, the substring filter and the 50-wide chunking.
- `catalog.dfy`: the class `Catalog.Session`. It holds the two caches as `map` fields
  that its methods update, with the invariant `Valid()` (`Coherent` and `Sourced`).
  Every fetch routine is one of its methods.
- `controller.dfy`: the loader's closure variables, as the value `LoadState`, the pure
  transitions `Initial`, `Sighted`, `Clicked` and `Settled` with their invariant `Inv`,
  and the class `ListController` whose event methods update the fields step by step and
  are proved to follow those transitions.

A response without a type cannot be projected: reading `types[0]` throws inside the
`try`, so that attempt counts as failed (`Records.Usable`). A cache hit answers without
touching the network. A list-cache hit returns the cached entry unchanged, and so does a
full-cache hit.

The loader as written never removes the "Load More" container of a catalogue of at most
6 entries. Removal happens only in the two handlers, after a load of 20, and their guard
never starts a load once the first slice has covered the whole catalogue. `Controller.Inv`
states this exactly: the container is gone if and only if every entry is loaded and
there were more than 6.

## Model

| member | source | states |
|---|---|---|
| Retry.RetryLoop | script.js:39-61 | The loop returns exactly what the retry loop specification yields: the value of the first successful attempt (None when all attempts failed), the number of attempts made and the summed backoff |
| Retry.RunFromCharacterized | script.js:39-61 | From any loop state reached after failed attempts, with the backoff owed so far, the rest of the loop keeps the promise below |
| Retry.RetryCharacterized | script.js:39-61 | At most `retries` attempts, at least one; every attempt before the last one made failed; a value is the outcome of the last attempt; None only when all `retries` attempts failed; the waits total 1000·(1+…+(n−1)) ms for n attempts, so nothing is waited after the last one |
| Retry.RetrySucceedsIff | script.js:72-93 | A value is returned if and only if one of the first `retries` attempts succeeds; otherwise the detail, species and chain paths rethrow (None) |
| Retry.AlwaysFailingThreeAttempts | script.js:98-113 | With the default of 3 and a source that always fails: 3 attempts, no value, 3000 ms of backoff |
| Records.FirstRecord | script.js:72-93 | The record a detail fetch yields has a primary type and is one of the responses the network sent for that name |
| Records.StoreFetched | script.js:49-50 | Writing a fetched record to the full cache and its projection `{name, sprite, type}` to the list cache keeps both caches coherent and sourced, and replaces no cached entry |
| Records.CachedResolves | script.js:49-50 | Under the cache invariant every cached name is one whose fetch resolves |
| Records.DetailAttemptsAsWritten | script.js:72-93 | The detail path as written: on success the list entry is the projection of the returned record; on failure the list cache is unchanged, while the full cache may have gained a record |
| Records.TypelessResponseSplitsCaches | script.js:76-82 | One response without a type, then failures: from empty caches the path as written fails, yet the full cache holds the name and the list cache does not, so the caches are no longer coherent |
| Batch.Present | script.js:64 | Dropping the nulls never yields more records than names |
| Batch.PresentMembers | script.js:64 | A value is in the result if and only if some name resolved to it, and exactly as many entries are dropped as names failed |
| Batch.PresentConcat | script.js:64 | Dropping the nulls distributes over concatenation: survivors keep their input order |
| Batch.PresentAllResolved | script.js:63-64 | The result has one record per name if and only if no name failed, and then record k is name k's |
| Batch.PresentOneFailure | script.js:63-64 | Exactly one failed name costs exactly one record |
| Batch.SourceIndexSpec | script.js:145-146 | The i-th surviving record comes from a position at or after i, and from exactly i if and only if no name up to and including i failed |
| Batch.SliceCursor | script.js:138-164 | Within the list, `start + batch.length` is `min(start + size, length)` whatever failed; past the end the slice is empty |
| Batch.BatchCardsAt | script.js:145-158 | Card i shows the name of slice entry i with the image and type of the entry `SourceIndex` picks, and the two entries coincide if and only if no entry up to i failed |
| Batch.BatchCardsAligned | script.js:145-158 | When every name of the slice resolves, there is one card per entry and card k shows entry k's own record |
| Batch.BatchCardNames | script.js:147-155 | Every card carries the name of some entry of its slice |
| Batch.OneFailureInFirstSlice | script.js:137-165 | A 20-entry list with one failure in the first slice of 6: the cursor still moves to 6, and 5 cards are rendered |
| Evolution.WalkEvolutions | script.js:315-322 | The `while (current)` loop collects exactly the first-branch path from the root |
| Evolution.FirstBranchInTree | script.js:315-322 | The walk starts with the root species and names only species of the chain |
| Evolution.LinearWalkComplete | script.js:315-322 | On a chain where every node has at most one successor, a species is in the walk if and only if it is in the chain |
| Evolution.LinearExamples | script.js:315-322 | A → B → C gives [A, B, C]; a root without successors gives a one-element list |
| Evolution.BranchingTruncated | script.js:320 | A branching chain is cut to its first branch: the second successor is in the chain but not in the walk |
| Evolution.EvolutionNamesEmptyIff | script.js:295-322 | The evolution list is empty if and only if the species fetch or the chain fetch exhausted its attempts; otherwise it starts with the chain's root species |
| Search.IncludesIff | script.js:431 | The left-to-right scan finds the term if and only if it occurs at some position of the name |
| Search.FilterConcat | script.js:431 | Filtering distributes over concatenation, so the kept entries stay in catalogue order |
| Search.FilterMembers | script.js:431 | An entry is kept if and only if it is in the catalogue and its name contains the term |
| Search.MissingFirstLetter | script.js:431 | A name lacking the first letter of a non-empty term does not contain the term |
| Search.CharNames | script.js:429-431 | "Char" lower-cases to "char", which charmander and charmeleon contain and squirtle does not |
| Search.CharExample | script.js:429-431 | Searching "Char" in charmander, charmeleon, squirtle keeps the first two, in order |
| Search.ChunksCover | script.js:440-442 | The 50-wide slices, concatenated, give back the filtered list exactly once and in order |
| Search.ChunksShape | script.js:440-442 | There are ceil(n/50) slices, none empty, all of full width except possibly the last |
| Search.ChunksAppend | script.js:441-442 | Extending a list whose length is a whole number of slices by at most one width adds exactly one slice |
| Search.ChunksStep | script.js:441-442 | One loop step: the slices from i on are `slice(i, i + width)` followed by the slices from `i + width` on |
| Search.ChunkCardsSnoc | script.js:441-463 | Rendering one more slice appends exactly that slice's cards |
| Search.ChunkCardsStep | script.js:441-463 | The cards still to render from i on are those of `slice(i, i + 50)` followed by those from `i + 50` on |
| Search.ChunkCardNames | script.js:446-447 | Every rendered card names an entry of one of the slices |
| Search.SearchCardsMatch | script.js:428-463 | Every card of a search names a catalogue entry whose name contains the lower-cased term |
| Catalog.Session.constructor | script.js:2-3 | Both caches start empty; no attempt has been made |
| Catalog.Session.ResolveMinimal | script.js:35-61 | One name of the batch resolver, returning the list entry the network yields. On a list-cache hit it returns the cached entry with no attempt and no write. On a miss it makes the attempts of the retry loop, and on success writes both caches. At most 3 attempts; no other name is added; caches stay coherent |
| Catalog.Session.ResolveEach | script.js:35-62 | The `Promise.all` over the names yields each name's outcome in order; afterwards every name that resolves is in the list cache, no name outside the batch was added, no cached entry is replaced, at most 3 attempts per name |
| Catalog.Session.FetchMinimalBatch | script.js:34-65 | The result is the list entry of every name that resolves, in input order, failures dropped. Afterwards a name of the batch is cached (in both caches) if and only if it resolves, and no name outside the batch was added, so a later detail fetch of a resolved name is a cache hit. No cached entry is replaced; at most 3 attempts per name; caches stay coherent |
| Catalog.Session.FetchDetails | script.js:68-94 | The detail record the network yields, or None where the source rethrows. A full-cache hit returns it with no attempt and no write. A miss makes the retry loop's attempts (at most 3) and adds the name only on success. Afterwards the name is in the full cache if and only if a record was returned. Caches stay coherent |
| Catalog.Session.FetchSpecies | script.js:97-114 | The species record of the retry loop, or None where the source rethrows; at most 3 attempts; no cache is touched |
| Catalog.Session.FetchEvolutionChain | script.js:117-134 | The chain of the retry loop, or None where the source rethrows; at most 3 attempts; no cache is touched |
| Catalog.Session.RenderBatch | script.js:143-162 | The cards of a slice are its `batch[index]` pairing with the surviving list entries. Afterwards an entry of the slice is cached if and only if it resolves, nothing outside the slice was added and no entry replaced; at most 3 attempts per entry |
| Catalog.Session.LoadBatch | script.js:137-165 | The cursor is `min(start + size, length)` whatever failed (`start` past the end), and the cards are those of the slice. Afterwards an entry between `start` and the cursor is cached if and only if it resolves, nothing outside the slice was added and no entry replaced; at most 3 attempts per entry |
| Catalog.Session.ShowDetails | script.js:285-334 | No view when the detail fetch fails; otherwise the record fetched, and the evolution list of the first-branch walk (empty when species or chain failed), each entry with its own record's image or none. Afterwards the name is in the full cache if and only if the view opened, each evolution is cached if and only if its detail fetch resolves, nothing else was added and no entry replaced; at most 3 attempts for each of the detail, species and chain fetches and each evolution |
| Catalog.Session.FetchEvolutionEntries | script.js:324-334 | Each evolution name with the image of its detail record, or none when that fetch failed, in walk order. Afterwards an evolution is in the full cache if and only if its detail fetch resolves, nothing else was added and no entry replaced; at most 3 attempts per name |
| Catalog.Session.Search | script.js:428-466 | The cards of a search are those of the lower-cased filter, rendered slice by slice. Afterwards a filtered entry is cached if and only if it resolves, no name outside the filtered entries was added and no entry replaced; at most 3 attempts per filtered entry |
| Catalog.Session.RenderChunks | script.js:440-466 | The `for (i = 0; …; i += 50)` loop renders exactly the cards of the 50-wide slices in order. Afterwards an entry is cached if and only if it resolves, nothing outside `filtered` was added and no entry replaced; at most 3 attempts per entry |
| Controller.ListCardsStep | script.js:224 | From a slice boundary, one more load appends exactly the next slice's cards to those on the page |
| Controller.Initial | script.js:185-212 | After the initial load the cursor is min(6, length), no load runs, the page holds the first slice's cards, and the invariant holds |
| Controller.Sighted | script.js:214-218 | The observer starts a load only when intersecting, entries remain and no load runs; otherwise nothing changes; the invariant is kept |
| Controller.Clicked | script.js:254-257 | The button starts a load, and disables itself, only when entries remain and no load runs; otherwise nothing changes; the invariant is kept |
| Controller.Settled | script.js:222-279 | Once a load settles the cursor never decreases and never passes the end. On a rejection the cursor and page are unchanged, and the observer path displays the button. Otherwise the cursor is min(cursor + 20, length) and the slice's cards are appended. The container is removed exactly when the list is complete. The button is enabled and `isLoading` is false again |
| Controller.SettledKeepsInv | script.js:222-279 | Settling a load keeps the invariant: cursor on a slice boundary or at the end, page showing exactly the loaded entries' cards, container gone exactly when a later load completed the list |
| Controller.ListController.constructor | script.js:185-212 | The controller starts in the state `Initial` and the invariant holds. Afterwards an entry of the first slice of 6 is in the session caches if and only if it resolves, no other name was added and no cached entry replaced; at most 18 attempts |
| Controller.ListController.OnSentinelVisible | script.js:214-218 | The observer callback follows `Sighted` and reports whether a load started |
| Controller.ListController.OnButtonClick | script.js:254-257 | The click handler follows `Clicked` and reports whether a load started |
| Controller.ListController.FinishLoad | script.js:222-279 | The continuation of either handler loads the next slice through the session and follows `Settled`; the invariant and the session's cache coherence are kept. Afterwards an entry of the slice of 20 is in the session caches if and only if it resolves, no other name was added and no cached entry replaced; at most 60 attempts |
| Controller.ListController.Settle | script.js:223-279 | The statements after the `await` move the controller from its state to `Settled` of that state, and keep the invariant |

## Left out

- `fetchPokemonList` (script.js:21-31) is a single fetch with no logic. The catalogue is
  a parameter.
- DOM work is not modelled: card and modal markup, the loading spinner, tabs, close
  handlers, `alert`, name capitalisation and `console` logging. Cards are modelled as
  `Batch.Card` values.
- `IntersectionObserver` mechanics are not modelled: observe and unobserve, the
  replacement sentinel, `rootMargin` and `threshold`. A callback is a call of
  `OnSentinelVisible`, which the controller may receive whenever it is idle.
- `setTimeout` delays are not modelled, only their requested amounts (`waitedMs`). The
  search loop's 0 ms yield between slices (line 465) is not modelled either.
- `Promise.all` fan-outs are not modelled as concurrent: the batch resolver and the
  evolution details run sequentially. Two fetches of the same name in one batch can race
  in the browser; in the model the second is a cache hit.
- Overlapping events are left out: a second search input while the first is still
  rendering, and a detail view opened during a load.
- Floating-point display arithmetic is left out (height and weight `/ 10`, stat bar
  widths), along with everything after line 335 of the detail view.
- Retry.RetryLoop: `retries = 0` makes the source resolve to `undefined` after zero
  attempts; the model returns None. No caller passes 0.
- Search.Lower: `toLowerCase` is modelled on the letters A-Z only. Other case mappings
  of Unicode are not modelled.
- A rejection of the initial load (line 191) is left out. It would abandon
  `displayPokemonList` before the controls exist, and the model's loader cannot fail.
- Controller.ListController.FinishLoad: `threw` stands for a rejection of
  `loadPokemonBatch`. The batch resolver absorbs every failed fetch, so only DOM code
  could reject. On a rejection the model keeps the page unchanged; the browser keeps
  any cards appended before the exception.
- Catalog.Session.FetchMinimalBatch: the promise that cached names cost no attempt and
  no write is stated per name, on `Catalog.Session.ResolveMinimal`, and not for the
  whole batch.
- Records.Network: every fetch loop replays its key's script from the first attempt,
  so every fetch of one name has the same outcome for the whole session. A name that
  exhausted its attempts in a batch fails again in the detail view, where the browser
  might succeed on a later call. `Records.Sourced`, the clauses `r == FirstMinimal(net,
  name)` and `r == FirstRecord(net, name)` of `Catalog.Session.ResolveMinimal` and
  `Catalog.Session.FetchDetails` on a cache hit, and the cards of `LoadBatch` and
  `Search` being functions of the network alone all rest on this. The promise on a hit
  that holds in any case is the separate clause returning the cached entry.
- The list page is modelled as if no search input ever arrives. The search handler
  empties the same container the loader appends to (line 438), including the "Load
  More" controls. After a search, `Controller.Inv`'s description of the cards on the
  page no longer holds, the detached sentinel never fires again, and a load still in
  flight appends its cards after the search results.

## Findings

| source | as written | input that shows it | evidently intended | confidence | as-written member | corrected member |
|---|---|---|---|---|---|---|
| script.js:76-82 | `fetchPokemonDetails` writes the full cache before deriving the list entry. A response without types throws at `types[0]` after the full cache is written, so the attempt fails but the record stays cached; a later detail request then returns it from cache and the detail view fails at line 311 | A name whose first response has an empty `types` array, followed by failures, from empty caches | Both caches are written together, after the list entry is derived, as the batch path does (lines 43-50) | not executed | Records.DetailAttemptsAsWritten, Records.TypelessResponseSplitsCaches | Catalog.Session.FetchDetails |
