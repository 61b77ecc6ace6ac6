/** The session: the two caches `pokemonListCache` and `pokemonFullCache`, and the
    routines that consult and fill them (script.js lines 1-165, 285-334, 422-466). */
module Catalog {
  import opened Wrappers
  import opened Retry
  import opened Records
  import opened Evolution
  import opened Batch
  import opened Search

  /** One entry of the detail view's evolution list: the name, and the image of its
      detail record, or none when that record could not be fetched. */
  datatype EvolutionEntry = EvolutionEntry(name: string, sprite: Option<string>)

  /** What the detail view shows for one creature. */
  datatype DetailView = DetailView(record: FullRecord, evolutions: seq<EvolutionEntry>)

  function SpriteOf(r: Option<FullRecord>): Option<string>
  {
    match r
    case Some(f) => f.sprite
    case None => None
  }

  /** The evolution list for `names`, each with the image of its own detail record. */
  function EvolutionEntries(net: Network, names: seq<string>): seq<EvolutionEntry>
  {
    seq(|names|, i requires 0 <= i < |names| => EvolutionEntry(names[i], SpriteOf(FirstRecord(net, names[i]))))
  }

  class Session {
    /** The network as seen during this session. */
    const net: Network
    var listCache: map<string, MinimalRecord>
    var fullCache: map<string, FullRecord>
    /** Network attempts made so far. */
    ghost var attempts: nat
    /** Backoff requested so far, in milliseconds. */
    ghost var waitedMs: nat

    function State(): Caches
      reads this
    {
      Caches(listCache, fullCache)
    }

    /** The caches hold the same names, each list entry is the projection of the full
        record under its name, and each full record is what fetching its name yields. */
    ghost predicate Valid()
      reads this
    {
      Coherent(State()) && Sourced(net, fullCache)
    }

    constructor (net: Network)
      ensures Valid()
      ensures this.net == net && listCache == map[] && fullCache == map[]
      ensures attempts == 0 && waitedMs == 0
    {
      this.net := net;
      listCache, fullCache := map[], map[];
      attempts, waitedMs := 0, 0;
    }

    /** One name of `fetchPokemonMinimalDetailsBatch` (lines 35-61): a list-cache hit
        answers without any attempt; otherwise the retry loop runs, and a success is
        written to both caches. */
    method ResolveMinimal(name: string) returns (r: Option<MinimalRecord>)
      requires Valid()
      modifies this
      ensures Valid()
      ensures r == FirstMinimal(net, name)
      ensures Retains(old(listCache), listCache) && Retains(old(fullCache), fullCache)
      ensures name in old(listCache) ==>
                && r == Some(old(listCache)[name])
                && listCache == old(listCache) && fullCache == old(fullCache)
                && attempts == old(attempts) && waitedMs == old(waitedMs)
      ensures name !in old(listCache) ==>
                && attempts == old(attempts) + DetailRun(net, name).attempts
                && waitedMs == old(waitedMs) + DetailRun(net, name).waitedMs
      ensures r.Some? ==> name in listCache
      ensures forall n :: n in listCache ==> n in old(listCache) || n == name
      ensures attempts <= old(attempts) + Retries
    {
      if name in listCache {
        return Some(listCache[name]);
      }
      RetryCharacterized(DetailScript(net, name), Retries);
      var rec, n, w := RetryLoop(DetailScript(net, name), Retries);
      attempts, waitedMs := attempts + n, waitedMs + w;
      if rec.Some? {
        StoreFetched(net, State(), name, rec.value);
        var minimal := Minimal(rec.value);
        listCache := listCache[name := minimal];
        fullCache := fullCache[name := rec.value];
        r := Some(minimal);
      } else {
        r := None;
      }
    }

    /** The `Promise.all(names.map(...))` of `fetchPokemonMinimalDetailsBatch`
        (lines 35-62), the first name and then the rest: the outcome of every name, in
        order, with every name that resolves cached and nothing new besides. */
    method ResolveEach(names: seq<string>) returns (results: seq<Option<MinimalRecord>>)
      requires Valid()
      modifies this
      decreases |names|
      ensures Valid()
      ensures results == Resolved(net, names)
      ensures Retains(old(listCache), listCache) && Retains(old(fullCache), fullCache)
      ensures CachedBatch(net, old(listCache), listCache, names)
      ensures attempts <= old(attempts) + Retries * |names|
    {
      if names == [] {
        return [];
      }
      ghost var list0, full0 := listCache, fullCache;
      var r := ResolveMinimal(names[0]);
      ghost var list1, full1 := listCache, fullCache;
      var rest := ResolveEach(names[1..]);
      RetainsTrans(list0, list1, listCache);
      RetainsTrans(full0, full1, fullCache);
      CachedBatchCons(net, list0, list1, listCache, names);
      assert Resolved(net, names) == [r] + Resolved(net, names[1..]);
      results := [r] + rest;
    }

    /** `fetchPokemonMinimalDetailsBatch` (lines 34-65): every name resolved, then the
        failures dropped. The result is the list entry of every name that resolves, in
        the order of `names`, at most `Retries` attempts per name. Afterwards a name of
        the batch is cached exactly when it resolves (in both caches, which `Valid` keeps
        on the same names), and no name outside the batch was added. */
    method FetchMinimalBatch(names: seq<string>) returns (records: seq<MinimalRecord>)
      requires Valid()
      modifies this
      ensures Valid()
      ensures records == Present(Resolved(net, names))
      ensures Retains(old(listCache), listCache) && Retains(old(fullCache), fullCache)
      ensures forall k :: 0 <= k < |names| ==> (names[k] in listCache <==> FirstMinimal(net, names[k]).Some?)
      ensures forall n :: n in listCache ==> n in old(listCache) || n in names
      ensures CachedBatch(net, old(listCache), listCache, names)
      ensures attempts <= old(attempts) + Retries * |names|
    {
      var results := ResolveEach(names);
      CachedResolves(net, State());
      records := Present(results);
    }

    /** `fetchPokemonDetails` (lines 68-94), with the list entry derived before either
        cache is written. A full-cache hit answers without any attempt; None stands for
        the error rethrown after the last attempt. */
    method FetchDetails(name: string) returns (r: Option<FullRecord>)
      requires Valid()
      modifies this
      ensures Valid()
      ensures r == FirstRecord(net, name)
      ensures Retains(old(listCache), listCache) && Retains(old(fullCache), fullCache)
      ensures name in old(fullCache) ==>
                && r == Some(old(fullCache)[name])
                && listCache == old(listCache) && fullCache == old(fullCache)
                && attempts == old(attempts) && waitedMs == old(waitedMs)
      ensures name !in old(fullCache) ==>
                && attempts == old(attempts) + DetailRun(net, name).attempts
                && waitedMs == old(waitedMs) + DetailRun(net, name).waitedMs
                && fullCache.Keys == old(fullCache).Keys + (if r.Some? then {name} else {})
      ensures name in fullCache <==> r.Some?
      ensures attempts <= old(attempts) + Retries
    {
      if name in fullCache {
        return Some(fullCache[name]);
      }
      RetryCharacterized(DetailScript(net, name), Retries);
      var rec, n, w := RetryLoop(DetailScript(net, name), Retries);
      attempts, waitedMs := attempts + n, waitedMs + w;
      if rec.Some? {
        StoreFetched(net, State(), name, rec.value);
        var minimal := Minimal(rec.value);
        fullCache := fullCache[name := rec.value];
        listCache := listCache[name := minimal];
      }
      r := rec;
    }

    /** `fetchPokemonSpecies` (lines 97-113): no cache; None stands for the rethrown error. */
    method FetchSpecies(name: string) returns (r: Option<Species>)
      modifies this
      ensures r == SpeciesRun(net, name).result
      ensures listCache == old(listCache) && fullCache == old(fullCache)
      ensures attempts == old(attempts) + SpeciesRun(net, name).attempts
      ensures waitedMs == old(waitedMs) + SpeciesRun(net, name).waitedMs
      ensures attempts <= old(attempts) + Retries
    {
      RetryCharacterized(Script(net.species, name), Retries);
      var n: nat;
      ghost var w: nat;
      r, n, w := RetryLoop(Script(net.species, name), Retries);
      attempts, waitedMs := attempts + n, waitedMs + w;
    }

    /** `fetchEvolutionChain` (lines 117-133): no cache; None stands for the rethrown error. */
    method FetchEvolutionChain(url: string) returns (r: Option<EvolutionChain>)
      modifies this
      ensures r == ChainRun(net, url).result
      ensures listCache == old(listCache) && fullCache == old(fullCache)
      ensures attempts == old(attempts) + ChainRun(net, url).attempts
      ensures waitedMs == old(waitedMs) + ChainRun(net, url).waitedMs
      ensures attempts <= old(attempts) + Retries
    {
      RetryCharacterized(Script(net.chains, url), Retries);
      var n: nat;
      ghost var w: nat;
      r, n, w := RetryLoop(Script(net.chains, url), Retries);
      attempts, waitedMs := attempts + n, waitedMs + w;
    }

    /** The body shared by `loadPokemonBatch` (lines 143-162) and the search loop
        (lines 443-463): resolve the names of `batch` and pair the surviving records
        with its entries. */
    method RenderBatch(batch: seq<CatalogEntry>) returns (cards: seq<Card>)
      requires Valid()
      modifies this
      ensures Valid()
      ensures Retains(old(listCache), listCache) && Retains(old(fullCache), fullCache)
      ensures cards == BatchCards(net, batch)
      ensures forall k :: 0 <= k < |batch| ==> (batch[k].name in listCache <==> FirstMinimal(net, batch[k].name).Some?)
      ensures forall n :: n in listCache ==> n in old(listCache) || n in Names(batch)
      ensures CachedBatch(net, old(listCache), listCache, Names(batch))
      ensures attempts <= old(attempts) + Retries * |batch|
    {
      var details := FetchMinimalBatch(Names(batch));
      assert forall k :: 0 <= k < |batch| ==> Names(batch)[k] == batch[k].name;
      cards := PairCards(batch, details);
    }

    /** `loadPokemonBatch` (lines 137-165): slice, resolve, pair, and return the cursor
        `start + batch.length`, which does not depend on how many names failed. */
    method LoadBatch(list: seq<CatalogEntry>, start: nat, size: nat) returns (next: nat, cards: seq<Card>)
      requires Valid()
      modifies this
      ensures Valid()
      ensures Retains(old(listCache), listCache) && Retains(old(fullCache), fullCache)
      ensures start <= |list| ==> next == Min(start + size, |list|)
      ensures start > |list| ==> next == start
      ensures cards == BatchCards(net, Slice(list, start, size))
      ensures forall k :: start <= k < Min(start + size, |list|) ==>
                (list[k].name in listCache <==> FirstMinimal(net, list[k].name).Some?)
      ensures forall n :: n in listCache ==> n in old(listCache) || n in Names(Slice(list, start, size))
      ensures attempts <= old(attempts) + Retries * |Slice(list, start, size)|
    {
      var batch := Slice(list, start, size);
      cards := RenderBatch(batch);
      assert forall k :: start <= k < Min(start + size, |list|) ==> list[k] == batch[k - start];
      next := start + |batch|;
    }

    /** The data side of `displayPokemonDetails` (lines 285-334): the detail record
        (None when its fetch failed: the view is not opened), the species and chain
        fetches, whose failure leaves the evolution list empty, the first-branch walk,
        and the detail record of every evolution, each with its image or none. */
    method ShowDetails(name: string) returns (view: Option<DetailView>)
      requires Valid()
      modifies this
      ensures Valid()
      ensures Retains(old(listCache), listCache) && Retains(old(fullCache), fullCache)
      ensures view.None? <==> FirstRecord(net, name).None?
      ensures view.Some? ==>
                && view.value.record == FirstRecord(net, name).value
                && view.value.evolutions == EvolutionEntries(net, EvolutionNames(net, name))
      ensures name in fullCache <==> view.Some?
      ensures view.Some? ==> forall n :: n in EvolutionNames(net, name) ==> (n in fullCache <==> FirstRecord(net, n).Some?)
      ensures forall n :: n in fullCache ==> n in old(fullCache) || n == name || n in EvolutionNames(net, name)
      ensures attempts <= old(attempts) + Retries * (3 + |EvolutionNames(net, name)|)
    {
      var details := FetchDetails(name);
      if details.None? {
        return None;
      }
      var evolutions: seq<string> := [];
      var species := FetchSpecies(name);
      if species.Some? {
        var chain := FetchEvolutionChain(species.value.chainUrl);
        if chain.Some? {
          evolutions := WalkEvolutions(chain.value);
        }
      }
      assert evolutions == EvolutionNames(net, name);
      var entries := FetchEvolutionEntries(evolutions);
      view := Some(DetailView(details.value, entries));
    }

    /** The `Promise.all(evolutions.map(...))` of `displayPokemonDetails` (lines 324-334),
        the first name and then the rest: the detail record of each evolution, through
        the detail cache, keeping its image or none. Afterwards an evolution is in the
        full cache exactly when its detail fetch resolves, and nothing else was added. */
    method FetchEvolutionEntries(names: seq<string>) returns (entries: seq<EvolutionEntry>)
      requires Valid()
      modifies this
      decreases |names|
      ensures Valid()
      ensures Retains(old(listCache), listCache) && Retains(old(fullCache), fullCache)
      ensures entries == EvolutionEntries(net, names)
      ensures forall n :: n in names ==> (n in fullCache <==> FirstRecord(net, n).Some?)
      ensures forall n :: n in fullCache ==> n in old(fullCache) || n in names
      ensures attempts <= old(attempts) + Retries * |names|
    {
      if names == [] {
        return [];
      }
      ghost var list0, full0 := listCache, fullCache;
      var d := FetchDetails(names[0]);
      ghost var list1, full1 := listCache, fullCache;
      var rest := FetchEvolutionEntries(names[1..]);
      RetainsTrans(list0, list1, listCache);
      RetainsTrans(full0, full1, fullCache);
      assert forall n :: n in names <==> n == names[0] || n in names[1..];
      assert EvolutionEntries(net, names) == [EvolutionEntry(names[0], SpriteOf(d))] + EvolutionEntries(net, names[1..]);
      entries := [EvolutionEntry(names[0], SpriteOf(d))] + rest;
    }

    /** The `input` handler of `setupSearch` (lines 429-466) over the catalogue `list`:
        filter by the lower-cased term, then resolve and render 50 entries at a time. */
    method Search(list: seq<CatalogEntry>, input: string) returns (cards: seq<Card>)
      requires Valid()
      modifies this
      ensures Valid()
      ensures Retains(old(listCache), listCache) && Retains(old(fullCache), fullCache)
      ensures cards == SearchCards(net, list, input)
      ensures forall e :: e in FilterByName(list, Lower(input)) ==>
                (e.name in listCache <==> FirstMinimal(net, e.name).Some?)
      ensures forall n :: n in listCache ==> n in old(listCache) || n in Names(FilterByName(list, Lower(input)))
      ensures attempts <= old(attempts) + Retries * |FilterByName(list, Lower(input))|
    {
      var filtered := FilterByName(list, Lower(input));
      cards := RenderChunks(filtered);
    }

    /** The chunk loop of the `input` handler (lines 440-463): `filtered` resolved and
        rendered 50 entries at a time, in order. */
    method RenderChunks(filtered: seq<CatalogEntry>) returns (cards: seq<Card>)
      requires Valid()
      modifies this
      ensures Valid()
      ensures Retains(old(listCache), listCache) && Retains(old(fullCache), fullCache)
      ensures cards == ChunkCards(net, Chunks(filtered, SearchChunk))
      ensures forall e :: e in filtered ==> (e.name in listCache <==> FirstMinimal(net, e.name).Some?)
      ensures forall n :: n in listCache ==> n in old(listCache) || n in Names(filtered)
      ensures attempts <= old(attempts) + Retries * |filtered|
    {
      cards := [];
      var i := 0;
      assert Drop(filtered, i) == filtered;
      while i < |filtered|
        invariant Valid()
        invariant Retains(old(listCache), listCache) && Retains(old(fullCache), fullCache)
        invariant cards + ChunkCards(net, Chunks(Drop(filtered, i), SearchChunk)) == ChunkCards(net, Chunks(filtered, SearchChunk))
        invariant CachedBatch(net, old(listCache), listCache, Names(filtered[..Min(i, |filtered|)]))
        invariant attempts <= old(attempts) + Retries * Min(i, |filtered|)
      {
        ghost var list0, full0 := listCache, fullCache;
        var batchCards := RenderBatch(filtered[i..Min(i + SearchChunk, |filtered|)]);
        RetainsTrans(old(listCache), list0, listCache);
        RetainsTrans(old(fullCache), full0, fullCache);
        CachedPrefixStep(net, old(listCache), list0, listCache, filtered, i, Min(i + SearchChunk, |filtered|));
        ChunkCardsStep(net, filtered, i);
        ghost var rest := ChunkCards(net, Chunks(Drop(filtered, i + SearchChunk), SearchChunk));
        assert (cards + batchCards) + rest == cards + (batchCards + rest);
        cards := cards + batchCards;
        i := i + SearchChunk;
      }
      assert Drop(filtered, i) == [];
      assert filtered[..Min(i, |filtered|)] == filtered;
      CachedEntries(net, State(), old(listCache), filtered);
    }
  }
}
