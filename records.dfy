/** The records the viewer handles, the network oracle that replaces `fetch`, and the
    two session caches as values. */
module Records {
  import opened Wrappers
  import opened Retry

  /** One entry of the catalogue index: a name and the URL of its detail resource. */
  datatype CatalogEntry = CatalogEntry(name: string, url: string)

  datatype Stat = Stat(name: string, baseStat: int)

  /** The parsed detail resource of one creature: the fields the viewer reads.
      `sprite` is `sprites.front_default`, which the API may leave null;
      `types` lists the type names in slot order. */
  datatype FullRecord = FullRecord(name: string, id: int, sprite: Option<string>, types: seq<string>,
                                   height: int, weight: int, stats: seq<Stat>, moves: seq<string>)

  /** The list-level record `{name, sprite, type}`. */
  datatype MinimalRecord = MinimalRecord(name: string, sprite: Option<string>, primaryType: string)

  /** The species resource; the viewer reads only `evolution_chain.url`. */
  datatype Species = Species(chainUrl: string)

  /** A node of an evolution chain: `{species: {name}, evolves_to: [...]}`. */
  datatype ChainNode = ChainNode(species: string, evolvesTo: seq<ChainNode>)

  /** The evolution-chain resource; its root node is `chain`. */
  datatype EvolutionChain = EvolutionChain(chain: ChainNode)

  /** The network, as an oracle: for every detail name, species name and chain URL,
      the outcomes of the successive attempts of one fetch loop. Every loop replays
      its key's script from the first attempt; a key without a script always fails. */
  datatype Network = Network(pokemon: map<string, seq<Outcome<FullRecord>>>,
                             species: map<string, seq<Outcome<Species>>>,
                             chains: map<string, seq<Outcome<EvolutionChain>>>)

  function Script<T>(m: map<string, seq<Outcome<T>>>, key: string): seq<Outcome<T>>
  {
    if key in m then m[key] else []
  }

  /** `data.types[0]` exists. */
  predicate HasType(f: FullRecord)
  {
    |f.types| > 0
  }

  /** `{name: data.name, sprite: data.sprites.front_default, type: data.types[0].type.name}`. */
  function Minimal(f: FullRecord): MinimalRecord
    requires HasType(f)
  {
    MinimalRecord(f.name, f.sprite, f.types[0])
  }

  /** An attempt at the detail endpoint as both detail routines see it: a response
      without types throws while its list entry is derived, inside the same `try`,
      and so counts as a failed attempt. */
  function Usable(o: Outcome<FullRecord>): Outcome<FullRecord>
  {
    if o.Ok? && HasType(o.value) then o else Fail
  }

  function DetailScript(net: Network, name: string): seq<Outcome<FullRecord>>
  {
    var s := Script(net.pokemon, name);
    seq(|s|, i requires 0 <= i < |s| => Usable(s[i]))
  }

  /** The retry loop against `/pokemon/{name}`. */
  function DetailRun(net: Network, name: string): Run<FullRecord>
  {
    RunRetries(DetailScript(net, name), Retries)
  }

  /** The record a detail fetch of `name` resolves to, None when all attempts failed. */
  function FirstRecord(net: Network, name: string): (r: Option<FullRecord>)
    ensures r.Some? ==> HasType(r.value) && Ok(r.value) in Script(net.pokemon, name)
  {
    RetryCharacterized(DetailScript(net, name), Retries);
    DetailRun(net, name).result
  }

  /** The list entry a batch fetch of `name` resolves to, None when all attempts failed. */
  function FirstMinimal(net: Network, name: string): Option<MinimalRecord>
  {
    match FirstRecord(net, name)
    case Some(f) => Some(Minimal(f))
    case None => None
  }

  /** The retry loop against `/pokemon-species/{name}`. */
  function SpeciesRun(net: Network, name: string): Run<Species>
  {
    RunRetries(Script(net.species, name), Retries)
  }

  /** The retry loop against an evolution-chain URL. */
  function ChainRun(net: Network, url: string): Run<EvolutionChain>
  {
    RunRetries(Script(net.chains, url), Retries)
  }

  /** The two session caches, `pokemonListCache` and `pokemonFullCache`, as values. */
  datatype Caches = Caches(list: map<string, MinimalRecord>, full: map<string, FullRecord>)

  /** The caches agree: the same names, and every list entry is the projection of the
      full record cached under the same name. */
  predicate Coherent(c: Caches)
  {
    && c.list.Keys == c.full.Keys
    && forall n :: n in c.full ==> HasType(c.full[n]) && c.list[n] == Minimal(c.full[n])
  }

  /** `fetchPokemonDetails` as written (lines 72-93), on a cache miss, from attempt
      `attempt` on: each response is stored in the full cache before its list entry is
      derived, so a response without a type stays in the full cache although reading
      `types[0]` throws and the attempt counts as failed. */
  function DetailAttemptsAsWritten(c: Caches, script: seq<Outcome<FullRecord>>, name: string, attempt: nat)
    : (r: (Option<FullRecord>, Caches))
    ensures r.0.Some? ==> HasType(r.0.value) && name in r.1.list && r.1.list[name] == Minimal(r.0.value)
    ensures r.0.None? ==> r.1.list == c.list
    decreases Retries - attempt
  {
    if attempt >= Retries then (None, c)
    else match AttemptAt(script, attempt)
      case Fail => DetailAttemptsAsWritten(c, script, name, attempt + 1)
      case Ok(f) =>
        var stored := c.(full := c.full[name := f]);
        if HasType(f) then (Some(f), stored.(list := stored.list[name := Minimal(f)]))
        else DetailAttemptsAsWritten(stored, script, name, attempt + 1)
  }

  /** A single response without a type, then silence: from empty caches the detail path
      as written fails, yet leaves the response in the full cache and nothing in the list
      cache, so the caches no longer hold the same names. */
  lemma TypelessResponseSplitsCaches(name: string, f: FullRecord)
    requires f.types == []
    ensures var r := DetailAttemptsAsWritten(Caches(map[], map[]), [Ok(f)], name, 0);
            && r.0 == None
            && name in r.1.full && name !in r.1.list
            && !Coherent(r.1)
  {
    var stored := Caches(map[], map[name := f]);
    assert AttemptAt([Ok(f)], 1) == Fail && AttemptAt([Ok(f)], 2) == Fail;
    assert DetailAttemptsAsWritten(stored, [Ok(f)], name, 3) == (None, stored);
    assert DetailAttemptsAsWritten(stored, [Ok(f)], name, 1) == (None, stored);
    assert DetailAttemptsAsWritten(Caches(map[], map[]), [Ok(f)], name, 0) == (None, stored);
    assert name in stored.full.Keys && name !in stored.list.Keys;
  }

  /** Every cached full record is what a detail fetch of its name resolves to. */
  predicate Sourced(net: Network, full: map<string, FullRecord>)
  {
    forall n :: n in full ==> FirstRecord(net, n) == Some(full[n])
  }

  /** Writing a fetched record under its name, and its projection into the list cache,
      keeps the caches coherent and sourced and replaces no cached entry. */
  lemma StoreFetched(net: Network, c: Caches, name: string, f: FullRecord)
    requires Coherent(c) && Sourced(net, c.full)
    requires FirstRecord(net, name) == Some(f)
    ensures HasType(f)
    ensures Coherent(Caches(c.list[name := Minimal(f)], c.full[name := f]))
    ensures Sourced(net, c.full[name := f])
    ensures Retains(c.list, c.list[name := Minimal(f)]) && Retains(c.full, c.full[name := f])
  {
  }

  /** Under the cache invariant, a cached name is one whose batch fetch resolves. */
  lemma CachedResolves(net: Network, c: Caches)
    requires Coherent(c) && Sourced(net, c.full)
    ensures forall n :: n in c.list ==> FirstMinimal(net, n).Some?
  {
    forall n | n in c.list ensures FirstMinimal(net, n).Some? {
      assert n in c.full;
    }
  }

  /** After resolving `names` from the list cache `before`, the list cache `after`
      holds every name of `names` that resolves, and nothing new besides. */
  ghost predicate CachedBatch(net: Network, before: map<string, MinimalRecord>,
                              after: map<string, MinimalRecord>, names: seq<string>)
  {
    && (forall k :: 0 <= k < |names| ==> FirstMinimal(net, names[k]).Some? ==> names[k] in after)
    && (forall n :: n in after ==> n in before || n in names)
  }

  /** Resolving the first name, then the rest without replacing any entry, gives
      `CachedBatch` for the whole of `names`. */
  lemma CachedBatchCons(net: Network, before: map<string, MinimalRecord>, mid: map<string, MinimalRecord>,
                        after: map<string, MinimalRecord>, names: seq<string>)
    requires names != []
    requires FirstMinimal(net, names[0]).Some? ==> names[0] in mid
    requires forall n :: n in mid ==> n in before || n == names[0]
    requires Retains(mid, after) && CachedBatch(net, mid, after, names[1..])
    ensures CachedBatch(net, before, after, names)
  {
    forall k | 0 <= k < |names| && FirstMinimal(net, names[k]).Some? ensures names[k] in after {
      if k > 0 {
        assert names[k] == names[1..][k - 1];
      }
    }
  }

  /** Resolving `xs`, then `ys` without replacing any entry, gives `CachedBatch` for
      `xs + ys`. */
  lemma CachedBatchAppend(net: Network, a: map<string, MinimalRecord>, b: map<string, MinimalRecord>,
                          c: map<string, MinimalRecord>, xs: seq<string>, ys: seq<string>)
    requires CachedBatch(net, a, b, xs) && Retains(b, c) && CachedBatch(net, b, c, ys)
    ensures CachedBatch(net, a, c, xs + ys)
  {
    forall k | 0 <= k < |xs + ys| && FirstMinimal(net, (xs + ys)[k]).Some? ensures (xs + ys)[k] in c {
      if k < |xs| {
        assert (xs + ys)[k] == xs[k];
      } else {
        assert (xs + ys)[k] == ys[k - |xs|];
      }
    }
  }

  /** `after` keeps every entry of `before` unchanged: a cached record is never replaced. */
  ghost predicate Retains<K, V>(before: map<K, V>, after: map<K, V>)
  {
    forall k :: k in before ==> k in after && after[k] == before[k]
  }

  lemma RetainsTrans<K, V>(a: map<K, V>, b: map<K, V>, c: map<K, V>)
    requires Retains(a, b) && Retains(b, c)
    ensures Retains(a, c)
  {
  }
}
