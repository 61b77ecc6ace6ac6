/** The incremental loader of `displayPokemonList` (script.js lines 185-281): an initial
    slice of 6 entries, then slices of 20 whenever the sentinel scrolls into view or the
    "Load More" button is clicked, with `isLoading` keeping loads from overlapping. */
module Controller {
  import opened Retry
  import opened Records
  import opened Batch
  import opened Search
  import opened Catalog

  const InitialSlice: nat := 6
  const BatchSize: nat := 20

  /** What started the load in progress: the observer callback or the button handler. */
  datatype Trigger = Sentinel | Button

  /** The closure variables of `displayPokemonList` and the parts of the page they drive:
      the cards appended so far, whether the button is displayed and disabled, and
      whether `loadMoreContainer` has been removed. */
  datatype LoadState = LoadState(
    loadedCount: nat,
    isLoading: bool,
    via: Trigger,
    cards: seq<Card>,
    buttonShown: bool,
    buttonDisabled: bool,
    containerRemoved: bool)

  /** The cards on the page once the first `n` entries are loaded: the initial slice,
      then one slice of `BatchSize` after another. */
  function ListCards(net: Network, list: seq<CatalogEntry>, n: nat): seq<Card>
    requires n <= |list|
  {
    if n <= InitialSlice then BatchCards(net, list[..n])
    else BatchCards(net, list[..InitialSlice]) + ChunkCards(net, Chunks(list[InitialSlice..n], BatchSize))
  }

  /** `n` ends a slice: the initial one, or a whole number of `BatchSize` slices after it. */
  predicate OnBoundary(n: nat)
  {
    n >= InitialSlice && WholeChunks(n - InitialSlice, BatchSize)
  }

  /** One more load appends the cards of the next slice to those already on the page,
      when the cursor sits on a slice boundary. */
  lemma ListCardsStep(net: Network, list: seq<CatalogEntry>, n: nat)
    requires n < |list| && OnBoundary(n)
    ensures ListCards(net, list, Min(n + BatchSize, |list|)) ==
              ListCards(net, list, n) + BatchCards(net, Slice(list, n, BatchSize))
  {
    var m := n - InitialSlice;
    var s := list[InitialSlice..Min(n + BatchSize, |list|)];
    ChunksAppend(s, m, BatchSize);
    assert s[..m] == list[InitialSlice..n];
    assert s[m..] == Slice(list, n, BatchSize);
    ChunkCardsSnoc(net, Chunks(list[InitialSlice..n], BatchSize), Slice(list, n, BatchSize));
    if m == 0 {
      assert list[InitialSlice..n] == [];
    }
  }

  /** What holds between events: the cursor lies on a slice boundary or at the end and
      never past it, the page shows exactly the cards of the loaded entries, a load is in
      progress only while entries remain, the button is disabled only during a load it
      started, and the container is gone exactly when a later load completed the list. */
  predicate Inv(net: Network, list: seq<CatalogEntry>, s: LoadState)
  {
    && Min(InitialSlice, |list|) <= s.loadedCount <= |list|
    && (s.loadedCount == |list| || OnBoundary(s.loadedCount))
    && s.cards == ListCards(net, list, s.loadedCount)
    && (s.isLoading ==> s.loadedCount < |list|)
    && (s.buttonDisabled ==> s.isLoading && s.via == Button)
    && (s.containerRemoved <==> s.loadedCount == |list| && InitialSlice < |list|)
  }

  /** Lines 185-212: the initial slice is loaded; the button starts hidden. */
  function Initial(net: Network, list: seq<CatalogEntry>): (r: LoadState)
    ensures Inv(net, list, r)
    ensures r.loadedCount == Min(InitialSlice, |list|) && !r.isLoading
  {
    assert Slice(list, 0, InitialSlice) == list[..Min(InitialSlice, |list|)];
    LoadState(Min(InitialSlice, |list|), false, Sentinel, BatchCards(net, Slice(list, 0, InitialSlice)),
              false, false, false)
  }

  /** The guard shared by both handlers (lines 216 and 255). */
  predicate CanLoad(s: LoadState, total: nat)
  {
    s.loadedCount < total && !s.isLoading
  }

  /** The observer callback (lines 214-218) for an entry that is or is not intersecting. */
  function Sighted(net: Network, list: seq<CatalogEntry>, s: LoadState, intersecting: bool): (r: LoadState)
    requires Inv(net, list, s)
    ensures Inv(net, list, r)
    ensures r.isLoading <==> s.isLoading || (intersecting && s.loadedCount < |list|)
    ensures r.loadedCount == s.loadedCount && r.cards == s.cards
    ensures !(intersecting && CanLoad(s, |list|)) ==> r == s
  {
    if intersecting && CanLoad(s, |list|) then s.(isLoading := true, via := Sentinel) else s
  }

  /** The button handler (lines 254-257): the button is disabled while its load runs. */
  function Clicked(net: Network, list: seq<CatalogEntry>, s: LoadState): (r: LoadState)
    requires Inv(net, list, s)
    ensures Inv(net, list, r)
    ensures r.isLoading <==> s.isLoading || s.loadedCount < |list|
    ensures r.buttonDisabled <==> s.buttonDisabled || CanLoad(s, |list|)
    ensures r.loadedCount == s.loadedCount && r.cards == s.cards
    ensures !CanLoad(s, |list|) ==> r == s
  {
    if CanLoad(s, |list|) then s.(isLoading := true, via := Button, buttonDisabled := true) else s
  }

  /** The rest of either handler once `loadPokemonBatch` settles (lines 222-245 and
      259-280). `threw` says the loader rejected: the cursor and the page stay as they
      were, and in the observer path the button is displayed. Otherwise the cursor moves
      by one slice, clamped to the list, and the slice's cards are appended. The
      container is removed exactly when the list is complete, and the handler ends with
      the button enabled and no load in progress. */
  function Settled(net: Network, list: seq<CatalogEntry>, s: LoadState, threw: bool): (r: LoadState)
    requires Inv(net, list, s) && s.isLoading
    ensures !r.isLoading && !r.buttonDisabled
    ensures s.loadedCount < r.loadedCount <= |list| || (threw && r.loadedCount == s.loadedCount)
    ensures threw ==> r.loadedCount == s.loadedCount && r.cards == s.cards
    ensures !threw ==>
              && r.loadedCount == Min(s.loadedCount + BatchSize, |list|)
              && r.cards == s.cards + BatchCards(net, Slice(list, s.loadedCount, BatchSize))
    ensures r.buttonShown <==> s.buttonShown || (threw && s.via == Sentinel)
    ensures r.containerRemoved <==> r.loadedCount == |list|
  {
    var loaded := if threw then s.loadedCount else Min(s.loadedCount + BatchSize, |list|);
    var cards := if threw then s.cards else s.cards + BatchCards(net, Slice(list, s.loadedCount, BatchSize));
    LoadState(loaded, false, s.via, cards, s.buttonShown || (threw && s.via == Sentinel), false,
              loaded >= |list|)
  }

  /** Settling a load keeps the invariant: a completed load moves the cursor to the next
      boundary or to the end, and appends exactly that slice's cards. */
  lemma SettledKeepsInv(net: Network, list: seq<CatalogEntry>, s: LoadState, threw: bool)
    requires Inv(net, list, s) && s.isLoading
    ensures Inv(net, list, Settled(net, list, s, threw))
  {
    if !threw {
      ListCardsStep(net, list, s.loadedCount);
      var loaded := Min(s.loadedCount + BatchSize, |list|);
      assert loaded == |list| || OnBoundary(loaded);
    }
  }

  class ListController {
    /** The network the session's fetches consult. */
    const net: Network
    const list: seq<CatalogEntry>
    const totalPokemon: nat
    /** The cursor: entries before it have been loaded. */
    var loadedCount: nat
    var isLoading: bool
    var via: Trigger
    /** The cards appended to the list container, in order. */
    var cards: seq<Card>
    /** `loadMoreButton.style.display` is 'block'. */
    var buttonShown: bool
    var buttonDisabled: bool
    /** `loadMoreContainer.remove()` has run. */
    var containerRemoved: bool

    function State(): LoadState
      reads this
    {
      LoadState(loadedCount, isLoading, via, cards, buttonShown, buttonDisabled, containerRemoved)
    }

    ghost predicate Valid()
      reads this
    {
      totalPokemon == |list| && Inv(net, list, State())
    }

    /** Lines 185-212: the initial slice of 6 is loaded before the sentinel, the hidden
        button and their container are created. */
    constructor (session: Session, list: seq<CatalogEntry>)
      requires session.Valid()
      modifies session
      ensures Valid() && session.Valid()
      ensures net == session.net && this.list == list && totalPokemon == |list|
      ensures State() == Initial(net, list)
      ensures Retains(old(session.listCache), session.listCache) && Retains(old(session.fullCache), session.fullCache)
      ensures forall k :: 0 <= k < Min(InitialSlice, |list|) ==>
                (list[k].name in session.listCache <==> FirstMinimal(net, list[k].name).Some?)
      ensures forall n :: n in session.listCache ==>
                n in old(session.listCache) || n in Names(Slice(list, 0, InitialSlice))
      ensures session.attempts <= old(session.attempts) + Retries * InitialSlice
    {
      var next, first := session.LoadBatch(list, 0, InitialSlice);
      net := session.net;
      this.list := list;
      totalPokemon := |list|;
      loadedCount, cards := next, first;
      isLoading, via := false, Sentinel;
      buttonShown, buttonDisabled, containerRemoved := false, false, false;
    }

    /** The observer callback (lines 214-218): a load starts only when the sentinel is
        intersecting, entries remain and no load is in progress. */
    method OnSentinelVisible(intersecting: bool) returns (started: bool)
      requires Valid()
      modifies this
      ensures Valid()
      ensures started <==> intersecting && CanLoad(old(State()), totalPokemon)
      ensures State() == Sighted(net, list, old(State()), intersecting)
    {
      started := intersecting && loadedCount < totalPokemon && !isLoading;
      if started {
        isLoading := true;
        via := Sentinel;
      }
    }

    /** The button handler (lines 254-257): a click on the displayed, enabled button
        starts a load only when entries remain and no load is in progress. */
    method OnButtonClick() returns (started: bool)
      requires Valid() && buttonShown && !buttonDisabled
      modifies this
      ensures Valid()
      ensures started <==> CanLoad(old(State()), totalPokemon)
      ensures State() == Clicked(net, list, old(State()))
    {
      started := loadedCount < totalPokemon && !isLoading;
      if started {
        isLoading := true;
        buttonDisabled := true;
        via := Button;
      }
    }

    /** The continuation of either handler after `await loadPokemonBatch(...)`, which
        resolves and renders the next slice through `session`. */
    method FinishLoad(session: Session, threw: bool)
      requires Valid() && isLoading
      requires session.Valid() && session.net == net
      modifies this, session
      ensures Valid() && session.Valid()
      ensures State() == Settled(net, list, old(State()), threw)
      ensures Retains(old(session.listCache), session.listCache) && Retains(old(session.fullCache), session.fullCache)
      ensures forall k :: old(loadedCount) <= k < Min(old(loadedCount) + BatchSize, |list|) ==>
                (list[k].name in session.listCache <==> FirstMinimal(net, list[k].name).Some?)
      ensures forall n :: n in session.listCache ==>
                n in old(session.listCache) || n in Names(Slice(list, old(loadedCount), BatchSize))
      ensures session.attempts <= old(session.attempts) + Retries * BatchSize
    {
      var next, batchCards := session.LoadBatch(list, loadedCount, BatchSize);
      Settle(next, batchCards, threw);
    }

    /** The statements after the `await` (lines 223-243 and 262-279): advance the
        cursor and append the cards unless the load threw, show the button when a
        sentinel-triggered load threw, remove the container once the list is complete,
        re-enable the button, and clear `isLoading`. */
    method Settle(next: nat, batchCards: seq<Card>, threw: bool)
      requires Valid() && isLoading
      requires next == Min(loadedCount + BatchSize, |list|)
      requires batchCards == BatchCards(net, Slice(list, loadedCount, BatchSize))
      modifies this
      ensures Valid()
      ensures State() == Settled(net, list, old(State()), threw)
    {
      SettledKeepsInv(net, list, State(), threw);
      if !threw {
        loadedCount := next;
        cards := cards + batchCards;
      } else if via == Sentinel {
        buttonShown := true;
      }
      if loadedCount >= totalPokemon {
        containerRemoved := true;
      }
      if via == Button {
        buttonDisabled := false;
      }
      isLoading := false;
      assert State() == Settled(net, list, old(State()), threw);
    }
  }
}
