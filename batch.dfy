/** The pure steps of batch loading: dropping failed names (`results.filter(r => r !== null)`),
    slicing the catalogue, and pairing the surviving records with the slice (`batch[index]`). */
module Batch {
  import opened Wrappers
  import opened Records

  function Min(a: int, b: int): int
  {
    if a <= b then a else b
  }

  /** The values of the resolved entries, in order; failed entries are dropped. */
  function Present<T>(rs: seq<Option<T>>): (r: seq<T>)
    ensures |r| <= |rs|
  {
    if rs == [] then []
    else (if rs[0].Some? then [rs[0].value] else []) + Present(rs[1..])
  }

  /** Dropping failures distributes over concatenation: the order of the survivors is kept. */
  lemma {:induction false} PresentConcat<T>(a: seq<Option<T>>, b: seq<Option<T>>)
    ensures Present(a + b) == Present(a) + Present(b)
  {
    if a == [] {
      assert a + b == b;
    } else {
      assert (a + b)[0] == a[0];
      assert (a + b)[1..] == a[1..] + b;
      PresentConcat(a[1..], b);
    }
  }

  /** A value survives exactly when some entry resolved to it, and as many entries are
      dropped as failed. */
  lemma {:induction false} PresentMembers<T>(rs: seq<Option<T>>)
    ensures forall v :: v in Present(rs) <==> Some(v) in rs
    ensures |Present(rs)| + multiset(rs)[None] == |rs|
  {
    if rs != [] {
      PresentMembers(rs[1..]);
      assert rs == [rs[0]] + rs[1..];
      assert multiset(rs) == multiset{rs[0]} + multiset(rs[1..]);
    }
  }

  /** Nothing is dropped exactly when nothing failed, and then the values line up. */
  lemma {:induction false} PresentAllResolved<T>(rs: seq<Option<T>>)
    ensures |Present(rs)| == |rs| <==> forall k :: 0 <= k < |rs| ==> rs[k].Some?
    ensures (forall k :: 0 <= k < |rs| ==> rs[k].Some?) ==>
            forall k :: 0 <= k < |rs| ==> Present(rs)[k] == rs[k].value
  {
    if rs != [] {
      PresentAllResolved(rs[1..]);
      if rs[0].None? {
        assert |Present(rs)| < |rs|;
      } else if forall k :: 0 <= k < |rs| ==> rs[k].Some? {
        assert forall k :: 0 <= k < |rs[1..]| ==> rs[1..][k].Some?;
      } else {
        var j :| 0 <= j < |rs| && rs[j].None?;
        assert rs[1..][j - 1].None?;
      }
    }
  }

  /** The position in `rs` of the `i`-th surviving entry. */
  function SourceIndex<T>(rs: seq<Option<T>>, i: nat): nat
    requires i < |Present(rs)|
    decreases rs
  {
    if rs[0].Some? then (if i == 0 then 0 else 1 + SourceIndex(rs[1..], i - 1))
    else 1 + SourceIndex(rs[1..], i)
  }

  /** The `i`-th survivor is the value at `SourceIndex(rs, i)`, which lies at or after `i`,
      and lies exactly at `i` if and only if none of the entries up to `i` failed. */
  lemma {:induction false} SourceIndexSpec<T>(rs: seq<Option<T>>, i: nat)
    requires i < |Present(rs)|
    ensures i <= SourceIndex(rs, i) < |rs|
    ensures rs[SourceIndex(rs, i)] == Some(Present(rs)[i])
    ensures SourceIndex(rs, i) == i <==> forall k :: 0 <= k <= i ==> rs[k].Some?
    decreases rs
  {
    if rs[0].Some? {
      if i > 0 {
        SourceIndexSpec(rs[1..], i - 1);
        if forall k :: 0 <= k <= i - 1 ==> rs[1..][k].Some? {
          assert forall k :: 0 <= k <= i ==> rs[k].Some? by {
            forall k | 0 <= k <= i ensures rs[k].Some? {
              if k > 0 { assert rs[k] == rs[1..][k - 1]; }
            }
          }
        } else {
          var j :| 0 <= j <= i - 1 && rs[1..][j].None?;
          assert rs[j + 1].None?;
        }
      }
    } else {
      SourceIndexSpec(rs[1..], i);
    }
  }

  /** `list.slice(start, start + size)` for non-negative arguments. */
  function Slice<T>(list: seq<T>, start: nat, size: nat): seq<T>
  {
    list[Min(start, |list|)..Min(start + size, |list|)]
  }

  /** The cursor `start + batch.length`: within the list it is `min(start + size, |list|)`
      whatever failed; past the end nothing is sliced and the cursor stays put. */
  lemma SliceCursor<T>(list: seq<T>, start: nat, size: nat)
    ensures start <= |list| ==> start + |Slice(list, start, size)| == Min(start + size, |list|)
    ensures start > |list| ==> Slice(list, start, size) == []
    ensures start <= |list| ==> Slice(list, start, size) == list[start..start + |Slice(list, start, size)|]
  {
  }

  function Names(batch: seq<CatalogEntry>): (names: seq<string>)
  {
    seq(|batch|, i requires 0 <= i < |batch| => batch[i].name)
  }

  lemma NamesConcat(a: seq<CatalogEntry>, b: seq<CatalogEntry>)
    ensures Names(a + b) == Names(a) + Names(b)
  {
  }

  /** Under the cache invariant, `CachedBatch` over the names of `batch` says that an
      entry of `batch` is cached exactly when it resolves. */
  lemma CachedEntries(net: Network, c: Caches, before: map<string, MinimalRecord>, batch: seq<CatalogEntry>)
    requires Coherent(c) && Sourced(net, c.full) && CachedBatch(net, before, c.list, Names(batch))
    ensures forall e :: e in batch ==> (e.name in c.list <==> FirstMinimal(net, e.name).Some?)
  {
    CachedResolves(net, c);
    forall e | e in batch && FirstMinimal(net, e.name).Some? ensures e.name in c.list {
      var k :| 0 <= k < |batch| && batch[k] == e;
      assert Names(batch)[k] == e.name;
    }
  }

  /** Resolving the entries from `i` to `j` after those before `i`, without replacing
      any entry, gives `CachedBatch` for the entries before `j`. */
  lemma CachedPrefixStep(net: Network, a: map<string, MinimalRecord>, b: map<string, MinimalRecord>,
                         c: map<string, MinimalRecord>, s: seq<CatalogEntry>, i: nat, j: nat)
    requires i <= j <= |s|
    requires CachedBatch(net, a, b, Names(s[..i])) && Retains(b, c) && CachedBatch(net, b, c, Names(s[i..j]))
    ensures CachedBatch(net, a, c, Names(s[..j]))
  {
    assert s[..j] == s[..i] + s[i..j];
    NamesConcat(s[..i], s[i..j]);
    CachedBatchAppend(net, a, b, c, Names(s[..i]), Names(s[i..j]));
  }

  /** What each name of a batch resolves to, before failures are dropped. */
  function Resolved(net: Network, names: seq<string>): seq<Option<MinimalRecord>>
  {
    seq(|names|, i requires 0 <= i < |names| => FirstMinimal(net, names[i]))
  }

  /** A rendered card: the catalogue name shown on it, and the image and type class
      taken from the record paired with it. */
  datatype Card = Card(name: string, sprite: Option<string>, primaryType: string)

  /** The `forEach((pokemonDetails, index) => ... batch[index] ...)` pairing: the
      `index`-th surviving record is paired with the `index`-th catalogue entry. */
  function PairCards(batch: seq<CatalogEntry>, details: seq<MinimalRecord>): seq<Card>
    requires |details| <= |batch|
  {
    seq(|details|, i requires 0 <= i < |details| => Card(batch[i].name, details[i].sprite, details[i].primaryType))
  }

  /** The cards rendered for one batch of catalogue entries. */
  function BatchCards(net: Network, batch: seq<CatalogEntry>): seq<Card>
  {
    var details := Present(Resolved(net, Names(batch)));
    PairCards(batch, details)
  }

  /** One card per name that resolves. Card `i` carries the name of entry `i` but the
      image and type of entry `SourceIndex(..., i)`; the two are the same entry
      exactly when no entry up to `i` failed. */
  lemma BatchCardsAt(net: Network, batch: seq<CatalogEntry>, i: nat)
    requires i < |BatchCards(net, batch)|
    ensures var rs := Resolved(net, Names(batch));
            var j := SourceIndex(rs, i);
            && i <= j < |batch|
            && FirstMinimal(net, batch[j].name).Some?
            && BatchCards(net, batch)[i]
               == Card(batch[i].name, FirstMinimal(net, batch[j].name).value.sprite,
                       FirstMinimal(net, batch[j].name).value.primaryType)
            && (j == i <==> forall k :: 0 <= k <= i ==> FirstMinimal(net, batch[k].name).Some?)
  {
    var rs := Resolved(net, Names(batch));
    assert forall k :: 0 <= k < |batch| ==> rs[k] == FirstMinimal(net, batch[k].name);
    SourceIndexSpec(rs, i);
  }

  /** When every name of the batch resolves, there is one card per entry and card `i`
      shows entry `i`'s own record. */
  lemma BatchCardsAligned(net: Network, batch: seq<CatalogEntry>)
    requires forall k :: 0 <= k < |batch| ==> FirstMinimal(net, batch[k].name).Some?
    ensures |BatchCards(net, batch)| == |batch|
    ensures forall k :: 0 <= k < |batch| ==>
              BatchCards(net, batch)[k]
              == Card(batch[k].name, FirstMinimal(net, batch[k].name).value.sprite,
                      FirstMinimal(net, batch[k].name).value.primaryType)
  {
    PresentAllResolved(Resolved(net, Names(batch)));
  }

  /** Every card carries the name of some entry of the batch. */
  lemma BatchCardNames(net: Network, batch: seq<CatalogEntry>)
    ensures forall c :: c in BatchCards(net, batch) ==> exists e :: e in batch && e.name == c.name
  {
    var cards := BatchCards(net, batch);
    forall c | c in cards ensures exists e :: e in batch && e.name == c.name {
      var i :| 0 <= i < |cards| && cards[i] == c;
      assert batch[i] in batch;
    }
  }

  /** Exactly one failed resolution among `rs` costs exactly one record. */
  lemma {:induction false} PresentOneFailure<T>(rs: seq<Option<T>>, j: nat)
    requires j < |rs| && rs[j].None?
    requires forall k :: 0 <= k < |rs| && k != j ==> rs[k].Some?
    ensures |Present(rs)| == |rs| - 1
  {
    var left, right := rs[..j], rs[j + 1..];
    assert rs == left + [rs[j]] + right;
    PresentConcat(left + [rs[j]], right);
    PresentConcat(left, [rs[j]]);
    assert Present([rs[j]]) == [];
    PresentAllResolved(left);
    assert forall k :: 0 <= k < |right| ==> right[k] == rs[j + 1 + k];
    PresentAllResolved(right);
  }

  /** A list of 20 entries and a slice of 6 in which exactly one name fails: the cursor
      still moves to 6, and 5 cards are rendered. */
  lemma OneFailureInFirstSlice(net: Network, list: seq<CatalogEntry>, j: nat)
    requires |list| == 20 && j < 6
    requires FirstMinimal(net, list[j].name).None?
    requires forall k :: 0 <= k < 6 && k != j ==> FirstMinimal(net, list[k].name).Some?
    ensures 0 + |Slice(list, 0, 6)| == 6
    ensures |BatchCards(net, Slice(list, 0, 6))| == 5
  {
    var batch := Slice(list, 0, 6);
    var rs := Resolved(net, Names(batch));
    assert forall k :: 0 <= k < 6 ==> rs[k] == FirstMinimal(net, list[k].name);
    PresentOneFailure(rs, j);
  }
}
