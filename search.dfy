/** The search box: lower-case the term, keep the catalogue entries whose name contains
    it, and render the result in chunks of 50. */
module Search {
  import opened Records
  import opened Batch

  /** The width of one rendering chunk. */
  const SearchChunk: nat := 50

  function LowerChar(c: char): char
  {
    if 'A' <= c <= 'Z' then (c as int + 32) as char else c
  }

  /** `toLowerCase`, on the letters A-Z. */
  function Lower(s: string): string
  {
    seq(|s|, i requires 0 <= i < |s| => LowerChar(s[i]))
  }

  /** `term` occurs in `s` starting at position `k`. */
  predicate OccursAt(s: string, term: string, k: nat)
  {
    k + |term| <= |s| && s[k..k + |term|] == term
  }

  /** `s.includes(term)`, scanning from the left. */
  predicate Includes(s: string, term: string)
    decreases |s|
  {
    |term| <= |s| && (s[..|term|] == term || (|s| > 0 && Includes(s[1..], term)))
  }

  /** The scan finds `term` exactly when it occurs somewhere in `s`. */
  lemma {:induction false} IncludesIff(s: string, term: string)
    ensures Includes(s, term) <==> exists k: nat :: OccursAt(s, term, k)
    decreases |s|
  {
    if Includes(s, term) {
      if s[..|term|] == term {
        assert OccursAt(s, term, 0);
      } else {
        IncludesIff(s[1..], term);
        var k: nat :| OccursAt(s[1..], term, k);
        assert s[1..][k..k + |term|] == s[k + 1..k + 1 + |term|];
        assert OccursAt(s, term, k + 1);
      }
    }
    if exists k: nat :: OccursAt(s, term, k) {
      var k: nat :| OccursAt(s, term, k);
      if k > 0 {
        assert s[1..][k - 1..k - 1 + |term|] == s[k..k + |term|];
        assert OccursAt(s[1..], term, k - 1);
        IncludesIff(s[1..], term);
      }
    }
  }

  /** `pokemonList.filter(pokemon => pokemon.name.includes(term))`. */
  function FilterByName(list: seq<CatalogEntry>, term: string): seq<CatalogEntry>
  {
    if list == [] then []
    else (if Includes(list[0].name, term) then [list[0]] else []) + FilterByName(list[1..], term)
  }

  /** Filtering distributes over concatenation: the kept entries stay in catalogue order. */
  lemma {:induction false} FilterConcat(a: seq<CatalogEntry>, b: seq<CatalogEntry>, term: string)
    ensures FilterByName(a + b, term) == FilterByName(a, term) + FilterByName(b, term)
  {
    if a == [] {
      assert a + b == b;
    } else {
      var kept := if Includes(a[0].name, term) then [a[0]] else [];
      assert (a + b)[0] == a[0];
      assert (a + b)[1..] == a[1..] + b;
      assert FilterByName(a + b, term) == kept + FilterByName(a[1..] + b, term);
      FilterConcat(a[1..], b, term);
      assert kept + (FilterByName(a[1..], term) + FilterByName(b, term))
          == (kept + FilterByName(a[1..], term)) + FilterByName(b, term);
    }
  }

  /** An entry is kept exactly when it is in the list and its name contains the term. */
  lemma {:induction false} FilterMembers(list: seq<CatalogEntry>, term: string, e: CatalogEntry)
    ensures e in FilterByName(list, term) <==> e in list && Includes(e.name, term)
  {
    if list != [] {
      FilterMembers(list[1..], term, e);
      assert list == [list[0]] + list[1..];
    }
  }

  /** A name without the first letter of a non-empty term does not contain the term. */
  lemma {:induction false} MissingFirstLetter(s: string, term: string)
    requires |term| > 0 && term[0] !in s
    ensures !Includes(s, term)
    decreases |s|
  {
    if |term| <= |s| {
      assert s[..|term|][0] == s[0];
      MissingFirstLetter(s[1..], term);
    }
  }

  /** The names of the example below against the term "char". */
  lemma CharNames()
    ensures Lower("Char") == "char"
    ensures Includes("charmander", "char") && Includes("charmeleon", "char")
    ensures !Includes("squirtle", "char")
  {
    assert Lower("Char")[0] == LowerChar('C') == 'c';
    assert "charmander"[..4] == "char" && "charmeleon"[..4] == "char";
    assert forall i :: 0 <= i < |"squirtle"| ==> "squirtle"[i] != 'c';
    MissingFirstLetter("squirtle", "char");
  }

  /** Searching "Char" in charmander, charmeleon, squirtle keeps the first two, in order. */
  lemma CharExample()
    ensures var list := [CatalogEntry("charmander", "u1"), CatalogEntry("charmeleon", "u2"),
                         CatalogEntry("squirtle", "u3")];
            FilterByName(list, Lower("Char")) == list[..2]
  {
    var a, b, c := CatalogEntry("charmander", "u1"), CatalogEntry("charmeleon", "u2"),
                   CatalogEntry("squirtle", "u3");
    CharNames();
    assert [c][1..] == [];
    assert FilterByName([c], "char") == [];
    assert [b, c][1..] == [c];
    assert FilterByName([b, c], "char") == [b];
    assert [a, b, c][1..] == [b, c];
    assert FilterByName([a, b, c], "char") == [a] + [b];
    assert [a, b, c][..2] == [a, b];
  }

  /** `filtered.slice(i, i + width)` for i = 0, width, 2 * width, ... */
  function Chunks<T>(s: seq<T>, width: nat): seq<seq<T>>
    requires width > 0
    decreases |s|
  {
    if s == [] then []
    else [s[..Min(width, |s|)]] + Chunks(s[Min(width, |s|)..], width)
  }

  function Flatten<T>(ss: seq<seq<T>>): seq<T>
  {
    if ss == [] then [] else ss[0] + Flatten(ss[1..])
  }

  /** The chunks cover the list exactly once and in order. */
  lemma {:induction false} ChunksCover<T>(s: seq<T>, width: nat)
    requires width > 0
    ensures Flatten(Chunks(s, width)) == s
    decreases |s|
  {
    if s != [] {
      var m := Min(width, |s|);
      ChunksCover(s[m..], width);
      assert s[..m] + s[m..] == s;
    }
  }

  /** Each chunk is non-empty, all but the last hold exactly `width` entries, and there
      are ceil(|s| / width) of them. */
  lemma {:induction false} ChunksShape<T>(s: seq<T>, width: nat)
    requires width > 0
    ensures |s| <= |Chunks(s, width)| * width < |s| + width
    ensures forall k :: 0 <= k < |Chunks(s, width)| ==> 0 < |Chunks(s, width)[k]| <= width
    ensures forall k :: 0 <= k < |Chunks(s, width)| - 1 ==> |Chunks(s, width)[k]| == width
    decreases |s|
  {
    if s != [] {
      var m := Min(width, |s|);
      var rest := s[m..];
      ChunksShape(rest, width);
      var cs := Chunks(s, width);
      var tail := Chunks(rest, width);
      assert cs == [s[..m]] + tail;
      assert |cs| * width == |tail| * width + width;
      if |s| <= width {
        assert rest == [];
      }
      forall k | 0 < k < |cs| ensures cs[k] == tail[k - 1] { }
    }
  }

  /** `m` entries make a whole number of chunks of `width`. */
  predicate WholeChunks(m: nat, width: nat)
    decreases m
  {
    m == 0 || (0 < width <= m && WholeChunks(m - width, width))
  }

  /** Extending a list whose length is a whole number of chunks adds exactly one chunk,
      the extension, when it is at most `width` long. */
  lemma {:induction false} ChunksAppend<T>(s: seq<T>, m: nat, width: nat)
    requires width > 0 && WholeChunks(m, width) && m < |s| <= m + width
    ensures Chunks(s, width) == Chunks(s[..m], width) + [s[m..]]
    decreases m
  {
    if m == 0 {
      assert s[..0] == [];
      assert s[..Min(width, |s|)] == s && s[Min(width, |s|)..] == [];
    } else {
      var rest := s[width..];
      ChunksAppend(rest, m - width, width);
      ChunksFirst(s, width);
      ChunksFirst(s[..m], width);
      assert s[..m][width..] == rest[..m - width];
      assert rest[m - width..] == s[m..];
      assert s[..m][..width] == s[..width];
    }
  }

  /** A list of at least `width` entries starts with a full chunk. */
  lemma ChunksFirst<T>(s: seq<T>, width: nat)
    requires 0 < width <= |s|
    ensures Chunks(s, width) == [s[..width]] + Chunks(s[width..], width)
  {
  }

  /** The entries from position `i` on. */
  function Drop<T>(s: seq<T>, i: nat): seq<T>
  {
    if i < |s| then s[i..] else []
  }

  /** One step of the `for (let i = 0; i < length; i += width)` loop: the chunks from
      `i` on are the slice `[i, i + width)` followed by the chunks from `i + width` on. */
  lemma ChunksStep<T>(s: seq<T>, i: nat, width: nat)
    requires i < |s| && width > 0
    ensures Chunks(Drop(s, i), width) == [s[i..Min(i + width, |s|)]] + Chunks(Drop(s, i + width), width)
  {
    var rest := s[i..];
    var m := Min(width, |rest|);
    assert rest[..m] == s[i..Min(i + width, |s|)];
    assert rest[m..] == Drop(s, i + width);
  }

  /** The cards rendered for a sequence of chunks, chunk after chunk. */
  function ChunkCards(net: Network, chunks: seq<seq<CatalogEntry>>): seq<Card>
  {
    if chunks == [] then [] else BatchCards(net, chunks[0]) + ChunkCards(net, chunks[1..])
  }

  /** Rendering one more chunk appends its cards. */
  lemma {:induction false} ChunkCardsSnoc(net: Network, chunks: seq<seq<CatalogEntry>>, last: seq<CatalogEntry>)
    ensures ChunkCards(net, chunks + [last]) == ChunkCards(net, chunks) + BatchCards(net, last)
  {
    if chunks != [] {
      assert (chunks + [last])[1..] == chunks[1..] + [last];
      ChunkCardsSnoc(net, chunks[1..], last);
    }
  }

  /** One step of the search's chunk loop: the cards still to render from `i` on are
      those of the slice `[i, i + 50)` followed by those from `i + 50` on. */
  lemma ChunkCardsStep(net: Network, s: seq<CatalogEntry>, i: nat)
    requires i < |s|
    ensures ChunkCards(net, Chunks(Drop(s, i), SearchChunk)) ==
              BatchCards(net, s[i..Min(i + SearchChunk, |s|)]) + ChunkCards(net, Chunks(Drop(s, i + SearchChunk), SearchChunk))
  {
    ChunksStep(s, i, SearchChunk);
  }

  /** The cards of one search. */
  function SearchCards(net: Network, list: seq<CatalogEntry>, input: string): seq<Card>
  {
    ChunkCards(net, Chunks(FilterByName(list, Lower(input)), SearchChunk))
  }

  lemma {:induction false} ChunkCardNames(net: Network, chunks: seq<seq<CatalogEntry>>)
    ensures forall c :: c in ChunkCards(net, chunks) ==> exists e :: e in Flatten(chunks) && e.name == c.name
  {
    if chunks != [] {
      ChunkCardNames(net, chunks[1..]);
      BatchCardNames(net, chunks[0]);
    }
  }

  /** Every card of a search names a catalogue entry whose name contains the lower-cased term. */
  lemma SearchCardsMatch(net: Network, list: seq<CatalogEntry>, input: string)
    ensures forall c :: c in SearchCards(net, list, input) ==>
              exists e :: e in list && e.name == c.name && Includes(c.name, Lower(input))
  {
    var filtered := FilterByName(list, Lower(input));
    ChunksCover(filtered, SearchChunk);
    ChunkCardNames(net, Chunks(filtered, SearchChunk));
    forall c | c in SearchCards(net, list, input)
      ensures exists e :: e in list && e.name == c.name && Includes(c.name, Lower(input))
    {
      var e :| e in filtered && e.name == c.name;
      FilterMembers(list, Lower(input), e);
    }
  }
}
