/** The evolution walk of the detail view: from the root of the chain, follow
    `evolves_to[0]` at every node and collect the species names. */
module Evolution {
  import opened Wrappers
  import opened Records

  /** The species names met on the first-branch path from `n`, in evolution order. */
  function FirstBranch(n: ChainNode): seq<string>
    decreases n
  {
    [n.species] + Below(n)
  }

  /** What the walk still collects after `n`: the first branch of its first successor. */
  function Below(n: ChainNode): seq<string>
    decreases n, 0
  {
    if |n.evolvesTo| == 0 then [] else FirstBranch(n.evolvesTo[0])
  }

  /** `s` names some node of the tree rooted at `n`, whichever branch it lies on. */
  predicate InTree(n: ChainNode, s: string)
    decreases n
  {
    n.species == s || exists i :: 0 <= i < |n.evolvesTo| && InTree(n.evolvesTo[i], s)
  }

  /** Every node has at most one successor: a single lineage. */
  predicate Linear(n: ChainNode)
    decreases n
  {
    |n.evolvesTo| <= 1 && forall i :: 0 <= i < |n.evolvesTo| ==> Linear(n.evolvesTo[i])
  }

  /** The walk starts at the root and never names a species outside the chain. */
  lemma {:induction false} FirstBranchInTree(n: ChainNode)
    ensures |FirstBranch(n)| >= 1 && FirstBranch(n)[0] == n.species
    ensures forall s :: s in FirstBranch(n) ==> InTree(n, s)
    decreases n
  {
    if |n.evolvesTo| > 0 {
      var c := n.evolvesTo[0];
      FirstBranchInTree(c);
      forall s | s in FirstBranch(n) ensures InTree(n, s) {
        if s != n.species {
          assert s in FirstBranch(c);
          assert InTree(c, s);
        }
      }
    }
  }

  /** On a single lineage the walk misses no species. */
  lemma {:induction false} LinearWalkComplete(n: ChainNode, s: string)
    requires Linear(n)
    ensures InTree(n, s) <==> s in FirstBranch(n)
    decreases n
  {
    FirstBranchInTree(n);
    if InTree(n, s) && n.species != s {
      var i :| 0 <= i < |n.evolvesTo| && InTree(n.evolvesTo[i], s);
      assert i == 0;
      LinearWalkComplete(n.evolvesTo[0], s);
    }
  }

  /** A chain A -> B -> C gives [A, B, C]; a root without successors gives [A]. */
  lemma LinearExamples()
    ensures FirstBranch(ChainNode("A", [ChainNode("B", [ChainNode("C", [])])])) == ["A", "B", "C"]
    ensures FirstBranch(ChainNode("A", [])) == ["A"]
  {
  }

  /** A branching family is cut to its first branch: the second successor is in the
      chain but not in the walk. */
  lemma BranchingTruncated()
    ensures var n := ChainNode("eevee", [ChainNode("vaporeon", []), ChainNode("jolteon", [])]);
            InTree(n, "jolteon") && FirstBranch(n) == ["eevee", "vaporeon"] && "jolteon" !in FirstBranch(n)
  {
    var n := ChainNode("eevee", [ChainNode("vaporeon", []), ChainNode("jolteon", [])]);
    assert InTree(n.evolvesTo[1], "jolteon");
  }

  /** The `while (current)` loop: push the current species, then move to `evolves_to[0]`. */
  method WalkEvolutions(chain: EvolutionChain) returns (evolutions: seq<string>)
    ensures evolutions == FirstBranch(chain.chain)
  {
    var current := chain.chain;
    evolutions := [current.species];
    while |current.evolvesTo| > 0
      invariant evolutions + Below(current) == FirstBranch(chain.chain)
      decreases current
    {
      ghost var before := evolutions;
      current := current.evolvesTo[0];
      evolutions := evolutions + [current.species];
      assert before + FirstBranch(current) == evolutions + Below(current);
    }
  }

  /** The evolution names the detail view lists for `name`: empty when the species fetch
      or the chain fetch exhausted its attempts, the first-branch walk otherwise. */
  function EvolutionNames(net: Network, name: string): seq<string>
  {
    match SpeciesRun(net, name).result
    case None => []
    case Some(sp) =>
      match ChainRun(net, sp.chainUrl).result
      case None => []
      case Some(ch) => FirstBranch(ch.chain)
  }

  /** The list is empty exactly when one of the two fetches failed; otherwise it starts
      with the root species of the fetched chain. */
  lemma EvolutionNamesEmptyIff(net: Network, name: string)
    ensures EvolutionNames(net, name) == [] <==>
            (SpeciesRun(net, name).result.None? ||
             ChainRun(net, SpeciesRun(net, name).result.value.chainUrl).result.None?)
    ensures EvolutionNames(net, name) != [] ==>
            EvolutionNames(net, name)[0] ==
            ChainRun(net, SpeciesRun(net, name).result.value.chainUrl).result.value.chain.species
  {
    match SpeciesRun(net, name).result
    case None =>
    case Some(sp) =>
      match ChainRun(net, sp.chainUrl).result
      case None =>
      case Some(ch) => FirstBranchInTree(ch.chain);
  }
}
