/** Small concrete resolutions, worked out against the resolver's
    specification: a three-layer hierarchy, reached directly and through a
    fallback name, and a requested element that nobody configured. */
module Scenarios {
  import opened Config
  import opened Selectors
  import opened Fetcher

  const Root := Document("A", "feature", "shop", Current, "", 0)
  const Middle := Document("B", "feature", "shop", Current, "A", 0)
  const Leaf := Document("C", "feature", "shop", Current, "B", 0)

  /** A store holding one current document for each of A, B and C, where C
      inherits from B and B from A. */
  function LayeredStore(): Store
  {
    (n: string, t: string, a: string) =>
      if n == "A" then Ok([Root])
      else if n == "B" then Ok([Middle])
      else if n == "C" then Ok([Leaf])
      else Ok([])
  }

  /** A rank under which every `defaults` link of the layered store descends. */
  function LayerRank(n: string): nat
  {
    if n == "A" then 0 else if n == "B" then 1 else 2
  }

  lemma LayeredStoreAcyclic()
    ensures Acyclic(LayeredStore(), "feature", "shop", LayerRank)
  {
  }

  /** Under the current-only policy the walk from C climbs through B to A. */
  lemma LayeredLineage(digest: string -> nat)
    ensures Acyclic(LayeredStore(), "feature", "shop", LayerRank) &&
            Lineage(CurrentSelector, digest, LayeredStore(), "feature", "shop", Leaf, LayerRank)
            == Ok([Root, Middle, Leaf])
  {
    LayeredStoreAcyclic();
    var store := LayeredStore();
    assert "A" != "B" && "A" != "C" && "B" != "C";
    assert IsSoleWith([Root], Current, 0) && IsSoleWith([Middle], Current, 0);
    assert Lineage(CurrentSelector, digest, store, "feature", "shop", Root, LayerRank) == Ok([Root]);
    assert store("A", "feature", "shop") == Ok([Root]) && store("B", "feature", "shop") == Ok([Middle]);
    LineageUnfold(CurrentSelector, digest, store, "feature", "shop", LayerRank, Middle, Root);
    assert [Root] + [Middle] == [Root, Middle];
    LineageUnfold(CurrentSelector, digest, store, "feature", "shop", LayerRank, Leaf, Middle);
    assert [Root, Middle] + [Leaf] == [Root, Middle, Leaf];
  }

  /** Resolving C yields the chain [A, B, C], most general layer first. */
  lemma ChainOrder(digest: string -> nat)
    ensures Acyclic(LayeredStore(), "feature", "shop", LayerRank) &&
            Resolve(CurrentSelector, digest, LayeredStore(), "shop", "C", "feature", [], LayerRank)
            == Ok([Root, Middle, Leaf])
  {
    LayeredLineage(digest);
    assert IsSoleWith([Leaf], Current, 0);
  }

  /** An unconfigured element X with fallback names Q, C and B: Q has nothing
      either, so C's hierarchy is resolved, and only B is left on the list. */
  lemma FallbackChain(digest: string -> nat)
    ensures Candidates(LayeredStore(), "feature", "shop", "X", ["Q", "C", "B"]) == Lookup(Ok([Leaf]), 2)
    ensures Acyclic(LayeredStore(), "feature", "shop", LayerRank) &&
            Resolve(CurrentSelector, digest, LayeredStore(), "shop", "X", "feature", ["Q", "C", "B"], LayerRank)
            == Ok([Root, Middle, Leaf])
  {
    LayeredLineage(digest);
    assert "X" != "A" && "X" != "B" && "X" != "C" && "Q" != "A" && "Q" != "B" && "Q" != "C";
    assert "C" != "A" && "C" != "B";
    assert ["Q", "C", "B"][1..] == ["C", "B"];
    assert IsSoleWith([Leaf], Current, 0);
  }

  /** No documents under the element nor under any fallback name: the empty
      chain, not an error. */
  lemma NothingConfigured(digest: string -> nat)
    ensures Acyclic(LayeredStore(), "feature", "shop", LayerRank) &&
            Resolve(CurrentSelector, digest, LayeredStore(), "shop", "X", "feature", ["Q"], LayerRank) == Ok([])
  {
  }

  /** Staging C when C has no stage document: the selector's `NotFound`
      reaches the caller wrapped with the requested identity. */
  lemma StagedWithoutStageDocument(digest: string -> nat)
    ensures Acyclic(LayeredStore(), "feature", "shop", LayerRank) &&
            Resolve(StageSelector("C"), digest, LayeredStore(), "shop", "C", "feature", [], LayerRank)
            == Err(ResolutionFailure("C", "feature", "shop", NotFound))
  {
  }

  /** A caller resolving X with fallback names Q, C and B gets C's hierarchy,
      and finds only B left on its own list afterwards. */
  method FallbackCaller(digest: string -> nat) returns (r: Result<seq<Document>>, left: seq<string>)
    ensures r == Ok([Root, Middle, Leaf])
    ensures left == ["B"]
  {
    var fallbackNames := new NameList(["Q", "C", "B"]);
    LayeredStoreAcyclic();
    r := FetchHierarchy(CurrentSelector, digest, LayeredStore(), "shop", "X", "feature", fallbackNames, LayerRank);
    FallbackChain(digest);
    assert ["Q", "C", "B"][2..] == ["B"];
    left := fallbackNames.items;
  }
}
