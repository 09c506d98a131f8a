/** The three selection policies. Each one is handed the candidate documents
    of one hierarchy layer and returns exactly one of them, or fails. */
module Selectors {
  import opened Config

  /** A configured policy: the field its constructor stores. */
  datatype Selector =
    | CurrentSelector
    | StageSelector(stagedElementName: string)
    | RolloutSelector(consumerKey: string)

  /** Number of buckets consumer keys are spread over. */
  const Buckets := 10000

  /** The bucket of a consumer, from the integer value of its key's digest. */
  function Percentile(digest: nat): (p: int)
    ensures 1 <= p <= Buckets
    ensures digest < Buckets ==> p == digest + 1
  {
    digest % Buckets + 1
  }

  /** The current-only policy. An empty layer is `NotFound`; any other layer
      without exactly one current document is a data-integrity failure. */
  function SelectCurrent(docs: seq<Document>): (r: Result<Document>)
    ensures docs == [] ==> r == Err(NotFound)
    ensures docs != [] && !HasSoleWith(docs, Current) ==> r == Err(InvariantViolation)
    ensures r.Ok? <==> docs != [] && HasSoleWith(docs, Current)
    ensures r.Ok? ==> exists i :: IsSoleWith(docs, Current, i) && r.value == docs[i]
  {
    FilterSole(docs, Current);
    if |docs| == 0 then Err(NotFound)
    else
      var selected := Filter(docs, Current);
      if |selected| != 1 then Err(InvariantViolation)
      else Ok(selected[0])
  }

  /** The stage-aware policy. On the layer being staged (recognised by the
      name of its first document) it returns the one stage document; on every
      other layer the one current document. Anything else is `NotFound`. */
  function SelectStage(stagedElementName: string, docs: seq<Document>): (r: Result<Document>)
    ensures docs == [] ==> r == Err(NotFound)
    ensures r.Err? ==> r.error == NotFound
    ensures docs != [] && docs[0].name == stagedElementName ==>
      (r.Ok? <==> HasSoleWith(docs, Stage)) &&
      (r.Ok? ==> exists i :: IsSoleWith(docs, Stage, i) && r.value == docs[i])
    ensures docs != [] && docs[0].name != stagedElementName ==>
      (r.Ok? <==> HasSoleWith(docs, Current)) &&
      (r.Ok? ==> exists i :: IsSoleWith(docs, Current, i) && r.value == docs[i])
  {
    FilterSole(docs, Stage);
    FilterSole(docs, Current);
    if |docs| == 0 then Err(NotFound)
    else
      var selected :=
        if docs[0].name == stagedElementName then Filter(docs, Stage) else Filter(docs, Current);
      if |selected| != 1 then Err(NotFound)
      else Ok(selected[0])
  }

  /** The rollout-aware policy. Without exactly one current document the layer
      is `NotFound`. With exactly one rollout document, the consumer whose
      bucket is at or below that document's threshold gets it; everyone else,
      and everyone when there is no single rollout document, gets the current
      document. */
  function SelectRollout(consumerKey: string, digest: string -> nat, docs: seq<Document>): (r: Result<Document>)
    ensures r.Ok? <==> HasSoleWith(docs, Current)
    ensures r.Err? ==> r.error == NotFound
    ensures HasSoleWith(docs, Current) && !HasSoleWith(docs, Rollout) ==>
      exists i :: IsSoleWith(docs, Current, i) && r == Ok(docs[i])
    ensures HasSoleWith(docs, Current) ==>
      forall k :: IsSoleWith(docs, Rollout, k) ==>
        if Percentile(digest(consumerKey)) <= docs[k].rolloutThreshold then r == Ok(docs[k])
        else exists i :: IsSoleWith(docs, Current, i) && r == Ok(docs[i])
  {
    FilterSole(docs, Current);
    FilterSole(docs, Rollout);
    var current := Filter(docs, Current);
    var rollout := Filter(docs, Rollout);
    if |current| != 1 then Err(NotFound)
    else if |rollout| == 1 then
      var element := rollout[0];
      var percentile := Percentile(digest(consumerKey));
      if percentile <= element.rolloutThreshold then Ok(element) else Ok(current[0])
    else Ok(current[0])
  }

  /** Applies a configured policy to the candidates of one layer. Whatever it
      returns is one of the candidates. */
  function Select(sel: Selector, digest: string -> nat, docs: seq<Document>): (r: Result<Document>)
    ensures r.Ok? ==> r.value in docs
    ensures r.Ok? ==> docs != []
  {
    match sel
    case CurrentSelector => SelectCurrent(docs)
    case StageSelector(staged) => SelectStage(staged, docs)
    case RolloutSelector(key) => SelectRollout(key, digest, docs)
  }

  /** A layer holding one current document and no stage or rollout document
      resolves to that document under every policy, except under the stage
      policy on the very layer being staged, which then has nothing to show. */
  lemma PlainLayer(sel: Selector, digest: string -> nat, docs: seq<Document>, i: int)
    requires IsSoleWith(docs, Current, i)
    requires forall j :: 0 <= j < |docs| ==> docs[j].state != Stage && docs[j].state != Rollout
    ensures sel.StageSelector? && docs[0].name == sel.stagedElementName ==>
      Select(sel, digest, docs) == Err(NotFound)
    ensures !(sel.StageSelector? && docs[0].name == sel.stagedElementName) ==>
      Select(sel, digest, docs) == Ok(docs[i])
  {
  }

  /** Away from the staged layer the stage policy picks what the current-only
      policy picks; the two differ only in how a malformed non-empty layer is
      reported (`NotFound` against `InvariantViolation`). */
  lemma StageOffLayerIsCurrent(stagedElementName: string, docs: seq<Document>)
    requires docs != [] && docs[0].name != stagedElementName
    ensures SelectStage(stagedElementName, docs).Ok? <==> SelectCurrent(docs).Ok?
    ensures SelectCurrent(docs).Ok? ==> SelectStage(stagedElementName, docs) == SelectCurrent(docs)
    ensures SelectCurrent(docs).Err? ==>
      SelectStage(stagedElementName, docs) == Err(NotFound) &&
      SelectCurrent(docs) == Err(InvariantViolation)
  {
  }

  /** The rollout policy sees the consumer key only through its bucket: two
      consumers in the same bucket always get the same document. */
  lemma RolloutByBucket(key1: string, key2: string, digest: string -> nat, docs: seq<Document>)
    requires Percentile(digest(key1)) == Percentile(digest(key2))
    ensures SelectRollout(key1, digest, docs) == SelectRollout(key2, digest, docs)
  {
  }

  /** Raising the rollout threshold never moves a consumer back from the
      rollout document to the current one. */
  lemma RolloutMonotone(consumerKey: string, digest: string -> nat, docs: seq<Document>, k: int, t: int)
    requires HasSoleWith(docs, Current) && IsSoleWith(docs, Rollout, k)
    requires SelectRollout(consumerKey, digest, docs) == Ok(docs[k])
    requires docs[k].rolloutThreshold <= t
    ensures SelectRollout(consumerKey, digest, docs[k := docs[k].(rolloutThreshold := t)])
            == Ok(docs[k].(rolloutThreshold := t))
  {
    var raised := docs[k := docs[k].(rolloutThreshold := t)];
    var i :| IsSoleWith(docs, Current, i);
    assert docs[k].state != Current;
    assert IsSoleWith(raised, Current, i);
    assert IsSoleWith(raised, Rollout, k);
  }

  /** The digest residues 0 .. n-1; there are n of them. */
  function Residues(n: nat): (s: set<int>)
    ensures forall h :: h in s <==> 0 <= h < n
    ensures |s| == n
  {
    if n == 0 then {} else Residues(n - 1) + {n - 1}
  }

  /** The digest residues below `n` whose bucket is at or below threshold `t`:
      the consumers a rollout document with that threshold is served to. */
  function Routed(n: nat, t: int): (s: set<int>)
    ensures forall h :: h in s <==> 0 <= h < n && Percentile(h) <= t
  {
    set h | h in Residues(n) && Percentile(h) <= t
  }

  /** Growing the residue range by one adds the new residue to the routed
      set exactly when its bucket is within the threshold. */
  lemma RoutedStep(n: nat, t: int)
    requires 0 < n <= Buckets
    ensures Routed(n, t) == Routed(n - 1, t) + (if n <= t then {n - 1} else {})
    ensures n - 1 !in Routed(n - 1, t)
  {
  }

  /** Of the first `n` digest residues, those whose bucket is at or below
      threshold `t` are the first `t` of them (clamped to `0 .. n`). */
  lemma {:induction false} ShareBelow(n: nat, t: int)
    requires n <= Buckets
    ensures |Routed(n, t)| == if t < 0 then 0 else if t > n then n else t
  {
    if n > 0 {
      ShareBelow(n - 1, t);
      RoutedStep(n, t);
    } else {
      assert Routed(n, t) == {};
    }
  }

  /** Of the `Buckets` possible digest residues, exactly `t` land at or below
      threshold `t` (clamped to the bucket range): the share of consumers routed
      to a rollout document with threshold `t` is `t / Buckets`. */
  lemma RolloutShare(t: int)
    ensures |Routed(Buckets, t)| == if t < 0 then 0 else if t > Buckets then Buckets else t
  {
    ShareBelow(Buckets, t);
  }
}
