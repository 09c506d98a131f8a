/** The hierarchy resolver: find the candidates of the requested element (or of
    the first fallback name that has any), select one document per layer while
    following the `defaults` links, and return the chain from the most general
    layer to the most specific one. */
module Fetcher {
  import opened Config
  import opened Selectors

  /** The one collaborator: every document stored under (name, type,
      application), or the failure the query raised. */
  type Store = (string, string, string) -> Result<seq<Document>>

  /** The caller's list of fallback names, which the resolver consumes from
      the front as it tries them. */
  class NameList {
    var items: seq<string>

    constructor (items: seq<string>)
      ensures this.items == items
    {
      this.items := items;
    }
  }

  /** The names still in a fallback list; no list at all holds none. */
  function Names(fallbackNames: NameList?): seq<string>
    reads fallbackNames
  {
    if fallbackNames == null then [] else fallbackNames.items
  }

  /** Following `defaults` links terminates: every link a stored document
      carries leads to a name of lower rank than the name it was stored under. */
  ghost predicate Acyclic(store: Store, elementType: string, applicationName: string, rank: string -> nat)
  {
    forall n, d ::
      (store(n, elementType, applicationName).Ok? &&
       d in store(n, elementType, applicationName).value && d.defaults != "") ==>
        rank(d.defaults) < rank(n)
  }

  /** The store answers a query only with documents of the queried identity. */
  ghost predicate Matching(store: Store, elementType: string, applicationName: string)
  {
    forall n, d ::
      (store(n, elementType, applicationName).Ok? &&
       d in store(n, elementType, applicationName).value) ==>
        d.name == n && d.docType == elementType && d.application == applicationName
  }

  /** The candidates a resolution starts from, and how many fallback names
      were taken off the list to find them. */
  datatype Lookup = Lookup(outcome: Result<seq<Document>>, consumed: nat)

  /** Starting from the candidates `docs` just fetched, take fallback names off
      the front of `pending` and query each in turn while nothing has been
      found and names remain. */
  function Fallback(store: Store, elementType: string, applicationName: string,
                    docs: seq<Document>, pending: seq<string>): (l: Lookup)
    ensures l.consumed <= |pending|
    ensures l.consumed == 0 ==> l.outcome == Ok(docs)
    ensures l.consumed > 0 ==>
      docs == [] && l.outcome == store(pending[l.consumed - 1], elementType, applicationName)
    ensures forall j :: 0 <= j < l.consumed - 1 ==>
      store(pending[j], elementType, applicationName) == Ok([])
    ensures l.outcome == Ok([]) ==> l.consumed == |pending|
    decreases |pending|
  {
    if docs != [] || pending == [] then Lookup(Ok(docs), 0)
    else match store(pending[0], elementType, applicationName)
      case Err(e) => Lookup(Err(e), 1)
      case Ok(next) =>
        var l := Fallback(store, elementType, applicationName, next, pending[1..]);
        Lookup(l.outcome, l.consumed + 1)
  }

  /** Query the requested name, then the fallback names in order: the outcome
      is that of the first query that fails or finds something, every query
      before it found nothing, and an empty outcome means every name was
      tried. */
  function Candidates(store: Store, elementType: string, applicationName: string,
                      elementName: string, pending: seq<string>): (l: Lookup)
    ensures l.consumed <= |pending|
    ensures l.outcome == store(([elementName] + pending)[l.consumed], elementType, applicationName)
    ensures forall j :: 0 <= j < l.consumed ==>
      store(([elementName] + pending)[j], elementType, applicationName) == Ok([])
    ensures l.outcome == Ok([]) ==> l.consumed == |pending|
  {
    match store(elementName, elementType, applicationName)
    case Err(e) => Lookup(Err(e), 0)
    case Ok(docs) => Fallback(store, elementType, applicationName, docs, pending)
  }

  /** The layers from the most general one down to `d`: each parent is the
      document selected among those stored under the child's `defaults` name. */
  function Lineage(sel: Selector, digest: string -> nat, store: Store, elementType: string,
                   applicationName: string, d: Document, rank: string -> nat): (r: Result<seq<Document>>)
    requires Acyclic(store, elementType, applicationName, rank)
    ensures r.Ok? ==> |r.value| > 0 && r.value[|r.value| - 1] == d
    decreases if d.defaults == "" then 0 else rank(d.defaults) + 1
  {
    if d.defaults == "" then Ok([d])
    else match store(d.defaults, elementType, applicationName)
      case Err(e) => Err(e)
      case Ok(docs) =>
        match Select(sel, digest, docs)
        case Err(e) => Err(e)
        case Ok(parent) =>
          match Lineage(sel, digest, store, elementType, applicationName, parent, rank)
          case Err(e) => Err(e)
          case Ok(up) => Ok(up + [d])
  }

  /** Layer `parent` is the document selected among those stored under the
      `defaults` name of layer `child`. */
  ghost predicate SelectedParent(sel: Selector, digest: string -> nat, store: Store, elementType: string,
                                 applicationName: string, child: Document, parent: Document)
  {
    store(child.defaults, elementType, applicationName).Ok? &&
    Select(sel, digest, store(child.defaults, elementType, applicationName).value) == Ok(parent)
  }

  /** A lineage starts with a layer that has no parent, every later layer has
      one, and each layer is the selection made under the `defaults` name of
      the layer after it. */
  lemma {:induction false} LineageShape(sel: Selector, digest: string -> nat, store: Store, elementType: string,
                                        applicationName: string, d: Document, rank: string -> nat)
    requires Acyclic(store, elementType, applicationName, rank)
    ensures var r := Lineage(sel, digest, store, elementType, applicationName, d, rank);
      r.Ok? ==>
        r.value[0].defaults == "" &&
        (forall i :: 0 < i < |r.value| ==> r.value[i].defaults != "") &&
        (forall i, j :: 0 <= i && j == i + 1 && j < |r.value| ==>
          SelectedParent(sel, digest, store, elementType, applicationName, r.value[j], r.value[i]))
    decreases if d.defaults == "" then 0 else rank(d.defaults) + 1
  {
    var r := Lineage(sel, digest, store, elementType, applicationName, d, rank);
    if d.defaults != "" && r.Ok? {
      var docs := store(d.defaults, elementType, applicationName).value;
      var parent := Select(sel, digest, docs).value;
      assert parent in docs;
      LineageShape(sel, digest, store, elementType, applicationName, parent, rank);
      var up := Lineage(sel, digest, store, elementType, applicationName, parent, rank).value;
      assert r.value == up + [d];
      forall i, j | 0 <= i && j == i + 1 && j < |r.value|
        ensures SelectedParent(sel, digest, store, elementType, applicationName, r.value[j], r.value[i])
      {
        if j < |up| {
          assert r.value[j] == up[j] && r.value[i] == up[i];
        } else {
          assert r.value[j] == d && r.value[i] == parent;
        }
      }
    }
  }

  /** Every failure of a resolution, wherever it arose, in the one shape the
      caller sees. */
  function Wrap(elementName: string, elementType: string, applicationName: string,
                r: Result<seq<Document>>): Result<seq<Document>>
  {
    match r
    case Ok(chain) => Ok(chain)
    case Err(e) => Err(ResolutionFailure(elementName, elementType, applicationName, e))
  }

  /** What a resolution returns: the empty chain when no name has candidates,
      otherwise the lineage of the document selected among the candidates;
      any failure is wrapped with the identity originally requested. */
  function Resolve(sel: Selector, digest: string -> nat, store: Store, applicationName: string,
                   elementName: string, elementType: string, pending: seq<string>,
                   rank: string -> nat): (r: Result<seq<Document>>)
    requires Acyclic(store, elementType, applicationName, rank)
    ensures r.Err? ==>
      r.error.ResolutionFailure? &&
      r.error.elementName == elementName && r.error.elementType == elementType &&
      r.error.applicationName == applicationName
    ensures r == Ok([]) <==>
      Candidates(store, elementType, applicationName, elementName, pending).outcome == Ok([])
  {
    var found := Candidates(store, elementType, applicationName, elementName, pending).outcome;
    Wrap(elementName, elementType, applicationName,
      match found
      case Err(e) => Err(e)
      case Ok(docs) =>
        if docs == [] then Ok([])
        else match Select(sel, digest, docs)
          case Err(e) => Err(e)
          case Ok(start) => Lineage(sel, digest, store, elementType, applicationName, start, rank))
  }

  /** A failure at the requested layer, of the candidates query or of the
      first selection, is carried as the cause of the wrapper. */
  lemma ResolveFailure(sel: Selector, digest: string -> nat, store: Store, applicationName: string,
                       elementName: string, elementType: string, pending: seq<string>,
                       rank: string -> nat)
    requires Acyclic(store, elementType, applicationName, rank)
    ensures var found := Candidates(store, elementType, applicationName, elementName, pending).outcome;
      var r := Resolve(sel, digest, store, applicationName, elementName, elementType, pending, rank);
      (found.Err? ==> r == Err(ResolutionFailure(elementName, elementType, applicationName, found.error))) &&
      (found.Ok? && found.value != [] && Select(sel, digest, found.value).Err? ==>
        r == Err(ResolutionFailure(elementName, elementType, applicationName, Select(sel, digest, found.value).error)))
  {
  }

  /** The shape of a non-empty chain: it ends with the document selected among
      the candidates of the requested layer, it starts with a layer that has no
      parent, every later layer has one, and each layer is the selection among
      the documents stored under the `defaults` name of the layer after it.
      When the store answers only with documents of the queried identity, each
      layer's name is the `defaults` of the layer after it. */
  lemma ResolveChain(sel: Selector, digest: string -> nat, store: Store, applicationName: string,
                     elementName: string, elementType: string, pending: seq<string>,
                     rank: string -> nat, chain: seq<Document>)
    requires Acyclic(store, elementType, applicationName, rank)
    requires Resolve(sel, digest, store, applicationName, elementName, elementType, pending, rank) == Ok(chain)
    requires chain != []
    ensures var found := Candidates(store, elementType, applicationName, elementName, pending).outcome;
      found.Ok? && Select(sel, digest, found.value) == Ok(chain[|chain| - 1])
    ensures chain[0].defaults == "" && forall i :: 0 < i < |chain| ==> chain[i].defaults != ""
    ensures forall i, j :: 0 <= i && j == i + 1 && j < |chain| ==>
      SelectedParent(sel, digest, store, elementType, applicationName, chain[j], chain[i])
    ensures Matching(store, elementType, applicationName) ==>
      forall i, j :: 0 <= i && j == i + 1 && j < |chain| ==> chain[j].defaults == chain[i].name
    ensures Matching(store, elementType, applicationName) ==>
      var l := Candidates(store, elementType, applicationName, elementName, pending);
      chain[|chain| - 1].name == ([elementName] + pending)[l.consumed]
    ensures Matching(store, elementType, applicationName) ==>
      forall i :: 0 <= i < |chain| ==>
        chain[i].docType == elementType && chain[i].application == applicationName
  {
    var found := Candidates(store, elementType, applicationName, elementName, pending).outcome;
    var start := Select(sel, digest, found.value).value;
    LineageShape(sel, digest, store, elementType, applicationName, start, rank);
    if Matching(store, elementType, applicationName) {
      forall i, j | 0 <= i && j == i + 1 && j < |chain| ensures chain[j].defaults == chain[i].name {
        assert SelectedParent(sel, digest, store, elementType, applicationName, chain[j], chain[i]);
        var docs := store(chain[j].defaults, elementType, applicationName).value;
        assert chain[i] in docs;
      }
      assert chain[|chain| - 1] in found.value;
      forall i | 0 <= i < |chain| - 1
        ensures chain[i].docType == elementType && chain[i].application == applicationName
      {
        assert SelectedParent(sel, digest, store, elementType, applicationName, chain[i + 1], chain[i]);
        assert chain[i] in store(chain[i + 1].defaults, elementType, applicationName).value;
      }
    }
  }

  /** `s` in reverse order. */
  function Reverse<T>(s: seq<T>): (r: seq<T>)
    ensures |r| == |s|
    ensures forall i :: 0 <= i < |s| ==> r[i] == s[|s| - 1 - i]
  {
    if s == [] then [] else [s[|s| - 1]] + Reverse(s[..|s| - 1])
  }

  /** Appends `tail` to a successful chain; a failure stays as it is. */
  function Then(r: Result<seq<Document>>, tail: seq<Document>): Result<seq<Document>>
  {
    match r
    case Ok(chain) => Ok(chain + tail)
    case Err(e) => Err(e)
  }

  /** A layer with a parent has the parent's lineage followed by itself. */
  lemma LineageUnfold(sel: Selector, digest: string -> nat, store: Store, elementType: string,
                      applicationName: string, rank: string -> nat, document: Document, parent: Document)
    requires Acyclic(store, elementType, applicationName, rank)
    requires document.defaults != ""
    requires SelectedParent(sel, digest, store, elementType, applicationName, document, parent)
    ensures Lineage(sel, digest, store, elementType, applicationName, document, rank) ==
            Then(Lineage(sel, digest, store, elementType, applicationName, parent, rank), [document])
  {
  }

  /** One step of the walk: the pending lineage of a layer with a parent is the
      lineage of that parent followed by the layers collected so far. */
  lemma WalkStep(sel: Selector, digest: string -> nat, store: Store, elementType: string,
                 applicationName: string, rank: string -> nat, document: Document,
                 result: seq<Document>, parent: Document)
    requires Acyclic(store, elementType, applicationName, rank)
    requires document.defaults != "" && |result| > 0 && result[|result| - 1] == document
    requires SelectedParent(sel, digest, store, elementType, applicationName, document, parent)
    ensures Then(Lineage(sel, digest, store, elementType, applicationName, document, rank), Reverse(result)[1..]) ==
            Then(Lineage(sel, digest, store, elementType, applicationName, parent, rank), Reverse(result + [parent])[1..])
  {
    LineageUnfold(sel, digest, store, elementType, applicationName, rank, document, parent);
    ReverseAfterSnoc(result, parent);
    ThenAppend(Lineage(sel, digest, store, elementType, applicationName, parent, rank),
               [document], Reverse(result)[1..]);
  }

  /** Growing the collected layers by a parent puts the previous last layer
      right behind the parent in the reversed list. */
  lemma ReverseAfterSnoc<T>(result: seq<T>, parent: T)
    requires |result| > 0
    ensures Reverse(result + [parent])[1..] == [result[|result| - 1]] + Reverse(result)[1..]
  {
  }

  /** Appending in two steps is appending once. */
  lemma ThenAppend(r: Result<seq<Document>>, a: seq<Document>, b: seq<Document>)
    ensures Then(Then(r, a), b) == Then(r, a + b)
  {
    if r.Ok? {
      assert r.value + a + b == r.value + (a + b);
    }
  }

  /** The end of the walk: a layer without parent is its own lineage, so the
      whole chain is the collected layers reversed. */
  lemma WalkEnd(sel: Selector, digest: string -> nat, store: Store, elementType: string,
                applicationName: string, rank: string -> nat, document: Document, result: seq<Document>)
    requires Acyclic(store, elementType, applicationName, rank)
    requires document.defaults == "" && |result| > 0 && result[|result| - 1] == document
    ensures Then(Lineage(sel, digest, store, elementType, applicationName, document, rank), Reverse(result)[1..]) ==
            Ok(Reverse(result))
  {
  }

  /** The first loop of a resolution: query the requested name, then take
      fallback names off the front of the caller's list while nothing has been
      found. */
  method FindCandidates(store: Store, elementName: string, elementType: string,
                        applicationName: string, fallbackNames: NameList?)
    returns (found: Result<seq<Document>>)
    modifies fallbackNames
    ensures found == Candidates(store, elementType, applicationName, elementName, old(Names(fallbackNames))).outcome
    ensures Names(fallbackNames) == old(Names(fallbackNames))[
      Candidates(store, elementType, applicationName, elementName, old(Names(fallbackNames))).consumed..]
  {
    ghost var pending := Names(fallbackNames);
    ghost var consumed := 0;
    found := store(elementName, elementType, applicationName);
    if found.Err? {
      return;
    }
    ghost var first := found.value;
    while found.Ok? && found.value == [] && fallbackNames != null && fallbackNames.items != []
      invariant consumed <= |pending|
      invariant Names(fallbackNames) == pending[consumed..]
      invariant found.Ok? ==>
        var l := Fallback(store, elementType, applicationName, found.value, pending[consumed..]);
        Fallback(store, elementType, applicationName, first, pending) == Lookup(l.outcome, l.consumed + consumed)
      invariant found.Err? ==> Fallback(store, elementType, applicationName, first, pending) == Lookup(found, consumed)
      decreases |Names(fallbackNames)|
    {
      var name := fallbackNames.items[0];
      fallbackNames.items := fallbackNames.items[1..];
      consumed := consumed + 1;
      found := store(name, elementType, applicationName);
    }
  }

  /** The second loop of a resolution: from the document selected for the
      requested layer, select a document under each `defaults` name in turn,
      collecting the layers most specific first, and reverse them at the end. */
  method ClimbDefaults(sel: Selector, digest: string -> nat, store: Store, elementType: string,
                       applicationName: string, start: Document, ghost rank: string -> nat)
    returns (r: Result<seq<Document>>)
    requires Acyclic(store, elementType, applicationName, rank)
    ensures r == Lineage(sel, digest, store, elementType, applicationName, start, rank)
  {
    var document := start;
    var result := [document];
    assert Reverse(result)[1..] == [];
    ghost var walked := Lineage(sel, digest, store, elementType, applicationName, start, rank);
    if walked.Ok? {
      assert walked.value + [] == walked.value;
    }
    while document.defaults != ""
      invariant |result| > 0 && result[|result| - 1] == document
      invariant walked ==
        Then(Lineage(sel, digest, store, elementType, applicationName, document, rank), Reverse(result)[1..])
      decreases if document.defaults == "" then 0 else rank(document.defaults) + 1
    {
      var query := store(document.defaults, elementType, applicationName);
      if query.Err? {
        return Err(query.error);
      }
      var selected := Select(sel, digest, query.value);
      if selected.Err? {
        return Err(selected.error);
      }
      WalkStep(sel, digest, store, elementType, applicationName, rank, document, result, selected.value);
      document := selected.value;
      result := result + [document];
    }
    WalkEnd(sel, digest, store, elementType, applicationName, rank, document, result);
    result := Reverse(result);
    return Ok(result);
  }

  /** Resolves the element `elementName` of type `elementType` in application
      `applicationName` with the policy `sel`, trying the names of
      `fallbackNames` in order when the element has no documents; the names
      tried are removed from the caller's list. */
  method FetchHierarchy(sel: Selector, digest: string -> nat, store: Store, applicationName: string,
                        elementName: string, elementType: string, fallbackNames: NameList?,
                        ghost rank: string -> nat)
    returns (r: Result<seq<Document>>)
    requires Acyclic(store, elementType, applicationName, rank)
    modifies fallbackNames
    ensures r == Resolve(sel, digest, store, applicationName, elementName, elementType,
                         old(Names(fallbackNames)), rank)
    ensures Names(fallbackNames) == old(Names(fallbackNames))[
      Candidates(store, elementType, applicationName, elementName, old(Names(fallbackNames))).consumed..]
  {
    var found := FindCandidates(store, elementName, elementType, applicationName, fallbackNames);
    if found.Err? {
      return Err(ResolutionFailure(elementName, elementType, applicationName, found.error));
    }
    var documents := found.value;
    if documents == [] {
      return Ok([]);
    }
    var selected := Select(sel, digest, documents);
    if selected.Err? {
      return Err(ResolutionFailure(elementName, elementType, applicationName, selected.error));
    }
    r := ClimbDefaults(sel, digest, store, elementType, applicationName, selected.value, rank);
    if r.Err? {
      return Err(ResolutionFailure(elementName, elementType, applicationName, r.error));
    }
  }
}
