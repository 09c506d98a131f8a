/** Configuration documents as the resolver sees them, the error kinds it
    raises, and the state filter that every selection policy starts from. */
module Config {

  /** The role a document plays within its layer. The store keeps the state as
      free text; only the three labels below are ever selected on. `Other`
      stands for every other label and never carries "current", "stage" or
      "rollout". */
  datatype State = Current | Stage | Rollout | Other(tag: string)

  /** One stored configuration layer. `defaults` names the parent layer, the
      empty string marks the most general layer. `rolloutThreshold` is the
      document's population already scaled by 100 and truncated to an integer;
      it is read only from a rollout document. */
  datatype Document = Document(
    name: string,
    docType: string,
    application: string,
    state: State,
    defaults: string,
    rolloutThreshold: int)

  /** The failures of one resolution. `InvariantViolation` is the plain
      exception raised when a layer holds zero or several current documents;
      `StoreFailure` is anything the store query raises; `ResolutionFailure`
      is the single wrapper every failure of a resolution is turned into. */
  datatype Error =
    | NotFound
    | InvariantViolation
    | StoreFailure
    | ResolutionFailure(elementName: string, elementType: string, applicationName: string, cause: Error)

  datatype Result<T> = Ok(value: T) | Err(error: Error)

  /** The documents of `docs` whose state is `st`. */
  function Filter(docs: seq<Document>, st: State): (r: seq<Document>)
    ensures |r| <= |docs|
    ensures forall d :: d in r <==> d in docs && d.state == st
  {
    if docs == [] then []
    else (if docs[0].state == st then [docs[0]] else []) + Filter(docs[1..], st)
  }

  /** Position `i` holds the one and only document of `docs` in state `st`. */
  ghost predicate IsSoleWith(docs: seq<Document>, st: State, i: int)
  {
    0 <= i < |docs| && docs[i].state == st &&
    forall j :: 0 <= j < |docs| && docs[j].state == st ==> j == i
  }

  /** Exactly one position of `docs` holds a document in state `st`. */
  ghost predicate HasSoleWith(docs: seq<Document>, st: State)
  {
    exists i :: IsSoleWith(docs, st, i)
  }

  /** The filter yields a single document exactly when one position holds a
      document in that state, and then it yields that document. */
  ghost predicate SoleFiltered(docs: seq<Document>, st: State)
  {
    (|Filter(docs, st)| == 1 <==> HasSoleWith(docs, st)) &&
    forall i :: IsSoleWith(docs, st, i) ==> Filter(docs, st) == [docs[i]]
  }

  /** A list led by a document in state `st` has a sole such document only
      when the rest has none. */
  lemma FilterSoleHead(docs: seq<Document>, st: State)
    requires docs != [] && docs[0].state == st && SoleFiltered(docs[1..], st)
    ensures SoleFiltered(docs, st)
  {
    var rest := docs[1..];
    assert Filter(docs, st) == [docs[0]] + Filter(rest, st);
    if Filter(rest, st) == [] {
      assert IsSoleWith(docs, st, 0);
    } else {
      var k :| 0 <= k < |rest| && rest[k] == Filter(rest, st)[0];
      assert docs[k + 1].state == st;
      assert !HasSoleWith(docs, st);
    }
  }

  /** A list led by a document in another state has its sole document in
      state `st` where the rest has it, one position further on. */
  lemma FilterSoleTail(docs: seq<Document>, st: State)
    requires docs != [] && docs[0].state != st && SoleFiltered(docs[1..], st)
    ensures SoleFiltered(docs, st)
  {
    var rest := docs[1..];
    assert Filter(docs, st) == Filter(rest, st);
    forall i | IsSoleWith(docs, st, i) ensures IsSoleWith(rest, st, i - 1) {
      assert i > 0;
      forall j | 0 <= j < |rest| && rest[j].state == st ensures j == i - 1 {
        assert docs[j + 1] == rest[j];
      }
    }
    forall i | IsSoleWith(rest, st, i) ensures IsSoleWith(docs, st, i + 1) {
      forall j | 0 <= j < |docs| && docs[j].state == st ensures j == i + 1 {
        assert j > 0;
        assert rest[j - 1] == docs[j];
      }
    }
  }

  /** The filter yields a single document exactly when one position holds a
      document in that state, and then it yields that document. */
  lemma {:induction false} FilterSole(docs: seq<Document>, st: State)
    ensures |Filter(docs, st)| == 1 <==> HasSoleWith(docs, st)
    ensures forall i :: IsSoleWith(docs, st, i) ==> Filter(docs, st) == [docs[i]]
  {
    if docs == [] {
      assert !HasSoleWith(docs, st);
    } else {
      FilterSole(docs[1..], st);
      if docs[0].state == st {
        FilterSoleHead(docs, st);
      } else {
        FilterSoleTail(docs, st);
      }
    }
  }
}
