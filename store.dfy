/** The document store the handlers use. Its adapter is not part of this
    model; it is specified here by contract only: an insert appends one
    document, stamped with a fresh identifier, to the named collection; a
    query returns a collection's documents in store order. */
module DocStore {
  import opened Wrappers
  import opened Documents

  /** The store's contents as a value: whether a connection exists, each
      collection's documents in insertion order, and the next identifier. */
  datatype StoreState = StoreState(available: bool, collections: map<string, seq<Document>>, nextId: nat)

  /** The documents of collection `c`; a collection never written to is empty. */
  function Docs(s: StoreState, c: string): seq<Document>
  {
    if c in s.collections then s.collections[c] else []
  }

  /** A document as stored under identifier `id`. */
  function Stamp(doc: Document, id: nat): (r: Document)
    ensures IdKey in r && r[IdKey] == ObjectId(id)
    ensures WithoutId(r) == WithoutId(doc)
  {
    doc[IdKey := ObjectId(id)]
  }

  predicate IdBelow(d: Document, n: nat)
  {
    IdKey in d && d[IdKey].ObjectId? && d[IdKey].id < n
  }

  /** Every stored document carries an identifier below the counter, and no
      two stored documents share one. */
  ghost predicate WellFormed(s: StoreState)
  {
    (forall c, i | 0 <= i < |Docs(s, c)| :: IdBelow(Docs(s, c)[i], s.nextId))
    && (forall c1, i1, c2, i2 |
          0 <= i1 < |Docs(s, c1)| && 0 <= i2 < |Docs(s, c2)| && (c1 != c2 || i1 != i2)
          :: Docs(s, c1)[i1][IdKey] != Docs(s, c2)[i2][IdKey])
  }

  /** `insert(c, doc)`: the state after appending `doc` to `c`. */
  function Insert(s: StoreState, c: string, doc: Document): (t: StoreState)
    ensures t.available == s.available && t.nextId == s.nextId + 1
    ensures Docs(t, c) == Docs(s, c) + [Stamp(doc, s.nextId)]
    ensures forall c' :: c' != c ==> Docs(t, c') == Docs(s, c')
  {
    s.(collections := s.collections[c := Docs(s, c) + [Stamp(doc, s.nextId)]], nextId := s.nextId + 1)
  }

  /** An insert hands out an identifier no stored document has, and keeps
      the identifiers below the counter and pairwise distinct. */
  lemma InsertKeepsWellFormed(s: StoreState, c: string, doc: Document)
    requires WellFormed(s)
    ensures forall c', i | 0 <= i < |Docs(s, c')| :: Docs(s, c')[i][IdKey] != ObjectId(s.nextId)
    ensures WellFormed(Insert(s, c, doc))
  {
    var t := Insert(s, c, doc);
    var n := |Docs(s, c)|;
    forall c', i | 0 <= i < |Docs(t, c')|
      ensures IdBelow(Docs(t, c')[i], t.nextId)
      ensures c' == c && i == n ==> Docs(t, c')[i][IdKey] == ObjectId(s.nextId)
      ensures !(c' == c && i == n) ==> Docs(t, c')[i] == Docs(s, c')[i] && IdBelow(Docs(s, c')[i], s.nextId)
    {
      if c' == c && i < n {
        assert Docs(t, c')[i] == Docs(s, c)[i];
      }
    }
  }

  /** `query(c, {}, limit)`: the first documents of `c` in store order, at
      most `limit` of them when a positive limit is given. As in MongoDB, a
      limit of 0 means no limit. */
  function Query(s: StoreState, c: string, limit: Option<nat>): (r: seq<Document>)
    ensures limit.None? || limit.value == 0 ==> r == Docs(s, c)
    ensures limit.Some? && limit.value > 0 ==>
              |r| == (if limit.value < |Docs(s, c)| then limit.value else |Docs(s, c)|)
    ensures r == Docs(s, c)[..|r|]
  {
    var all := Docs(s, c);
    if limit.Some? && 0 < limit.value < |all| then all[..limit.value] else all
  }

  /** Appending `docs` to `c` one insert at a time, in order. */
  function InsertAll(s: StoreState, c: string, docs: seq<Document>): StoreState
    decreases |docs|
  {
    if docs == [] then s
    else Insert(InsertAll(s, c, docs[..|docs| - 1]), c, docs[|docs| - 1])
  }

  /** The documents `docs` as stored with consecutive identifiers from `first`. */
  function Stamped(docs: seq<Document>, first: nat): seq<Document>
  {
    seq(|docs|, i requires 0 <= i < |docs| => Stamp(docs[i], first + i))
  }

  /** Inserting a sequence of documents appends them, stamped with
      consecutive identifiers, to `c` and to no other collection. */
  lemma {:induction false} InsertAllEffect(s: StoreState, c: string, docs: seq<Document>)
    ensures InsertAll(s, c, docs).available == s.available
    ensures InsertAll(s, c, docs).nextId == s.nextId + |docs|
    ensures Docs(InsertAll(s, c, docs), c) == Docs(s, c) + Stamped(docs, s.nextId)
    ensures forall c' :: c' != c ==> Docs(InsertAll(s, c, docs), c') == Docs(s, c')
    decreases |docs|
  {
    if docs != [] {
      var n := |docs| - 1;
      InsertAllEffect(s, c, docs[..n]);
      assert Stamped(docs, s.nextId) == Stamped(docs[..n], s.nextId) + [Stamp(docs[n], s.nextId + n)];
    }
  }

  /** A sequence of inserts keeps the store well formed. */
  lemma {:induction false} InsertAllKeepsWellFormed(s: StoreState, c: string, docs: seq<Document>)
    requires WellFormed(s)
    ensures WellFormed(InsertAll(s, c, docs))
    decreases |docs|
  {
    if docs != [] {
      InsertAllKeepsWellFormed(s, c, docs[..|docs| - 1]);
      InsertKeepsWellFormed(InsertAll(s, c, docs[..|docs| - 1]), c, docs[|docs| - 1]);
    }
  }

  /** The store the handlers share. */
  class Store {
    var available: bool
    var collections: map<string, seq<Document>>
    var nextId: nat

    function State(): StoreState
      reads this
    {
      StoreState(available, collections, nextId)
    }

    ghost predicate Valid()
      reads this
    {
      WellFormed(State())
    }

    /** A store with no documents; `available` says whether the connection
        was established at startup. */
    constructor (available: bool)
      ensures Valid()
      ensures State() == StoreState(available, map[], 0)
    {
      this.available := available;
      this.collections := map[];
      this.nextId := 0;
    }

    /** `create_document(c, doc)`: appends `doc` to `c` and returns its
        fresh identifier. The caller checks availability first. */
    method CreateDocument(c: string, doc: Document) returns (id: nat)
      requires Valid() && available
      modifies this
      ensures Valid()
      ensures State() == Insert(old(State()), c, doc)
      ensures id == old(nextId)
      ensures forall c', i | 0 <= i < |Docs(old(State()), c')| :: Docs(old(State()), c')[i][IdKey] != ObjectId(id)
    {
      var next := Insert(State(), c, doc);
      InsertKeepsWellFormed(State(), c, doc);
      id := nextId;
      collections, nextId := next.collections, next.nextId;
    }

    /** `get_documents(c, {}, limit)`: the documents of `c` in store order. */
    method GetDocuments(c: string, limit: Option<nat>) returns (r: seq<Document>)
      requires available
      ensures r == Query(State(), c, limit)
    {
      var all := if c in collections then collections[c] else [];
      if limit.Some? && 0 < limit.value < |all| {
        r := all[..limit.value];
      } else {
        r := all;
      }
    }
  }
}
