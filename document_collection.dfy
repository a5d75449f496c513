/** The document collection the stores persist to, as a sequence of
    documents in natural order: the single-document writes the stores issue
    (`InsertOne`, `ReplaceOne`, `UpdateOne`, `DeleteOne`) and the unique
    index on `_id` that every collection carries. */
module DocumentCollections {
  import opened Common
  import opened Sequences

  /** No two documents share an `_id`. */
  predicate UniqueKeys<T>(docs: seq<T>, key: T -> Option<string>) {
    forall i, j :: 0 <= i < j < |docs| ==> key(docs[i]) != key(docs[j])
  }

  /** `InsertOne`: a duplicate-key error when a document with the same `_id`
      is already stored, otherwise the document is appended. */
  function InsertOne<T>(docs: seq<T>, d: T, key: T -> Option<string>): (r: Result<seq<T>>)
    ensures r.Err? <==> Any(docs, (x: T) => key(x) == key(d))
    ensures r.Err? ==> r.error == DuplicateKey
    ensures r.Ok? ==> r.value == docs + [d]
  {
    if Any(docs, (x: T) => key(x) == key(d)) then Err(DuplicateKey) else Ok(docs + [d])
  }

  /** An insert that succeeds keeps the `_id`s unique. */
  lemma {:induction false} InsertKeepsUnique<T>(docs: seq<T>, d: T, key: T -> Option<string>)
    requires UniqueKeys(docs, key) && InsertOne(docs, d, key).Ok?
    ensures UniqueKeys(InsertOne(docs, d, key).value, key)
  {
    var s := docs + [d];
    forall i, j | 0 <= i < j < |s|
      ensures key(s[i]) != key(s[j])
    {
      if j == |docs| {
        assert s[i] == docs[i];
        assert !((x: T) => key(x) == key(d))(docs[i]);
      }
    }
  }

  /** What a single-document write reports: the collection afterwards, and
      the matched and modified counts (each zero or one). */
  datatype WriteResult<T> = WriteResult(docs: seq<T>, matched: bool, modified: bool)

  /** `ReplaceOne` without upsert: the first document the filter matches is
      replaced. A match whose content already equals the replacement is not
      counted as modified, as the server reports it. */
  function ReplaceOne<T(==)>(docs: seq<T>, filter: T -> bool, replacement: T): (r: WriteResult<T>)
    ensures |r.docs| == |docs|
    ensures r.matched <==> Any(docs, filter)
    ensures !r.matched ==> r.docs == docs && !r.modified
    ensures r.matched ==> var k := FirstIndex(docs, filter).value;
      r.docs == docs[k := replacement] && (r.modified <==> docs[k] != replacement)
  {
    match FirstIndex(docs, filter)
    case None => WriteResult(docs, false, false)
    case Some(k) => WriteResult(docs[k := replacement], true, docs[k] != replacement)
  }

  /** `UpdateOne`: the first document the filter matches gets `update` applied. */
  function UpdateOne<T(==)>(docs: seq<T>, filter: T -> bool, update: T -> T): (r: WriteResult<T>)
    ensures |r.docs| == |docs|
    ensures r.matched <==> Any(docs, filter)
    ensures !r.matched ==> r.docs == docs
    ensures r.matched ==> var k := FirstIndex(docs, filter).value;
      r.docs == docs[k := update(docs[k])]
  {
    match FirstIndex(docs, filter)
    case None => WriteResult(docs, false, false)
    case Some(k) => ReplaceOne(docs, filter, update(docs[k]))
  }

  /** `DeleteOne`: the first document the filter matches is removed. */
  function DeleteOne<T>(docs: seq<T>, filter: T -> bool): (r: seq<T>)
    ensures !Any(docs, filter) ==> r == docs
    ensures Any(docs, filter) ==> |r| == |docs| - 1
    ensures forall i :: 0 <= i < |r| ==> r[i] in docs
    ensures Any(docs, filter) ==> multiset(r) + multiset{FirstWhere(docs, filter).value} == multiset(docs)
    ensures Any(docs, filter) ==> var k := FirstIndex(docs, filter).value;
      r == docs[..k] + docs[k + 1..]
  {
    var r := RemoveFirst(docs, filter);
    forall i | 0 <= i < |r|
      ensures r[i] in docs
    {
      if Any(docs, filter) {
        RemoveFirstAt(docs, filter, i);
      }
    }
    r
  }

  /** Overwriting one document with one that has the same `_id` keeps the
      `_id`s unique. */
  lemma OverwriteKeepsUnique<T>(docs: seq<T>, k: nat, d: T, key: T -> Option<string>)
    requires UniqueKeys(docs, key) && k < |docs| && key(d) == key(docs[k])
    ensures UniqueKeys(docs[k := d], key)
  {
  }

  /** Removing a document keeps the `_id`s unique. */
  lemma {:induction false} DeleteKeepsUnique<T>(docs: seq<T>, filter: T -> bool, key: T -> Option<string>)
    requires UniqueKeys(docs, key)
    ensures UniqueKeys(DeleteOne(docs, filter), key)
  {
    var r := DeleteOne(docs, filter);
    if Any(docs, filter) {
      var k := FirstIndex(docs, filter).value;
      forall i, j | 0 <= i < j < |r|
        ensures key(r[i]) != key(r[j])
      {
        RemoveFirstAt(docs, filter, i);
        RemoveFirstAt(docs, filter, j);
        var i' := if i < k then i else i + 1;
        var j' := if j < k then j else j + 1;
        assert r[i] == docs[i'] && r[j] == docs[j'] && i' < j';
      }
    }
  }
}
