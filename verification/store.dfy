/** The `actions` collection and the two endpoints that touch it: `/webhook`
    inserts at most one document per call, and `/api/actions` reads the 20
    documents with the greatest `timestamp`, newest first, with each `_id`
    turned into a string. The collection is a sequence in insertion order. */
module ActionStore {
  import opened Exceptions
  import opened Json
  import opened Normalizer

  /** A document id; `str(_id)` is its hexadecimal text. */
  datatype ObjectId = ObjectId(hex: string)

  /** A document as the collection holds it. */
  datatype Stored = Stored(id: ObjectId, doc: Action)

  /** A document as `/api/actions` returns it: `_id` is a plain string. */
  datatype Exposed = Exposed(id: string, doc: Action)

  /** What `insert_one` did: it stored the document under a fresh id, or it
      raised. */
  datatype WriteOutcome = Written(id: ObjectId) | WriteFailed

  /** The answer of `/webhook`. */
  datatype Reply = Success | Ignored | ServerError {
    function Code(): int {
      match this
      case Success => 201
      case Ignored => 200
      case ServerError => 500
    }
  }

  const PageSize: nat := 20

  /** `/webhook`: classify the payload, insert the one document it yields,
      and answer. An exception, from the payload or from the insert, leaves
      the collection as it was and becomes a 500. */
  function Receive(store: seq<Stored>, data: Json, write: WriteOutcome): (res: (seq<Stored>, Reply))
    ensures res.1 == Success <==> |res.0| == |store| + 1
    ensures res.1 != Success ==> res.0 == store
    ensures |res.0| >= |store| && res.0[..|store|] == store
    ensures res.1 == Success <==> Webhook(data).Ok? && Webhook(data).value.Insert? && write.Written?
    ensures res.1 == Success ==> res.0[|store|] == Stored(write.id, Webhook(data).value.doc)
    ensures res.1 == Ignored <==> Webhook(data) == Ok(Ignore)
    ensures res.1.Code() == 201 <==> |res.0| == |store| + 1
    ensures res.1.Code() == 200 <==> Webhook(data) == Ok(Ignore)
    ensures res.1.Code() == 500 <==>
      Webhook(data).Err? || (Webhook(data).Ok? && Webhook(data).value.Insert? && write.WriteFailed?)
  {
    match Webhook(data)
    case Err(_) => (store, ServerError)
    case Ok(Ignore) => (store, Ignored)
    case Ok(Insert(doc)) =>
      match write
      case Written(id) => (store + [Stored(id, doc)], Success)
      case WriteFailed => (store, ServerError)
  }

  /** The requirements on the sort key's order: total and transitive. Which
      total order the database applies across JSON types, and where a
      missing timestamp falls in it, is left open. */
  ghost predicate TimestampOrder(leq: (Json, Json) -> bool) {
    && (forall a, b :: leq(a, b) || leq(b, a))
    && (forall a, b, c :: leq(a, b) && leq(b, c) ==> leq(a, c))
  }

  /** Non-increasing in `timestamp`. */
  ghost predicate Descending(s: seq<Exposed>, leq: (Json, Json) -> bool) {
    forall i, j :: 0 <= i < j < |s| ==> leq(s[j].doc.timestamp, s[i].doc.timestamp)
  }

  function Expose(d: Stored): Exposed {
    Exposed(d.id.hex, d.doc)
  }

  /** The collection with every `_id` converted to a string. */
  function ExposeAll(store: seq<Stored>): (r: seq<Exposed>)
    ensures |r| == |store|
    ensures forall i :: 0 <= i < |store| ==> r[i] == Expose(store[i])
  {
    if |store| == 0 then [] else [Expose(store[0])] + ExposeAll(store[1..])
  }

  /** Places `x` into a descending sequence after every element whose
      timestamp is at least its own. */
  function InsertDescending(x: Exposed, s: seq<Exposed>, leq: (Json, Json) -> bool): (r: seq<Exposed>)
    requires TimestampOrder(leq)
    requires Descending(s, leq)
    ensures |r| == |s| + 1
    ensures multiset(r) == multiset(s) + multiset{x}
    ensures Descending(r, leq)
  {
    if |s| == 0 || !leq(x.doc.timestamp, s[0].doc.timestamp) then
      AboveAll(x, s, leq);
      [x] + s
    else
      var t := InsertDescending(x, s[1..], leq);
      BelowHead(x, s, t, leq);
      assert s == [s[0]] + s[1..];
      [s[0]] + t
  }

  /** An element strictly above the head of a descending sequence may be put
      in front of it. */
  lemma AboveAll(x: Exposed, s: seq<Exposed>, leq: (Json, Json) -> bool)
    requires TimestampOrder(leq)
    requires Descending(s, leq)
    requires |s| == 0 || !leq(x.doc.timestamp, s[0].doc.timestamp)
    ensures Descending([x] + s, leq)
  {
    var r := [x] + s;
    forall i, j | 0 <= i < j < |r|
      ensures leq(r[j].doc.timestamp, r[i].doc.timestamp)
    {
      if i == 0 {
        assert leq(s[0].doc.timestamp, x.doc.timestamp);
        assert leq(s[j - 1].doc.timestamp, s[0].doc.timestamp) || j == 1;
      }
    }
  }

  /** The head of a descending sequence stays in front when the rest, with
      an element no greater than the head, is rearranged. */
  lemma BelowHead(x: Exposed, s: seq<Exposed>, t: seq<Exposed>, leq: (Json, Json) -> bool)
    requires TimestampOrder(leq)
    requires Descending(s, leq) && Descending(t, leq)
    requires |s| > 0 && leq(x.doc.timestamp, s[0].doc.timestamp)
    requires multiset(t) == multiset(s[1..]) + multiset{x}
    ensures Descending([s[0]] + t, leq)
  {
    forall j | 0 <= j < |t|
      ensures leq(t[j].doc.timestamp, s[0].doc.timestamp)
    {
      assert t[j] in multiset(t);
      if t[j] != x {
        assert t[j] in multiset(s[1..]);
        var m :| 0 <= m < |s[1..]| && s[1..][m] == t[j];
        assert s[m + 1] == t[j];
      }
    }
    var r := [s[0]] + t;
    forall i, j | 0 <= i < j < |r|
      ensures leq(r[j].doc.timestamp, r[i].doc.timestamp)
    {
      if i == 0 {
        assert r[j] == t[j - 1];
      } else {
        assert r[i] == t[i - 1] && r[j] == t[j - 1];
      }
    }
  }

  /** `sort("timestamp", -1)`: a descending permutation. Among equal
      timestamps the later-inserted document comes first. */
  function SortDescending(s: seq<Exposed>, leq: (Json, Json) -> bool): (r: seq<Exposed>)
    requires TimestampOrder(leq)
    ensures |r| == |s|
    ensures multiset(r) == multiset(s)
    ensures Descending(r, leq)
  {
    if |s| == 0 then []
    else
      assert s == [s[0]] + s[1..];
      InsertDescending(s[0], SortDescending(s[1..], leq), leq)
  }

  function Min(a: nat, b: nat): nat {
    if a <= b then a else b
  }

  /** A prefix of a descending sequence holds its greatest elements: what is
      left out is nowhere above what is kept. */
  lemma PrefixIsTop(s: seq<Exposed>, k: nat, leq: (Json, Json) -> bool)
    requires k <= |s|
    requires Descending(s, leq)
    ensures Descending(s[..k], leq)
    ensures multiset(s[..k]) <= multiset(s)
    ensures forall x, i :: x in multiset(s) - multiset(s[..k]) && 0 <= i < k ==>
      leq(x.doc.timestamp, s[..k][i].doc.timestamp)
  {
    assert s == s[..k] + s[k..];
    assert multiset(s) == multiset(s[..k]) + multiset(s[k..]);
    forall x, i | x in multiset(s) - multiset(s[..k]) && 0 <= i < k
      ensures leq(x.doc.timestamp, s[..k][i].doc.timestamp)
    {
      assert x in multiset(s[k..]);
      var j :| k <= j < |s| && s[j] == x;
    }
  }

  /** The number of documents `limit(limit)` lets through from `size`; a
      limit of 0 means no limit. */
  function Taken(limit: nat, size: nat): nat {
    if limit == 0 then size else Min(limit, size)
  }

  /** `find().sort("timestamp", -1).limit(limit)` with `_id` stringified. */
  function Latest(store: seq<Stored>, leq: (Json, Json) -> bool, limit: nat): (r: seq<Exposed>)
    requires TimestampOrder(leq)
    ensures limit > 0 ==> |r| <= limit
    ensures |r| == Taken(limit, |store|)
    ensures Descending(r, leq)
    ensures multiset(r) <= multiset(ExposeAll(store))
    ensures limit == 0 || |store| <= limit ==> multiset(r) == multiset(ExposeAll(store))
    ensures forall x, i :: x in multiset(ExposeAll(store)) - multiset(r) && 0 <= i < |r| ==>
      leq(x.doc.timestamp, r[i].doc.timestamp)
  {
    var all := ExposeAll(store);
    var sorted := SortDescending(all, leq);
    var k := Taken(limit, |sorted|);
    TopOfSorted(all, sorted, k, leq);
    sorted[..k]
  }

  /** The first `k` of a descending permutation of `all` are `k` of its
      greatest elements. */
  lemma TopOfSorted(all: seq<Exposed>, sorted: seq<Exposed>, k: nat, leq: (Json, Json) -> bool)
    requires multiset(sorted) == multiset(all) && Descending(sorted, leq)
    requires k <= |sorted|
    ensures Descending(sorted[..k], leq)
    ensures multiset(sorted[..k]) <= multiset(all)
    ensures k == |sorted| ==> multiset(sorted[..k]) == multiset(all)
    ensures forall x, i :: x in multiset(all) - multiset(sorted[..k]) && 0 <= i < k ==>
      leq(x.doc.timestamp, sorted[..k][i].doc.timestamp)
  {
    PrefixIsTop(sorted, k, leq);
    assert k == |sorted| ==> sorted[..k] == sorted;
  }

  /** An element of a sub-multiset of the exposed collection is some stored
      document with its `_id` stringified. */
  lemma FromStore(store: seq<Stored>, r: seq<Exposed>, i: nat)
    requires multiset(r) <= multiset(ExposeAll(store))
    requires i < |r|
    ensures exists j :: 0 <= j < |store| && r[i] == Expose(store[j])
  {
    var all := ExposeAll(store);
    assert r[i] in multiset(r);
    assert r[i] in all;
    var j :| 0 <= j < |all| && all[j] == r[i];
  }

  /** `/api/actions`: at most 20 documents, newest first, nothing left out
      that is newer than something returned, and everything when there are
      at most 20. */
  function GetActions(store: seq<Stored>, leq: (Json, Json) -> bool): (r: seq<Exposed>)
    requires TimestampOrder(leq)
    ensures |r| == Min(PageSize, |store|)
    ensures |store| <= PageSize ==> multiset(r) == multiset(ExposeAll(store))
    ensures Descending(r, leq)
    ensures multiset(r) <= multiset(ExposeAll(store))
    ensures forall x, i :: x in multiset(ExposeAll(store)) - multiset(r) && 0 <= i < |r| ==>
      leq(x.doc.timestamp, r[i].doc.timestamp)
  {
    Latest(store, leq, PageSize)
  }

  /** Each returned document is a stored one with its `_id` as a string. */
  lemma ActionsAreStored(store: seq<Stored>, leq: (Json, Json) -> bool, i: nat)
    requires TimestampOrder(leq)
    requires i < Min(PageSize, |store|)
    ensures exists j :: 0 <= j < |store| && GetActions(store, leq)[i] == Expose(store[j])
  {
    FromStore(store, GetActions(store, leq), i);
  }

  /** While the collection holds fewer than 20 documents, a document that
      `/webhook` has just stored is in the very next `/api/actions` answer,
      unchanged in all six fields. */
  lemma StoredIsListed(store: seq<Stored>, data: Json, write: WriteOutcome, leq: (Json, Json) -> bool)
    requires TimestampOrder(leq)
    requires |store| < PageSize
    requires Receive(store, data, write).1 == Success
    ensures var after := Receive(store, data, write).0;
      Exposed(write.id.hex, Webhook(data).value.doc) in GetActions(after, leq)
  {
    var after := Receive(store, data, write).0;
    var all := ExposeAll(after);
    assert all[|store|] == Exposed(write.id.hex, Webhook(data).value.doc);
    assert all[|store|] in multiset(all);
  }

  /** The first document of an answer has the greatest timestamp in the
      whole collection. */
  lemma HeadIsGreatest(store: seq<Stored>, leq: (Json, Json) -> bool, k: nat)
    requires TimestampOrder(leq)
    requires k < |store|
    ensures |GetActions(store, leq)| >= 1
    ensures leq(store[k].doc.timestamp, GetActions(store, leq)[0].doc.timestamp)
  {
    var r := GetActions(store, leq);
    var all := ExposeAll(store);
    assert |r| == Min(PageSize, |store|);
    var x := all[k];
    if x in r {
      var i :| 0 <= i < |r| && r[i] == x;
    } else {
      assert x in multiset(all);
      assert x !in multiset(r);
      assert x in multiset(all) - multiset(r);
    }
  }

  /** A document whose timestamp is strictly above every stored one heads
      the next `/api/actions` answer. */
  lemma NewestComesFirst(store: seq<Stored>, d: Stored, leq: (Json, Json) -> bool)
    requires TimestampOrder(leq)
    requires forall j :: 0 <= j < |store| ==> !leq(d.doc.timestamp, store[j].doc.timestamp)
    ensures |GetActions(store + [d], leq)| >= 1
    ensures GetActions(store + [d], leq)[0] == Expose(d)
  {
    var after := store + [d];
    var r := GetActions(after, leq);
    var all := ExposeAll(after);
    HeadIsGreatest(after, leq, |store|);
    assert r[0] in multiset(r);
    assert r[0] in all;
    var j :| 0 <= j < |all| && all[j] == r[0];
    assert r[0].doc.timestamp == after[j].doc.timestamp;
    assert forall m :: 0 <= m < |store| ==> after[m] == store[m];
    assert j == |store|;
    assert after[j] == d;
  }
}
