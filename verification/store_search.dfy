/**
 * The customer-side store search (src/features/sns/customer/services/StoreSearchAPI.ts):
 * one GET, a single store or an array in the payload, duplicates by `storeId`
 * removed keeping the first, and an empty list on any failure.
 */
module StoreSearch {
  import opened Optional
  import Lists

  /** The fields of a store the client reads. */
  datatype StoreData = StoreData(storeId: int, name: string, address: string, sigun: string)

  /** `response.data.data`: a bare store, an array of them, or nothing at all (`null`
      or `undefined`). */
  datatype Payload = One(store: StoreData) | Many(stores: seq<StoreData>) | Missing

  /** The HTTP outcome: a throw (network or non-2xx), or a body with its `status` field. */
  datatype SearchReply = Threw | Answered(status: string, message: Option<string>, data: Payload)

  /** `Array.isArray(data) ? data : [data]` for a payload that is there; a missing one
      becomes `[null]`, which each caller handles in its own way. */
  function Wrap(p: Payload): (r: seq<StoreData>)
    requires !p.Missing?
    ensures p.One? ==> r == [p.store]
    ensures p.Many? ==> r == p.stores
  {
    match p
    case One(s) => [s]
    case Many(ss) => ss
  }

  function Ids(xs: seq<StoreData>): set<int> {
    set x | x in xs :: x.storeId
  }

  /** The first store of `xs` with the given id. */
  function First(xs: seq<StoreData>, id: int): (s: StoreData)
    requires id in Ids(xs)
    ensures s in xs && s.storeId == id
  {
    if xs[0].storeId == id then xs[0]
    else
      assert id in Ids(xs[1..]) by {
        var x :| x in xs && x.storeId == id;
        assert x != xs[0];
      }
      First(xs[1..], id)
  }

  /** The reference for the Map-based dedup: walk left to right, keep a store whose
      id has not been seen, and remember its id. */
  function DedupFrom(xs: seq<StoreData>, seen: set<int>): seq<StoreData>
    decreases |xs|
  {
    if xs == [] then []
    else if xs[0].storeId in seen then DedupFrom(xs[1..], seen)
    else [xs[0]] + DedupFrom(xs[1..], seen + {xs[0].storeId})
  }

  predicate DistinctIds(xs: seq<StoreData>) {
    forall a, b :: 0 <= a < b < |xs| ==> xs[a].storeId != xs[b].storeId
  }

  /** `xs` is `ys` with some elements removed, order kept. */
  predicate IsSubsequence(xs: seq<StoreData>, ys: seq<StoreData>)
    decreases |ys|
  {
    if xs == [] then true
    else if ys == [] then false
    else if xs[0] == ys[0] then IsSubsequence(xs[1..], ys[1..])
    else IsSubsequence(xs, ys[1..])
  }

  /** Each store of `r` is the first store of `xs` with its id. */
  predicate FirstCopies(r: seq<StoreData>, xs: seq<StoreData>) {
    forall k :: 0 <= k < |r| ==> r[k].storeId in Ids(xs) && r[k] == First(xs, r[k].storeId)
  }

  lemma IdsSplit(xs: seq<StoreData>)
    requires xs != []
    ensures Ids(xs) == {xs[0].storeId} + Ids(xs[1..])
  {
    assert forall y :: y in xs <==> y == xs[0] || y in xs[1..];
  }

  /** The dedup keeps exactly the ids not already seen, each once. */
  lemma {:induction false} DedupIds(xs: seq<StoreData>, seen: set<int>)
    ensures Ids(DedupFrom(xs, seen)) == Ids(xs) - seen
    ensures DistinctIds(DedupFrom(xs, seen))
    decreases |xs|
  {
    if xs != [] {
      var x := xs[0];
      IdsSplit(xs);
      if x.storeId in seen {
        DedupIds(xs[1..], seen);
      } else {
        var rest := DedupFrom(xs[1..], seen + {x.storeId});
        DedupIds(xs[1..], seen + {x.storeId});
        var r := [x] + rest;
        assert DedupFrom(xs, seen) == r;
        IdsSplit(r);
        assert r[1..] == rest;
        forall a, b | 0 <= a < b < |r| ensures r[a].storeId != r[b].storeId {
          assert r[b] == rest[b - 1];
          assert rest[b - 1] in rest;
          if a > 0 { assert r[a] == rest[a - 1]; }
        }
      }
    }
  }

  /** Past a store with another id, the first store with an id is found in the rest. */
  lemma FirstSkip(xs: seq<StoreData>, id: int)
    requires xs != [] && xs[0].storeId != id && id in Ids(xs[1..])
    ensures id in Ids(xs) && First(xs, id) == First(xs[1..], id)
  {
    IdsSplit(xs);
  }

  /** The dedup keeps, for each id, the first store carrying it. */
  lemma {:induction false} DedupFirstCopies(xs: seq<StoreData>, seen: set<int>)
    ensures FirstCopies(DedupFrom(xs, seen), xs)
    decreases |xs|
  {
    if xs != [] {
      var x := xs[0];
      IdsSplit(xs);
      var r := DedupFrom(xs, seen);
      if x.storeId in seen {
        DedupFirstCopies(xs[1..], seen);
        DedupIds(xs[1..], seen);
        forall k | 0 <= k < |r| ensures r[k].storeId in Ids(xs) && r[k] == First(xs, r[k].storeId) {
          assert r[k] in r;
          FirstSkip(xs, r[k].storeId);
        }
      } else {
        var rest := DedupFrom(xs[1..], seen + {x.storeId});
        DedupFirstCopies(xs[1..], seen + {x.storeId});
        DedupIds(xs[1..], seen + {x.storeId});
        assert r == [x] + rest;
        forall k | 0 <= k < |r| ensures r[k].storeId in Ids(xs) && r[k] == First(xs, r[k].storeId) {
          if k > 0 {
            assert r[k] == rest[k - 1];
            assert rest[k - 1] in rest;
            FirstSkip(xs, r[k].storeId);
          }
        }
      }
    }
  }

  /** The dedup keeps input order. */
  lemma {:induction false} DedupSubsequence(xs: seq<StoreData>, seen: set<int>)
    ensures IsSubsequence(DedupFrom(xs, seen), xs)
    decreases |xs|
  {
    if xs != [] {
      var x := xs[0];
      var r := DedupFrom(xs, seen);
      if x.storeId in seen {
        DedupSubsequence(xs[1..], seen);
        DedupIds(xs[1..], seen);
        if r != [] {
          assert r[0] in r;
          assert r[0] != x;
        }
      } else {
        DedupSubsequence(xs[1..], seen + {x.storeId});
      }
    }
  }

  /** What the dedup keeps: distinct ids, none already seen; every id of the input not
      already seen, and no other; for each id, the first store carrying it; input order. */
  lemma DedupFacts(xs: seq<StoreData>, seen: set<int>)
    ensures var r := DedupFrom(xs, seen);
      && DistinctIds(r)
      && Ids(r) == Ids(xs) - seen
      && FirstCopies(r, xs)
      && IsSubsequence(r, xs)
  {
    DedupIds(xs, seen);
    DedupFirstCopies(xs, seen);
    DedupSubsequence(xs, seen);
  }

  /** The `Map` loop of `searchStores`, as the client runs it. */
  method Dedup(stores: seq<StoreData>) returns (unique: seq<StoreData>)
    ensures unique == DedupFrom(stores, {})
  {
    var seen: set<int> := {};
    unique := [];
    var i := 0;
    while i < |stores|
      invariant 0 <= i <= |stores|
      invariant unique + DedupFrom(stores[i..], seen) == DedupFrom(stores, {})
    {
      var s := stores[i];
      assert stores[i..][1..] == stores[i + 1..];
      if s.storeId !in seen {
        unique := unique + [s];
        seen := seen + {s.storeId};
      }
      i := i + 1;
    }
  }

  predicate Succeeded(reply: SearchReply) {
    reply.Answered? && reply.status == "success"
  }

  /** A success status with a payload that is there. */
  predicate Delivered(reply: SearchReply) {
    Succeeded(reply) && !reply.data.Missing?
  }

  /** `searchStores`: on a success status, the wrapped payload with duplicate ids
      removed; on a throw or any other status, the empty list. A missing payload is
      wrapped as `[null]`, reading its `storeId` throws, and the catch returns the empty
      list as well. */
  method SearchStores(reply: SearchReply) returns (stores: seq<StoreData>)
    ensures !Delivered(reply) ==> stores == []
    ensures Delivered(reply) ==> stores == DedupFrom(Wrap(reply.data), {})
  {
    if Delivered(reply) {
      stores := Dedup(Wrap(reply.data));
    } else {
      stores := [];
    }
  }

  /** A successful search returns each store of the payload once, the first copy of
      it, in payload order. */
  lemma SearchResultsAreFirstCopies(reply: SearchReply)
    requires Delivered(reply)
    ensures var r := DedupFrom(Wrap(reply.data), {});
      && DistinctIds(r)
      && Ids(r) == Ids(Wrap(reply.data))
      && FirstCopies(r, Wrap(reply.data))
      && IsSubsequence(r, Wrap(reply.data))
  {
    DedupFacts(Wrap(reply.data), {});
  }

  /** A payload whose ids are already distinct comes back unchanged. */
  lemma {:induction false} DedupKeepsDistinct(xs: seq<StoreData>, seen: set<int>)
    requires DistinctIds(xs)
    requires Ids(xs) !! seen
    ensures DedupFrom(xs, seen) == xs
    decreases |xs|
  {
    if xs != [] {
      IdsSplit(xs);
      forall y | y in xs[1..] ensures y.storeId != xs[0].storeId {
        var j :| 0 <= j < |xs[1..]| && xs[1..][j] == y;
        assert xs[j + 1] == y;
      }
      assert DistinctIds(xs[1..]) by {
        forall a, b | 0 <= a < b < |xs[1..]| ensures xs[1..][a].storeId != xs[1..][b].storeId {
          assert xs[1..][a] == xs[a + 1] && xs[1..][b] == xs[b + 1];
        }
      }
      DedupKeepsDistinct(xs[1..], seen + {xs[0].storeId});
    }
  }

  lemma {:induction false} SubsequenceOfSameLength(xs: seq<StoreData>, ys: seq<StoreData>)
    requires IsSubsequence(xs, ys)
    ensures |xs| <= |ys|
    ensures |xs| == |ys| ==> xs == ys
    decreases |ys|
  {
    if xs != [] && ys != [] {
      if xs[0] == ys[0] {
        SubsequenceOfSameLength(xs[1..], ys[1..]);
        if |xs| == |ys| {
          assert xs == [xs[0]] + xs[1..] && ys == [ys[0]] + ys[1..];
        }
      } else {
        SubsequenceOfSameLength(xs, ys[1..]);
      }
    }
  }

  /** Nothing is dropped exactly when the payload had no repeated id. */
  lemma NothingDroppedIffDistinct(xs: seq<StoreData>)
    ensures |DedupFrom(xs, {})| == |xs| <==> DistinctIds(xs)
  {
    DedupFacts(xs, {});
    SubsequenceOfSameLength(DedupFrom(xs, {}), xs);
    if DistinctIds(xs) {
      DedupKeepsDistinct(xs, {});
    }
  }
}
