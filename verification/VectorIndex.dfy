/**
 The product vector index and its incremental bootstrap.

 A point's id is the product's id (the uuid derived from it is taken to be injective), and a fingerprint
 is the namespace and the text it was made from (the digest is taken to be injective).
 */
module VectorIndex {
  import opened Common

  type Vector = seq<real>

  const BATCH := 100

  datatype Fingerprint = Fingerprint(namespace: string, text: string)

  /** A point's vector and the payload fields that are strings. */
  datatype Point = Point(vector: Vector, productId: Option<string>, fingerprint: Option<Fingerprint>)

  datatype Collection = Collection(dim: nat, points: map<string, Point>)

  datatype Product = Product(productId: string, text: string)

  /** What the embedding client of a namespace makes of a text. */
  type Embedder = (string, string) -> Vector

  datatype IndexError = ServerFailed | BadSize | BadDimension

  /** The payload of every point names the product the point stands for. */
  predicate Own(points: map<string, Point>) {
    forall id <- points :: points[id].productId == Some(id)
  }

  /** Every fingerprint stands beside the embedding of the text it was made from. */
  predicate Paired(points: map<string, Point>, embedder: Embedder) {
    forall id <- points :: points[id].fingerprint.Some? ==>
      points[id].vector == embedder(points[id].fingerprint.value.namespace, points[id].fingerprint.value.text)
  }

  /** One lookup over all ids: the fingerprints of those that have one. */
  function FingerprintsOf(points: map<string, Point>, ids: seq<string>): map<string, Fingerprint> {
    map id | id in ids && id in points && points[id].fingerprint.Some? :: points[id].fingerprint.value
  }

  /** A batch of found points, in whatever order the server returns them. */
  predicate FoundIn(found: seq<Point>, points: map<string, Point>, ids: seq<string>) {
    && (forall id <- ids :: id in points ==> points[id] in found)
    && (forall p <- found :: exists id <- ids :: id in points && points[id] == p)
  }

  /** Adds a batch's fingerprints; a point without both strings in its payload is passed over. */
  function AddFound(fingerprints: map<string, Fingerprint>, found: seq<Point>): map<string, Fingerprint>
    decreases |found|
  {
    if found == [] then fingerprints
    else
      var p := found[0];
      AddFound(if p.productId.Some? && p.fingerprint.Some? then fingerprints[p.productId.value := p.fingerprint.value] else fingerprints,
               found[1..])
  }

  lemma {:induction false} AddFoundIsLookup(fingerprints: map<string, Fingerprint>, found: seq<Point>, points: map<string, Point>, ids: seq<string>)
    requires Own(points) && forall p <- found :: exists id <- ids :: id in points && points[id] == p
    ensures var after := AddFound(fingerprints, found);
            && (forall id :: id in after <==> id in fingerprints || (id in points && points[id] in found && points[id].fingerprint.Some?))
            && (forall id <- after :: after[id] ==
                  if id in points && points[id] in found && points[id].fingerprint.Some? then points[id].fingerprint.value else fingerprints[id])
    decreases |found|
  {
    if found != [] {
      var p, rest := found[0], found[1..];
      var next := if p.productId.Some? && p.fingerprint.Some? then fingerprints[p.productId.value := p.fingerprint.value] else fingerprints;
      assert p in found;
      var at :| at in ids && at in points && points[at] == p;
      assert forall q :: q in found <==> q == p || q in rest;
      AddFoundIsLookup(next, rest, points, ids);
      assert forall id <- points :: points[id] == p ==> id == at;
    }
  }

  /** Looking up one batch after another is one lookup over all ids. */
  lemma BatchExtendsLookup(points: map<string, Point>, ids: seq<string>, batch: seq<string>, found: seq<Point>)
    requires Own(points) && FoundIn(found, points, batch)
    ensures AddFound(FingerprintsOf(points, ids), found) == FingerprintsOf(points, ids + batch)
  {
    var before := FingerprintsOf(points, ids);
    AddFoundIsLookup(before, found, points, batch);
    var after := AddFound(before, found);
    forall id ensures id in after <==> id in FingerprintsOf(points, ids + batch) {
      if id in points && points[id] in found {
        var other :| other in batch && other in points && points[other] == points[id];
        assert other == id;
      }
    }
  }

  // ---------------------------------------------------------------- upserting

  function PointOf(p: Product, namespace: string, vector: Vector): Point {
    Point(vector, Some(p.productId), Some(Fingerprint(namespace, p.text)))
  }

  /** What the products' points are when all of them are embedded anew. */
  function Rebuilt(points: map<string, Point>, products: seq<Product>, namespace: string, embedder: Embedder): map<string, Point>
    decreases |products|
  {
    if products == [] then points
    else
      var p := products[|products| - 1];
      Rebuilt(points, products[..|products| - 1], namespace, embedder)[p.productId := PointOf(p, namespace, embedder(namespace, p.text))]
  }

  predicate DistinctIds(products: seq<Product>) {
    forall i, j | 0 <= i < j < |products| :: products[i].productId != products[j].productId
  }

  /** The product is indexed with the embedding of its current text. */
  predicate Current(points: map<string, Point>, p: Product, namespace: string, embedder: Embedder) {
    p.productId in points && points[p.productId] == PointOf(p, namespace, embedder(namespace, p.text))
  }

  /** The product's stored fingerprint is that of its current text. */
  predicate UpToDate(points: map<string, Point>, p: Product, namespace: string) {
    p.productId in points && points[p.productId].fingerprint == Some(Fingerprint(namespace, p.text))
  }

  lemma UpToDateIsCurrent(points: map<string, Point>, p: Product, namespace: string, embedder: Embedder)
    requires Own(points) && Paired(points, embedder)
    ensures UpToDate(points, p, namespace) <==> Current(points, p, namespace, embedder)
  {
  }

  predicate Names(products: seq<Product>, id: string) {
    exists p <- products :: p.productId == id
  }

  /** A rebuilt product is current. */
  lemma {:induction false} RebuiltIsCurrent(points: map<string, Point>, products: seq<Product>, p: Product, namespace: string, embedder: Embedder)
    requires DistinctIds(products) && p in products
    ensures Current(Rebuilt(points, products, namespace, embedder), p, namespace, embedder)
    decreases |products|
  {
    var front, last := products[..|products| - 1], products[|products| - 1];
    if p != last {
      var i :| 0 <= i < |products| && products[i] == p;
      assert p == front[i] && p in front && products[i].productId != last.productId;
      RebuiltIsCurrent(points, front, p, namespace, embedder);
    }
  }

  /** Nothing else changes. */
  lemma {:induction false} RebuiltKeepsOthers(points: map<string, Point>, products: seq<Product>, id: string, namespace: string, embedder: Embedder)
    requires !Names(products, id)
    ensures var after := Rebuilt(points, products, namespace, embedder);
            && (id in after <==> id in points)
            && (id in points ==> after[id] == points[id])
    decreases |products|
  {
    if products != [] {
      var front := products[..|products| - 1];
      assert products[|products| - 1] in products && forall p <- front :: p in products;
      RebuiltKeepsOthers(points, front, id, namespace, embedder);
    }
  }

  lemma RebuiltIsPaired(points: map<string, Point>, products: seq<Product>, namespace: string, embedder: Embedder)
    requires DistinctIds(products) && Own(points) && Paired(points, embedder)
    ensures Own(Rebuilt(points, products, namespace, embedder)) && Paired(Rebuilt(points, products, namespace, embedder), embedder)
  {
    hide Rebuilt, DistinctIds;
    var after := Rebuilt(points, products, namespace, embedder);
    forall id <- after ensures after[id].productId == Some(id) &&
      (after[id].fingerprint.Some? ==> after[id].vector == embedder(after[id].fingerprint.value.namespace, after[id].fingerprint.value.text))
    {
      if Names(products, id) {
        var p :| p in products && p.productId == id;
        RebuiltIsCurrent(points, products, p, namespace, embedder);
      } else {
        RebuiltKeepsOthers(points, products, id, namespace, embedder);
      }
    }
  }

  function OutOfDate(points: map<string, Point>, products: seq<Product>, namespace: string): seq<Product>
    decreases |products|
  {
    if products == [] then []
    else
      var last := products[|products| - 1];
      OutOfDate(points, products[..|products| - 1], namespace) + if UpToDate(points, last, namespace) then [] else [last]
  }

  lemma {:induction false} OutOfDateMembers(points: map<string, Point>, products: seq<Product>, namespace: string)
    ensures forall p :: p in OutOfDate(points, products, namespace) <==> p in products && !UpToDate(points, p, namespace)
    ensures DistinctIds(products) ==> DistinctIds(OutOfDate(points, products, namespace))
    decreases |products|
  {
    if products != [] {
      var front, last := products[..|products| - 1], products[|products| - 1];
      OutOfDateMembers(points, front, namespace);
      assert products == front + [last];
      var rest := OutOfDate(points, front, namespace);
      if DistinctIds(products) {
        forall i | 0 <= i < |rest| ensures rest[i].productId != last.productId {
          assert rest[i] in front;
          var j :| 0 <= j < |front| && products[j] == rest[i];
        }
      }
    }
  }

  /** Embedding only what is out of date gives the very index that embedding everything would give. */
  lemma IncrementalEqualsRebuild(points: map<string, Point>, products: seq<Product>, namespace: string, embedder: Embedder)
    requires DistinctIds(products) && Own(points) && Paired(points, embedder)
    ensures Rebuilt(points, OutOfDate(points, products, namespace), namespace, embedder) == Rebuilt(points, products, namespace, embedder)
  {
    hide Rebuilt, OutOfDate, Own, Paired, DistinctIds;
    OutOfDateMembers(points, products, namespace);
    var a := Rebuilt(points, OutOfDate(points, products, namespace), namespace, embedder);
    var b := Rebuilt(points, products, namespace, embedder);
    forall id ensures (id in a <==> id in b) && (id in a ==> a[id] == b[id]) {
      if Names(products, id) {
        var p :| p in products && p.productId == id;
        IncrementalAt(points, products, p, namespace, embedder);
      } else {
        RebuiltKeepsOthers(points, products, id, namespace, embedder);
        RebuiltKeepsOthers(points, OutOfDate(points, products, namespace), id, namespace, embedder);
      }
    }
  }

  lemma IncrementalAt(points: map<string, Point>, products: seq<Product>, p: Product, namespace: string, embedder: Embedder)
    requires DistinctIds(products) && Own(points) && Paired(points, embedder) && p in products
    ensures Current(Rebuilt(points, OutOfDate(points, products, namespace), namespace, embedder), p, namespace, embedder)
    ensures Current(Rebuilt(points, products, namespace, embedder), p, namespace, embedder)
  {
    hide Rebuilt, OutOfDate, DistinctIds;
    var part := OutOfDate(points, products, namespace);
    OutOfDateMembers(points, products, namespace);
    RebuiltIsCurrent(points, products, p, namespace, embedder);
    if p in part {
      RebuiltIsCurrent(points, part, p, namespace, embedder);
    } else {
      UpToDateIsCurrent(points, p, namespace, embedder);
      forall q <- part ensures q.productId != p.productId {
        SameIdSameProduct(products, p, q);
      }
      RebuiltKeepsOthers(points, part, p.productId, namespace, embedder);
    }
  }

  lemma SameIdSameProduct(products: seq<Product>, p: Product, q: Product)
    requires DistinctIds(products) && p in products && q in products
    ensures p.productId == q.productId ==> p == q
  {
    var i :| 0 <= i < |products| && products[i] == p;
    var j :| 0 <= j < |products| && products[j] == q;
  }

  // ---------------------------------------------------------------- the index and its bootstrap

  function EmbedAll(products: seq<Product>, namespace: string, embedder: Embedder): seq<Vector> {
    seq(|products|, i requires 0 <= i < |products| => embedder(namespace, products[i].text))
  }

  /** The points of one upsert, in order: a later one replaces an earlier one with the same id. */
  function Upserted(points: map<string, Point>, products: seq<Product>, namespace: string, vectors: seq<Vector>): map<string, Point>
    requires |products| == |vectors|
    decreases |products|
  {
    if products == [] then points
    else
      var last := |products| - 1;
      Upserted(points, products[..last], namespace, vectors[..last])[products[last].productId := PointOf(products[last], namespace, vectors[last])]
  }

  lemma {:induction false} UpsertingEmbeddingsRebuilds(points: map<string, Point>, products: seq<Product>, namespace: string, embedder: Embedder)
    ensures Upserted(points, products, namespace, EmbedAll(products, namespace, embedder)) == Rebuilt(points, products, namespace, embedder)
    decreases |products|
  {
    if products != [] {
      var front := products[..|products| - 1];
      assert EmbedAll(products, namespace, embedder)[..|front|] == EmbedAll(front, namespace, embedder);
      UpsertingEmbeddingsRebuilds(points, front, namespace, embedder);
    }
  }

  predicate AllHaveDimension(points: map<string, Point>, dim: nat) {
    forall id <- points :: |points[id].vector| == dim
  }

  /** The collection's vectors have its dimension, which is not zero. */
  predicate OneDimension(collection: Option<Collection>) {
    collection.Some? ==> collection.value.dim > 0 && AllHaveDimension(collection.value.points, collection.value.dim)
  }

  lemma {:induction false} UpsertedHaveDimension(points: map<string, Point>, products: seq<Product>, namespace: string, vectors: seq<Vector>, dim: nat)
    requires |products| == |vectors| && (forall v <- vectors :: |v| == dim)
    requires AllHaveDimension(points, dim)
    ensures AllHaveDimension(Upserted(points, products, namespace, vectors), dim)
    decreases |products|
  {
    if products != [] {
      var last := |products| - 1;
      assert vectors[last] in vectors && forall v <- vectors[..last] :: v in vectors;
      UpsertedHaveDimension(points, products[..last], namespace, vectors[..last], dim);
    }
  }

  class EmbeddingClient {
    const embedder: Embedder
    const namespace: string
    /** History: the batches of texts the client was asked to embed. */
    ghost var asked: seq<seq<Product>>
    /** History: how many calls failed or were answered with another length. */
    ghost var failures: nat

    constructor (embedder: Embedder, namespace: string)
      ensures this.embedder == embedder && this.namespace == namespace && asked == [] && failures == 0
    {
      this.embedder, this.namespace, asked, failures := embedder, namespace, [], 0;
    }

    /** The embeddings, an exception, or an answer of another length. */
    method EmbedBatch(products: seq<Product>) returns (answer: Result<seq<Vector>, IndexError>)
      modifies this
      ensures asked == old(asked) + [products]
      ensures answer.Ok? && |answer.value| == |products| ==> answer.value == EmbedAll(products, namespace, embedder)
      ensures failures == old(failures) + if answer.Ok? && |answer.value| == |products| then 0 else 1
    {
      asked := asked + [products];
      var raises: bool := *;
      var other: seq<Vector> := *;
      if raises {
        failures := failures + 1;
        return Err(ServerFailed);
      }
      if |other| != |products| {
        failures := failures + 1;
        return Ok(other);
      }
      return Ok(EmbedAll(products, namespace, embedder));
    }
  }

  class QdrantProductIndex {
    var collection: Option<Collection>
    /** History: how many calls of the server failed. */
    ghost var failures: nat

    constructor ()
      ensures collection == None && failures == 0
    {
      collection, failures := None, 0;
    }

    function Points(): map<string, Point>
      reads this
    {
      if collection.Some? then collection.value.points else map[]
    }

    method Retrieve(ids: seq<string>) returns (found: Result<seq<Point>, IndexError>)
      modifies this`failures
      ensures found.Ok? ==> FoundIn(found.value, Points(), ids)
      ensures failures == old(failures) + if found.Ok? then 0 else 1
    {
      var fails: bool := *;
      if fails {
        failures := failures + 1;
        return Err(ServerFailed);
      }
      var ps := [];
      for i := 0 to |ids|
        invariant FoundIn(ps, Points(), ids[..i])
      {
        assert ids[..i + 1] == ids[..i] + [ids[i]];
        assert forall id :: id in ids[..i + 1] <==> id in ids[..i] || id == ids[i];
        if ids[i] in Points() {
          var first: bool := *;
          var p := Points()[ids[i]];
          var more := if first then [p] + ps else ps + [p];
          assert forall q :: q in more <==> q == p || q in ps;
          ps := more;
        }
      }
      assert ids[..|ids|] == ids;
      return Ok(ps);
    }

    /** The batches of 100 together are one lookup over all ids. */
    method GetFingerprints(ids: seq<string>) returns (r: Result<map<string, Fingerprint>, IndexError>)
      requires Own(Points())
      modifies this`failures
      ensures r.Ok? ==> r.value == FingerprintsOf(Points(), ids)
      ensures failures == old(failures) + if r.Ok? then 0 else 1
    {
      hide Own, FoundIn, AddFound;
      if ids == [] || collection.None? {
        return Ok(map[]);
      }
      var fingerprints: map<string, Fingerprint> := map[];
      var start := 0;
      assert ids[..0] == [];
      while start < |ids|
        invariant 0 <= start && failures == old(failures)
        invariant fingerprints == FingerprintsOf(Points(), if start < |ids| then ids[..start] else ids)
      {
        var batch := ids[start..if start + BATCH < |ids| then start + BATCH else |ids|];
        var found := Retrieve(batch);
        if found.Err? {
          return Err(found.error);
        }
        BatchExtendsLookup(Points(), ids[..start], batch, found.value);
        assert ids[..start] + batch == if start + BATCH < |ids| then ids[..start + BATCH] else ids;
        fingerprints := AddFound(fingerprints, found.value);
        start := start + BATCH;
      }
      return Ok(fingerprints);
    }

    method EnsureReady(dim: nat) returns (ok: bool)
      modifies this
      ensures Points() == old(Points())
      ensures ok ==> collection.Some?
      ensures old(collection).Some? || !ok ==> collection == old(collection)
      ensures old(collection).None? && ok ==> collection.value.dim == dim
      ensures OneDimension(old(collection)) && dim > 0 ==> OneDimension(collection)
      ensures failures == old(failures) + if ok then 0 else 1
    {
      ok := *;
      if !ok {
        failures := failures + 1;
      } else if collection.None? {
        collection := Some(Collection(dim, map[]));
      }
    }

    /** The server refuses vectors of another dimension; a failing call may have taken effect all the same. */
    method UpsertProducts(products: seq<Product>, namespace: string, vectors: seq<Vector>) returns (ok: bool)
      requires collection.Some?
      modifies this
      ensures collection.Some? && collection.value.dim == old(collection).value.dim
      ensures ok ==> |products| == |vectors| && Points() == Upserted(old(Points()), products, namespace, vectors)
      ensures Points() == old(Points()) || (|products| == |vectors| && Points() == Upserted(old(Points()), products, namespace, vectors))
      ensures OneDimension(old(collection)) ==> OneDimension(collection)
      ensures failures >= old(failures)
      ensures !ok ==> failures > old(failures) || |products| != |vectors| || exists v <- vectors :: |v| != old(collection).value.dim
    {
      if |products| != |vectors| {
        return false;
      }
      if products == [] {
        return true;
      }
      if exists v <- vectors :: |v| != collection.value.dim {
        return false;
      }
      var reaches: bool := *;
      if reaches {
        if OneDimension(collection) {
          UpsertedHaveDimension(Points(), products, namespace, vectors, collection.value.dim);
        }
        collection := Some(collection.value.(points := Upserted(Points(), products, namespace, vectors)));
      }
      var replies: bool := *;
      ok := reaches && replies;
      if !ok {
        failures := failures + 1;
      }
    }
  }

  /** Vectors of one dimension, which is not zero and is that of the collection if there is one. */
  predicate Fits(vectors: seq<Vector>, collection: Option<Collection>)
    requires vectors != []
  {
    && |vectors[0]| > 0
    && (forall v <- vectors :: |v| == |vectors[0]|)
    && (collection.Some? ==> |vectors[0]| == collection.value.dim)
  }

  /** The dictionary of looked-up fingerprints decides which products are pending. */
  lemma LookupDecides(points: map<string, Point>, ids: seq<string>, p: Product, namespace: string)
    requires p.productId in ids
    ensures var stored := FingerprintsOf(points, ids);
            UpToDate(points, p, namespace) <==> p.productId in stored && stored[p.productId] == Fingerprint(namespace, p.text)
  {
  }

  method Pending(products: seq<Product>, ids: seq<string>, stored: map<string, Fingerprint>, namespace: string, ghost points: map<string, Point>)
    returns (pending: seq<Product>)
    requires |ids| == |products| && forall i | 0 <= i < |products| :: ids[i] == products[i].productId
    requires stored == FingerprintsOf(points, ids)
    ensures pending == OutOfDate(points, products, namespace)
  {
    hide UpToDate, FingerprintsOf;
    pending := [];
    for i := 0 to |products|
      invariant pending == OutOfDate(points, products[..i], namespace)
    {
      var p := products[i];
      assert products[..i + 1][..i] == products[..i];
      assert ids[i] in ids;
      LookupDecides(points, ids, p, namespace);
      if !(p.productId in stored && stored[p.productId] == Fingerprint(namespace, p.text)) {
        pending := pending + [p];
      }
    }
    assert products[..|products|] == products;
  }

  /** `products` is None when the repository failed.  On success the index is what embedding every product
      anew would have made of it; what was embedded is what was out of date, and nothing if nothing was.  A
      failure at any point leaves every fingerprint beside its text's embedding, and without a failing call
      only missing products or vectors of a wrong dimension prevent success. */
  method Bootstrap(products: Option<seq<Product>>, client: EmbeddingClient, index: QdrantProductIndex) returns (done: bool)
    requires products.Some? ==> DistinctIds(products.value)
    requires Own(index.Points()) && Paired(index.Points(), client.embedder)
    modifies client, index
    ensures Own(index.Points()) && Paired(index.Points(), client.embedder)
    ensures OneDimension(old(index.collection)) ==> OneDimension(index.collection)
    ensures done ==>
              && products.Some? && products.value != []
              && index.Points() == Rebuilt(old(index.Points()), products.value, client.namespace, client.embedder)
              && forall p <- products.value :: Current(index.Points(), p, client.namespace, client.embedder)
    ensures client.asked == old(client.asked) ||
            (&& products.Some?
             && OutOfDate(old(index.Points()), products.value, client.namespace) != []
             && client.asked == old(client.asked) + [OutOfDate(old(index.Points()), products.value, client.namespace)])
    ensures !done ==>
              || products.None? || products.value == []
              || client.failures > old(client.failures) || index.failures > old(index.failures)
              || var pending := OutOfDate(old(index.Points()), products.value, client.namespace);
                 pending != [] && !Fits(EmbedAll(pending, client.namespace, client.embedder), old(index.collection))
    ensures done && client.asked == old(client.asked) ==> index.Points() == old(index.Points())
    ensures index.Points() == old(index.Points()) ||
            (products.Some? && index.Points() == Rebuilt(old(index.Points()), products.value, client.namespace, client.embedder))
  {
    hide Own, Paired, Upserted, Rebuilt, Current, OutOfDate, FingerprintsOf, DistinctIds, OneDimension;
    if products.None? || products.value == [] {
      return false;
    }
    var ps := products.value;
    var ids := seq(|ps|, i requires 0 <= i < |ps| => ps[i].productId);
    var stored := index.GetFingerprints(ids);
    if stored.Err? {
      return false;
    }
    ghost var before := index.Points();
    var pending := Pending(ps, ids, stored.value, client.namespace, before);
    IncrementalEqualsRebuild(before, ps, client.namespace, client.embedder);
    forall p <- ps ensures Current(Rebuilt(before, ps, client.namespace, client.embedder), p, client.namespace, client.embedder) {
      RebuiltIsCurrent(before, ps, p, client.namespace, client.embedder);
    }
    RebuiltIsPaired(before, ps, client.namespace, client.embedder);
    UpsertingEmbeddingsRebuilds(before, pending, client.namespace, client.embedder);
    if pending == [] {
      NothingRebuilt(before, client.namespace, client.embedder);
      return true;
    }
    var embeddings := client.EmbedBatch(pending);
    if embeddings.Err? || |embeddings.value| != |pending| {
      return false;
    }
    var dim := |embeddings.value[0]|;
    if dim == 0 || exists v <- embeddings.value :: |v| != dim {
      return false;
    }
    var ready := index.EnsureReady(dim);
    if !ready {
      return false;
    }
    done := index.UpsertProducts(pending, client.namespace, embeddings.value);
  }

  lemma NothingRebuilt(points: map<string, Point>, namespace: string, embedder: Embedder)
    ensures Rebuilt(points, [], namespace, embedder) == points
  {
  }

  /** After a successful bootstrap nothing is out of date, so that running it again embeds nothing. */
  lemma SecondRunEmbedsNothing(points: map<string, Point>, products: seq<Product>, namespace: string, embedder: Embedder)
    requires DistinctIds(products) && Own(points) && Paired(points, embedder)
    ensures OutOfDate(Rebuilt(points, products, namespace, embedder), products, namespace) == []
  {
    var after := Rebuilt(points, products, namespace, embedder);
    forall p <- products ensures UpToDate(after, p, namespace) {
      RebuiltIsCurrent(points, products, p, namespace, embedder);
    }
    NothingOutOfDate(after, products, namespace);
  }

  lemma {:induction false} NothingOutOfDate(points: map<string, Point>, products: seq<Product>, namespace: string)
    requires forall p <- products :: UpToDate(points, p, namespace)
    ensures OutOfDate(points, products, namespace) == []
    decreases |products|
  {
    if products != [] {
      assert forall p <- products[..|products| - 1] :: p in products;
      assert products[|products| - 1] in products;
      NothingOutOfDate(points, products[..|products| - 1], namespace);
    }
  }
}
