/**
 * The flat inner-product index the matcher builds per request (faiss_index.py,
 * `build_faiss_index` and the `index.search(current_vec, 1)` call).
 * Vectors are real-valued and arrive unit-length or zero, so the inner product is
 * the cosine similarity (zero for a zero vector); float32 rounding is not modelled.
 */
module Similarity {
  import opened Wrappers

  type Vector = seq<real>

  /** What numpy or faiss raise when vectors of different lengths meet. */
  datatype Error = DimensionMismatch

  /** Inner product of two vectors of equal length. */
  function Dot(u: Vector, v: Vector): (r: real)
    requires |u| == |v|
    ensures (forall i :: 0 <= i < |u| ==> u[i] == 0.0) ==> r == 0.0
    ensures u == v ==> 0.0 <= r
    decreases |u|
  {
    if |u| == 0 then 0.0 else u[0] * v[0] + Dot(u[1..], v[1..])
  }

  /** The inner product does not depend on which vector is the query. */
  lemma {:induction false} DotSymmetric(u: Vector, v: Vector)
    requires |u| == |v|
    ensures Dot(u, v) == Dot(v, u)
    decreases |u|
  {
    if |u| > 0 {
      DotSymmetric(u[1..], v[1..]);
    }
  }

  /** `IndexFlatIP(dim)` after `add(vectors)`: every vector stored verbatim, in insertion order. */
  datatype Index = FlatIP(dim: nat, vectors: seq<Vector>) {
    ghost predicate Valid() {
      forall i :: 0 <= i < |vectors| ==> |vectors[i]| == dim
    }
  }

  /** `build_faiss_index(vectors)`: no index for no vectors; an error for ragged ones. */
  function BuildIndex(vectors: seq<Vector>): (r: Result<Option<Index>, Error>)
    ensures r == Success(None) <==> |vectors| == 0
    ensures r.Failure? <==> exists i :: 0 <= i < |vectors| && |vectors[i]| != |vectors[0]|
    ensures r.Success? && r.value.Some? ==>
      && r.value.value.Valid()
      && r.value.value.vectors == vectors
      && r.value.value.dim == |vectors[0]|
  {
    if |vectors| == 0 then Success(None)
    else if forall i :: 0 <= i < |vectors| ==> |vectors[i]| == |vectors[0]| then
      Success(Some(FlatIP(|vectors[0]|, vectors)))
    else Failure(DimensionMismatch)
  }

  /** A search hit: the position of the vector in the index and its inner product with the query. */
  datatype Hit = Hit(position: nat, score: real)

  /** A position of a vector whose inner product with `query` is maximal. No tie-break is promised. */
  function ArgMax(query: Vector, vectors: seq<Vector>): (k: nat)
    requires |vectors| > 0
    requires forall i :: 0 <= i < |vectors| ==> |vectors[i]| == |query|
    ensures k < |vectors|
    ensures forall j :: 0 <= j < |vectors| ==> Dot(query, vectors[j]) <= Dot(query, vectors[k])
    decreases |vectors|
  {
    if |vectors| == 1 then 0
    else
      var last := |vectors| - 1;
      var k := ArgMax(query, vectors[..last]);
      assert forall j :: 0 <= j < last ==> vectors[..last][j] == vectors[j];
      if Dot(query, vectors[last]) > Dot(query, vectors[k]) then last else k
  }

  /**
   * `index.search(query, 1)`: the best hit by inner product; no hit (faiss's -1 label)
   * on an empty index; an error when the query's length is not the index's dimension.
   */
  function Search(index: Index, query: Vector): (r: Result<Option<Hit>, Error>)
    requires index.Valid()
    ensures r.Failure? <==> |query| != index.dim
    ensures r.Success? ==> (r.value.None? <==> |index.vectors| == 0)
    ensures r.Success? && r.value.Some? ==>
      && r.value.value.position < |index.vectors|
      && r.value.value.score == Dot(query, index.vectors[r.value.value.position])
      && forall j :: 0 <= j < |index.vectors| ==> Dot(query, index.vectors[j]) <= r.value.value.score
  {
    if |query| != index.dim then Failure(DimensionMismatch)
    else if |index.vectors| == 0 then Success(None)
    else
      var k := ArgMax(query, index.vectors);
      Success(Some(Hit(k, Dot(query, index.vectors[k]))))
  }

  /** A one-vector index always answers with that vector and its own inner product. */
  lemma SingleVectorSearch(v: Vector, query: Vector)
    requires |v| == |query|
    ensures BuildIndex([v]).Success? && BuildIndex([v]).value.Some?
    ensures Search(BuildIndex([v]).value.value, query) == Success(Some(Hit(0, Dot(query, v))))
  {
  }
}
