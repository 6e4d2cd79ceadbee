/** FAISS `IndexFlatL2` as `_build_faiss_index` and `get_response` use it:
    vectors are appended in order, so label `i` is the `i`-th added row, and
    a top-1 search is an exhaustive scan for the smallest squared L2
    distance. On ties the lowest label wins, as in the library's single-best
    result handler, which replaces its candidate only on a strictly smaller
    distance. */
module FlatIndex {
  import opened Vectors

  /** Every vector has width `d`. */
  predicate AllWidth(vs: seq<Vector>, d: nat) {
    forall i :: 0 <= i < |vs| ==> |vs[i]| == d
  }

  /** `k` is the first position of a vector closest to `q`. */
  ghost predicate IsFirstNearest(vs: seq<Vector>, q: Vector, k: int)
    requires AllWidth(vs, |q|)
  {
    && 0 <= k < |vs|
    && (forall j :: 0 <= j < |vs| ==> SqDist(q, vs[k]) <= SqDist(q, vs[j]))
    && (forall j :: 0 <= j < k ==> SqDist(q, vs[k]) < SqDist(q, vs[j]))
  }

  /** The label a top-1 search returns on a non-empty index. */
  function Nearest(vs: seq<Vector>, q: Vector): (k: nat)
    requires |vs| > 0 && AllWidth(vs, |q|)
    ensures IsFirstNearest(vs, q, k)
  {
    if |vs| == 1 then 0
    else
      var init := vs[..|vs| - 1];
      assert forall j :: 0 <= j < |init| ==> init[j] == vs[j];
      var k := Nearest(init, q);
      if SqDist(q, vs[|vs| - 1]) < SqDist(q, vs[k]) then |vs| - 1 else k
  }

  /** At most one position is the first nearest one. */
  lemma FirstNearestIsUnique(vs: seq<Vector>, q: Vector, k1: int, k2: int)
    requires AllWidth(vs, |q|)
    requires IsFirstNearest(vs, q, k1) && IsFirstNearest(vs, q, k2)
    ensures k1 == k2
  {
    var d1, d2 := SqDist(q, vs[k1]), SqDist(q, vs[k2]);
    assert d1 == d2;
  }

  /** Searching with a stored vector finds it at distance zero: the label
      returned holds an identical vector and is no later than the one
      searched with (an earlier duplicate wins). */
  lemma SelfRetrieval(vs: seq<Vector>, i: nat)
    requires i < |vs| && AllWidth(vs, |vs[i]|)
    ensures SqDist(vs[i], vs[Nearest(vs, vs[i])]) == 0
    ensures vs[Nearest(vs, vs[i])] == vs[i]
    ensures Nearest(vs, vs[i]) <= i
  {
    var q := vs[i];
    var k := Nearest(vs, q);
    assert SqDist(q, vs[i]) == 0;
    assert SqDist(q, vs[k]) <= SqDist(q, vs[i]);
  }

  datatype SearchOutcome =
    | DimensionMismatch               // the wrapper's assertion on the query width fails
    | NoNeighbour                     // empty index: row -1
    | Neighbour(distance: int, row: nat)

  /** What `index.search(q, k=1)` returns for an index of width `d` holding `vs`. */
  function SearchResult(d: nat, vs: seq<Vector>, q: Vector): (o: SearchOutcome)
    requires AllWidth(vs, d)
    ensures o.DimensionMismatch? <==> |q| != d
    ensures o.NoNeighbour? <==> |q| == d && vs == []
    ensures o.Neighbour? ==> IsFirstNearest(vs, q, o.row) && o.distance == SqDist(q, vs[o.row])
  {
    if |q| != d then DimensionMismatch
    else if vs == [] then NoNeighbour
    else
      var k := Nearest(vs, q);
      Neighbour(SqDist(q, vs[k]), k)
  }

  class FlatL2Index {
    /** The index dimension fixed at construction. */
    const d: nat
    /** The stored vectors; position is the label. */
    var vectors: seq<Vector>

    ghost predicate Valid()
      reads this
    {
      AllWidth(vectors, d)
    }

    /** `faiss.IndexFlatL2(d)`: an empty index of width `d`. */
    constructor (d: nat)
      ensures this.d == d && vectors == [] && Valid()
    {
      this.d := d;
      vectors := [];
    }

    /** `ntotal`. */
    function NTotal(): nat
      reads this
    {
      |vectors|
    }

    /** `index.add(xs)`: append the rows in order; the wrapper asserts their width. */
    method Add(xs: seq<Vector>)
      requires Valid() && AllWidth(xs, d)
      modifies this
      ensures Valid()
      ensures vectors == old(vectors) + xs
    {
      vectors := vectors + xs;
    }

    /** `index.search(q, k=1)`: exhaustive scan keeping the first strictly
        closer vector. */
    method Search(q: Vector) returns (o: SearchOutcome)
      requires Valid()
      ensures o == SearchResult(d, vectors, q)
    {
      if |q| != d {
        return DimensionMismatch;
      }
      if |vectors| == 0 {
        return NoNeighbour;
      }
      var best := 0;
      var bestDist := SqDist(q, vectors[0]);
      var i := 1;
      while i < |vectors|
        invariant 1 <= i <= |vectors|
        invariant best == Nearest(vectors[..i], q)
        invariant bestDist == SqDist(q, vectors[best])
      {
        var dist := SqDist(q, vectors[i]);
        assert vectors[..i + 1][..i] == vectors[..i];
        assert vectors[..i + 1][i] == vectors[i];
        if dist < bestDist {
          best, bestDist := i, dist;
        }
        i := i + 1;
      }
      assert vectors[..i] == vectors;
      o := Neighbour(bestDist, best);
    }
  }
}
