/** Embedding vectors, the two-dimensional arrays that hold them, squared
    Euclidean distance, and the sentence-embedding model as an opaque
    function from text to a vector of fixed width. Components are integers
    here; the source stores float32 values. */
module Vectors {

  type Vector = seq<int>

  /** Every row has the width of the first: the shape of a 2-D numpy array. */
  predicate Rectangular(m: seq<Vector>) {
    forall i :: 0 <= i < |m| ==> |m[i]| == |m[0]|
  }

  /** A 2-D array of embeddings, one row per FAQ entry. */
  type Matrix = m: seq<Vector> | Rectangular(m)

  /** `shape[1]` of a non-empty array. */
  function Width(m: Matrix): nat {
    if |m| == 0 then 0 else |m[0]|
  }

  /** `array.size == 0`: no rows, or rows of width zero. */
  predicate IsEmptyArray(m: Matrix) {
    |m| == 0 || Width(m) == 0
  }

  lemma SquareFacts(x: int)
    ensures x * x >= 0
    ensures x * x == 0 <==> x == 0
  {
    if x < 0 {
      assert x * x == (-x) * (-x);
    }
  }

  /** Squared L2 distance, the quantity `IndexFlatL2` ranks by and returns. */
  function SqDist(a: Vector, b: Vector): (dist: int)
    requires |a| == |b|
    ensures dist >= 0
    ensures dist == 0 <==> a == b
  {
    if |a| == 0 then 0
    else
      var x := a[0] - b[0];
      SquareFacts(x);
      assert a == [a[0]] + a[1..] && b == [b[0]] + b[1..];
      x * x + SqDist(a[1..], b[1..])
  }

  /** The model's `encode` on one text, of the model's fixed width. */
  datatype Encoder = Encoder(dim: nat, embed: string -> Vector)

  /** A sentence-transformer model: deterministic, and every vector it
      produces has the same width `dim`. */
  type SentenceModel = e: Encoder | forall t :: |e.embed(t)| == e.dim
    witness Encoder(0, (t: string) => [])

  /** `model.encode(texts)`: one vector per text, in order, stacked into an
      array whose width is the model's. */
  function EncodeAll(model: SentenceModel, texts: seq<string>): (m: Matrix)
    ensures |m| == |texts|
    ensures forall i :: 0 <= i < |m| ==> m[i] == model.embed(texts[i])
    ensures |m| > 0 ==> Width(m) == model.dim
  {
    seq(|texts|, i requires 0 <= i < |texts| => model.embed(texts[i]))
  }
}
