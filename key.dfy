/**
 * Key generation (`get_key` in main.py): one key stream per batch, as long as
 * the largest image in it.
 */
module KeyGeneration {
  import opened Wrappers
  import opened XorTransform

  /** The size of the largest array of a non-empty batch (Python's `max`). */
  function MaxSize(images: seq<NdArray>): (m: nat)
    requires images != []
    ensures exists i :: 0 <= i < |images| && Size(images[i]) == m
    ensures forall i :: 0 <= i < |images| ==> Size(images[i]) <= m
  {
    if |images| == 1 then Size(images[0])
    else
      var rest := MaxSize(images[1..]);
      assert forall i :: 1 <= i < |images| ==> images[i] == images[1..][i - 1];
      if Size(images[0]) >= rest then Size(images[0]) else rest
  }

  /** `max` raised on an empty sequence of images. */
  datatype KeyError = MaxOfEmpty

  /**
   * `get_key(images)`: `draw` stands for the random source, `draw(i)` being
   * the i-th byte it yields. The key holds the first `MaxSize(images)` draws.
   */
  function GetKey(images: seq<NdArray>, draw: nat -> Byte): (r: Result<seq<Byte>, KeyError>)
    ensures r.Err? <==> images == []
    ensures r.Ok? ==> exists i :: 0 <= i < |images| && Size(images[i]) == |r.value|
    ensures r.Ok? ==> forall i :: 0 <= i < |images| ==> Size(images[i]) <= |r.value|
    ensures r.Ok? ==> forall j :: 0 <= j < |r.value| ==> r.value[j] == draw(j)
  {
    if images == [] then Err(MaxOfEmpty)
    else Ok(seq(MaxSize(images), j requires 0 <= j => draw(j)))
  }

  /** The batch key serves every image of the batch it was made for. */
  lemma KeyCoversBatch(images: seq<NdArray>, draw: nat -> Byte, i: nat)
    requires images != [] && i < |images| && WellFormed(images[i])
    ensures GetKey(images, draw).Ok?
    ensures Xor(images[i], GetKey(images, draw).value).Ok?
  {
  }
}
