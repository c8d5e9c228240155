/**
 * The XOR transform of main.py: an image array is combined, element by
 * element, with the first `size` bytes of a key stream.
 */
module XorTransform {
  import opened Wrappers

  /** An unsigned 8-bit value: one pixel channel, or one byte of the key stream. */
  type Byte = bv8

  /**
   * A numpy `uint8` array: its shape and its elements flattened in row-major
   * order. XOR is position-wise, so the flat order is all that matters.
   */
  datatype NdArray = NdArray(shape: seq<nat>, data: seq<Byte>)

  /** The number of elements an array of the given shape holds. */
  function Product(shape: seq<nat>): nat
  {
    if shape == [] then 1 else shape[0] * Product(shape[1..])
  }

  /** The invariant of every numpy array: as many elements as its shape says. */
  predicate WellFormed(a: NdArray)
  {
    |a.data| == Product(a.shape)
  }

  /** numpy's `size`: the number of elements. */
  function Size(a: NdArray): nat
  {
    |a.data|
  }

  /** `reshape` refused the truncated key: it had `keyLength` elements, the image `imageSize`. */
  datatype XorError = ReshapeFailed(keyLength: nat, imageSize: nat)

  /** Element-wise XOR of a buffer with a mask at least as long as it. */
  function XorBytes(data: seq<Byte>, mask: seq<Byte>): (r: seq<Byte>)
    requires |data| <= |mask|
    ensures |r| == |data|
  {
    seq(|data|, i requires 0 <= i < |data| => data[i] ^ mask[i])
  }

  /**
   * `xor(img, key)`: truncate the key to the image's size, reshape it to the
   * image's shape (which fails when the key was shorter than the image) and
   * XOR the two arrays.
   */
  function Xor(img: NdArray, key: seq<Byte>): (r: Result<NdArray, XorError>)
    requires WellFormed(img)
    ensures r.Ok? <==> Size(img) <= |key|
    ensures r.Err? ==> r.error == ReshapeFailed(|key|, Size(img))
    ensures r.Ok? ==> r.value.shape == img.shape && WellFormed(r.value)
    ensures r.Ok? ==> forall i :: 0 <= i < Size(img) ==> r.value.data[i] == img.data[i] ^ key[i]
  {
    var truncated := if |key| <= Size(img) then key else key[..Size(img)];
    if |truncated| != Product(img.shape) then
      Err(ReshapeFailed(|truncated|, Size(img)))
    else
      Ok(NdArray(img.shape, XorBytes(img.data, truncated)))
  }

  /** Applying the same key twice gives back the original image. */
  lemma XorInvolution(img: NdArray, key: seq<Byte>)
    requires WellFormed(img) && Size(img) <= |key|
    ensures Xor(img, key).Ok?
    ensures Xor(Xor(img, key).value, key) == Ok(img)
  {
    var once := Xor(img, key).value;
    var twice := Xor(once, key).value;
    forall i | 0 <= i < |img.data|
      ensures twice.data[i] == img.data[i]
    {
      XorSelfInverse(img.data[i], key[i]);
    }
    assert twice.data == img.data;
  }

  /** XOR with the same byte twice is the identity on one byte. */
  lemma XorSelfInverse(b: Byte, k: Byte)
    ensures (b ^ k) ^ k == b
  {
  }

  /**
   * Only the first `Size(img)` key bytes matter: two keys that agree on that
   * prefix give the same result, whatever follows it.
   */
  lemma XorUsesOnlyKeyPrefix(img: NdArray, key1: seq<Byte>, key2: seq<Byte>)
    requires WellFormed(img)
    requires Size(img) <= |key1| && Size(img) <= |key2|
    requires key1[..Size(img)] == key2[..Size(img)]
    ensures Xor(img, key1) == Xor(img, key2)
  {
    var r1, r2 := Xor(img, key1).value, Xor(img, key2).value;
    forall i | 0 <= i < Size(img)
      ensures r1.data[i] == r2.data[i]
    {
      assert key1[i] == key1[..Size(img)][i];
      assert key2[i] == key2[..Size(img)][i];
    }
    assert r1.data == r2.data;
  }

  /** The key is never wrapped or repeated: a key shorter than the image yields no output. */
  lemma ShortKeyIsRejected(img: NdArray, key: seq<Byte>)
    requires WellFormed(img) && |key| < Size(img)
    ensures Xor(img, key) == Err(ReshapeFailed(|key|, Size(img)))
  {
  }

  /** The 3x3 example: pixels 0..8 XOR key bytes 1..9. */
  lemma XorExample()
    ensures Xor(NdArray([3, 3], [0, 1, 2, 3, 4, 5, 6, 7, 8]), [1, 2, 3, 4, 5, 6, 7, 8, 9])
         == Ok(NdArray([3, 3], [1, 3, 1, 7, 1, 3, 1, 15, 1]))
  {
    var img := NdArray([3, 3], [0, 1, 2, 3, 4, 5, 6, 7, 8]);
    assert Product([3, 3]) == 9 by {
      assert Product([3]) == 3 by { assert [3][1..] == []; }
      assert [3, 3][1..] == [3];
    }
    var r := Xor(img, [1, 2, 3, 4, 5, 6, 7, 8, 9]).value;
    assert r.data == [1, 3, 1, 7, 1, 3, 1, 15, 1];
  }
}
