# Image XOR lock, modelled in Dafny

This project models the core of a small Python tool (`main.py`) that
"locks" a folder of photos by XORing every image's pixel bytes with a random
key stream, and unlocks it again with the same key:

- **`xor`**: takes the first `img.size` bytes of the key, reshapes them to the
  image's shape and XORs them position by position with the pixels. A key
  shorter than the image makes the reshape fail; the key is never repeated.
- **`get_key`**: one key per batch, as long as the largest image in it.
  `max` of an empty batch raises.
- **`get_images`**: the batch is every regular file in the directory whose
  suffix is exactly one of `.jpg .jpeg .png .gif .bmp .tiff .webp .raw .nef
  .cr2` (case-sensitive). Each is decoded to a pixel array plus metadata (EXIF).
- **`cypher_images` / `decypher_images`**: the state machine driven by the
  presence of `key.bin`. `cypher` does nothing when `key.bin` exists.
  Otherwise it XORs every image with one fresh key, overwrites each file, and
  then writes `key.bin`. `decypher` does nothing when `key.bin` is absent.
  Otherwise it XORs every image with the stored key and deletes `key.bin`.

Files and modules:

- `wrappers.dfy` (`Wrappers`): `Result` and `Option`.
- `xor.dfy` (`XorTransform`): bytes are `bv8`; a numpy array is
  `NdArray(shape, data)`, with `data` in row-major order. Holds `Xor` and its
  involution and key-prefix lemmas.
- `key.dfy` (`KeyGeneration`): `MaxSize` and `GetKey`. The random source is a
  parameter `draw: nat -> Byte`, and the key is its first `MaxSize` draws.
- `listing.dfy` (`ImageFiles`): the extension list and the suffix rule of
  Python's `PurePath.suffix`. The suffix runs from the last dot, provided that
  dot is neither the first nor the last character. `IsImageName` is proved
  equal to an independent rule: the name ends with a listed extension after
  at least one character.
- `directory.dfy` (`ImageDirectory`): the directory as a class `Folder`.
  - `entries` maps each file name to a decodable `Picture(img, exif)`, an
    `OtherFile` the image library cannot open, or a `SubDirectory`.
  - `keyFile` holds the contents of `key.bin`, or `None` when it is absent.
  - `GetImages`, `Cypher` and `Decypher` are methods.
  - `GetImages`'s loop keeps the invariant that the list names each selected
    file seen so far exactly once.
  - `OverwriteImages` is the overwrite loop that `Cypher` and `Decypher` both
    run. Its invariant is that the images processed so far are XORed and the
    rest are untouched (`ApplyKeyTo`).
  - `CypherThenDecypher` is a client that proves the batch round trip.

Directory iteration order is unspecified in the source (`Path.iterdir`).
`GetImages` therefore picks the next name nondeterministically, and every
contract holds for any order.

Edge cases, as `main.py` behaves:

- `cypher` on a directory with no images does not report a clean "empty
  batch" no-op. `max` raises before anything is written, and the model
  returns `Failed(EmptyBatch)` with nothing changed.
- `decypher` on an empty batch succeeds and deletes `key.bin`.
- `decypher` with a key shorter than some image (an image added after
  cyphering) raises part-way. The images already overwritten stay XORed and
  `key.bin` is kept (`Failed(KeyTooShort)`).

## Model

| member | source | states |
|---|---|---|
| `XorTransform.Xor` | main.py:106-112 | succeeds exactly when the key is at least as long as the image; otherwise fails with the key and image lengths and no output. On success the shape is kept and element i is pixel i XOR key byte i |
| `XorTransform.XorInvolution` | main.py:112 | XORing the result again with the same key gives back the original image, for every key at least as long as the image |
| `XorTransform.XorUsesOnlyKeyPrefix` | main.py:110 | two keys that agree on their first `size` bytes give the same result: key bytes past the image's size have no effect |
| `XorTransform.ShortKeyIsRejected` | main.py:110-111 | a key shorter than the image is never wrapped or repeated; the transform fails |
| `XorTransform.XorExample` | test_main.py:44-48 | the 3x3 example: pixels 0..8 with key 1..9 give 1,3,1,7,1,3,1,15,1 in shape 3x3 |
| `KeyGeneration.MaxSize` | main.py:102 | the result is the size of some image of the non-empty batch and no image is larger |
| `KeyGeneration.GetKey` | main.py:97-103 | fails exactly on an empty batch; otherwise the key's length equals the largest image size, covers every image, and byte j is the j-th random draw (a byte, so in 0..255) |
| `KeyGeneration.KeyCoversBatch` | main.py:102-103 | XOR with the batch key succeeds for every image of the batch |
| `ImageFiles.ExtensionsAreSimple` | main.py:7-8 | every recognised extension is a dot followed by at least one character and no further dot |
| `ImageFiles.EveryExtensionIsSelectable` | main.py:7-8 | every listed extension is one the suffix rule can yield: `photo` followed by any listed extension is selected |
| `ImageFiles.IsImageName` | main.py:88 | a name passes the filter exactly when it ends with one of the listed extensions and has at least one character before it |
| `ImageFiles.Suffix` | main.py:88 | the suffix is empty, or it is a tail of the name of length at least 2, starting with the name's last dot (not its first character) and holding no other dot; it is empty exactly when no such dot exists |
| `ImageFiles.KeyFileIsNotAnImage` | main.py:7-8 | `key.bin` never passes the extension filter, so the key file never joins a batch |
| `ImageFiles.UpperCaseExtensionIsNotAnImage` | main.py:88 | the extension match is case-sensitive: `a.jpg` is selected, `a.JPG` is not |
| `ImageFiles.HiddenFileIsNotAnImage` | main.py:88 | a name such as `.png` has no suffix and is not selected |
| `ImageDirectory.Batch` | main.py:86-88 | the batch holds only names present in the directory, and never `key.bin` |
| `ImageDirectory.XorEntry` | main.py:29-31 | the saved image keeps its metadata, its shape and its size, and stays well formed |
| `ImageDirectory.ApplyKeyTo` | main.py:28-32 | XORing a set of images keeps every file name; entries outside the set are unchanged; those inside stay images with the same metadata and shape |
| `ImageDirectory.ApplyKeyToPreservesBatch` | main.py:84-94 | after a key is applied, a fresh scan selects the same batch; decodability, well-formedness and whether a key covers the batch are unchanged |
| `ImageDirectory.ApplyKeyToInvolution` | main.py:54-58 | applying the same key to the same images twice restores the directory exactly |
| `ImageDirectory.Folder.GetImages` | main.py:84-94 | succeeds exactly when every selected file decodes. The list then names each regular file with a recognised suffix exactly once, with its array and metadata. On failure it names a selected file that does not decode |
| `ImageDirectory.Folder.FileExists` | main.py:64-66 | true exactly for the names present in the directory: its entries, plus `key.bin` when it exists. So every image of the batch exists |
| `ImageDirectory.Folder.OverwriteImages` | main.py:28-33 | it completes exactly when the key covers every image of the batch. It then XORs every batch image with the key and keeps the metadata. Otherwise it names a batch image larger than the key, after XORing some set of images. `key.bin` is not touched |
| `ImageDirectory.Folder.Cypher` | main.py:16-36 | with `key.bin` present, nothing changes (already cyphered). An undecodable image (named) or an empty batch fails before any write; a short key is never reported. Otherwise the new key is as long as the largest image and consists of the random draws. Every batch image is then XORed with it and metadata is kept, other files are untouched, and `key.bin` holds the key |
| `ImageDirectory.Folder.Decypher` | main.py:39-61 | with `key.bin` absent, nothing changes. It succeeds exactly when the batch decodes and the stored key covers it; then every batch image is XORed with the stored key and `key.bin` is deleted. An undecodable image fails before any write. An image larger than the key is reported only for a batch that decodes; the run then stops with only some images XORed and `key.bin` kept |
| `ImageDirectory.CypherThenDecypher` | test_main.py:51-72 | starting without `key.bin`: cypher and then decypher restore every file's pixels and metadata under the same names and leave no `key.bin`. When cypher succeeds, decypher succeeds too. (The body also asserts, from `Cypher`'s contract, that a repeated cypher in between changes nothing; that is not an `ensures`.) |

## Left out

- Image decoding and encoding (PIL, cv2, `np.asarray`, `_getexif`) are not
  modelled. A decodable file is a `Picture` holding its array and an opaque
  metadata map, and saving stores exactly that array and metadata.
- The store is assumed lossless. The model does not capture that
  `decypher_images` saves with the format inferred from the extension while
  `cypher_images` always writes PNG. That would make a round trip on `.jpg`
  files lossy.
- Whether the image library actually writes the metadata map back into the
  file is not modelled. Metadata is carried through unchanged.
- `np.random.randint` is replaced by the parameter `draw`. The claim that an
  encrypted image differs from the original depends on the random key and is
  not stated.
- Real file-system I/O is replaced by the map `entries` and the field
  `keyFile`. Failures to read, write or delete files are not modelled; only
  decoding failures and the failures raised by `max` and `reshape` are.
- A user file or directory literally named `key.bin` is not modelled: the
  name is reserved for `keyFile`.
- `file_exists` is modelled only for names inside the directory
  (`Folder.FileExists`). Paths are the file names within it, not
  `directory + name`.
- The key path is the string `directory + "key.bin"` (main.py:20, main.py:44),
  while the images are scanned in `Path(directory)`. The model assumes the
  directory name ends with a path separator, so `key.bin` lies inside the
  scanned directory. With a name such as `photos`, the source would put the
  key in `photoskey.bin` next to the folder; this is not modelled.
- Progress `print` lines, `main()` and its hard-coded directory are left out.
