/**
 * The key-presence state machine of main.py (`cypher_images`,
 * `decypher_images`, `get_images`, `file_exists`) over an abstract
 * directory: a map from file name to entry, plus the contents of `key.bin`.
 */
module ImageDirectory {
  import opened Wrappers
  import opened XorTransform
  import opened KeyGeneration
  import opened ImageFiles

  /** Image metadata, carried through every operation without being read. */
  type Exif = map<string, string>

  /**
   * What a directory entry is: a regular file the image library decodes (its
   * pixel array and metadata), a regular file it cannot decode, or a
   * sub-directory (which `is_file` rejects).
   */
  datatype Entry = Picture(img: NdArray, exif: Exif) | OtherFile | SubDirectory

  /** One element of the list `get_images` returns: path, pixel array, metadata. */
  datatype ImageRecord = ImageRecord(path: string, img: NdArray, exif: Exif)

  /** Why an operation stopped: an image file could not be decoded, the batch was empty, or the key was shorter than an image. */
  datatype Failure = Undecodable(path: string) | EmptyBatch | KeyTooShort(path: string)

  /** What a top-level operation reported. */
  datatype Outcome = Done | AlreadyCyphered | NotCyphered | Failed(failure: Failure)

  /** The reserved name of the key file. */
  const KeyFileName: string := "key.bin"

  /** `is_file()`: anything but a sub-directory. */
  predicate IsRegularFile(e: Entry)
  {
    !e.SubDirectory?
  }

  /** The names `get_images` selects: regular files with a recognised suffix. */
  function Batch(entries: map<string, Entry>): (b: set<string>)
    ensures b <= entries.Keys && KeyFileName !in b
  {
    KeyFileIsNotAnImage();
    set n | n in entries && IsRegularFile(entries[n]) && IsImageName(n)
  }

  /** Every selected file decodes to an image. */
  predicate Decodable(entries: map<string, Entry>)
  {
    forall n :: n in Batch(entries) ==> entries[n].Picture?
  }

  /** Every decoded image's array is well formed. */
  predicate WellFormedEntries(entries: map<string, Entry>)
  {
    forall n :: n in entries && entries[n].Picture? ==> WellFormed(entries[n].img)
  }

  /** The key is at least as long as every image of the batch. */
  predicate KeyCovers(key: seq<Byte>, entries: map<string, Entry>)
  {
    forall n :: n in Batch(entries) && entries[n].Picture? ==> Size(entries[n].img) <= |key|
  }

  /** The names in `done` are images of the batch that `key` can be applied to. */
  predicate CanApply(entries: map<string, Entry>, done: set<string>, key: seq<Byte>)
  {
    WellFormedEntries(entries) &&
    done <= Batch(entries) &&
    forall n :: n in done ==> entries[n].Picture? && Size(entries[n].img) <= |key|
  }

  /** The entry after its pixels are XORed with the key and saved back with the same metadata. */
  function XorEntry(e: Entry, key: seq<Byte>): (r: Entry)
    requires e.Picture? && WellFormed(e.img) && Size(e.img) <= |key|
    ensures r.Picture? && r.exif == e.exif && r.img.shape == e.img.shape
    ensures WellFormed(r.img) && Size(r.img) == Size(e.img)
  {
    Picture(Xor(e.img, key).value, e.exif)
  }

  /** The directory after the images named in `done` have been XORed with `key`. */
  function ApplyKeyTo(entries: map<string, Entry>, done: set<string>, key: seq<Byte>): (r: map<string, Entry>)
    requires CanApply(entries, done, key)
    ensures r.Keys == entries.Keys
    ensures forall n :: n in entries && n !in done ==> r[n] == entries[n]
    ensures forall n :: n in done ==> r[n].Picture? && r[n].exif == entries[n].exif && r[n].img.shape == entries[n].img.shape
  {
    map n | n in entries :: if n in done then XorEntry(entries[n], key) else entries[n]
  }

  /**
   * Applying a key changes no name, no kind of entry, no metadata and no
   * size: the batch, its decodability and the key's coverage are the same
   * afterwards.
   */
  lemma ApplyKeyToPreservesBatch(entries: map<string, Entry>, done: set<string>, key: seq<Byte>, other: seq<Byte>)
    requires CanApply(entries, done, key)
    ensures Batch(ApplyKeyTo(entries, done, key)) == Batch(entries)
    ensures WellFormedEntries(ApplyKeyTo(entries, done, key))
    ensures Decodable(ApplyKeyTo(entries, done, key)) <==> Decodable(entries)
    ensures KeyCovers(other, ApplyKeyTo(entries, done, key)) <==> KeyCovers(other, entries)
    ensures CanApply(ApplyKeyTo(entries, done, key), done, key)
  {
  }

  /** XORing the same images with the same key twice restores the directory. */
  lemma ApplyKeyToInvolution(entries: map<string, Entry>, done: set<string>, key: seq<Byte>)
    requires CanApply(entries, done, key)
    ensures CanApply(ApplyKeyTo(entries, done, key), done, key)
    ensures ApplyKeyTo(ApplyKeyTo(entries, done, key), done, key) == entries
  {
    ApplyKeyToPreservesBatch(entries, done, key, key);
    var once := ApplyKeyTo(entries, done, key);
    var twice := ApplyKeyTo(once, done, key);
    forall n | n in entries
      ensures twice[n] == entries[n]
    {
      if n in done {
        var e := entries[n];
        XorInvolution(e.img, key);
        assert once[n] == XorEntry(e, key);
        assert twice[n] == XorEntry(once[n], key);
      }
    }
  }

  /** Extending the processed set by one image updates exactly that entry. */
  lemma ApplyKeyToStep(entries: map<string, Entry>, done: set<string>, key: seq<Byte>, p: string)
    requires CanApply(entries, done + {p}, key) && p !in done
    ensures CanApply(entries, done, key)
    ensures ApplyKeyTo(entries, done + {p}, key)
         == ApplyKeyTo(entries, done, key)[p := XorEntry(entries[p], key)]
  {
  }

  /** The set of paths a list of records names. */
  function Paths(records: seq<ImageRecord>): set<string>
  {
    set i | 0 <= i < |records| :: records[i].path
  }

  /** No path occurs twice in the list. */
  ghost predicate Distinct(records: seq<ImageRecord>)
  {
    forall i, j :: 0 <= i < j < |records| ==> records[i].path != records[j].path
  }

  /** Each record holds the array and metadata its file decodes to. */
  ghost predicate Faithful(records: seq<ImageRecord>, entries: map<string, Entry>)
  {
    forall i :: 0 <= i < |records| ==>
      records[i].path in entries && entries[records[i].path] == Picture(records[i].img, records[i].exif)
  }

  /**
   * `records` lists the batch of `entries`: each selected file once, with the
   * array and metadata it decodes to.
   */
  ghost predicate Lists(records: seq<ImageRecord>, entries: map<string, Entry>)
  {
    Distinct(records) && Paths(records) == Batch(entries) && Faithful(records, entries)
  }

  /** The pixel arrays of a list of records (`[image for _, image, _ in images_data]`). */
  function Arrays(records: seq<ImageRecord>): seq<NdArray>
  {
    seq(|records|, i requires 0 <= i < |records| => records[i].img)
  }

  /** Taking one more record of a list adds exactly its path. */
  lemma PathsOfLongerPrefix(records: seq<ImageRecord>, i: nat)
    requires i < |records|
    ensures Paths(records[..i + 1]) == Paths(records[..i]) + {records[i].path}
  {
  }

  /** A list of every selected file, each decoded to an image, shows the batch is decodable. */
  lemma ListedBatchIsDecodable(records: seq<ImageRecord>, entries: map<string, Entry>)
    requires Paths(records) == Batch(entries) && Faithful(records, entries)
    ensures Decodable(entries)
  {
  }

  /** A key at least as long as every listed array covers the whole batch. */
  lemma ListedKeyCovers(records: seq<ImageRecord>, entries: map<string, Entry>, key: seq<Byte>)
    requires Lists(records, entries) && WellFormedEntries(entries)
    requires forall i :: 0 <= i < |records| ==> Size(records[i].img) <= |key|
    ensures Decodable(entries) && KeyCovers(key, entries)
    ensures CanApply(entries, Batch(entries), key)
  {
  }

  /**
   * One turn of the cypher or decypher loop: overwriting the i-th listed
   * image with its XOR extends the processed prefix by that image.
   */
  lemma LoopStep(records: seq<ImageRecord>, entries: map<string, Entry>, i: nat, key: seq<Byte>)
    requires Lists(records, entries) && i < |records|
    requires CanApply(entries, Paths(records[..i]), key)
    requires Size(records[i].img) <= |key|
    ensures WellFormed(records[i].img)
    ensures CanApply(entries, Paths(records[..i + 1]), key)
    ensures ApplyKeyTo(entries, Paths(records[..i + 1]), key)
         == ApplyKeyTo(entries, Paths(records[..i]), key)[records[i].path :=
              Picture(Xor(records[i].img, key).value, records[i].exif)]
  {
    var p := records[i].path;
    PathsOfLongerPrefix(records, i);
    assert p in Paths(records);
    forall n | n in Paths(records[..i])
      ensures n != p
    {
      var j :| 0 <= j < i && records[..i][j].path == n;
      assert records[..i][j] == records[j];
    }
    ApplyKeyToStep(entries, Paths(records[..i]), key, p);
  }

  /** A turn of the `get_images` walk that passes over a name outside the batch leaves the list as it is. */
  lemma ListingSkips(records: seq<ImageRecord>, entries: map<string, Entry>, remaining: set<string>, name: string)
    requires name in remaining && name !in Batch(entries)
    requires Paths(records) == Batch(entries) - remaining
    ensures Paths(records) == Batch(entries) - (remaining - {name})
  {
  }

  /**
   * A turn of the `get_images` walk that takes a selected, decodable name
   * appends its record, and the list still names each file it has seen once.
   */
  lemma ListingTakes(records: seq<ImageRecord>, entries: map<string, Entry>, remaining: set<string>, name: string)
    requires name in remaining && name in Batch(entries) && entries[name].Picture?
    requires Distinct(records) && Faithful(records, entries)
    requires Paths(records) == Batch(entries) - remaining
    ensures var longer := records + [ImageRecord(name, entries[name].img, entries[name].exif)];
      Distinct(longer) && Faithful(longer, entries) &&
      Paths(longer) == Batch(entries) - (remaining - {name})
  {
    var longer := records + [ImageRecord(name, entries[name].img, entries[name].exif)];
    assert longer[..|records|] == records && longer[..|records| + 1] == longer;
    PathsOfLongerPrefix(longer, |records|);
    forall i | 0 <= i < |records|
      ensures records[i].path != name
    {
      assert records[i].path in Paths(records);
    }
  }

  /** A directory of images; `keyFile` is the content of `key.bin`, `None` when there is none. */
  class Folder {
    var entries: map<string, Entry>
    var keyFile: Option<seq<Byte>>

    /** `key.bin` is held by `keyFile` only, and every decoded array is well formed. */
    ghost predicate Valid()
      reads this`entries
    {
      KeyFileName !in entries && WellFormedEntries(entries)
    }

    constructor (entries: map<string, Entry>, keyFile: Option<seq<Byte>>)
      requires KeyFileName !in entries && WellFormedEntries(entries)
      ensures Valid()
      ensures this.entries == entries && this.keyFile == keyFile
    {
      this.entries := entries;
      this.keyFile := keyFile;
    }

    /** Every name present in the directory, `key.bin` included when it exists. */
    function Names(): set<string>
      reads this
    {
      entries.Keys + (if keyFile.Some? then {KeyFileName} else {})
    }

    /**
     * `file_exists(path)` for a name inside this directory: true exactly for
     * the names present, and so for every image of the batch.
     */
    function FileExists(name: string): (r: bool)
      requires Valid()
      reads this
      ensures r <==> name in Names()
      ensures name in Batch(entries) ==> r
    {
      if name == KeyFileName then keyFile.Some? else name in entries
    }

    /**
     * `get_images`: walk the entries in an unspecified order and decode each
     * regular file whose suffix is recognised; decoding a file that is not an
     * image fails.
     */
    method GetImages() returns (r: Result<seq<ImageRecord>, Failure>)
      requires Valid()
      ensures r.Ok? <==> Decodable(entries)
      ensures r.Ok? ==> Lists(r.value, entries)
      ensures r.Err? ==> r.error.Undecodable? && r.error.path in Batch(entries) && entries[r.error.path].OtherFile?
    {
      var remaining := entries.Keys;
      var records: seq<ImageRecord> := [];
      while remaining != {}
        invariant remaining <= entries.Keys
        invariant Distinct(records) && Faithful(records, entries)
        invariant Paths(records) == Batch(entries) - remaining
        decreases remaining
      {
        var name :| name in remaining;
        var e := entries[name];
        if IsRegularFile(e) && IsImageName(name) {
          if !e.Picture? {
            return Err(Undecodable(name));
          }
          ListingTakes(records, entries, remaining, name);
          records := records + [ImageRecord(name, e.img, e.exif)];
        } else {
          ListingSkips(records, entries, remaining, name);
        }
        remaining := remaining - {name};
      }
      ListedBatchIsDecodable(records, entries);
      return Ok(records);
    }

    /**
     * The loop `cypher_images` and `decypher_images` share: XOR each listed
     * image with the key and overwrite its file with the result and the same
     * metadata, in list order. An image the key cannot cover stops the loop
     * (the reshape raises), naming that image; the images before it stay
     * overwritten.
     */
    method OverwriteImages(images: seq<ImageRecord>, key: seq<Byte>) returns (tooShort: Option<string>)
      requires Valid() && Lists(images, entries)
      modifies this
      ensures Valid() && keyFile == old(keyFile)
      ensures tooShort.None? <==> KeyCovers(key, old(entries))
      ensures tooShort.None? ==>
        CanApply(old(entries), Batch(old(entries)), key) &&
        entries == ApplyKeyTo(old(entries), Batch(old(entries)), key)
      ensures tooShort.Some? ==>
        tooShort.value in Batch(old(entries)) && old(entries)[tooShort.value].Picture? &&
        |key| < Size(old(entries)[tooShort.value].img) &&
        exists done :: CanApply(old(entries), done, key) && entries == ApplyKeyTo(old(entries), done, key)
    {
      ghost var original := entries;
      ListedBatchIsDecodable(images, original);
      assert images[..0] == [];
      for i := 0 to |images|
        invariant keyFile == old(keyFile)
        invariant CanApply(original, Paths(images[..i]), key)
        invariant entries == ApplyKeyTo(original, Paths(images[..i]), key)
      {
        var record := images[i];
        var pixels := Xor(record.img, key);
        if pixels.Err? {
          assert record.path in Paths(images);
          ApplyKeyToPreservesBatch(original, Paths(images[..i]), key, key);
          return Some(record.path);
        }
        LoopStep(images, original, i, key);
        entries := entries[record.path := Picture(pixels.value, record.exif)];
      }
      assert images[..|images|] == images;
      assert Paths(images) == Batch(original);
      ApplyKeyToPreservesBatch(original, Batch(original), key, key);
      return None;
    }

    /**
     * `cypher_images`: unless `key.bin` exists, XOR every image of the batch
     * with one fresh key as long as the largest image, overwrite each image
     * in place, then write the key to `key.bin`.
     */
    method Cypher(draw: nat -> Byte) returns (outcome: Outcome)
      requires Valid()
      modifies this
      ensures Valid()
      ensures outcome == AlreadyCyphered <==> old(keyFile).Some?
      ensures outcome.Done? || outcome == AlreadyCyphered || outcome.Failed?
      ensures outcome.Failed? ==> !outcome.failure.KeyTooShort?
      ensures !outcome.Done? ==> entries == old(entries) && keyFile == old(keyFile)
      ensures outcome == Failed(EmptyBatch) <==> old(keyFile).None? && Batch(old(entries)) == {}
      ensures outcome.Failed? && outcome.failure.Undecodable? ==>
        outcome.failure.path in Batch(old(entries)) && old(entries)[outcome.failure.path].OtherFile?
      ensures outcome.Done? <==> old(keyFile).None? && Batch(old(entries)) != {} && Decodable(old(entries))
      ensures outcome.Done? ==> keyFile.Some? && KeyCovers(keyFile.value, old(entries))
      ensures outcome.Done? ==> exists n :: n in Batch(old(entries)) && Size(old(entries)[n].img) == |keyFile.value|
      ensures outcome.Done? ==> forall j :: 0 <= j < |keyFile.value| ==> keyFile.value[j] == draw(j)
      ensures outcome.Done? ==> CanApply(old(entries), Batch(old(entries)), keyFile.value)
      ensures outcome.Done? ==> entries == ApplyKeyTo(old(entries), Batch(old(entries)), keyFile.value)
    {
      if FileExists(KeyFileName) {
        return AlreadyCyphered;
      }
      var loaded := GetImages();
      if loaded.Err? {
        return Failed(loaded.error);
      }
      var images := loaded.value;
      var generated := GetKey(Arrays(images), draw);
      if generated.Err? {
        assert Batch(entries) == {} by { assert Paths(images) == {}; }
        return Failed(EmptyBatch);
      }
      var key := generated.value;
      assert forall i :: 0 <= i < |images| ==> Arrays(images)[i] == images[i].img;
      ListedKeyCovers(images, entries, key);
      var tooShort := OverwriteImages(images, key);
      assert tooShort.None?;
      keyFile := Some(key);
      var i :| 0 <= i < |images| && Size(Arrays(images)[i]) == |key|;
      assert images[i].path in Paths(images);
      return Done;
    }

    /**
     * `decypher_images`: if `key.bin` exists, XOR every image of the batch
     * with the stored key, overwriting each in place, then delete `key.bin`.
     * An image larger than the key stops the run part-way, with the images
     * already overwritten staying so and `key.bin` kept.
     */
    method Decypher() returns (outcome: Outcome)
      requires Valid()
      modifies this
      ensures Valid()
      ensures outcome == NotCyphered <==> old(keyFile).None?
      ensures outcome.Done? || outcome == NotCyphered || (outcome.Failed? && !outcome.failure.EmptyBatch?)
      ensures outcome == NotCyphered ==> entries == old(entries) && keyFile == old(keyFile)
      ensures outcome.Failed? && outcome.failure.Undecodable? ==>
        outcome.failure.path in Batch(old(entries)) && old(entries)[outcome.failure.path].OtherFile? &&
        entries == old(entries) && keyFile == old(keyFile)
      ensures outcome.Failed? && outcome.failure.KeyTooShort? ==>
        keyFile == old(keyFile) && old(keyFile).Some? && Decodable(old(entries)) &&
        outcome.failure.path in Batch(old(entries)) && old(entries)[outcome.failure.path].Picture? &&
        |old(keyFile).value| < Size(old(entries)[outcome.failure.path].img) &&
        exists done :: CanApply(old(entries), done, old(keyFile).value) &&
          entries == ApplyKeyTo(old(entries), done, old(keyFile).value)
      ensures outcome.Done? <==>
        old(keyFile).Some? && Decodable(old(entries)) && KeyCovers(old(keyFile).value, old(entries))
      ensures outcome.Done? ==> keyFile.None? && CanApply(old(entries), Batch(old(entries)), old(keyFile).value)
      ensures outcome.Done? ==> entries == ApplyKeyTo(old(entries), Batch(old(entries)), old(keyFile).value)
    {
      if !FileExists(KeyFileName) {
        return NotCyphered;
      }
      var loaded := GetImages();
      if loaded.Err? {
        return Failed(loaded.error);
      }
      var images := loaded.value;
      var key := keyFile.value;
      var tooShort := OverwriteImages(images, key);
      if tooShort.Some? {
        return Failed(KeyTooShort(tooShort.value));
      }
      keyFile := None;
      return Done;
    }
  }

  /**
   * Cyphering a directory without a key and then decyphering it gives back
   * every image's pixels and metadata under the same names, and leaves no
   * `key.bin`. The `Cypher` repeated in between is refused and changes nothing.
   */
  method CypherThenDecypher(folder: Folder, draw: nat -> Byte) returns (first: Outcome, second: Outcome)
    requires folder.Valid() && folder.keyFile.None?
    modifies folder
    ensures folder.Valid()
    ensures folder.entries == old(folder.entries) && folder.keyFile.None?
    ensures first.Done? <==> Batch(old(folder.entries)) != {} && Decodable(old(folder.entries))
    ensures first.Done? ==> second.Done?
    ensures !first.Done? ==> second == NotCyphered
  {
    first := folder.Cypher(draw);
    if first.Done? {
      ghost var cyphered := folder.entries;
      ghost var key := folder.keyFile.value;
      ApplyKeyToPreservesBatch(old(folder.entries), Batch(old(folder.entries)), key, key);
      ApplyKeyToInvolution(old(folder.entries), Batch(old(folder.entries)), key);
      var again := folder.Cypher(draw);
      assert again == AlreadyCyphered && folder.entries == cyphered;
    }
    second := folder.Decypher();
  }
}
