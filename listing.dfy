/**
 * Which directory entries are images (the filter of `get_images` in
 * main.py): a name is selected when its suffix is exactly one of the
 * recognised extensions.
 */
module ImageFiles {

  /** The recognised extensions, compared case-sensitively. */
  const ImageExtensions: seq<string> :=
    [".jpg", ".jpeg", ".png", ".gif", ".bmp", ".tiff", ".webp", ".raw", ".nef", ".cr2"]

  /** The index of the last '.' in `s`, or -1 when there is none (Python's `rfind`). */
  function LastDot(s: string): (i: int)
    ensures -1 <= i < |s|
    ensures i >= 0 ==> s[i] == '.'
    ensures forall j :: i < j < |s| ==> s[j] != '.'
  {
    if s == [] then -1
    else if s[|s| - 1] == '.' then |s| - 1
    else LastDot(s[..|s| - 1])
  }

  /**
   * A path's suffix: from its last dot to the end, provided that dot is
   * neither the first nor the last character; otherwise empty.
   */
  function Suffix(name: string): (r: string)
    ensures r != [] ==> 2 <= |r| < |name| && r == name[|name| - |r|..]
    ensures r != [] ==> r[0] == '.' && forall j :: 1 <= j < |r| ==> r[j] != '.'
    ensures r == [] <==> !(exists i :: 0 < i < |name| - 1 && name[i] == '.' && forall j :: i < j < |name| ==> name[j] != '.')
  {
    var i := LastDot(name);
    if 0 < i < |name| - 1 then name[i..] else ""
  }

  /** Every recognised extension is a dot followed by at least one character and no further dot. */
  lemma ExtensionsAreSimple()
    ensures forall e :: e in ImageExtensions ==>
      |e| >= 2 && e[0] == '.' && forall j :: 1 <= j < |e| ==> e[j] != '.'
  {
  }

  /**
   * `file.suffix in IMAGE_EXTENSIONS`: the name ends with a recognised
   * extension and has at least one character before it.
   */
  function IsImageName(name: string): (r: bool)
    ensures r <==> exists e :: e in ImageExtensions && |e| < |name| && name[|name| - |e|..] == e
  {
    ImageNameByEnding(name);
    Suffix(name) in ImageExtensions
  }

  /** The suffix is a recognised extension exactly when the name ends with one, after at least one character. */
  lemma ImageNameByEnding(name: string)
    ensures Suffix(name) in ImageExtensions <==>
      exists e :: e in ImageExtensions && |e| < |name| && name[|name| - |e|..] == e
  {
    if e :| e in ImageExtensions && |e| < |name| && name[|name| - |e|..] == e {
      ExtensionsAreSimple();
      SuffixOfEnding(name, e);
    }
  }

  /** A name ending, after at least one character, in a dot followed by dot-free text has exactly that text as suffix. */
  lemma SuffixOfEnding(name: string, e: string)
    requires |e| >= 2 && e[0] == '.' && forall j :: 1 <= j < |e| ==> e[j] != '.'
    requires |e| < |name| && name[|name| - |e|..] == e
    ensures Suffix(name) == e
  {
    var i := |name| - |e|;
    assert name[i] == e[0];
    forall j | i < j < |name|
      ensures name[j] != '.'
    {
      assert name[j] == name[i..][j - i] == e[j - i];
    }
    var r := Suffix(name);
    assert r != [];
    assert name[|name| - |r|] == r[0];
    assert |name| - |r| == i;
  }

  /** Every listed extension is one that the suffix rule can yield, so none of them is dead. */
  lemma EveryExtensionIsSelectable()
    ensures forall e :: e in ImageExtensions ==> IsImageName("photo" + e)
  {
    forall e | e in ImageExtensions
      ensures IsImageName("photo" + e)
    {
      var name := "photo" + e;
      assert name[|name| - |e|..] == e;
    }
  }

  /** The key file is never mistaken for an image, so it never joins a batch. */
  lemma KeyFileIsNotAnImage()
    ensures !IsImageName("key.bin")
  {
  }

  /** The match is case-sensitive: ".JPG" is not ".jpg". */
  lemma UpperCaseExtensionIsNotAnImage()
    ensures IsImageName("a.jpg") && !IsImageName("a.JPG")
  {
    assert LastDot("a.jpg") == 1 by {
      assert "a.jpg"[..4] == "a.jp";
      assert "a.jp"[..3] == "a.j";
      assert "a.j"[..2] == "a.";
    }
    assert Suffix("a.jpg") == ".jpg" by { assert "a.jpg"[1..] == ".jpg"; }
    assert LastDot("a.JPG") == 1 by {
      assert "a.JPG"[..4] == "a.JP";
      assert "a.JP"[..3] == "a.J";
      assert "a.J"[..2] == "a.";
    }
    assert Suffix("a.JPG") == ".JPG" by { assert "a.JPG"[1..] == ".JPG"; }
  }

  /** A hidden file such as ".png" has no suffix and is not selected. */
  lemma HiddenFileIsNotAnImage()
    ensures !IsImageName(".png")
  {
  }
}
