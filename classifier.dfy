/** Which files the batch picks up and where each one goes: the extension
    filter over the pool listing, the image-size read, and the orientation
    rule. */
module Classifier {
  import opened Os

  datatype Size = Size(width: nat, height: nat)

  datatype Orientation = Horizontal | Vertical

  /** What reading an image's header gives: its size, or the text of the
      exception Image.open raised. */
  datatype Decoded = Image(size: Size) | NotAnImage(reason: string)

  /** The rule of the batch: strictly wider than tall is horizontal; a square
      goes to the vertical folder. */
  function Classify(s: Size): (o: Orientation)
    ensures o == Horizontal <==> s.width > s.height
    ensures s.width == s.height ==> o == Vertical
  {
    if s.width > s.height then Horizontal else Vertical
  }

  /** The text of the FileNotFoundError Image.open raises for a missing path. */
  function NotFound(path: Path): string
  {
    "[Errno 2] No such file or directory: '" + path + "'"
  }

  /** Image.open(path).size, with the decoder standing in for PIL: a missing
      file is never an image, a present one is whatever the decoder makes of
      its path and bytes (PIL's own messages name the path). */
  function Open(w: World, path: Path, decode: (Path, Bytes) -> Decoded): Decoded
  {
    if path in w.files then decode(path, w.files[path]) else NotAnImage(NotFound(path))
  }

  /** The suffixes the batch accepts, compared after lower-casing. */
  const Extensions: seq<string> := [".png", ".jpg", ".jpeg", ".gif", ".bmp"]

  function LowerChar(c: char): char
  {
    if 'A' <= c <= 'Z' then (c as int + 32) as char else c
  }

  /** str.lower() on the ASCII letters. */
  function Lower(s: string): string
  {
    seq(|s|, i requires 0 <= i < |s| => LowerChar(s[i]))
  }

  predicate EndsWith(s: string, suffix: string)
  {
    |suffix| <= |s| && s[|s| - |suffix|..] == suffix
  }

  /** f.lower().endswith(('.png', '.jpg', '.jpeg', '.gif', '.bmp')). */
  predicate IsImageName(f: string)
  {
    exists k :: 0 <= k < |Extensions| && EndsWith(Lower(f), Extensions[k])
  }

  /** The image_files comprehension: the listing's image names, in listing
      order. */
  function ImageFiles(names: seq<string>): (r: seq<string>)
    ensures |r| <= |names|
  {
    if names == [] then []
    else (if IsImageName(names[0]) then [names[0]] else []) + ImageFiles(names[1..])
  }

  /** The filter keeps exactly the listed names with an image suffix. */
  lemma {:induction false} ImageFilesMembers(names: seq<string>)
    ensures forall f :: f in ImageFiles(names) <==> f in names && IsImageName(f)
  {
    if names != [] {
      ImageFilesMembers(names[1..]);
      assert names == [names[0]] + names[1..];
    }
  }

  /** The filter keeps listing order: filtering two listings one after the
      other is filtering their concatenation. */
  lemma {:induction false} ImageFilesAppend(a: seq<string>, b: seq<string>)
    ensures ImageFiles(a + b) == ImageFiles(a) + ImageFiles(b)
  {
    if a == [] {
      assert a + b == b;
    } else {
      assert (a + b)[0] == a[0];
      assert (a + b)[1..] == a[1..] + b;
      ImageFilesAppend(a[1..], b);
    }
  }

  /** The extension test ignores case: a name and its lower-case form are
      picked up together. */
  lemma CaseInsensitive(f: string)
    ensures IsImageName(f) <==> IsImageName(Lower(f))
  {
    assert Lower(Lower(f)) == Lower(f);
  }

  /** Upper-case and mixed-case suffixes are accepted. */
  lemma MixedCaseAccepted()
    ensures IsImageName("Photo.JPG")
    ensures IsImageName("scan.Jpeg")
  {
    assert Lower("Photo.JPG") == "photo.jpg";
    assert EndsWith(Lower("Photo.JPG"), Extensions[1]);
    assert Lower("scan.Jpeg") == "scan.jpeg";
    assert EndsWith(Lower("scan.Jpeg"), Extensions[2]);
  }

  /** A name matches only on its final characters: an image suffix followed
      by another suffix, or a bare extension without its dot, is not
      picked up. */
  lemma OtherNamesRejected()
    ensures !IsImageName("photo.png.txt")
    ensures !IsImageName("png")
  {
    var t := Lower("photo.png.txt");
    assert t[|t| - 1] == 't';
    forall k | 0 <= k < |Extensions|
      ensures !EndsWith(t, Extensions[k])
    {
      var e := Extensions[k];
      assert e[|e| - 1] != 't';
    }
    forall k | 0 <= k < |Extensions|
      ensures !EndsWith(Lower("png"), Extensions[k])
    {
      assert |Extensions[k]| > 3;
    }
  }
}
