/** The media-file helpers that phi-4-multimodal/utils.py and smol-vlm-2/utils.py both
    define, with the same extension lists: extension lookup, classification, and the
    size rule of `encode_image`. */
module MediaFiles {
  import opened Strings

  const ImageExtensions: seq<string> := [".jpg", ".jpeg", ".png", ".bmp", ".tiff", ".webp"]
  const AudioExtensions: seq<string> := [".wav", ".mp3", ".ogg", ".flac", ".m4a", ".aac"]
  const VideoExtensions: seq<string> := [".mp4", ".mkv", ".mov", ".avi", ".flv", ".wmv", ".webm", ".m4v"]

  /** A path starting with "http" is kept; any other goes through `os.path.abspath`,
      which is a parameter here. */
  function AbsolutePath(filePath: string, absPath: string -> string): string {
    if StartsWith(filePath, "http") then filePath else absPath(filePath)
  }

  /** An `image_url` is either a string or an object with a `url`. */
  datatype ImageUrl = UrlString(s: string) | UrlObject(url: string)

  function UrlOf(u: ImageUrl): string {
    match u
    case UrlString(s) => s
    case UrlObject(url) => url
  }

  /** `s.rfind(c)`: the last index holding `c`, or -1. */
  function LastIndex(s: string, c: char): (r: int)
    ensures -1 <= r < |s|
    ensures r >= 0 ==> s[r] == c
    ensures forall k :: r < k < |s| ==> s[k] != c
    decreases |s|
  {
    if s == [] then -1
    else if s[|s| - 1] == c then |s| - 1
    else LastIndex(s[..|s| - 1], c)
  }

  /** `os.path.splitext(p)[1]` for POSIX paths: from the last dot of the last path
      component, unless that component holds only dots before it. */
  function SplitExt(p: string): (ext: string)
    ensures |ext| <= |p| && (ext == "" || (ext[0] == '.' && ext == p[|p| - |ext|..]))
    ensures forall k :: 0 < k < |ext| ==> ext[k] != '.' && ext[k] != '/'
  {
    var sepIndex := LastIndex(p, '/');
    var dotIndex := LastIndex(p, '.');
    if dotIndex > sepIndex && exists k | sepIndex + 1 <= k < dotIndex :: p[k] != '.' then
      assert forall k :: 0 < k < |p[dotIndex..]| ==> p[dotIndex..][k] == p[dotIndex + k];
      p[dotIndex..]
    else ""
  }

  /** `get_file_extension`: the extension, lower-cased. */
  function GetFileExtension(filename: string): (r: string)
    ensures r == "" || r[0] == '.'
    ensures |r| <= |filename| && r == Lower(filename[|filename| - |r|..])
    ensures Lower(r) == r
  {
    LowerIdempotent(SplitExt(filename));
    Lower(SplitExt(filename))
  }

  /** Every listed extension is a dot and three or four letters. */
  predicate IsImage(filename: string): (b: bool)
    ensures b ==> 4 <= |GetFileExtension(filename)| <= 5
  {
    GetFileExtension(filename) in ImageExtensions
  }

  predicate IsAudio(filename: string): (b: bool)
    ensures b ==> 4 <= |GetFileExtension(filename)| <= 5
  {
    GetFileExtension(filename) in AudioExtensions
  }

  predicate IsVideo(filename: string): (b: bool)
    ensures b ==> 4 <= |GetFileExtension(filename)| <= 5
  {
    GetFileExtension(filename) in VideoExtensions
  }

  /** No extension is in two lists, so a file has at most one media type. */
  lemma ExtensionListsDisjoint(filename: string)
    ensures !(IsImage(filename) && IsAudio(filename))
    ensures !(IsImage(filename) && IsVideo(filename))
    ensures !(IsAudio(filename) && IsVideo(filename))
  {
    forall x | x in ImageExtensions
      ensures x !in AudioExtensions && x !in VideoExtensions
    {
    }
    forall x | x in AudioExtensions
      ensures x !in VideoExtensions
    {
    }
  }

  lemma {:induction false} LastIndexLower(p: string, c: char)
    requires !('A' <= c <= 'Z') && !('a' <= c <= 'z')
    ensures LastIndex(Lower(p), c) == LastIndex(p, c)
    decreases |p|
  {
    if p != [] {
      assert Lower(p)[..|p| - 1] == Lower(p[..|p| - 1]);
      LastIndexLower(p[..|p| - 1], c);
    }
  }

  /** Splitting off the extension commutes with lower-casing. */
  lemma SplitExtLower(p: string)
    ensures SplitExt(Lower(p)) == Lower(SplitExt(p))
  {
    LastIndexLower(p, '/');
    LastIndexLower(p, '.');
    var sepIndex := LastIndex(p, '/');
    var dotIndex := LastIndex(p, '.');
    if dotIndex > sepIndex {
      assert Lower(p)[dotIndex..] == Lower(p[dotIndex..]);
      assert forall k :: 0 <= k < |p| ==> (Lower(p)[k] != '.' <==> p[k] != '.');
    }
  }

  /** Classification ignores case: a name and its lower-cased form have the same
      extension, hence the same media type. */
  lemma ExtensionIgnoresCase(filename: string)
    ensures GetFileExtension(Lower(filename)) == GetFileExtension(filename)
    ensures IsImage(Lower(filename)) == IsImage(filename)
    ensures IsAudio(Lower(filename)) == IsAudio(filename)
    ensures IsVideo(Lower(filename)) == IsVideo(filename)
  {
    SplitExtLower(filename);
    LowerIdempotent(SplitExt(filename));
  }

  /** The three facts in the ensures of `LastIndex` pin its value down. */
  lemma LastIndexUnique(s: string, c: char, r: int)
    requires -1 <= r < |s| && (r >= 0 ==> s[r] == c)
    requires forall k :: r < k < |s| ==> s[k] != c
    ensures LastIndex(s, c) == r
  {
  }

  /** The extension of a name whose last component is a stem (no '/', not only dots)
      followed by a dot and a suffix without '.' or '/' is that dot and that suffix,
      whatever directories come before. */
  lemma SplitExtOf(dir: string, stem: string, e: string)
    requires forall i :: 0 <= i < |stem| ==> stem[i] != '/'
    requires exists i :: 0 <= i < |stem| && stem[i] != '.'
    requires forall i :: 0 <= i < |e| ==> e[i] != '.' && e[i] != '/'
    ensures SplitExt(dir + stem + "." + e) == "." + e
  {
    var p := dir + stem + "." + e;
    var dot := |dir| + |stem|;
    assert forall i :: 0 <= i < |stem| ==> p[|dir| + i] == stem[i];
    assert forall i :: 0 <= i < |e| ==> p[dot + 1 + i] == e[i];
    assert p[dot] == '.';
    LastIndexUnique(p, '.', dot);
    var sep := LastIndex(p, '/');
    assert sep < |dir|;
    var i :| 0 <= i < |stem| && stem[i] != '.';
    assert sep + 1 <= |dir| + i < dot && p[|dir| + i] != '.';
    assert p[dot..] == "." + e;
  }

  /** A last component with no dot, or only leading dots, has no extension: "name",
      "dir/name", ".bashrc", "..". */
  lemma NoExtension(dir: string, dots: string, rest: string)
    requires dir == [] || dir[|dir| - 1] == '/'
    requires forall i :: 0 <= i < |dots| ==> dots[i] == '.'
    requires forall i :: 0 <= i < |rest| ==> rest[i] != '.' && rest[i] != '/'
    ensures SplitExt(dir + dots + rest) == ""
  {
    var p := dir + dots + rest;
    assert forall i :: 0 <= i < |dots| ==> p[|dir| + i] == dots[i];
    assert forall i :: 0 <= i < |rest| ==> p[|dir| + |dots| + i] == rest[i];
    LastIndexUnique(p, '/', |dir| - 1);
    var dot := LastIndex(p, '.');
    assert dot < |dir| + |dots|;
    assert forall k :: |dir| <= k < dot ==> p[k] == dots[k - |dir|];
  }

  /** The lookup lower-cases the suffix: "photo.JPG" has the extension ".jpg". */
  lemma GetFileExtensionOf(dir: string, stem: string, e: string)
    requires forall i :: 0 <= i < |stem| ==> stem[i] != '/'
    requires exists i :: 0 <= i < |stem| && stem[i] != '.'
    requires forall i :: 0 <= i < |e| ==> e[i] != '.' && e[i] != '/'
    ensures GetFileExtension(dir + stem + "." + e) == "." + Lower(e)
  {
    SplitExtOf(dir, stem, e);
    assert Lower("." + e) == "." + Lower(e);
  }

  /** An upper-case JPEG name has the lower-case extension. */
  lemma PhotoExtension()
    ensures GetFileExtension("photo.JPG") == ".jpg"
  {
    PhotoParts();
    GetFileExtensionOf("", "photo", "JPG");
    LowerJpg();
  }

  /** "photo.JPG" is the stem "photo", a dot and the suffix "JPG". */
  lemma PhotoParts()
    ensures forall i :: 0 <= i < |"photo"| ==> "photo"[i] != '/'
    ensures exists i :: 0 <= i < |"photo"| && "photo"[i] != '.'
    ensures forall i :: 0 <= i < |"JPG"| ==> "JPG"[i] != '.' && "JPG"[i] != '/'
    ensures "" + "photo" + "." + "JPG" == "photo.JPG"
  {
    assert "photo"[0] != '.';
  }

  lemma LowerJpg()
    ensures Lower("JPG") == "jpg"
  {
    var l := Lower("JPG");
    assert l[0] == 'j' && l[1] == 'p' && l[2] == 'g';
  }

  /** An upper-case JPEG name is an image. */
  lemma PhotoIsImage()
    ensures GetFileExtension("photo.JPG") == ".jpg" && IsImage("photo.JPG")
  {
    PhotoExtension();
    assert ".jpg" in ImageExtensions;
  }

  /** A dot file named like a video is not one: ".mp4" is its stem. */
  lemma DotFileIsNotVideo()
    ensures GetFileExtension("clips/.mp4") == "" && !IsVideo("clips/.mp4")
  {
    var dir, dots, rest := "clips/", ".", "mp4";
    NoExtension(dir, dots, rest);
    assert dir + dots + rest == "clips/.mp4";
  }

  function Max(a: nat, b: nat): nat { if a >= b then a else b }

  lemma MulMonotone(x: nat, y: nat, z: nat)
    requires x <= y
    ensures x * z <= y * z
  {
  }

  /** Floor division brackets its dividend. */
  lemma FloorBounds(x: nat, d: nat)
    requires 0 < d
    ensures (x / d) * d <= x < (x / d) * d + d
  {
  }

  /** A dividend below (y + 1) * d has a quotient of at most y. */
  lemma FloorAtMost(x: nat, y: nat, d: nat)
    requires 0 < d && x < (y + 1) * d
    ensures x / d <= y
  {
    FloorBounds(x, d);
    if x / d > y {
      MulMonotone(y + 1, x / d, d);
      assert false;
    }
  }

  /** `a * m / d`, the scaled length `encode_image` computes, rounded down. */
  function ScaledFloor(a: nat, m: nat, d: nat): nat
    requires 0 < d
  {
    var p: nat := a * m;
    p / d
  }

  /** With a <= d and m < d the scaled length is the floor of a * m / d, at most m and
      at most a. */
  lemma FloorScale(a: nat, m: nat, d: nat)
    requires 0 < d && a <= d && m < d
    ensures ScaledFloor(a, m, d) * d <= a * m < (ScaledFloor(a, m, d) + 1) * d
    ensures ScaledFloor(a, m, d) <= m && ScaledFloor(a, m, d) <= a
  {
    var p := a * m;
    var q := ScaledFloor(a, m, d);
    FloorBounds(p, d);
    assert (q + 1) * d == q * d + d;
    MulMonotone(a, d, m);
    assert (m + 1) * d == m * d + d;
    FloorAtMost(p, m, d);
    MulMonotone(m, d, a);
    assert (a + 1) * d == a * d + d;
    FloorAtMost(p, a, d);
  }

  /** A scaled length with a factor below one is no longer than the original. */
  lemma ScaledAtMost(a: nat, m: nat, d: nat)
    requires 0 < d && m < d
    ensures ScaledFloor(a, m, d) <= a
  {
    MulMonotone(m, d, a);
    assert (a + 1) * d == a * d + d;
    FloorAtMost(a * m, a, d);
  }

  /** The size rule of `encode_image`: an image whose longest side exceeds `maxSize` is
      scaled down so that side becomes `maxSize`; width wins only when strictly longer.
      Neither side grows. */
  function ResizedSize(w: nat, h: nat, maxSize: nat): (r: (nat, nat))
    ensures r.0 <= w && r.1 <= h
    ensures Max(w, h) > maxSize ==> Max(r.0, r.1) == maxSize
  {
    if Max(w, h) > maxSize then
      if w > h then
        FloorScale(h, maxSize, w);
        (maxSize, ScaledFloor(h, maxSize, w))
      else
        FloorScale(w, maxSize, h);
        (ScaledFloor(w, maxSize, h), maxSize)
    else (w, h)
  }

  /** Small images keep their size; in a large one the side that is not `maxSize` is
      the floor of the proportional length, so the aspect ratio is kept up to rounding
      down. */
  lemma ResizeKeepsAspect(w: nat, h: nat, maxSize: nat)
    ensures Max(w, h) <= maxSize ==> ResizedSize(w, h, maxSize) == (w, h)
    ensures w > h && w > maxSize ==>
      var h' := ResizedSize(w, h, maxSize).1;
      ResizedSize(w, h, maxSize).0 == maxSize && h' * w <= h * maxSize < (h' + 1) * w
    ensures h >= w && h > maxSize ==>
      var w' := ResizedSize(w, h, maxSize).0;
      ResizedSize(w, h, maxSize).1 == maxSize && w' * h <= w * maxSize < (w' + 1) * h
  {
    if Max(w, h) > maxSize {
      if w > h {
        FloorScale(h, maxSize, w);
      } else {
        FloorScale(w, maxSize, h);
      }
    }
  }
}
