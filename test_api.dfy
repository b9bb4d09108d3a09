/** `get_content_type` of test_api.py: the MIME type a client sends for an
    image file, chosen by the path's extension as `os.path.splitext` finds it
    (the POSIX form: '/' separates directories). */
module TestApi {
  import opened Text

  const Jpeg := "image/jpeg"
  const Png := "image/png"
  const Bmp := "image/bmp"
  const OctetStream := "application/octet-stream"

  /** `s.rfind(c)`: the last index of `c` in `s`, or -1. */
  function LastIndexOf(s: string, c: char): (r: int)
    ensures -1 <= r < |s|
    ensures r >= 0 ==> s[r] == c
  {
    if |s| == 0 then -1
    else if s[|s| - 1] == c then |s| - 1
    else LastIndexOf(s[..|s| - 1], c)
  }

  /** No `c` follows the index `LastIndexOf` finds. */
  lemma {:induction false} LastIndexOfIsLast(s: string, c: char)
    ensures forall k :: LastIndexOf(s, c) < k < |s| ==> s[k] != c
    decreases |s|
  {
    if |s| > 0 && s[|s| - 1] != c {
      var init := s[..|s| - 1];
      LastIndexOfIsLast(init, c);
      assert forall k :: 0 <= k < |init| ==> init[k] == s[k];
    }
  }

  predicate AllDots(s: string) {
    forall i :: 0 <= i < |s| ==> s[i] == '.'
  }

  /** `os.path.splitext(p)[1]`: from the last '.' of the last path component
      to the end, unless that component has only dots before it (".bashrc",
      "..png"), in which case there is no extension. It is a suffix of the
      path, empty or starting with '.'. */
  function Extension(p: string): (e: string)
    ensures |e| <= |p| && e == p[|p| - |e|..]
    ensures e == [] || e[0] == '.'
  {
    var sep := LastIndexOf(p, '/');
    var dot := LastIndexOf(p, '.');
    if dot <= sep then []
    else if AllDots(p[sep + 1..dot]) then []
    else p[dot..]
  }

  /** The MIME type for an already lower-cased extension. */
  function ContentTypeFor(extension: string): (r: string)
    ensures r == Jpeg <==> extension == ".jpg" || extension == ".jpeg"
    ensures r == Png <==> extension == ".png"
    ensures r == Bmp <==> extension == ".bmp"
    ensures r == OctetStream <==> extension !in {".jpg", ".jpeg", ".png", ".bmp"}
  {
    if extension in [".jpg", ".jpeg"] then Jpeg
    else if extension == ".png" then Png
    else if extension == ".bmp" then Bmp
    else OctetStream
  }

  /** `get_content_type(file_path)`. Lower-casing is ASCII only, which is exact
      here: no other character lower-cases to a letter of the four extensions. */
  function GetContentType(path: string): (r: string)
    ensures r == Jpeg || r == Png || r == Bmp || r == OctetStream
  {
    ContentTypeFor(Lower(Extension(path)))
  }

  /** A suffix that begins with '.' and holds no other '.' or '/'. */
  predicate IsExtension(ext: string) {
    |ext| > 0 && ext[0] == '.' && forall k :: 1 <= k < |ext| ==> ext[k] != '.' && ext[k] != '/'
  }

  /** The last component of `stem` has a character other than '.', so an
      extension appended to it is not mistaken for a leading dot. */
  predicate HasNamedComponent(stem: string) {
    exists k :: LastIndexOf(stem, '/') < k < |stem| && stem[k] != '.'
  }

  /** What `splitext` returns as an extension is of the form above: a '.'
      followed by characters that are neither '.' nor '/'. */
  lemma ExtensionShape(p: string)
    ensures Extension(p) == [] || IsExtension(Extension(p))
  {
    var e := Extension(p);
    if e != [] {
      var dot := LastIndexOf(p, '.');
      assert e == p[dot..];
      LastIndexOfIsLast(p, '/');
      LastIndexOfIsLast(p, '.');
      forall k | 1 <= k < |e|
        ensures e[k] != '.' && e[k] != '/'
      {
        assert e[k] == p[dot + k];
      }
    }
  }

  lemma {:induction false} LastIndexOfAppend(s: string, t: string, c: char)
    requires forall k :: 0 <= k < |t| ==> t[k] != c
    ensures LastIndexOf(s + t, c) == LastIndexOf(s, c)
    decreases |t|
  {
    if t == [] {
      assert s + t == s;
    } else {
      var st := s + t;
      assert st[|st| - 1] == t[|t| - 1];
      assert st[..|st| - 1] == s + t[..|t| - 1];
      LastIndexOfAppend(s, t[..|t| - 1], c);
    }
  }

  /** Where the last '/' and the last '.' of `stem + ext` are. */
  lemma SuffixSeparators(stem: string, ext: string)
    requires IsExtension(ext)
    ensures LastIndexOf(stem + ext, '/') == LastIndexOf(stem, '/')
    ensures LastIndexOf(stem + ext, '.') == |stem|
  {
    var tail := ext[1..];
    assert stem + ext == (stem + ['.']) + tail;
    assert forall k :: 0 <= k < |tail| ==> tail[k] == ext[k + 1];
    LastIndexOfAppend(stem + ['.'], tail, '.');
    LastIndexOfAppend(stem + ['.'], tail, '/');
    LastIndexOfAppend(stem, ['.'], '/');
  }

  /** Only the final extension counts: `stem + ext` has extension `ext`,
      whatever dots `stem` holds. */
  lemma ExtensionOfSuffix(stem: string, ext: string)
    requires IsExtension(ext)
    requires HasNamedComponent(stem)
    ensures Extension(stem + ext) == ext
  {
    var p := stem + ext;
    SuffixSeparators(stem, ext);
    var sep := LastIndexOf(stem, '/');
    var k :| sep < k < |stem| && stem[k] != '.';
    assert p[sep + 1..|stem|][k - sep - 1] == stem[k];
    assert !AllDots(p[sep + 1..|stem|]);
    assert p[|stem|..] == ext;
  }

  /** The mapping on a path with a real extension, in any letter case. */
  lemma ContentTypeByExtension(stem: string, ext: string)
    requires IsExtension(ext)
    requires HasNamedComponent(stem)
    ensures GetContentType(stem + ext) == ContentTypeFor(Lower(ext))
  {
    ExtensionOfSuffix(stem, ext);
  }

  /** A path without a '.' has no extension and gets the generic type. */
  lemma NoDotIsGeneric(path: string)
    requires forall k :: 0 <= k < |path| ==> path[k] != '.'
    ensures Extension(path) == []
    ensures GetContentType(path) == "application/octet-stream"
  {
  }

  lemma {:induction false} LowerLastIndexOf(s: string, c: char)
    requires !IsAsciiUpper(c) && !('a' <= c <= 'z')
    ensures LastIndexOf(Lower(s), c) == LastIndexOf(s, c)
    decreases |s|
  {
    if |s| > 0 {
      assert Lower(s)[..|s| - 1] == Lower(s[..|s| - 1]);
      LowerLastIndexOf(s[..|s| - 1], c);
    }
  }

  /** The letter case of a path never changes its content type. */
  lemma CaseInsensitive(p: string, q: string)
    requires Lower(p) == Lower(q)
    ensures GetContentType(p) == GetContentType(q)
  {
    ExtensionOfLower(p);
    ExtensionOfLower(q);
    assert Lower(Extension(p)) == Lower(Extension(q));
  }

  lemma AllDotsLower(s: string)
    ensures AllDots(Lower(s)) <==> AllDots(s)
  {
  }

  /** Lower-casing and taking the extension commute. */
  lemma ExtensionOfLower(p: string)
    ensures Lower(Extension(p)) == Extension(Lower(p))
  {
    LowerLastIndexOf(p, '/');
    LowerLastIndexOf(p, '.');
    var sep := LastIndexOf(p, '/');
    var dot := LastIndexOf(p, '.');
    if dot > sep {
      LowerSlice(p, sep + 1, dot);
      AllDotsLower(p[sep + 1..dot]);
      LowerSlice(p, dot, |p|);
      assert p[dot..|p|] == p[dot..];
      assert Lower(p)[dot..|p|] == Lower(p)[dot..];
    }
  }

  lemma JpgFacts()
    ensures IsExtension(".jpg") && ContentTypeFor(Lower(".jpg")) == Jpeg
  {
    LowerOfLowerCase(".jpg");
  }

  lemma UpperJpegFacts()
    ensures IsExtension(".JPEG") && ContentTypeFor(Lower(".JPEG")) == Jpeg
  {
    assert Lower(".JPEG") == ".jpeg";
  }

  lemma MixedBmpFacts()
    ensures IsExtension(".Bmp") && ContentTypeFor(Lower(".Bmp")) == Bmp
  {
    assert Lower(".Bmp") == ".bmp";
  }

  /** Only the last extension counts: "<stem>.png.jpg" is a JPEG, whatever
      the stem. */
  lemma DoubleExtension(stem: string)
    ensures GetContentType(stem + ".png" + ".jpg") == Jpeg
  {
    var named := stem + ".png";
    LastIndexOfAppend(stem, ".png", '/');
    assert named[|stem| + 1] == 'p';
    assert HasNamedComponent(named);
    JpgFacts();
    ContentTypeByExtension(named, ".jpg");
  }

  /** An upper-case extension of a file in a directory: "<dir>/CAR.JPEG" is
      a JPEG, whatever dots the directory holds. */
  lemma UpperCaseInDirectory(dir: string)
    ensures GetContentType(dir + "/" + "CAR" + ".JPEG") == Jpeg
  {
    var stem := dir + "/" + "CAR";
    LastIndexOfAppend(dir + "/", "CAR", '/');
    assert LastIndexOf(stem, '/') == |dir|;
    assert stem[|dir| + 1] == 'C';
    assert HasNamedComponent(stem);
    UpperJpegFacts();
    ContentTypeByExtension(stem, ".JPEG");
  }

  /** A mixed-case extension after any named file. */
  lemma MixedCase(stem: string)
    requires HasNamedComponent(stem)
    ensures GetContentType(stem + ".Bmp") == Bmp
  {
    MixedBmpFacts();
    ContentTypeByExtension(stem, ".Bmp");
  }

  /** A name that is only a leading dot and an extension has no extension. */
  lemma HiddenFile()
    ensures GetContentType(".png") == "application/octet-stream"
  {
    var p := ".png";
    assert forall k :: 0 <= k < |p| ==> p[k] != '/';
    assert p == "." + "png";
    LastIndexOfAppend(".", "png", '.');
    assert LastIndexOf(p, '.') == 0;
    assert AllDots(p[0..0]);
  }

  /** A dot in a directory name is not an extension. */
  lemma DotInDirectory()
    ensures GetContentType("shots.d/README") == "application/octet-stream"
  {
    var p := "shots.d/README";
    assert p == "shots.d/" + "README";
    LastIndexOfAppend("shots.d/", "README", '/');
    assert p == "shots." + "d/README";
    LastIndexOfAppend("shots.", "d/README", '.');
    assert LastIndexOf(p, '/') == 7;
    assert LastIndexOf(p, '.') == 5;
    assert Extension(p) == [];
  }
}
