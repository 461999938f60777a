/** The image endpoints of api/image_routes.py: the site information read
    from the query string, the listing of an image directory filtered by an
    AFM filename, and the serving of one image with a MIME type chosen by its
    extension. The file system is a parameter: whether a directory exists,
    the names it holds, and the set of paths that exist. */
module ImageRoutes {
  import opened Common
  import opened Text
  import opened Sorting
  import AfmRoutes

  // ---- site information -----------------------------------------------------

  /** `site_info`: the site id and coordinates are kept as the query strings
      they were, only `point_no` is coerced to an integer. */
  datatype SiteInfo = SiteInfo(siteId: Option<string>, siteX: Option<string>, siteY: Option<string>, pointNo: Value)

  function SiteInfoOf(siteId: Option<string>, siteX: Option<string>, siteY: Option<string>, pointNo: Option<string>): (r: SiteInfo)
    ensures r.siteId == siteId && r.siteX == siteX && r.siteY == siteY
    ensures r.pointNo.Int? <==> pointNo.Some? && pointNo.value != "" && PyInt(pointNo.value).Some?
    ensures r.pointNo.Null? <==> pointNo.None? || (pointNo.value != "" && PyInt(pointNo.value).None?)
  {
    SiteInfo(siteId, siteX, siteY, AfmRoutes.CoercePointNo(pointNo))
  }

  // ---- directories ----------------------------------------------------------

  /** `dir_mapping`: each image type has a directory named after it. */
  function DirFor(imageType: string): (r: Option<string>)
    ensures r.Some? <==> imageType in ["profile", "tiff", "align", "tip"]
    ensures r.Some? ==> r.value == imageType + "_dir"
  {
    if imageType == "profile" then Some("profile_dir")
    else if imageType == "tiff" then Some("tiff_dir")
    else if imageType == "align" then Some("align_dir")
    else if imageType == "tip" then Some("tip_dir")
    else None
  }

  function ToolDir(tool: string): string {
    "itc-afm-data-platform-pjt-shared/AFM_DB/" + tool
  }

  // ---- listing --------------------------------------------------------------

  const ImageExtensions: seq<string> := [".webp", ".png", ".jpg", ".jpeg", ".tiff", ".tif"]

  /** `*{ext}`: the names ending in `ext`. */
  function EndsWith(ext: string): string -> bool {
    (name: string) => IsSuffix(ext, name)
  }

  /** The name ends in one of the first `n` image extensions. */
  predicate EndsInExtension(name: string, n: nat)
    requires n <= |ImageExtensions|
  {
    n > 0 && (EndsInExtension(name, n - 1) || IsSuffix(ImageExtensions[n - 1], name))
  }

  predicate HasImageExtension(name: string) {
    EndsInExtension(name, |ImageExtensions|)
  }

  /** The names globbed for the first `n` extensions, extension by extension. */
  function Globbed(names: seq<string>, n: nat): (r: seq<string>)
    requires n <= |ImageExtensions|
  {
    if n == 0 then [] else Globbed(names, n - 1) + Filter(names, EndsWith(ImageExtensions[n - 1]))
  }

  /** A globbed name is a directory entry ending in one of the first `n`
      extensions, and every such entry is globbed. */
  lemma {:induction false} GlobbedMembers(names: seq<string>, n: nat, name: string)
    requires n <= |ImageExtensions|
    ensures name in Globbed(names, n) <==> name in names && EndsInExtension(name, n)
  {
    if n > 0 {
      GlobbedMembers(names, n - 1, name);
      FilterMember(names, EndsWith(ImageExtensions[n - 1]), name);
    }
  }

  lemma GlobbedImages(names: seq<string>, name: string)
    ensures name in Globbed(names, |ImageExtensions|) <==> name in names && HasImageExtension(name)
  {
    GlobbedMembers(names, |ImageExtensions|, name);
  }

  /** The `extend(image_dir.glob(...))` loop. */
  method CollectImages(names: seq<string>) returns (files: seq<string>)
    ensures files == Globbed(names, |ImageExtensions|)
  {
    files := [];
    var k := 0;
    while k < |ImageExtensions|
      invariant 0 <= k <= |ImageExtensions|
      invariant files == Globbed(names, k)
    {
      files := files + Filter(names, EndsWith(ImageExtensions[k]));
      k := k + 1;
    }
  }

  /** `filename.replace('#', '').split('.')[0]`. */
  function BasePattern(filename: string): string {
    Split(ReplaceAll(filename, "#", ""), '.')[0]
  }

  /** The pattern has neither `#` nor `.`. */
  lemma BasePatternClean(filename: string)
    ensures '#' !in BasePattern(filename) && '.' !in BasePattern(filename)
  {
    var stripped := ReplaceAll(filename, "#", "");
    assert stripped == ReplaceAll(filename, ['#'], []);
    assert '#' !in stripped by {
      ReplaceAllDrops(filename, '#');
    }
    var s := Split(stripped, '.');
    if '#' in s[0] {
      SplitPieceIn(stripped, '.', '#');
    }
  }

  /** Removing a character leaves no occurrence of it. */
  lemma {:induction false} ReplaceAllDrops(s: string, c: char)
    ensures c !in ReplaceAll(s, [c], [])
    decreases |s|
  {
    if s != [] {
      ReplaceAllDrops(s[1..], c);
      assert s[1..] == s[|[c]|..];
    }
  }

  /** A character of the first piece of a split occurs in the string. */
  lemma {:induction false} SplitPieceIn(s: string, c: char, d: char)
    requires d in Split(s, c)[0]
    ensures d in s
  {
    if s != [] && s[0] != c {
      if d != s[0] {
        SplitPieceIn(s[1..], c, d);
      }
    }
  }

  /** A file is kept when its name contains the base pattern or the whole
      filename. */
  function Matcher(filename: string): string -> bool {
    (name: string) => Contains(name, BasePattern(filename)) || Contains(name, filename)
  }

  /** The filtering loop of `get_images_by_type`. */
  method FilterByFilename(files: seq<string>, filename: string) returns (kept: seq<string>)
    ensures kept == Filter(files, Matcher(filename))
  {
    kept := [];
    var i := 0;
    while i < |files|
      invariant 0 <= i <= |files|
      invariant kept == Filter(files[..i], Matcher(filename))
    {
      FilterSnoc(files, i, Matcher(filename));
      var pattern := BasePattern(filename);
      if Contains(files[i], pattern) || Contains(files[i], filename) {
        kept := kept + [files[i]];
      }
      i := i + 1;
    }
    assert files[..|files|] == files;
  }

  datatype ImagesResponse =
    | Images(images: seq<string>, directory: string, imageType: string)
    | InvalidImageType   // 400

  /** `get_images_by_type` on a directory listing: the image names, sorted,
      kept by the filename filter when a non-empty filename is given. The
      `count` of the response is the length of `images`. */
  function ImagesByType(tool: string, imageType: string, filename: Option<string>, dirExists: bool, names: seq<string>): ImagesResponse {
    match DirFor(imageType)
    case None => InvalidImageType
    case Some(dir) =>
      var directory := ToolDir(tool) + "/" + dir;
      if !dirExists then Images([], directory, imageType)
      else
        var files := Globbed(names, |ImageExtensions|);
        var kept := if filename.Some? && filename.value != "" then Filter(files, Matcher(filename.value)) else files;
        Images(Sort(kept, StrLe), directory, imageType)
  }

  method GetImagesByType(tool: string, imageType: string, filename: Option<string>, dirExists: bool, names: seq<string>) returns (r: ImagesResponse)
    ensures r == ImagesByType(tool, imageType, filename, dirExists, names)
  {
    var dir := DirFor(imageType);
    if dir.None? {
      return InvalidImageType;
    }
    var directory := ToolDir(tool) + "/" + dir.value;
    if !dirExists {
      return Images([], directory, imageType);
    }
    var files := CollectImages(names);
    if filename.Some? && filename.value != "" {
      files := FilterByFilename(files, filename.value);
    }
    return Images(Sort(files, StrLe), directory, imageType);
  }

  /** Only the four known types are listed; a missing directory lists
      nothing. */
  lemma ImagesByTypeCases(tool: string, imageType: string, filename: Option<string>, dirExists: bool, names: seq<string>)
    ensures ImagesByType(tool, imageType, filename, dirExists, names).InvalidImageType? <==>
      imageType !in ["profile", "tiff", "align", "tip"]
    ensures imageType in ["profile", "tiff", "align", "tip"] && !dirExists ==>
      ImagesByType(tool, imageType, filename, dirExists, names).images == []
  {
  }

  /** The listing is sorted by name, and holds exactly the directory's image
      files that pass the filename filter. */
  lemma {:induction false} ListingContents(tool: string, imageType: string, filename: Option<string>, names: seq<string>, name: string)
    requires DirFor(imageType).Some?
    ensures Sorted(ImagesByType(tool, imageType, filename, true, names).images, StrLe)
    ensures name in ImagesByType(tool, imageType, filename, true, names).images <==>
      name in names && HasImageExtension(name) &&
      (filename.Some? && filename.value != "" ==> Matcher(filename.value)(name))
  {
    var files := Globbed(names, |ImageExtensions|);
    var kept := if filename.Some? && filename.value != "" then Filter(files, Matcher(filename.value)) else files;
    StrLePreorder();
    SortSorted(kept, StrLe);
    SortPermutes(kept, StrLe);
    assert name in Sort(kept, StrLe) <==> name in kept by {
      assert name in multiset(Sort(kept, StrLe)) <==> name in multiset(kept);
    }
    GlobbedImages(names, name);
    if filename.Some? && filename.value != "" {
      FilterMember(files, Matcher(filename.value), name);
    }
  }

  lemma FilterMember<T>(s: seq<T>, p: T -> bool, x: T)
    ensures x in Filter(s, p) <==> x in s && p(x)
  {
    if x in Filter(s, p) {
      var i :| 0 <= i < |Filter(s, p)| && Filter(s, p)[i] == x;
    }
    if x in s && p(x) {
      var i :| 0 <= i < |s| && s[i] == x;
    }
  }

  /** A filename whose pattern is empty (one starting with `.`, say) keeps
      every image of the directory. */
  lemma EmptyPatternKeepsAll(files: seq<string>, filename: string)
    requires BasePattern(filename) == ""
    ensures Filter(files, Matcher(filename)) == files
  {
    forall i | 0 <= i < |files|
      ensures Matcher(filename)(files[i])
    {
      assert IsPrefix("", files[i]);
    }
    FilterAll(files, Matcher(filename));
  }

  // ---- serving one image ----------------------------------------------------

  /** The index of the last `c` in `s`. */
  function LastIndex(s: string, c: char): (r: Option<nat>)
    ensures r.None? <==> c !in s
    ensures r.Some? ==> r.value < |s| && s[r.value] == c && forall j :: r.value < j < |s| ==> s[j] != c
  {
    if s == [] then None
    else if s[|s| - 1] == c then Some(|s| - 1)
    else
      var r := LastIndex(s[..|s| - 1], c);
      assert s == s[..|s| - 1] + [s[|s| - 1]];
      r
  }

  /** The last component of a path (`Path(p).name`). */
  function PathName(p: string): string {
    var parts := NonEmpty(Split(p, '/'));
    if parts == [] then "" else parts[|parts| - 1]
  }

  /** `Path.suffix`: from the last `.` of the name, unless that dot is the
      name's first or last character. */
  function Suffix(name: string): (r: string)
    ensures r == "" || (r[0] == '.' && IsSuffix(r, name) && '.' !in r[1..])
  {
    match LastIndex(name, '.')
    case None => ""
    case Some(i) =>
      if 0 < i < |name| - 1 then
        assert name[i..][1..] == name[i + 1..];
        name[i..]
      else ""
  }

  /** `mimetype_mapping.get(ext, 'application/octet-stream')`. */
  function MimeOf(ext: string): string {
    if ext == ".webp" then "image/webp"
    else if ext == ".png" then "image/png"
    else if ext == ".jpg" || ext == ".jpeg" then "image/jpeg"
    else if ext == ".tiff" || ext == ".tif" then "image/tiff"
    else "application/octet-stream"
  }

  /** The MIME type of a file name, chosen by its lowercased suffix. */
  function MimeType(name: string): string {
    MimeOf(Lower(Suffix(name)))
  }

  /** Exactly the six image extensions have a MIME type of their own; the
      two spellings of JPEG and of TIFF share one. */
  lemma MimeOfCases(ext: string)
    ensures MimeOf(ext) != "application/octet-stream" <==> ext in ImageExtensions
    ensures MimeOf(ext) == "image/jpeg" <==> ext in [".jpg", ".jpeg"]
    ensures MimeOf(ext) == "image/tiff" <==> ext in [".tiff", ".tif"]
    ensures MimeOf(ext) == "image/webp" <==> ext == ".webp"
    ensures MimeOf(ext) == "image/png" <==> ext == ".png"
  {
  }

  /** A name `stem + ext` with a non-empty stem has suffix `ext` when `ext`
      is a dot followed by a dot-free part. */
  lemma SuffixOf(stem: string, ext: string)
    requires stem != [] && |ext| >= 2 && ext[0] == '.' && '.' !in ext[1..]
    ensures Suffix(stem + ext) == ext
  {
    var name := stem + ext;
    var i := |stem|;
    assert name[i] == '.';
    forall j | i < j < |name|
      ensures name[j] != '.'
    {
      assert name[j] == ext[1..][j - i - 1];
    }
    var r := LastIndex(name, '.');
    assert r.value == i;
    assert name[i..] == ext;
  }

  /** After a non-empty stem, an extension selects the MIME type of its
      lowercase form. */
  lemma MimeTypeOfExtension(stem: string, ext: string)
    requires stem != [] && |ext| >= 2 && ext[0] == '.' && '.' !in ext[1..]
    ensures MimeType(stem + ext) == MimeOf(Lower(ext))
  {
    SuffixOf(stem, ext);
  }

  /** Upper-case extensions are served like lower-case ones. */
  lemma UpperCaseExtension()
    ensures MimeOf(Lower(".PNG")) == "image/png"
    ensures MimeOf(Lower(".JPEG")) == "image/jpeg"
  {
    assert Lower(".PNG") == ".png";
    assert Lower(".JPEG") == ".jpeg";
  }

  datatype ServeResponse = SendImage(path: string, mimetype: string) | InvalidType | ImageNotFound

  /** `serve_image_by_type`: a known type, then an existing file, then the
      MIME type of its name. */
  function ServeImageByType(tool: string, imageType: string, imageName: string, existing: set<string>): (r: ServeResponse)
    ensures r.InvalidType? <==> DirFor(imageType).None?
    ensures r.ImageNotFound? <==> DirFor(imageType).Some? && ToolDir(tool) + "/" + DirFor(imageType).value + "/" + imageName !in existing
    ensures r.SendImage? ==>
      DirFor(imageType).Some? && r.path in existing
      && r.path == ToolDir(tool) + "/" + DirFor(imageType).value + "/" + imageName
    ensures r.SendImage? ==> r.mimetype == MimeType(PathName(r.path))
  {
    match DirFor(imageType)
    case None => InvalidType
    case Some(dir) =>
      var path := ToolDir(tool) + "/" + dir + "/" + imageName;
      if path !in existing then ImageNotFound
      else SendImage(path, MimeType(PathName(path)))
  }
}
