/**
 * Where a fetched resource is written: `getResourcePath`, the path choice of
 * `upsertFileByUrl`, and the directories `mkdirp` creates on the way.
 */
module PathMapper {
  import opened Wrappers
  import opened Seqs
  import opened JsText
  import opened Urls

  predicate NonEmpty(s: string) {
    s != ""
  }

  /** `path.split('/').filter(Boolean)`: the non-empty pieces between slashes. */
  function Segments(path: string): (r: seq<string>)
    ensures forall i :: 0 <= i < |r| ==> r[i] != "" && '/' !in r[i]
  {
    var parts := Split(path, '/');
    var r := Filter(parts, NonEmpty);
    assert forall i :: 0 <= i < |r| ==> r[i] in parts && NonEmpty(r[i]);
    r
  }

  /** A slash separates segments: the segments of `a/b` are those of `a` then those of `b`. */
  lemma SegmentsAround(a: string, b: string)
    ensures Segments(a + "/" + b) == Segments(a) + Segments(b)
  {
    SplitAround(a, b, '/');
    FilterAppend(Split(a, '/'), Split(b, '/'), NonEmpty);
  }

  /** Doubled slashes do not matter. */
  lemma SegmentsDoubledSlash(a: string, b: string)
    ensures Segments(a + "//" + b) == Segments(a + "/" + b)
  {
    var t := "/" + b;
    assert a + "//" + b == a + "/" + t;
    assert "" + "/" + b == t;
    assert Split("", '/') == [""];
    assert Segments("") == [];
    SegmentsAround("", b);
    assert Segments(t) == Segments(b);
    SegmentsAround(a, t);
    SegmentsAround(a, b);
  }

  /** A trailing slash does not matter. */
  lemma SegmentsTrailingSlash(a: string)
    ensures Segments(a + "/") == Segments(a)
  {
    assert a + "/" == a + "/" + "";
    SegmentsAround(a, "");
  }

  /** Joining non-empty, slash-free segments with `/` and splitting again gives them back. */
  lemma {:induction false} SegmentsOfJoin(segs: seq<string>)
    requires forall i :: 0 <= i < |segs| ==> segs[i] != "" && '/' !in segs[i]
    ensures Segments(Join(segs, '/')) == segs
  {
    if segs == [] {
      assert Split("", '/') == [""];
    } else {
      SplitJoin(segs, '/');
      FilterAll(segs, NonEmpty);
    }
  }

  // ---------------------------------------------------------------------------
  // getResourcePath

  datatype ResourcePath = ResourcePath(folderPath: string, filePath: string)

  /** How `undefined` prints when concatenated to a string. */
  const Undefined := "undefined"

  /** `path[path.length - 1]`: the last segment, `undefined` when there is none. */
  function FileName(segs: seq<string>): string {
    if segs == [] then Undefined else segs[|segs| - 1]
  }

  /** `path.slice(0, path.length - 1)`: all segments but the last. */
  function FolderSegments(segs: seq<string>): seq<string> {
    if segs == [] then [] else segs[..|segs| - 1]
  }

  /**
   * `getResourcePath(url, basePath)`: the folder is the host followed by every
   * path segment but the last, joined by `/` and put under `basePath` when that
   * is non-empty; the file is the last segment inside that folder.
   */
  function GetResourcePath(url: Url, basePath: string): (r: Result<ResourcePath, Fault>)
    ensures r.Failure? <==> url.path.None?
    ensures url.path.Some? ==>
      r.value.filePath == r.value.folderPath + "/" + FileName(Segments(url.path.value))
    ensures url.path.Some? && Segments(url.path.value) == [] ==>
      r.value.filePath == r.value.folderPath + "/" + Undefined
    ensures r.Success? && basePath != "" ==> StartsWith(r.value.folderPath, basePath + "/")
    ensures r.Success? && basePath == "" ==> StartsWith(r.value.folderPath, JoinElement(url.host))
  {
    match url.path
    case None => Failure(NullPath)
    case Some(path) =>
      var segs := Segments(path);
      var folder := Folder(url.host, segs);
      var folderPath := BasePrefixed(basePath, folder);
      StartsWithConcat(basePath + "/", folder);
      Success(ResourcePath(folderPath, folderPath + "/" + FileName(segs)))
  }

  /** `basePath ? basePath + '/' + folder : folder` */
  function BasePrefixed(basePath: string, folder: string): string {
    if basePath != "" then basePath + "/" + folder else folder
  }

  /** `[host, ...path].join('/')` over the folder segments. */
  function Folder(host: Option<string>, segs: seq<string>): (r: string)
    ensures StartsWith(r, JoinElement(host))
  {
    var parts := [JoinElement(host)] + FolderSegments(segs);
    JoinStartsWith(parts, '/');
    Join(parts, '/')
  }

  /** A join begins with its first piece. */
  lemma {:induction false} JoinStartsWith(parts: seq<string>, sep: char)
    requires |parts| >= 1
    ensures StartsWith(Join(parts, sep), parts[0])
  {
    if |parts| > 1 {
      assert Join(parts, sep) == parts[0] + ([sep] + Join(parts[1..], sep));
    }
  }

  /**
   * Read back, the written path names the URL: its segments are those of the
   * base path, then the host, then the URL's path segments (or `undefined`).
   */
  lemma ResourcePathSegments(url: Url, basePath: string, h: string, path: string)
    requires url.host == Some(h) && h != "" && '/' !in h
    requires url.path == Some(path)
    ensures GetResourcePath(url, basePath).Success?
    ensures Segments(GetResourcePath(url, basePath).value.folderPath)
         == Segments(basePath) + [h] + FolderSegments(Segments(path))
    ensures Segments(GetResourcePath(url, basePath).value.filePath)
         == Segments(basePath) + [h] + FolderSegments(Segments(path)) + [FileName(Segments(path))]
  {
    var segs := Segments(path);
    var rp := GetResourcePath(url, basePath).value;
    FolderPathSegments(url.host, h, segs, basePath);
    assert rp.folderPath == BasePrefixed(basePath, Folder(url.host, segs));
    assert rp.filePath == rp.folderPath + "/" + FileName(segs);
    SegmentsAround(rp.folderPath, FileName(segs));
    FileNameSegments(segs);
  }

  lemma FolderPathSegments(host: Option<string>, h: string, segs: seq<string>, basePath: string)
    requires host == Some(h) && h != "" && '/' !in h
    requires forall i :: 0 <= i < |segs| ==> segs[i] != "" && '/' !in segs[i]
    ensures Segments(BasePrefixed(basePath, Folder(host, segs))) == Segments(basePath) + [h] + FolderSegments(segs)
  {
    var folder := Folder(host, segs);
    FolderSegmentsOf(h, segs);
    if basePath != "" {
      SegmentsAround(basePath, folder);
    } else {
      SegmentsOfJoin([]);
    }
  }

  /** The folder of a host and segments reads back as the host and all but the last segment. */
  lemma FolderSegmentsOf(h: string, segs: seq<string>)
    requires h != "" && '/' !in h
    requires forall i :: 0 <= i < |segs| ==> segs[i] != "" && '/' !in segs[i]
    ensures Segments(Folder(Some(h), segs)) == [h] + FolderSegments(segs)
  {
    SegmentsOfJoin([h] + FolderSegments(segs));
  }

  /** The file name reads back as one segment. */
  lemma FileNameSegments(segs: seq<string>)
    requires forall i :: 0 <= i < |segs| ==> segs[i] != "" && '/' !in segs[i]
    ensures Segments(FileName(segs)) == [FileName(segs)]
  {
    assert Join([FileName(segs)], '/') == FileName(segs);
    SegmentsOfJoin([FileName(segs)]);
  }

  /** Paths with the same non-empty segments map to the same place. */
  lemma ResourcePathBySegments(url1: Url, url2: Url, basePath: string)
    requires url1.host == url2.host
    requires url1.path.Some? && url2.path.Some?
    requires Segments(url1.path.value) == Segments(url2.path.value)
    ensures GetResourcePath(url1, basePath) == GetResourcePath(url2, basePath)
  {
  }

  /** Doubled and trailing slashes in the URL path do not change where it is written. */
  lemma ResourcePathIgnoresEmptySegments(host: Option<string>, a: string, b: string, basePath: string)
    ensures GetResourcePath(Url(None, host, Some(a + "//" + b)), basePath)
         == GetResourcePath(Url(None, host, Some(a + "/" + b)), basePath)
    ensures GetResourcePath(Url(None, host, Some(a + "/")), basePath)
         == GetResourcePath(Url(None, host, Some(a)), basePath)
  {
    SegmentsDoubledSlash(a, b);
    SegmentsTrailingSlash(a);
  }

  // ---------------------------------------------------------------------------
  // upsertFileByUrl and mkdirp

  /**
   * The folder `upsertFileByUrl` creates and the file it writes: those of
   * `getResourcePath`, with `.html` appended to the file when the content type
   * mentions html.
   */
  function UpsertPath(url: Url, basePath: string, contentType: string): (r: Result<ResourcePath, Fault>)
    ensures r.Failure? <==> url.path.None?
    ensures r.Success? ==>
      var rp := GetResourcePath(url, basePath).value;
      && r.value.folderPath == rp.folderPath
      && (Contains(contentType, "html") ==> r.value.filePath == rp.filePath + ".html")
      && (!Contains(contentType, "html") ==> r.value.filePath == rp.filePath)
  {
    var rp :- GetResourcePath(url, basePath);
    if Contains(contentType, "html") then Success(rp.(filePath := rp.filePath + ".html"))
    else Success(rp)
  }

  /** The `k`-th directory `mkdirp` visits: the first `k + 1` segments joined, then `/`. */
  function PrefixDir(segs: seq<string>, k: nat): string
    requires k < |segs|
  {
    Join(segs[..k + 1], '/') + "/"
  }

  /** Each directory extends the one before by one segment. */
  lemma PrefixDirStep(segs: seq<string>, k: nat)
    requires 0 < k < |segs|
    ensures PrefixDir(segs, k) == PrefixDir(segs, k - 1) + segs[k] + "/"
  {
    JoinSnoc(segs[..k + 1], '/');
    assert segs[..k + 1][..k] == segs[..k];
  }

  /** Each directory starts with the first segment and ends with `/`. */
  lemma PrefixDirShape(segs: seq<string>, k: nat)
    requires k < |segs|
    requires forall i :: 0 <= i < |segs| ==> segs[i] != "" && '/' !in segs[i]
    ensures |PrefixDir(segs, k)| > 1
    ensures PrefixDir(segs, k)[0] != '/'
    ensures PrefixDir(segs, k)[|PrefixDir(segs, k)| - 1] == '/'
  {
    var parts := segs[..k + 1];
    JoinStartsWith(parts, '/');
    assert parts[0] == segs[0];
    assert segs[0][0] in segs[0];
    assert Join(parts, '/')[0] == segs[0][0];
  }

  /**
   * The directories `mkdirp(path)` visits, in order: the cumulative prefixes of
   * the non-empty segments, each ending in `/`. A leading `/` is not kept.
   */
  method Mkdirp(path: string) returns (dirs: seq<string>)
    ensures |dirs| == |Segments(path)|
    ensures forall i :: 0 <= i < |dirs| ==> dirs[i] == PrefixDir(Segments(path), i)
    ensures forall i :: 0 <= i < |dirs| ==> |dirs[i]| > 1 && dirs[i][0] != '/' && dirs[i][|dirs[i]| - 1] == '/'
    ensures forall i :: 0 <= i < |dirs| - 1 ==> StartsWith(dirs[i + 1], dirs[i])
    ensures |dirs| > 0 ==> Segments(dirs[|dirs| - 1]) == Segments(path)
  {
    var segs := Segments(path);
    var fullPath := "";
    dirs := [];
    for i := 0 to |segs|
      invariant |dirs| == i
      invariant i == 0 ==> fullPath == ""
      invariant i > 0 ==> fullPath == dirs[i - 1]
      invariant forall k :: 0 <= k < i ==> dirs[k] == PrefixDir(segs, k)
    {
      if i == 0 {
        assert Join(segs[..1], '/') == segs[0];
      } else {
        PrefixDirStep(segs, i);
      }
      fullPath := fullPath + segs[i] + "/";
      dirs := dirs + [fullPath];
    }
    forall i | 0 <= i < |dirs|
      ensures |dirs[i]| > 1 && dirs[i][0] != '/' && dirs[i][|dirs[i]| - 1] == '/'
    {
      PrefixDirShape(segs, i);
    }
    forall i | 0 <= i < |dirs| - 1
      ensures StartsWith(dirs[i + 1], dirs[i])
    {
      PrefixDirStep(segs, i + 1);
      StartsWithConcat(dirs[i], segs[i + 1] + "/");
    }
    if |segs| > 0 {
      assert segs[..|segs|] == segs;
      SegmentsOfJoin(segs);
      SegmentsTrailingSlash(Join(segs, '/'));
    }
  }
}
