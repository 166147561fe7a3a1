/** The factory that routes `pdf-viewer` URLs to the PDF viewer's web UI:
    the MIME typing of the viewer's bundled files, the data source that
    serves them, the host tests, and the parsing of the viewer URL's query
    into the stream URL and the original URL. */
module WebUIControllerFactory {
  import opened Base

  const PdfViewerHost := "pdf-viewer"

  // ---------------------------------------------------------------------
  // Static-resource paths and MIME types

  /** The request path with its query and fragment cut off: everything up
      to the first `?` or `#`. */
  function PathWithoutParams(path: string): (r: string)
    ensures r <= path
    ensures '?' !in r && '#' !in r
    ensures r == path || path[|r|] == '?' || path[|r|] == '#'
  {
    if path == [] then []
    else if path[0] == '?' || path[0] == '#' then []
    else [path[0]] + PathWithoutParams(path[1..])
  }

  /** The suffixes recognised for bundled files, in the order they are
      tested, each with the MIME type it selects. */
  const MimeTable: seq<(string, string)> := [
    (".html", "text/html"),
    (".css", "text/css"),
    (".js", "application/javascript"),
    (".png", "image/png"),
    (".gif", "image/gif"),
    (".svg", "image/svg+xml"),
    (".manifest", "text/cache-manifest")
  ]

  const KnownMimeTypes: set<string> := {"text/html", "text/css", "application/javascript", "image/png",
                                         "image/gif", "image/svg+xml", "text/cache-manifest"}

  /** The suffix tests, in their order, on a file name. */
  function MimeTypeForFilename(filename: string): (mime: string)
    ensures mime in KnownMimeTypes
  {
    if EndsWithIgnoreAsciiCase(filename, ".html") then "text/html"
    else if EndsWithIgnoreAsciiCase(filename, ".css") then "text/css"
    else if EndsWithIgnoreAsciiCase(filename, ".js") then "application/javascript"
    else if EndsWithIgnoreAsciiCase(filename, ".png") then "image/png"
    else if EndsWithIgnoreAsciiCase(filename, ".gif") then "image/gif"
    else if EndsWithIgnoreAsciiCase(filename, ".svg") then "image/svg+xml"
    else if EndsWithIgnoreAsciiCase(filename, ".manifest") then "text/cache-manifest"
    else "text/html"
  }

  function GetMimeTypeForPath(path: string): (mime: string)
    ensures mime in KnownMimeTypes
  {
    MimeTypeForFilename(PathWithoutParams(path))
  }

  /** The seven MIME types are exactly those of the table. */
  lemma KnownMimeTypesAreTheTable()
    ensures |MimeTable| == 7
    ensures forall i :: 0 <= i < |MimeTable| ==> MimeTable[i].1 in KnownMimeTypes
    ensures forall m :: m in KnownMimeTypes ==> exists i :: 0 <= i < |MimeTable| && MimeTable[i].1 == m
  {
    forall m | m in KnownMimeTypes ensures exists i :: 0 <= i < |MimeTable| && MimeTable[i].1 == m {
      if m == "text/html" { assert MimeTable[0].1 == m; }
      else if m == "text/css" { assert MimeTable[1].1 == m; }
      else if m == "application/javascript" { assert MimeTable[2].1 == m; }
      else if m == "image/png" { assert MimeTable[3].1 == m; }
      else if m == "image/gif" { assert MimeTable[4].1 == m; }
      else if m == "image/svg+xml" { assert MimeTable[5].1 == m; }
      else { assert MimeTable[6].1 == m; }
    }
  }

  /** When `s` ends with `suffix` (ignoring ASCII case), the `k`-th
      characters from the end agree after lower-casing. */
  lemma SuffixCharAgrees(s: string, suffix: string, k: nat)
    requires EndsWithIgnoreAsciiCase(s, suffix)
    requires k < |suffix|
    ensures ToLowerAscii(s[|s| - 1 - k]) == ToLowerAscii(suffix[|suffix| - 1 - k])
  {
    assert s[|s| - |suffix| + (|suffix| - 1 - k)] == s[|s| - 1 - k];
  }

  /** Two suffixes whose `k`-th characters from the end differ cannot both
      end the same string. */
  lemma SuffixesExclude(s: string, a: string, b: string, k: nat)
    requires EndsWithIgnoreAsciiCase(s, a)
    requires k < |a| && k < |b|
    requires ToLowerAscii(a[|a| - 1 - k]) != ToLowerAscii(b[|b| - 1 - k])
    ensures !EndsWithIgnoreAsciiCase(s, b)
  {
    SuffixCharAgrees(s, a, k);
    if EndsWithIgnoreAsciiCase(s, b) {
      SuffixCharAgrees(s, b, k);
    }
  }

  /** The last two characters (lower-cased) of each suffix of the table
      already tell the suffixes apart. */
  lemma {:induction false} TableSuffixesExclusive(f: string, i: nat, j: nat)
    requires i < |MimeTable| && j < |MimeTable| && i != j
    requires EndsWithIgnoreAsciiCase(f, MimeTable[i].0)
    ensures !EndsWithIgnoreAsciiCase(f, MimeTable[j].0)
  {
    var a, b := MimeTable[i].0, MimeTable[j].0;
    assert ToLowerAscii(a[|a| - 1]) != ToLowerAscii(b[|b| - 1])
        || ToLowerAscii(a[|a| - 2]) != ToLowerAscii(b[|b| - 2]);
    if ToLowerAscii(a[|a| - 1]) != ToLowerAscii(b[|b| - 1]) {
      SuffixesExclude(f, a, b, 0);
    } else {
      SuffixesExclude(f, a, b, 1);
    }
  }

  /** A file name ending in one of the table's suffixes gets that suffix's
      MIME type: no two suffixes of the table can end the same name, so the
      order of the tests does not matter. */
  lemma {:induction false} MimeTypeFollowsTable(path: string, i: nat)
    requires i < |MimeTable|
    requires EndsWithIgnoreAsciiCase(PathWithoutParams(path), MimeTable[i].0)
    ensures GetMimeTypeForPath(path) == MimeTable[i].1
  {
    var f := PathWithoutParams(path);
    forall j | 0 <= j < i ensures !EndsWithIgnoreAsciiCase(f, MimeTable[j].0) {
      TableSuffixesExclusive(f, i, j);
    }
    if i == 0 {
    } else if i == 1 {
      assert !EndsWithIgnoreAsciiCase(f, MimeTable[0].0);
    } else if i == 2 {
      assert !EndsWithIgnoreAsciiCase(f, MimeTable[0].0) && !EndsWithIgnoreAsciiCase(f, MimeTable[1].0);
    } else {
      assert !EndsWithIgnoreAsciiCase(f, MimeTable[0].0) && !EndsWithIgnoreAsciiCase(f, MimeTable[1].0);
      assert !EndsWithIgnoreAsciiCase(f, MimeTable[2].0);
      if i > 3 { assert !EndsWithIgnoreAsciiCase(f, MimeTable[3].0); }
      if i > 4 { assert !EndsWithIgnoreAsciiCase(f, MimeTable[4].0); }
      if i > 5 { assert !EndsWithIgnoreAsciiCase(f, MimeTable[5].0); }
    }
  }

  /** A file name with none of the table's suffixes is served as HTML. */
  lemma MimeTypeDefault(path: string)
    requires forall i :: 0 <= i < |MimeTable| ==> !EndsWithIgnoreAsciiCase(PathWithoutParams(path), MimeTable[i].0)
    ensures GetMimeTypeForPath(path) == "text/html"
  {
    var f := PathWithoutParams(path);
    assert !EndsWithIgnoreAsciiCase(f, MimeTable[1].0) && !EndsWithIgnoreAsciiCase(f, MimeTable[2].0);
    assert !EndsWithIgnoreAsciiCase(f, MimeTable[3].0) && !EndsWithIgnoreAsciiCase(f, MimeTable[4].0);
    assert !EndsWithIgnoreAsciiCase(f, MimeTable[5].0) && !EndsWithIgnoreAsciiCase(f, MimeTable[6].0);
  }

  /** Text after the first `?` or `#` never reaches the suffix test. */
  lemma {:induction false} PathWithoutParamsCutsAt(name: string, c: char, rest: string)
    requires '?' !in name && '#' !in name
    requires c == '?' || c == '#'
    ensures PathWithoutParams(name + [c] + rest) == name
  {
    if name != [] {
      assert (name + [c] + rest)[1..] == name[1..] + [c] + rest;
      PathWithoutParamsCutsAt(name[1..], c, rest);
    }
  }

  /** A path without `?` and `#` is kept whole. */
  lemma PathWithoutParamsKeepsPlainPath(name: string)
    requires '?' !in name && '#' !in name
    ensures PathWithoutParams(name) == name
  {
  }

  /** The MIME type is a function of the path without its parameters. */
  lemma MimeTypeDependsOnFilename(p: string, q: string)
    requires PathWithoutParams(p) == PathWithoutParams(q)
    ensures GetMimeTypeForPath(p) == GetMimeTypeForPath(q)
  {
  }

  /** Query and fragment text never change the MIME type, and stripping
      them first changes nothing. */
  lemma MimeTypeIgnoresParams(name: string, c: char, rest: string)
    requires '?' !in name && '#' !in name
    requires c == '?' || c == '#'
    ensures GetMimeTypeForPath(name + [c] + rest) == GetMimeTypeForPath(name)
    ensures GetMimeTypeForPath(PathWithoutParams(name + [c] + rest)) == GetMimeTypeForPath(name + [c] + rest)
  {
    var path := name + [c] + rest;
    PathWithoutParamsCutsAt(name, c, rest);
    PathWithoutParamsKeepsPlainPath(name);
    MimeTypeDependsOnFilename(path, name);
    MimeTypeDependsOnFilename(PathWithoutParams(path), path);
  }

  lemma {:induction false} PathWithoutParamsLowered(path: string)
    ensures PathWithoutParams(LowerAscii(path)) == LowerAscii(PathWithoutParams(path))
  {
    if path != [] {
      assert LowerAscii(path)[1..] == LowerAscii(path[1..]);
      PathWithoutParamsLowered(path[1..]);
      if !(path[0] == '?' || path[0] == '#') {
        assert LowerAscii([path[0]] + PathWithoutParams(path[1..]))
            == [ToLowerAscii(path[0])] + LowerAscii(PathWithoutParams(path[1..]));
      }
    }
  }

  lemma EndsWithLowered(s: string, suffix: string)
    ensures EndsWithIgnoreAsciiCase(LowerAscii(s), suffix) == EndsWithIgnoreAsciiCase(s, suffix)
  {
    if |suffix| <= |s| {
      assert LowerAscii(LowerAscii(s)[|s| - |suffix|..]) == LowerAscii(s[|s| - |suffix|..]);
    }
  }

  /** The MIME type does not depend on the ASCII case of the path. */
  lemma MimeTypeIgnoresCase(path: string)
    ensures GetMimeTypeForPath(LowerAscii(path)) == GetMimeTypeForPath(path)
  {
    PathWithoutParamsLowered(path);
    var f := PathWithoutParams(path);
    EndsWithLowered(f, ".html");
    EndsWithLowered(f, ".css");
    EndsWithLowered(f, ".js");
    EndsWithLowered(f, ".png");
    EndsWithLowered(f, ".gif");
    EndsWithLowered(f, ".svg");
    EndsWithLowered(f, ".manifest");
  }

  /** A name ending in a table suffix, followed by a query or fragment,
      gets that suffix's MIME type. */
  lemma MimeTypeOfNameWithParams(name: string, c: char, rest: string, i: nat)
    requires '?' !in name && '#' !in name
    requires c == '?' || c == '#'
    requires i < |MimeTable| && EndsWithIgnoreAsciiCase(name, MimeTable[i].0)
    ensures GetMimeTypeForPath(name + [c] + rest) == MimeTable[i].1
  {
    PathWithoutParamsCutsAt(name, c, rest);
    MimeTypeFollowsTable(name + [c] + rest, i);
  }

  lemma MimeTypeExampleUpperCaseWithQuery()
    ensures GetMimeTypeForPath("Viewer.JS?v=2") == "application/javascript"
  {
    var name := "Viewer.JS";
    assert name + ['?'] + "v=2" == "Viewer.JS?v=2";
    assert MimeTable[2] == (".js", "application/javascript");
    assert ToLowerAscii(name[7]) == 'j' && ToLowerAscii(name[8]) == 's';
    MimeTypeOfNameWithParams(name, '?', "v=2", 2);
  }

  lemma MimeTypeExampleFragment()
    ensures GetMimeTypeForPath("icon.SvG#top") == "image/svg+xml"
  {
    var name := "icon.SvG";
    assert name + ['#'] + "top" == "icon.SvG#top";
    assert MimeTable[5] == (".svg", "image/svg+xml");
    assert ToLowerAscii(name[5]) == 's' && ToLowerAscii(name[7]) == 'g';
    MimeTypeOfNameWithParams(name, '#', "top", 5);
  }

  lemma FilenameExampleDefault()
    ensures MimeTypeForFilename("data.json") == "text/html"
  {
    var name := "data.json";
    assert ToLowerAscii(name[8]) == 'n';
    NotEndsWithAt(name, ".html", 0);
    NotEndsWithAt(name, ".css", 0);
    NotEndsWithAt(name, ".js", 0);
    NotEndsWithAt(name, ".png", 0);
    NotEndsWithAt(name, ".gif", 0);
    NotEndsWithAt(name, ".svg", 0);
    NotEndsWithAt(name, ".manifest", 0);
  }

  lemma MimeTypeExampleDefault()
    ensures GetMimeTypeForPath("data.json") == "text/html"
  {
    PathWithoutParamsKeepsPlainPath("data.json");
    FilenameExampleDefault();
  }

  /** A suffix whose `k`-th character from the end differs from the
      string's does not end it. */
  lemma NotEndsWithAt(s: string, suffix: string, k: nat)
    requires k < |suffix| <= |s|
    requires ToLowerAscii(s[|s| - 1 - k]) != ToLowerAscii(suffix[|suffix| - 1 - k])
    ensures !EndsWithIgnoreAsciiCase(s, suffix)
  {
    if EndsWithIgnoreAsciiCase(s, suffix) {
      SuffixCharAgrees(s, suffix, k);
    }
  }

  // ---------------------------------------------------------------------
  // The bundled data source

  /** One entry of the generated table of bundled viewer files. */
  datatype ResourceEntry = ResourceEntry(name: string, id: int)

  /** No two entries of the table name the same file once their path
      separators are normalised. */
  predicate DistinctPaths(resources: seq<ResourceEntry>, normalize: string -> string)
  {
    forall i, j :: 0 <= i < j < |resources| ==> normalize(resources[i].name) != normalize(resources[j].name)
  }

  /** The path-to-id table the data source builds, entry after entry. */
  function ResourceTable(resources: seq<ResourceEntry>, normalize: string -> string): map<string, int>
  {
    if resources == [] then map[]
    else
      var last := resources[|resources| - 1];
      ResourceTable(resources[..|resources| - 1], normalize)[normalize(last.name) := last.id]
  }

  /** The table's paths are exactly the normalised names of the entries. */
  lemma {:induction false} ResourceTableKeys(resources: seq<ResourceEntry>, normalize: string -> string, p: string)
    ensures p in ResourceTable(resources, normalize)
        <==> exists i :: 0 <= i < |resources| && normalize(resources[i].name) == p
  {
    if resources != [] {
      var n := |resources| - 1;
      var init := resources[..n];
      ResourceTableKeys(init, normalize, p);
      if p in ResourceTable(init, normalize) {
        var i :| 0 <= i < |init| && normalize(init[i].name) == p;
        assert resources[i] == init[i];
      }
      if exists i :: 0 <= i < |resources| && normalize(resources[i].name) == p {
        var i :| 0 <= i < |resources| && normalize(resources[i].name) == p;
        if i < n { assert resources[i] == init[i]; }
      }
    }
  }

  /** Each entry's normalised name maps to that entry's own id. */
  lemma {:induction false} ResourceTableValues(resources: seq<ResourceEntry>, normalize: string -> string, i: nat)
    requires DistinctPaths(resources, normalize)
    requires i < |resources|
    ensures normalize(resources[i].name) in ResourceTable(resources, normalize)
    ensures ResourceTable(resources, normalize)[normalize(resources[i].name)] == resources[i].id
  {
    var n := |resources| - 1;
    if i < n {
      var init := resources[..n];
      assert init[i] == resources[i];
      assert DistinctPaths(init, normalize);
      ResourceTableValues(init, normalize, i);
    }
  }

  /** The data source of the viewer's bundled files. */
  class BundledDataSource {
    var pathToResourceId: map<string, int>

    /** Maps each bundled file's normalised path to its resource id; the
        table must not name one path twice. */
    constructor (resources: seq<ResourceEntry>, normalize: string -> string)
      requires DistinctPaths(resources, normalize)
      ensures pathToResourceId == ResourceTable(resources, normalize)
    {
      pathToResourceId := map[];
      new;
      for i := 0 to |resources|
        invariant pathToResourceId == ResourceTable(resources[..i], normalize)
      {
        assert resources[..i + 1][..i] == resources[..i];
        var resourcePath := normalize(resources[i].name);
        assert resourcePath !in pathToResourceId by {
          ResourceTableKeys(resources[..i], normalize, resourcePath);
        }
        pathToResourceId := pathToResourceId[resourcePath := resources[i].id];
      }
      assert resources[..|resources|] == resources;
    }

    function GetSource(): (source: string)
      ensures source == PdfViewerHost
    {
      PdfViewerHost
    }

    function GetMimeType(path: string): (mime: string)
      ensures mime in KnownMimeTypes
    {
      GetMimeTypeForPath(path)
    }

    /** The resource ids the data callback is run with: the id of the
        requested file when the table has it, nothing otherwise. */
    function StartDataRequest(path: string): (served: seq<int>)
      reads this
      ensures |served| <= 1
      ensures |served| == 1 <==> PathWithoutParams(path) in pathToResourceId
      ensures |served| == 1 ==> served[0] == pathToResourceId[PathWithoutParams(path)]
    {
      var filename := PathWithoutParams(path);
      if filename in pathToResourceId then [pathToResourceId[filename]] else []
    }
  }

  /** After construction from the resource table, a request is answered
      exactly when its path (without query and fragment) is the normalised
      name of an entry. */
  lemma ServedResources(resources: seq<ResourceEntry>, normalize: string -> string, path: string)
    ensures PathWithoutParams(path) in ResourceTable(resources, normalize)
        <==> exists j :: 0 <= j < |resources| && normalize(resources[j].name) == PathWithoutParams(path)
  {
    ResourceTableKeys(resources, normalize, PathWithoutParams(path));
  }

  /** When no normalised path repeats, a request whose path names entry `i`
      is answered with that entry's id. */
  lemma ServedResourceId(resources: seq<ResourceEntry>, normalize: string -> string, path: string, i: nat)
    requires DistinctPaths(resources, normalize)
    requires i < |resources| && normalize(resources[i].name) == PathWithoutParams(path)
    ensures PathWithoutParams(path) in ResourceTable(resources, normalize)
    ensures ResourceTable(resources, normalize)[PathWithoutParams(path)] == resources[i].id
  {
    ResourceTableValues(resources, normalize, i);
  }

  // ---------------------------------------------------------------------
  // Routing

  /** The type of web UI for a URL: the factory's own for the viewer host,
      none otherwise. */
  datatype WebUITypeId = NoWebUI | AtomWebUI

  function GetWebUIType(url: Url): (t: WebUITypeId)
    ensures t != NoWebUI <==> url.host == PdfViewerHost
  {
    if url.host == PdfViewerHost then AtomWebUI else NoWebUI
  }

  function UseWebUIForURL(url: Url): (use: bool)
    ensures use <==> url.host == PdfViewerHost
  {
    GetWebUIType(url) != NoWebUI
  }

  function UseWebUIBindingsForURL(url: Url): (use: bool)
    ensures use <==> url.host == PdfViewerHost
  {
    UseWebUIForURL(url)
  }

  // ---------------------------------------------------------------------
  // The viewer URL's query

  /** Splits one `key=value` piece at its first `=`; a piece without `=`
      yields an empty key and value. */
  function SplitKeyValue(piece: string): (kv: (string, string))
    ensures '=' in piece ==> kv.0 + "=" + kv.1 == piece && '=' !in kv.0
    ensures '=' !in piece ==> kv == ("", "")
  {
    var i := IndexOf(piece, '=');
    if i == |piece| then ("", "")
    else
      assert piece[..i] + "=" + piece[i + 1..] == piece;
      (piece[..i], piece[i + 1..])
  }

  /** The key/value pairs of a query: its `&`-separated pieces, each split
      at its first `=`. */
  function SplitStringIntoKeyValuePairs(query: string): (pairs: seq<(string, string)>)
    ensures |pairs| == |SplitOn(query, '&')|
    ensures forall k :: 0 <= k < |pairs| ==> pairs[k] == SplitKeyValue(SplitOn(query, '&')[k])
  {
    var pieces := SplitOn(query, '&');
    seq(|pieces|, k requires 0 <= k < |pieces| => SplitKeyValue(pieces[k]))
  }

  /** The value of the last pair with `key`, or the empty string. */
  function LastValue(pairs: seq<(string, string)>, key: string): string
  {
    if pairs == [] then ""
    else if pairs[|pairs| - 1].0 == key then pairs[|pairs| - 1].1
    else LastValue(pairs[..|pairs| - 1], key)
  }

  /** `LastValue` is the value of the last pair with the key, and empty when
      no pair has it. */
  lemma {:induction false} LastValueIsLast(pairs: seq<(string, string)>, key: string, i: nat)
    requires i < |pairs| && pairs[i].0 == key
    requires forall j :: i < j < |pairs| ==> pairs[j].0 != key
    ensures LastValue(pairs, key) == pairs[i].1
  {
    if i < |pairs| - 1 {
      LastValueIsLast(pairs[..|pairs| - 1], key, i);
    }
  }

  lemma {:induction false} LastValueAbsent(pairs: seq<(string, string)>, key: string)
    requires forall j :: 0 <= j < |pairs| ==> pairs[j].0 != key
    ensures LastValue(pairs, key) == ""
  {
    if pairs != [] {
      LastValueAbsent(pairs[..|pairs| - 1], key);
    }
  }

  lemma LastValueOfAppended(pairs: seq<(string, string)>, p: (string, string), key: string)
    ensures LastValue(pairs + [p], key) == if p.0 == key then p.1 else LastValue(pairs, key)
  {
    assert (pairs + [p])[..|pairs|] == pairs;
  }

  /** One more pair of a prefix overwrites the value exactly when it has
      the key. */
  lemma LastValueOfPrefix(pairs: seq<(string, string)>, i: nat, key: string)
    requires i < |pairs|
    ensures LastValue(pairs[..i + 1], key) == if pairs[i].0 == key then pairs[i].1 else LastValue(pairs[..i], key)
  {
    assert pairs[..i + 1] == pairs[..i] + [pairs[i]];
    LastValueOfAppended(pairs[..i], pairs[i], key);
  }

  /** Pairs with other keys are ignored: only the pairs with `key`, in their
      order, decide the value. */
  function WithKey(pairs: seq<(string, string)>, key: string): (only: seq<(string, string)>)
    ensures forall j :: 0 <= j < |only| ==> only[j].0 == key
  {
    if pairs == [] then []
    else WithKey(pairs[..|pairs| - 1], key)
         + (if pairs[|pairs| - 1].0 == key then [pairs[|pairs| - 1]] else [])
  }

  lemma {:induction false} LastValueIgnoresOtherKeys(pairs: seq<(string, string)>, key: string)
    ensures LastValue(pairs, key) == LastValue(WithKey(pairs, key), key)
  {
    if pairs != [] {
      var init := pairs[..|pairs| - 1];
      var last := pairs[|pairs| - 1];
      LastValueIgnoresOtherKeys(init, key);
      if last.0 == key {
        LastValueOfAppended(WithKey(init, key), last, key);
      } else {
        assert WithKey(pairs, key) == WithKey(init, key);
      }
    }
  }

  /** Swapping two neighbouring pairs with different keys changes neither
      value, so the relative order of `streamURL` and `originalURL` pairs
      (and of any other pairs) is irrelevant. */
  lemma {:induction false} LastValueSwapDistinctKeys(
    a: seq<(string, string)>, x: (string, string), y: (string, string), b: seq<(string, string)>, key: string)
    requires x.0 != y.0
    ensures LastValue(a + [x, y] + b, key) == LastValue(a + [y, x] + b, key)
  {
    if b == [] {
      assert a + [x, y] + b == (a + [x]) + [y];
      assert a + [y, x] + b == (a + [y]) + [x];
      LastValueOfAppended(a + [x], y, key);
      LastValueOfAppended(a + [y], x, key);
      LastValueOfAppended(a, x, key);
      LastValueOfAppended(a, y, key);
    } else {
      var init := b[..|b| - 1];
      var last := b[|b| - 1];
      assert a + [x, y] + b == (a + [x, y] + init) + [last];
      assert a + [y, x] + b == (a + [y, x] + init) + [last];
      LastValueOfAppended(a + [x, y] + init, last, key);
      LastValueOfAppended(a + [y, x] + init, last, key);
      LastValueSwapDistinctKeys(a, x, y, init, key);
    }
  }

  // ---------------------------------------------------------------------
  // The viewer's web UI controller

  /** The viewer's web UI controller: it keeps the stream URL and the
      original URL it was created with. */
  datatype PdfViewerUI = PdfViewerUI(streamUrl: string, originalUrl: string)

  /** The controller for a URL: a viewer UI for the viewer host, built from
      the last `streamURL` and `originalURL` values of the query (empty when
      missing); no controller for any other host. */
  method CreateWebUIControllerForURL(url: Url) returns (controller: Option<PdfViewerUI>)
    ensures controller.Some? <==> UseWebUIForURL(url)
    ensures controller.Some? ==>
      var params := SplitStringIntoKeyValuePairs(url.query);
      controller.value == PdfViewerUI(LastValue(params, "streamURL"), LastValue(params, "originalURL"))
  {
    if url.host == PdfViewerHost {
      var params := SplitStringIntoKeyValuePairs(url.query);
      var streamUrl, originalUrl := "", "";
      for i := 0 to |params|
        invariant streamUrl == LastValue(params[..i], "streamURL")
        invariant originalUrl == LastValue(params[..i], "originalURL")
      {
        LastValueOfPrefix(params, i, "streamURL");
        LastValueOfPrefix(params, i, "originalURL");
        if params[i].0 == "streamURL" {
          streamUrl := params[i].1;
        } else if params[i].0 == "originalURL" {
          originalUrl := params[i].1;
        }
      }
      assert params[..|params|] == params;
      controller := Some(PdfViewerUI(streamUrl, originalUrl));
    } else {
      controller := None;
    }
  }

  /** The page's `initialize` message makes the controller call the page's
      `main` with the original URL in both argument positions; the stream
      URL is never sent. */
  function OnInitialize(ui: PdfViewerUI, args: seq<Value>): (sent: seq<PageMessage>)
    ensures |sent| == 1 && sent[0].CallFunction? && sent[0].name == "main"
    ensures sent[0].args == [Str(ui.originalUrl), Str(ui.originalUrl)]
  {
    [CallFunction("main", [Str(ui.originalUrl), Str(ui.originalUrl)])]
  }

  lemma OnInitializeIgnoresStreamUrl(ui: PdfViewerUI, otherStreamUrl: string, args: seq<Value>)
    ensures OnInitialize(ui.(streamUrl := otherStreamUrl), args) == OnInitialize(ui, args)
  {
  }
}
