/**
 * The string helpers of the plant-image downloader
 * (download_plant_images.py): the image file name of a plant, the rewrite
 * of a thumbnail URL to the original, the file extension, and the list of
 * encyclopedia titles tried for a plant, first hit wins.
 */
module PlantImages {
  import opened Wrappers
  import opened PyStr

  /** What `get_plant_filename` makes of one character. */
  function FileChar(c: char): string
  {
    if c == ' ' || c == '/' then "_" else if c == '.' then "" else [c]
  }

  /** The character-by-character reading of `get_plant_filename`. */
  function FileChars(s: string): (r: string)
    ensures ' ' !in r && '.' !in r && '/' !in r
    ensures |r| == |s| - Count(s, '.')
  {
    if |s| == 0 then [] else FileChar(s[0]) + FileChars(s[1..])
  }

  lemma {:induction false} FileCharsAppend(a: string, b: string)
    ensures FileChars(a + b) == FileChars(a) + FileChars(b)
  {
    if |a| > 0 {
      assert (a + b)[1..] == a[1..] + b;
      FileCharsAppend(a[1..], b);
    } else {
      assert a + b == b;
    }
  }

  /** Text with no space, dot or slash is its own file name. */
  lemma {:induction false} FileCharsPlain(s: string)
    requires ' ' !in s && '.' !in s && '/' !in s
    ensures FileChars(s) == s
  {
    if |s| > 0 {
      assert s[0] in s;
      assert ' ' !in s[1..] && '.' !in s[1..] && '/' !in s[1..];
      FileCharsPlain(s[1..]);
      assert [s[0]] + s[1..] == s;
    }
  }

  /** The three chained replaces act on each character independently. */
  lemma {:induction false} ChainIsFileChars(s: string)
    ensures ReplaceChar(ReplaceChar(ReplaceChar(s, ' ', "_"), '.', ""), '/', "_") == FileChars(s)
  {
    if |s| > 0 {
      var c, rest := s[0], s[1..];
      var a := ReplaceChar(s, ' ', "_");
      assert a == (if c == ' ' then "_" else [c]) + ReplaceChar(rest, ' ', "_");
      ReplaceCharAppend(if c == ' ' then "_" else [c], ReplaceChar(rest, ' ', "_"), '.', "");
      var b := ReplaceChar(a, '.', "");
      ReplaceCharAppend(ReplaceChar(if c == ' ' then "_" else [c], '.', ""), ReplaceChar(ReplaceChar(rest, ' ', "_"), '.', ""), '/', "_");
      ChainIsFileChars(rest);
    }
  }

  /** `get_plant_filename`: spaces and slashes become `_`, dots are dropped. */
  function PlantFilename(name: string): (r: string)
    ensures r == FileChars(name)
    ensures ' ' !in r && '.' !in r && '/' !in r
    ensures |r| == |name| - Count(name, '.')
  {
    ChainIsFileChars(name);
    ReplaceChar(ReplaceChar(ReplaceChar(name, ' ', "_"), '.', ""), '/', "_")
  }

  /** A file name is its own file name. */
  lemma PlantFilenameIdempotent(name: string)
    ensures PlantFilename(PlantFilename(name)) == PlantFilename(name)
  {
    FileCharsPlain(PlantFilename(name));
  }

  /** Names that differ only in spaces versus slashes, or in dots, share a file. */
  lemma FilenameCollides()
    ensures PlantFilename("a b.") == PlantFilename("a/b")
  {
    FileCharsCons('a', " b.");
    FileCharsCons(' ', "b.");
    FileCharsCons('b', ".");
    FileCharsCons('.', "");
    FileCharsCons('a', "/b");
    FileCharsCons('/', "b");
    FileCharsCons('b', "");
  }

  lemma FileCharsCons(c: char, s: string)
    ensures FileChars([c] + s) == FileChar(c) + FileChars(s)
  {
    assert ([c] + s)[1..] == s;
  }

  /**
   * The thumbnail rewrite: when `/thumb/` occurs, every `/thumb/` becomes `/`
   * and the last `/`-segment is cut off.
   */
  function OriginalImageUrl(url: string): (r: string)
    ensures !Contains(url, "/thumb/") ==> r == url
    ensures Contains(url, "/thumb/") ==>
      |r| < |url|
      && exists tail :: Replace(url, "/thumb/", "/") == r + "/" + tail && '/' !in tail
  {
    if Contains(url, "/thumb/") then
      CutLastSegment(url);
      BeforeLast(Replace(url, "/thumb/", "/"), '/')
    else url
  }

  /** After the replace, cutting at the last `/` drops one `/`-free segment and shortens the URL. */
  lemma CutLastSegment(url: string)
    requires Contains(url, "/thumb/")
    ensures var replaced := Replace(url, "/thumb/", "/");
      var r := BeforeLast(replaced, '/');
      |r| < |replaced| <= |url| && replaced == r + "/" + replaced[|r| + 1..] && '/' !in replaced[|r| + 1..]
  {
    var replaced := Replace(url, "/thumb/", "/");
    ReplacedHasSlash(url);
    var r := BeforeLast(replaced, '/');
    assert replaced == r + "/" + replaced[|r| + 1..];
  }

  /** The replace keeps a `/` where `/thumb/` was, and does not lengthen the URL. */
  lemma ReplacedHasSlash(url: string)
    requires Contains(url, "/thumb/")
    ensures '/' in Replace(url, "/thumb/", "/") && |Replace(url, "/thumb/", "/")| <= |url|
  {
    ReplaceShrinks(url, "/thumb/", "/");
    ReplacePresent(url, "/thumb/", "/");
    ContainsSlash(Replace(url, "/thumb/", "/"));
  }

  /** The rewrite on a short thumbnail path: the size-prefixed last segment goes. */
  lemma ThumbnailExample()
    ensures OriginalImageUrl("c/thumb/x/9px") == "c/x"
  {
    var url := "c/thumb/x/9px";
    assert url[1..][..7] == "/thumb/";
    assert Contains(url[1..], "/thumb/");
    assert Replace(url[8..], "/thumb/", "/") == "x/9px";
    assert Replace(url[1..], "/thumb/", "/") == "/x/9px";
    assert Replace(url, "/thumb/", "/") == "c/x/9px";
    assert BeforeLast("c/x/9px", '/') == "c/x" by {
      assert "c/x/9px"[3] == '/' && '/' !in "c/x/9px"[4..];
    }
  }

  /** A text that contains `/` holds the character `/`. */
  lemma ContainsSlash(s: string)
    requires Contains(s, "/")
    ensures '/' in s
  {
    if |s| >= 1 && s[..1] == "/" {
      assert s[0] == '/';
    } else {
      ContainsSlash(s[1..]);
      assert s[1..][0] in s[1..];
    }
  }

  /** The extension chosen for the downloaded file. */
  function ImageExtension(url: string): (r: string)
    ensures r == "png" <==> Contains(Lower(url), ".png")
    ensures r == "webp" <==> !Contains(Lower(url), ".png") && Contains(Lower(url), ".webp")
    ensures r == "jpg" <==> !Contains(Lower(url), ".png") && !Contains(Lower(url), ".webp")
    ensures '.' !in r
  {
    var lower := Lower(url);
    if Contains(lower, ".png") then "png"
    else if Contains(lower, ".webp") then "webp"
    else "jpg"
  }

  /** The choice ignores upper and lower case. */
  lemma ExtensionIgnoresCase(url: string)
    ensures ImageExtension(Lower(url)) == ImageExtension(url)
  {
    LowerIdempotent(url);
  }

  /** `f"{filename}.{ext}"`: the only dot of the target file name is the one before the extension. */
  function ImageFile(plantName: string, url: string): (r: string)
    ensures Count(r, '.') == 1
  {
    var name := PlantFilename(plantName);
    var ext := ImageExtension(url);
    CountAbsent(name, '.');
    CountAbsent(ext, '.');
    CountAppend(name + ".", ext, '.');
    CountAppend(name, ".", '.');
    name + "." + ext
  }

  lemma {:induction false} CountAppend(a: string, b: string, c: char)
    ensures Count(a + b, c) == Count(a, c) + Count(b, c)
  {
    if |a| > 0 {
      assert (a + b)[1..] == a[1..] + b;
      CountAppend(a[1..], b, c);
    } else {
      assert a + b == b;
    }
  }

  /** The encyclopedia titles tried for the known plants. */
  const PlantMapping: map<string, seq<string>> := map[
    "Monstera deliciosa" := ["Monstera_deliciosa", "Faux_philodendron"],
    "Ficus benjamina" := ["Ficus_benjamina"],
    "Epipremnum aureum" := ["Epipremnum_aureum"],
    "Dracaena marginata" := ["Dracaena_marginata", "Dracaena", "Dracena_marginata"],
    "Sansevieria trifasciata" := ["Sansevieria_trifasciata"],
    "Spathiphyllum spp." := ["Spathiphyllum"],
    "Chlorophytum comosum" := ["Chlorophytum_comosum"],
    "Zamioculcas zamiifolia" := ["Zamioculcas_zamiifolia"],
    "Aloe vera" := ["Aloe_vera"]
  ]

  /** The titles for a plant: its mapping entry, else the name with spaces as `_`. */
  function WikiNames(plantName: string): (r: seq<string>)
    ensures plantName in PlantMapping ==> r == PlantMapping[plantName]
    ensures plantName !in PlantMapping ==> r == [ReplaceChar(plantName, ' ', "_")] && ' ' !in r[0]
  {
    if plantName in PlantMapping then PlantMapping[plantName]
    else
      SpacesReplaced(plantName);
      [ReplaceChar(plantName, ' ', "_")]
  }

  lemma {:induction false} SpacesReplaced(s: string)
    ensures ' ' !in ReplaceChar(s, ' ', "_")
  {
    if |s| > 0 {
      SpacesReplaced(s[1..]);
    }
  }

  /** A URL the loop accepts: present and not empty. */
  predicate Truthy(url: Option<string>)
  {
    url.Some? && url.value != ""
  }

  /** The position of the first title whose lookup gives a usable URL. */
  function FirstHit(names: seq<string>, lookup: string -> Option<string>, from: nat): (r: Option<nat>)
    requires from <= |names|
    ensures r.Some? ==>
      from <= r.value < |names| && Truthy(lookup(names[r.value]))
      && forall j :: from <= j < r.value ==> !Truthy(lookup(names[j]))
    ensures r.None? ==> forall j :: from <= j < |names| ==> !Truthy(lookup(names[j]))
    decreases |names| - from
  {
    if from == |names| then None
    else if Truthy(lookup(names[from])) then Some(from)
    else FirstHit(names, lookup, from + 1)
  }

  /**
   * The `for wiki_name in wiki_names` loop: `lookup` stands for the
   * encyclopedia query.  The result is the variable after the loop; it is
   * usable exactly when some title hit, and then it is the first hit's URL.
   */
  method FindImageUrl(names: seq<string>, lookup: string -> Option<string>) returns (imageUrl: Option<string>)
    ensures Truthy(imageUrl) <==> FirstHit(names, lookup, 0).Some?
    ensures Truthy(imageUrl) ==> imageUrl == lookup(names[FirstHit(names, lookup, 0).value])
  {
    imageUrl := None;
    var i := 0;
    while i < |names|
      invariant 0 <= i <= |names|
      invariant FirstHit(names, lookup, 0) == FirstHit(names, lookup, i)
      invariant !Truthy(imageUrl)
    {
      imageUrl := lookup(names[i]);
      if Truthy(imageUrl) {
        return;
      }
      i := i + 1;
    }
  }
}
