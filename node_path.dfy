/**
 * `path.extname` of Node.js on POSIX paths: the extension of the last path segment (trailing
 * slashes ignored), from its last dot.  A segment without a dot, one whose only dot is its
 * first character, and the segment ".." have none.
 */
module NodePath {
  import opened Strings

  /** The path without its trailing slashes. */
  function TrimTrailingSlashes(path: string): (r: string)
    ensures |r| <= |path| && r == path[..|r|]
    ensures r == [] || r[|r| - 1] != '/'
    ensures '/' !in path ==> r == path
    decreases |path|
  {
    if path != [] && path[|path| - 1] == '/' then
      var r := TrimTrailingSlashes(path[..|path| - 1]);
      assert path[..|path| - 1][..|r|] == path[..|r|];
      r
    else path
  }

  /** The last segment of the path. */
  function BaseName(path: string): (r: string)
    ensures '/' !in r
    ensures '/' !in path ==> r == path
  {
    var trimmed := TrimTrailingSlashes(path);
    trimmed[LastIndexOf(trimmed, '/') + 1..]
  }

  function ExtName(path: string): (r: string)
    ensures r == [] || (r[0] == '.' && '.' !in r[1..] && '/' !in r)
    ensures r != [] ==> |r| < |BaseName(path)| && BaseName(path)[|BaseName(path)| - |r|..] == r
  {
    var base := BaseName(path);
    var dot := LastIndexOf(base, '.');
    if dot <= 0 || base == ".." then ""
    else
      assert forall k :: 0 <= k < |base[dot..]| ==> base[dot..][k] == base[dot + k];
      assert base[dot..][1..] == base[dot + 1..];
      base[dot..]
  }

  /**
   * The extension is taken from the last dot: a non-empty, slash-free stem (dots allowed)
   * followed by a dot and a dot-free tail has exactly that tail as its extension, the name ".."
   * alone excepted.
   */
  lemma ExtNameOfLastDot(stem: string, ext: string)
    requires stem != [] && '/' !in stem
    requires ext != [] && ext[0] == '.' && '.' !in ext[1..] && '/' !in ext
    requires stem + ext != ".."
    ensures ExtName(stem + ext) == ext
  {
    var path := stem + ext;
    assert '/' !in path;
    assert BaseName(path) == path;
    var k := |stem|;
    assert path[k] == '.';
    assert path[k + 1..] == ext[1..];
    LastIndexOfAt(path, '.', k);
    assert path[k..] == ext;
  }

  /** "a.exe.png" has extension ".png": only the last dot counts. */
  lemma DoubleExtensionExample()
    ensures ExtName("a.exe" + ".png") == ".png"
  {
    var ext := ".png";
    assert ext[1..] == "png";
    ExtNameOfLastDot("a.exe", ext);
  }

  /**
   * Appending an extension to a non-empty name free of dots and slashes gives a path whose
   * extension is exactly that one.
   */
  lemma ExtNameOfSuffixed(stem: string, ext: string)
    requires stem != [] && '.' !in stem && '/' !in stem
    requires ext == [] || (ext[0] == '.' && '.' !in ext[1..] && '/' !in ext)
    ensures ExtName(stem + ext) == ext
  {
    if ext == [] {
      assert stem + ext == stem;
      assert BaseName(stem) == stem;
    } else {
      assert (stem + ext)[0] == stem[0] && stem[0] in stem;
      ExtNameOfLastDot(stem, ext);
    }
  }

  /** A name that is nothing but an extension has none. */
  lemma DotFileHasNoExtension(rest: string)
    requires '.' !in rest && '/' !in rest
    ensures ExtName("." + rest) == ""
  {
    var path := "." + rest;
    assert '/' !in path;
    assert path[1..] == rest;
    LastIndexOfAt(path, '.', 0);
  }
}
