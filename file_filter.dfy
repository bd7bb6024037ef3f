/**
 * `imageFileFilter`: the multer file filter that admits only names ending in an image
 * extension.  The regular expression is anchored by `$` alone and has no `i` flag, so it is a
 * case-sensitive suffix test on the original file name.
 */
module FileFilter {
  import opened Wrappers
  import opened Exceptions
  import opened Strings

  const IMAGE_EXTENSIONS: seq<string> := [".jpg", ".jpeg", ".png", ".webp", ".ico"]
  const REJECTION_MESSAGE: string := "Only image files are allowed!"

  predicate IsImageName(originalname: string) {
    exists i :: 0 <= i < |IMAGE_EXTENSIONS| && EndsWith(originalname, IMAGE_EXTENSIONS[i])
  }

  /** The arguments of the single callback invocation: `cb(error, acceptFile)`. */
  datatype FilterCallback = FilterCallback(error: Option<Exception>, acceptFile: bool)

  function ImageFileFilter(originalname: string): (cb: FilterCallback)
    ensures cb.acceptFile <==> IsImageName(originalname)
    ensures cb.acceptFile ==> cb.error.None?
    ensures !cb.acceptFile ==> cb.error == Some(BadRequest(REJECTION_MESSAGE))
  {
    if !IsImageName(originalname) then FilterCallback(Some(BadRequest(REJECTION_MESSAGE)), false)
    else FilterCallback(None, true)
  }

  /** Upper-case extensions are refused. */
  lemma UpperCaseRejected()
    ensures ImageFileFilter("A.JPG") == FilterCallback(Some(BadRequest(REJECTION_MESSAGE)), false)
  {
    var name := "A.JPG";
    forall i | 0 <= i < |IMAGE_EXTENSIONS| ensures !EndsWith(name, IMAGE_EXTENSIONS[i]) {
      var ext := IMAGE_EXTENSIONS[i];
      if |ext| <= |name| {
        assert name[|name| - |ext|..][|ext| - 1] != ext[|ext| - 1];
      }
    }
  }

  /** Only the final suffix counts: an image extension followed by another one is refused. */
  lemma TrailingExtensionRejected()
    ensures !ImageFileFilter("a.jpg.exe").acceptFile
  {
    var name := "a.jpg.exe";
    forall i | 0 <= i < |IMAGE_EXTENSIONS| ensures !EndsWith(name, IMAGE_EXTENSIONS[i]) {
      var ext := IMAGE_EXTENSIONS[i];
      assert name[|name| - |ext|..][|ext| - 1] != ext[|ext| - 1];
    }
  }

  /** ... and any name that ends in one is admitted, whatever precedes it. */
  lemma EndingInImageAccepted(stem: string, i: int)
    requires 0 <= i < |IMAGE_EXTENSIONS|
    ensures ImageFileFilter(stem + IMAGE_EXTENSIONS[i]) == FilterCallback(None, true)
  {
    var name := stem + IMAGE_EXTENSIONS[i];
    assert name[|name| - |IMAGE_EXTENSIONS[i]|..] == IMAGE_EXTENSIONS[i];
  }

  lemma DoubleExtensionAccepted()
    ensures ImageFileFilter("a.exe.png").acceptFile
  {
    EndingInImageAccepted("a.exe", 2);
    assert "a.exe" + IMAGE_EXTENSIONS[2] == "a.exe.png";
  }
}
