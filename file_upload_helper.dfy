/**
 * `FileUploadHelper`: the upload limits, the name a stored file gets, and the records returned
 * for uploaded files.  The clock reading and the uuid are parameters; creating the destination
 * directory is not modelled.
 */
module FileUploadHelper {
  import opened Wrappers
  import opened Exceptions
  import opened Strings
  import opened NodePath
  import FileFilter

  /** The size limit multer enforces on each upload: 20 MiB. */
  const MAX_FILE_SIZE: int := 20 * 1024 * 1024

  /** What multer reports for one uploaded file; `filename` is set by disk storage. */
  datatype MulterFile = MulterFile(originalname: string, filename: Option<string>, size: int, mimetype: string)

  /** The record `uploadSingle` returns. */
  datatype FileInfo = FileInfo(originalName: string, filename: string, path: string, size: int, mimetype: string)

  const UPLOAD_FILE_ERROR: string := "Error uploading file"
  const UPLOAD_FILES_ERROR: string := "Error uploading files"

  /** The date half of `new Date().toISOString()`: everything before the first 'T'. */
  function DatePart(iso: string): (r: string)
    ensures 'T' !in r && StartsWith(iso, r)
    ensures |r| < |iso| ==> iso[|r|] == 'T'
  {
    SplitHead(iso, 'T');
    Split(iso, 'T')[0]
  }

  /**
   * The time half of a second `new Date().toISOString()`: the text between the first 'T' and
   * the next '.', with every ':' replaced by '-'.
   */
  function TimePart(iso: string): (r: string)
    requires 'T' in iso
    ensures '.' !in r && ':' !in r
  {
    SplitAtSeparator(iso, 'T');
    var clock := Split(Split(iso, 'T')[1], '.')[0];
    var r := ReplaceAll(clock, ':', '-');
    assert '.' !in clock;
    assert forall k :: 0 <= k < |r| ==> r[k] != '.' && r[k] != ':';
    r
  }

  /**
   * The disk storage's `filename` callback: date, time and uuid joined by '-', followed by the
   * extension of the original name.  The callback reads the clock twice, once for the date and
   * once for the time, so the two halves come from two readings.
   */
  function StoredFilename(dateIso: string, timeIso: string, uuid: string, originalname: string): (r: string)
    requires 'T' in timeIso
    ensures StartsWith(r, DatePart(dateIso) + "-") && EndsWith(r, "-" + uuid + ExtName(originalname))
  {
    var date, time, ext := DatePart(dateIso), TimePart(timeIso), ExtName(originalname);
    Framed(date + "-", time, "-" + uuid + ext);
    assert date + "-" + time + "-" + uuid + ext == date + "-" + time + ("-" + uuid + ext);
    var uniqueSuffix := date + "-" + time + "-" + uuid;
    uniqueSuffix + ext
  }

  /** The date is the text before the 'T' of an ISO reading `<date>T<rest>`. */
  lemma DatePartOf(date: string, rest: string)
    requires 'T' !in date
    ensures DatePart(date + "T" + rest) == date
  {
    SplitAtFirst(date, rest, 'T');
  }

  /**
   * The time is the clock text of an ISO reading `<date>T<clock>.<fraction>`, with ':' turned
   * into '-'.
   */
  lemma TimePartOf(date: string, clock: string, fraction: string)
    requires 'T' !in date && 'T' !in clock && '.' !in clock
    ensures TimePart(date + "T" + clock + "." + fraction) == ReplaceAll(clock, ':', '-')
  {
    var afterT := clock + ['.'] + fraction;
    var iso := date + ['T'] + afterT;
    assert date + "T" + clock + "." + fraction == iso;
    assert iso[|date|] == 'T';
    SplitAtFirst(date, afterT, 'T');
    var tail := Split(fraction, 'T')[0];
    SplitPrefixHead(clock + ['.'], fraction, 'T');
    assert Split(iso, 'T')[1] == clock + ['.'] + tail;
    SplitAtFirst(clock, tail, '.');
    assert Split(Split(iso, 'T')[1], '.')[0] == clock;
  }

  /**
   * The stored name of an upload, from the two ISO readings `<date>T<…>` and
   * `<…>T<clock>.<fraction>`: the first reading's date, the second reading's clock with ':'
   * turned into '-', the uuid, then the original name's extension.
   */
  lemma StoredFilenameOfIso(date: string, rest: string, day: string, clock: string, fraction: string,
                            uuid: string, originalname: string)
    requires 'T' !in date && 'T' !in day && 'T' !in clock && '.' !in clock
    ensures StoredFilename(date + "T" + rest, day + "T" + clock + "." + fraction, uuid, originalname)
            == date + "-" + ReplaceAll(clock, ':', '-') + "-" + uuid + ExtName(originalname)
  {
    DatePartOf(date, rest);
    TimePartOf(day, clock, fraction);
  }

  /**
   * Around midnight the two readings can straddle the day: a date read at 23:59:59.999 and a
   * time read a millisecond later give the old day with the new day's "00-00-00".
   */
  lemma MidnightMixesDays(date: string, nextDate: string, uuid: string, originalname: string)
    requires 'T' !in date && 'T' !in nextDate
    ensures StoredFilename(date + "T" + "23:59:59.999Z", nextDate + "T" + "00:00:00" + "." + "000Z", uuid, originalname)
            == date + "-" + "00-00-00" + "-" + uuid + ExtName(originalname)
  {
    DatePartOf(date, "23:59:59.999Z");
    TimePartOf(nextDate, "00:00:00", "000Z");
    var r := ReplaceAll("00:00:00", ':', '-');
    assert r == "00-00-00";
  }

  /** A worked instance: the upload "a.png" at 2024-05-01T10:20:30.123Z. */
  lemma StoredFilenameExample(iso: string, uuid: string, name: string)
    requires iso == "2024-05-01T10:20:30.123Z" && name == "a.png"
    ensures StoredFilename(iso, iso, uuid, name) == "2024-05-01-10-20-30-" + uuid + ".png"
  {
    var date, clock, fraction := "2024-05-01", "10:20:30", "123Z";
    var prefix := "2024-05-01-10-20-30-";
    assert name == "a" + ".png";
    assert prefix == date + "-" + "10-20-30" + "-";
    assert iso == date + "T" + (clock + "." + fraction) == date + "T" + clock + "." + fraction;
    StoredFilenameOfIso(date, clock + "." + fraction, date, clock, fraction, uuid, name);
    ClockDashes();
    PngExtension();
  }

  lemma ClockDashes()
    ensures ReplaceAll("10:20:30", ':', '-') == "10-20-30"
  {
  }

  lemma PngExtension()
    ensures ExtName("a" + ".png") == ".png"
  {
    var ext := ".png";
    assert ext[1..] == "png";
    ExtNameOfSuffixed("a", ext);
  }

  /**
   * The stored name keeps the original's extension and nothing else of it, given a uuid and a
   * date free of dots and readings free of slashes.
   */
  lemma StoredFilenameKeepsExtension(dateIso: string, timeIso: string, uuid: string, originalname: string)
    requires 'T' in timeIso && '/' !in dateIso && '/' !in timeIso && '.' !in DatePart(dateIso)
    requires '.' !in uuid && '/' !in uuid
    ensures ExtName(StoredFilename(dateIso, timeIso, uuid, originalname)) == ExtName(originalname)
  {
    var date := DatePart(dateIso);
    var time := TimePart(timeIso);
    assert '/' !in date by { assert forall k :: 0 <= k < |date| ==> date[k] == dateIso[k]; }
    SplitAtSeparator(timeIso, 'T');
    SplitKeepsOut(timeIso, 'T', '/');
    SplitKeepsOut(Split(timeIso, 'T')[1], '.', '/');
    var clock := Split(Split(timeIso, 'T')[1], '.')[0];
    assert '/' !in time by {
      assert forall k :: 0 <= k < |time| ==> time[k] == '-' || time[k] == clock[k];
    }
    var stem := date + "-" + time + "-" + uuid;
    assert '.' !in stem && '/' !in stem;
    ExtNameOfSuffixed(stem, ExtName(originalname));
  }

  /**
   * A name the filter admits can still be stored without any extension: a name that is only an
   * image extension, such as ".png", is an image name to the filter and has no extension to
   * `extname`.
   */
  lemma BareExtensionStoredWithoutExtension(dateIso: string, timeIso: string, uuid: string, i: int)
    requires 'T' in timeIso && 0 <= i < |FileFilter.IMAGE_EXTENSIONS|
    ensures FileFilter.ImageFileFilter(FileFilter.IMAGE_EXTENSIONS[i]).acceptFile
    ensures StoredFilename(dateIso, timeIso, uuid, FileFilter.IMAGE_EXTENSIONS[i])
            == DatePart(dateIso) + "-" + TimePart(timeIso) + "-" + uuid
  {
    var name := FileFilter.IMAGE_EXTENSIONS[i];
    FileFilter.EndingInImageAccepted("", i);
    assert "" + name == name;
    ImageExtensionHasNoExtName(i);
    var stem := DatePart(dateIso) + "-" + TimePart(timeIso) + "-" + uuid;
    assert stem + "" == stem;
  }

  /** Each image extension, taken as a whole name, is a dot file without an extension. */
  lemma ImageExtensionHasNoExtName(i: int)
    requires 0 <= i < |FileFilter.IMAGE_EXTENSIONS|
    ensures ExtName(FileFilter.IMAGE_EXTENSIONS[i]) == ""
  {
    var name := FileFilter.IMAGE_EXTENSIONS[i];
    var rest := name[1..];
    assert name == "." + rest;
    assert '.' !in rest && '/' !in rest;
    DotFileHasNoExtension(rest);
  }

  /**
   * `uploadSingle`: the record for a stored file.  A missing file or a missing or empty
   * `filename` fails, and the failure is replaced by a 500 "Error uploading file".
   */
  function UploadSingle(file: Option<MulterFile>, destination: string): (r: Result<FileInfo, Exception>)
    ensures r.Ok? <==> file.Some? && file.value.filename.Some? && file.value.filename.value != ""
    ensures r.Err? ==> r.error == PlainHttp(UPLOAD_FILE_ERROR, 500)
    ensures r.Ok? ==> && r.value.path == destination + "/" + file.value.filename.value
                      && r.value.filename == file.value.filename.value
                      && r.value.originalName == file.value.originalname
                      && r.value.size == file.value.size && r.value.mimetype == file.value.mimetype
  {
    if file.None? || file.value.filename.None? || file.value.filename.value == "" then
      Err(PlainHttp(UPLOAD_FILE_ERROR, 500))
    else
      var f := file.value;
      Ok(FileInfo(f.originalname, f.filename.value, destination + "/" + f.filename.value, f.size, f.mimetype))
  }

  /** `Promise.all(files.map(uploadSingle))`: every record in order, or the first failure. */
  function UploadEach(files: seq<MulterFile>, destination: string): (r: Result<seq<FileInfo>, Exception>)
    ensures r.Ok? <==> forall i :: 0 <= i < |files| ==> UploadSingle(Some(files[i]), destination).Ok?
    ensures r.Ok? ==> |r.value| == |files| &&
                      forall i :: 0 <= i < |files| ==> r.value[i] == UploadSingle(Some(files[i]), destination).value
    ensures r.Err? ==> r.error == PlainHttp(UPLOAD_FILE_ERROR, 500)
    decreases |files|
  {
    if files == [] then Ok([])
    else
      match UploadSingle(Some(files[0]), destination)
      case Err(e) => Err(e)
      case Ok(info) =>
        match UploadEach(files[1..], destination)
        case Err(e) => Err(e)
        case Ok(rest) =>
          assert forall i :: 1 <= i < |files| ==> files[i] == files[1..][i - 1];
          Ok([info] + rest)
  }

  /**
   * `uploadMultiple`: one record per file in input order; any failure, including a missing file
   * list, is replaced by a 500 "Error uploading files".
   */
  function UploadMultiple(files: Option<seq<MulterFile>>, destination: string): (r: Result<seq<FileInfo>, Exception>)
    ensures r.Ok? <==> files.Some? && forall i :: 0 <= i < |files.value| ==> UploadSingle(Some(files.value[i]), destination).Ok?
    ensures r.Ok? ==> |r.value| == |files.value| &&
                      forall i :: 0 <= i < |files.value| ==> r.value[i] == UploadSingle(Some(files.value[i]), destination).value
    ensures r.Err? ==> r.error == PlainHttp(UPLOAD_FILES_ERROR, 500)
  {
    match files
    case None => Err(PlainHttp(UPLOAD_FILES_ERROR, 500))
    case Some(fs) =>
      match UploadEach(fs, destination)
      case Err(_) => Err(PlainHttp(UPLOAD_FILES_ERROR, 500))
      case Ok(infos) => Ok(infos)
  }

  /** One file without a stored name fails the whole batch, whatever surrounds it. */
  lemma OneBadFileFailsBatch(before: seq<MulterFile>, bad: MulterFile, after: seq<MulterFile>, destination: string)
    requires bad.filename.None? || bad.filename == Some("")
    ensures UploadMultiple(Some(before + [bad] + after), destination) == Err(PlainHttp(UPLOAD_FILES_ERROR, 500))
  {
    var files := before + [bad] + after;
    assert files[|before|] == bad;
  }
}
