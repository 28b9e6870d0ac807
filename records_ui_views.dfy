/**
 * The classification and dispatch rules of weko_records_ui/views.py: the
 * icon for a MIME type, the Creative Commons badge for a license code, the
 * export-format dispatch, the publish-status rule, and the pieces of
 * `get_items_metadata` that pick file-bearing metadata and index ids.
 */
module RecordsUiViews {
  import opened Wrappers
  import opened Strings
  import opened JsonValues

  // ---------------------------------------------------------------------
  // get_image_src
  // ---------------------------------------------------------------------

  const IconDir := "/static/images/icon/"

  /** The icon file names `get_image_src` can choose from. */
  const Icons: set<string> := {
    "icon_16_txt.jpg", "icon_16_doc.jpg", "icon_16_xls.jpg", "icon_16_ppt.jpg",
    "icon_16_zip.jpg", "icon_16_music.jpg", "icon_16_xml.jpg", "icon_16_picture.jpg",
    "icon_16_pdf.jpg", "icon_16_flash.jpg", "icon_16_movie.jpg", "icon_16_others.jpg"
  }

  /**
   * The icon `get_image_src` picks: the first MIME-type fragment found
   * decides, tested in a fixed order; a video is told apart by `flv`.
   */
  function IconFor(mimetype: string): (icon: string)
    ensures icon in Icons
  {
    if Contains(mimetype, "text/") then "icon_16_txt.jpg"
    else if Contains(mimetype, "officedocument.wordprocessingml") then "icon_16_doc.jpg"
    else if Contains(mimetype, "officedocument.spreadsheetml") then "icon_16_xls.jpg"
    else if Contains(mimetype, "officedocument.presentationml") then "icon_16_ppt.jpg"
    else if Contains(mimetype, "msword") then "icon_16_doc.jpg"
    else if Contains(mimetype, "excel") then "icon_16_xls.jpg"
    else if Contains(mimetype, "powerpoint") then "icon_16_ppt.jpg"
    else if Contains(mimetype, "zip") || Contains(mimetype, "rar") then "icon_16_zip.jpg"
    else if Contains(mimetype, "audio/") then "icon_16_music.jpg"
    else if Contains(mimetype, "xml") then "icon_16_xml.jpg"
    else if Contains(mimetype, "image/") then "icon_16_picture.jpg"
    else if Contains(mimetype, "pdf") then "icon_16_pdf.jpg"
    else if Contains(mimetype, "video/") then
      (if Contains(mimetype, "flv") then "icon_16_flash.jpg" else "icon_16_movie.jpg")
    else "icon_16_others.jpg"
  }

  /** `get_image_src`: the icon directory followed by one of the fixed icon names. */
  function GetImageSrc(mimetype: string): (src: string)
    ensures |src| > |IconDir| && src[..|IconDir|] == IconDir && src[|IconDir|..] in Icons
  {
    IconDir + IconFor(mimetype)
  }

  /** A fragment of a type `get_image_src` tests before the video check. */
  predicate KnownBeforeVideo(mimetype: string)
  {
    Contains(mimetype, "text/") || Contains(mimetype, "officedocument.wordprocessingml")
    || Contains(mimetype, "officedocument.spreadsheetml") || Contains(mimetype, "officedocument.presentationml")
    || Contains(mimetype, "msword") || Contains(mimetype, "excel") || Contains(mimetype, "powerpoint")
    || Contains(mimetype, "zip") || Contains(mimetype, "rar") || Contains(mimetype, "audio/")
    || Contains(mimetype, "xml") || Contains(mimetype, "image/") || Contains(mimetype, "pdf")
  }

  /** A `text/` type always gets the text icon, `text/xml` included: `text/` is tested before `xml`. */
  lemma TextWins(mimetype: string)
    requires Contains(mimetype, "text/")
    ensures GetImageSrc(mimetype) == IconDir + "icon_16_txt.jpg"
  {
  }

  /** Only a type with none of the known fragments gets the "others" icon. */
  lemma OthersIff(mimetype: string)
    ensures IconFor(mimetype) == "icon_16_others.jpg" <==>
      !KnownBeforeVideo(mimetype) && !Contains(mimetype, "video/")
  {
  }

  /** A video type is told apart by `flv` once no earlier fragment matched. */
  lemma VideoIcons(mimetype: string)
    requires Contains(mimetype, "video/") && !KnownBeforeVideo(mimetype)
    ensures IconFor(mimetype) == if Contains(mimetype, "flv") then "icon_16_flash.jpg" else "icon_16_movie.jpg"
  {
  }

  // ---------------------------------------------------------------------
  // get_license_icon
  // ---------------------------------------------------------------------

  const BadgeDir := "/static/images/default/"

  /** `lic_dict`: the label of `license_0` … `license_5`. */
  const LicenseLabels: seq<string> := [
    "Creative Commons : 表示",
    "Creative Commons : 表示 - 継承",
    "Creative Commons : 表示 - 改変禁止",
    "Creative Commons : 表示 - 非営利",
    "Creative Commons : 表示 - 非営利 - 継承",
    "Creative Commons : 表示 - 非営利 - 改変禁止"
  ]

  /** `href_dict`: the deed of `license_0` … `license_5`. */
  const LicenseHrefs: seq<string> := [
    "https://creativecommons.org/licenses/by/4.0/deed.ja",
    "https://creativecommons.org/licenses/by-sa/4.0/deed.ja",
    "https://creativecommons.org/licenses/by-nd/4.0/deed.ja",
    "https://creativecommons.org/licenses/by-nc/4.0/deed.ja",
    "https://creativecommons.org/licenses/by-nc-sa/4.0/deed.ja",
    "https://creativecommons.org/licenses/by-nc-nd/4.0/deed.ja"
  ]

  /** The code of the `k`-th license, `license_k`. */
  function LicenseCode(k: nat): string
    requires k < 6
  {
    "license_" + [DigitChar(k)]
  }

  /** The badge of the `k`-th license: `88x31(k+1).png` under the badge directory, its label and its deed. */
  function Badge(k: nat): (string, string, string)
    requires k < 6
  {
    (BadgeDir + "88x31(" + [DigitChar(k + 1)] + ").png", LicenseLabels[k], LicenseHrefs[k])
  }

  /** The icon triple of a code that is free or unknown. */
  const NoBadge := ("", "", "#")

  /** The chain of `license_k` tests from `k` on. */
  function BadgeFrom(code: string, k: nat): (string, string, string)
    requires k <= 6
    decreases 6 - k
  {
    if k == 6 then NoBadge
    else if Contains(code, LicenseCode(k)) then Badge(k)
    else BadgeFrom(code, k + 1)
  }

  /**
   * `get_license_icon`: `license_free` is tested first, then `license_0` …
   * `license_5` in turn; the badge directory is prefixed only to a
   * non-empty file name.
   */
  function GetLicenseIcon(code: string): (string, string, string)
  {
    if Contains(code, "license_free") then NoBadge else BadgeFrom(code, 0)
  }

  /**
   * The result for a code is the badge of the first `license_k` it contains,
   * unless it contains `license_free`; with neither it is `('', '', '#')`.
   */
  lemma {:induction false} LicenseIconFirst(code: string, k: nat)
    requires k < 6 && !Contains(code, "license_free") && Contains(code, LicenseCode(k))
    requires forall j :: 0 <= j < k ==> !Contains(code, LicenseCode(j))
    ensures GetLicenseIcon(code) == Badge(k)
  {
    BadgeFromSkips(code, 0, k);
  }

  lemma {:induction false} BadgeFromSkips(code: string, from: nat, k: nat)
    requires from <= k < 6 && Contains(code, LicenseCode(k))
    requires forall j :: from <= j < k ==> !Contains(code, LicenseCode(j))
    ensures BadgeFrom(code, from) == Badge(k)
    decreases k - from
  {
    if from < k {
      BadgeFromSkips(code, from + 1, k);
    }
  }

  lemma {:induction false} BadgeFromNone(code: string, from: nat)
    requires from <= 6
    requires forall j :: from <= j < 6 ==> !Contains(code, LicenseCode(j))
    ensures BadgeFrom(code, from) == NoBadge
    decreases 6 - from
  {
    if from < 6 {
      BadgeFromNone(code, from + 1);
    }
  }

  /** A free license and a code naming no known license both give `('', '', '#')`. */
  lemma LicenseIconNone(code: string)
    requires Contains(code, "license_free") || forall j :: 0 <= j < 6 ==> !Contains(code, LicenseCode(j))
    ensures GetLicenseIcon(code) == NoBadge
  {
    if !Contains(code, "license_free") {
      BadgeFromNone(code, 0);
    }
  }

  /** The badge directory is prefixed exactly when there is a badge, and then the label and deed are set too. */
  lemma {:induction false} LicenseIconShape(code: string)
    ensures GetLicenseIcon(code) == NoBadge || exists k :: 0 <= k < 6 && GetLicenseIcon(code) == Badge(k)
    ensures GetLicenseIcon(code).0 == "" <==> GetLicenseIcon(code).2 == "#"
    ensures GetLicenseIcon(code).0 != "" ==> GetLicenseIcon(code).0[..|BadgeDir|] == BadgeDir
  {
    if !Contains(code, "license_free") {
      BadgeFromShape(code, 0);
    }
  }

  lemma {:induction false} BadgeFromShape(code: string, from: nat)
    requires from <= 6
    ensures BadgeFrom(code, from) == NoBadge || exists k :: from <= k < 6 && BadgeFrom(code, from) == Badge(k)
    decreases 6 - from
  {
    if from < 6 && !Contains(code, LicenseCode(from)) {
      BadgeFromShape(code, from + 1);
    }
  }

  // ---------------------------------------------------------------------
  // export and publish
  // ---------------------------------------------------------------------

  /** An entry of `RECORDS_UI_EXPORT_FORMATS[pid_type]`: `False` for a withdrawn format, else its settings. */
  datatype ExportFormat = Deprecated | Format(title: string, serializer: string)

  /** What `export` answers before serializing. */
  datatype ExportOutcome =
    | Abort(status: nat)                               // `abort(410)` / `abort(404)`
    | Serve(stamp: Option<string>, contentType: string) // the `@export_schema_type` set on the record, and the header

  /** The formats shipped for record pids (`RECORDS_UI_EXPORT_FORMATS['recid']`). */
  const RecidFormats: map<string, ExportFormat> := map[
    "junii2" := Format("JUNII2", "weko_schema_ui.serializers.WekoCommonSchema"),
    "jpcoar" := Format("JPCOAR", "weko_schema_ui.serializers.WekoCommonSchema"),
    "dc" := Format("DublinCore", "weko_schema_ui.serializers.WekoCommonSchema"),
    "json" := Format("JSON", "invenio_records_rest.serializers.json_v1")
  ]

  /** A format whose output is text rather than XML. */
  predicate TextFormat(schemaType: string)
  {
    Contains(schemaType, "json") || Contains(schemaType, "bibtex")
  }

  /**
   * The dispatch of `export`: the formats configured for the pid type (None
   * when the type has none, so that `formats.get` fails), then the format.
   */
  function ExportDispatch(formats: Option<map<string, ExportFormat>>, schemaType: string): (r: Result<ExportOutcome, PyError>)
    ensures formats.None? <==> r == Err(AttributeError)
    ensures r == Ok(Abort(410)) <==> formats.Some? && schemaType in formats.value && formats.value[schemaType] == Deprecated
    ensures r == Ok(Abort(404)) <==> formats.Some? && schemaType !in formats.value
    ensures formats.Some? && schemaType in formats.value && formats.value[schemaType] != Deprecated ==>
      r.Ok? && r.value.Serve?
    ensures r.Ok? && r.value.Serve? ==>
      (r.value.stamp == Some(schemaType) <==> !TextFormat(schemaType))
      && (r.value.stamp == None <==> TextFormat(schemaType))
      && (r.value.contentType == "text/plain" <==> TextFormat(schemaType))
      && (r.value.contentType == "text/xml" <==> !TextFormat(schemaType))
  {
    if formats.None? then Err(AttributeError)
    else if schemaType !in formats.value then Ok(Abort(404))
    else if formats.value[schemaType] == Deprecated then Ok(Abort(410))
    else
      var stamp := if !Contains(schemaType, "json") && !Contains(schemaType, "bibtex") then Some(schemaType) else None;
      var contentType := if Contains(schemaType, "json") || Contains(schemaType, "bibtex") then "text/plain" else "text/xml";
      Ok(Serve(stamp, contentType))
  }

  /** Of the shipped record formats, `json` is served as text and an unlisted format is not found. */
  lemma ShippedJson()
    ensures ExportDispatch(Some(RecidFormats), "json") == Ok(Serve(None, "text/plain"))
    ensures ExportDispatch(Some(RecidFormats), "bibtex") == Ok(Abort(404))
  {
    assert "json"[..4] == "json";
  }

  /** The shipped XML schemas (JUNII2, JPCOAR, Dublin Core) are served as XML and stamp the record with their name. */
  lemma ShippedXml(name: string)
    requires name == "junii2" || name == "jpcoar" || name == "dc"
    ensures ExportDispatch(Some(RecidFormats), name) == Ok(Serve(Some(name), "text/xml"))
  {
    if name == "junii2" {
      NotTextFormat(name, 'o', 'b');
    } else if name == "jpcoar" {
      NotTextFormat(name, 's', 'b');
    } else {
      NotTextFormat(name, 'j', 'b');
    }
  }

  /** A name missing a character of `json` and one of `bibtex` is not a text format. */
  lemma NotTextFormat(name: string, j: char, b: char)
    requires j in "json" && j !in name && b in "bibtex" && b !in name
    ensures !TextFormat(name)
  {
    if Contains(name, "json") {
      ContainsChars(name, "json");
    }
    if Contains(name, "bibtex") {
      ContainsChars(name, "bibtex");
    }
  }

  /** `status or '0'`: the requested status, or `'0'` when it is missing or empty. */
  function PublishStatus(status: Option<string>): (r: string)
    ensures |r| > 0
    ensures status.Some? && |status.value| > 0 ==> r == status.value
    ensures status.None? || status.value == "" ==> r == "0"
  {
    if status.Some? && |status.value| > 0 then status.value else "0"
  }

  /** A record's metadata dict, updated in place by the views. */
  class Record {
    var fields: seq<(string, Json)>

    constructor (fields: seq<(string, Json)>)
      ensures this.fields == fields
    {
      this.fields := fields;
    }

    /**
     * `publish`: whether the record has a truthy `publish_status` or not,
     * the key ends up holding `status or '0'` (an update and an item
     * assignment have the same effect on a dict).
     */
    method Publish(status: Option<string>)
      modifies this
      ensures fields == Put(old(fields), "publish_status", Str(PublishStatus(status)))
      ensures Get(fields, "publish_status") == Some(Str(PublishStatus(status)))
    {
      var current := Get(fields, "publish_status");
      if current.None? || !Truthy(current.value) {
        fields := Put(fields, "publish_status", Str(PublishStatus(status)));
      } else {
        fields := Put(fields, "publish_status", Str(PublishStatus(status)));
      }
      GetPutSame(old(fields), "publish_status", Str(PublishStatus(status)));
    }

    /** The part of `export` before serializing: dispatch, then stamp the record with an XML schema name. */
    method Export(formats: Option<map<string, ExportFormat>>, schemaType: string) returns (r: Result<ExportOutcome, PyError>)
      modifies this
      ensures r == ExportDispatch(formats, schemaType)
      ensures fields == if r.Ok? && r.value.Serve? && r.value.stamp.Some?
                        then Put(old(fields), "@export_schema_type", Str(schemaType))
                        else old(fields)
    {
      r := ExportDispatch(formats, schemaType);
      if r.Ok? && r.value.Serve? && !Contains(schemaType, "json") && !Contains(schemaType, "bibtex") {
        fields := Put(fields, "@export_schema_type", Str(schemaType));
      }
    }
  }

  // ---------------------------------------------------------------------
  // get_items_metadata
  // ---------------------------------------------------------------------

  /** Python's `'filename' in item`: a key of a dict, a substring of a string, an element of a list. */
  function FilenameIn(item: Json): Result<bool, PyError>
  {
    match item
    case Null => Err(TypeError)
    case Str(s) => Ok(Contains(s, "filename"))
    case Dict(es) => Ok(Get(es, "filename").Some?)
    case List(xs) => Ok(Str("filename") in xs)
  }

  /** The inner loop of `get_file_data` over a list value: it stops at the first item holding `filename`. */
  function ScanItems(items: seq<Json>): (r: Result<bool, PyError>)
    ensures r == Ok(true) <==> exists i :: 0 <= i < |items| && FilenameIn(items[i]) == Ok(true)
                                        && forall j :: 0 <= j < i ==> FilenameIn(items[j]) == Ok(false)
    ensures r == Ok(false) <==> forall i :: 0 <= i < |items| ==> FilenameIn(items[i]) == Ok(false)
    ensures r.Err? ==> r == Err(TypeError)
  {
    if |items| == 0 then Ok(false)
    else match FilenameIn(items[0])
      case Err(e) => Err(e)
      case Ok(found) =>
        if found then Ok(true)
        else
          var rest := ScanItems(items[1..]);
          assert forall i :: 1 <= i < |items| ==> items[i] == items[1..][i - 1];
          assert rest == Ok(true) ==> exists i :: 0 <= i < |items| && FilenameIn(items[i]) == Ok(true)
                                        && forall j :: 0 <= j < i ==> FilenameIn(items[j]) == Ok(false) by {
            if rest == Ok(true) {
              var i :| 0 <= i < |items[1..]| && FilenameIn(items[1..][i]) == Ok(true)
                       && forall j :: 0 <= j < i ==> FilenameIn(items[1..][j]) == Ok(false);
              assert FilenameIn(items[i + 1]) == Ok(true);
            }
          }
          rest
  }

  /** The dict `get_file_data` builds from `meta`, read key by key. */
  function FileData(meta: seq<(string, Json)>): Result<seq<(string, Json)>, PyError>
    decreases |meta|
  {
    if |meta| == 0 then Ok([])
    else match FileData(meta[..|meta| - 1])
      case Err(e) => Err(e)
      case Ok(fd) =>
        var (key, value) := meta[|meta| - 1];
        if !value.List? then Ok(fd)
        else match ScanItems(value.items)
          case Err(e) => Err(e)
          case Ok(found) => if found then Ok(Put(fd, key, value)) else Ok(fd)
  }

  /** `get_file_data`: the loop over the metadata keys and, for a list value, over its items. */
  method GetFileData(meta: seq<(string, Json)>) returns (r: Result<seq<(string, Json)>, PyError>)
    ensures r == FileData(meta)
  {
    var fileData: seq<(string, Json)> := [];
    for n := 0 to |meta|
      invariant FileData(meta[..n]) == Ok(fileData)
    {
      assert meta[..n + 1][..n] == meta[..n];
      var (key, value) := meta[n];
      if value.List? {
        var i := 0;
        while i < |value.items|
          invariant 0 <= i <= |value.items|
          invariant forall j :: 0 <= j < i ==> FilenameIn(value.items[j]) == Ok(false)
        {
          var test := FilenameIn(value.items[i]);
          if test.Err? {
            FileDataErrSticky(meta, n + 1);
            return Err(test.error);
          }
          if test.value {
            fileData := Put(fileData, key, value);
            break;
          }
          i := i + 1;
        }
      }
    }
    assert meta[..|meta|] == meta;
    r := Ok(fileData);
  }

  lemma {:induction false} FileDataErrSticky(meta: seq<(string, Json)>, n: nat)
    requires n <= |meta| && FileData(meta[..n]).Err?
    ensures FileData(meta) == FileData(meta[..n])
    decreases |meta| - n
  {
    if n < |meta| {
      assert meta[..n + 1][..n] == meta[..n];
      FileDataErrSticky(meta, n + 1);
    } else {
      assert meta[..n] == meta;
    }
  }

  /** A value `get_file_data` keeps: a list with an item that holds `filename`. */
  predicate HoldsFile(value: Json)
  {
    value.List? && ScanItems(value.items) == Ok(true)
  }

  /**
   * On a dict, `get_file_data` keeps exactly the keys whose value is a list
   * with an item holding `filename`, each with its whole list unchanged.
   */
  lemma {:induction false} FileDataKeeps(meta: seq<(string, Json)>, key: string)
    requires DistinctKeys(meta) && FileData(meta).Ok?
    ensures Get(FileData(meta).value, key) ==
      if Get(meta, key).Some? && HoldsFile(Get(meta, key).value) then Get(meta, key) else None
    decreases |meta|
  {
    if |meta| > 0 {
      var pre := meta[..|meta| - 1];
      var (k, v) := meta[|meta| - 1];
      assert DistinctKeys(pre);
      FileDataKeeps(pre, key);
      GetAppend(pre, k, v, key);
      assert meta == pre + [(k, v)];
      var fd := FileData(pre).value;
      forall i | 0 <= i < |pre| ensures pre[i].0 != k {
        assert pre[i] == meta[i];
      }
      GetAbsent(pre, k);
      if v.List? && ScanItems(v.items) == Ok(true) {
        if key == k {
          GetPutSame(fd, k, v);
        } else {
          GetPutOther(fd, k, v, key);
        }
      }
    }
  }

  /** `pids.split('/')` of the request argument, or no pids when it is absent. */
  function PidList(pids: Option<string>): (r: seq<string>)
    ensures pids.None? ==> r == []
    ensures pids.Some? ==> |r| > 0 && Join(r, '/') == pids.value
    ensures forall i :: 0 <= i < |r| ==> '/' !in r[i]
  {
    if pids.None? then []
    else
      JoinSplit(pids.value, '/');
      SplitPartsFree(pids.value, '/');
      Split(pids.value, '/')
  }

  /**
   * The index ids of a record: the last `/`-segment of each of its paths, in
   * order, when its `path` field is a list (None otherwise).
   */
  method IndexIds(paths: Option<seq<string>>) returns (ids: seq<string>)
    ensures paths.None? ==> ids == []
    ensures paths.Some? ==> |ids| == |paths.value|
    ensures paths.Some? ==> forall i :: 0 <= i < |ids| ==>
      '/' !in ids[i] && ('/' !in paths.value[i] ==> ids[i] == paths.value[i])
      && ('/' in paths.value[i] ==> RSplitHead(paths.value[i], '/') + "/" + ids[i] == paths.value[i])
  {
    ids := [];
    if paths.None? {
      return;
    }
    for i := 0 to |paths.value|
      invariant |ids| == i
      invariant forall j :: 0 <= j < i ==> ids[j] == LastSegment(paths.value[j], '/')
    {
      ids := ids + [LastSegment(paths.value[i], '/')];
    }
    forall i | 0 <= i < |ids|
      ensures '/' !in ids[i] && ('/' !in paths.value[i] ==> ids[i] == paths.value[i])
      && ('/' in paths.value[i] ==> RSplitHead(paths.value[i], '/') + "/" + ids[i] == paths.value[i])
    {
      LastSegmentFree(paths.value[i], '/');
      if '/' in paths.value[i] {
        RSplitRoundTrip(paths.value[i], '/');
      } else {
        LastSegmentWhole(paths.value[i], '/');
      }
    }
  }
}
