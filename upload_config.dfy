/**
 * The upload admission policy of `src/config/multer.js`: where each kind of
 * upload is stored and under which name, the two file filters, and the two
 * size limits.
 */
module UploadConfig {
  import opened Wrappers
  import opened Strings
  import Paths

  /** The fields of an incoming multipart file that the policy consults. */
  datatype IncomingFile = IncomingFile(originalName: string, mimeType: string)

  /** What a filter reports through its callback: `cb(null, true)` or `cb(new Error(message))`. */
  datatype Verdict = Accept | Reject(message: string)

  /** The two multer instances: signature images and supporting documents. */
  datatype UploadKind = SignatureUpload | DocumentUpload

  const ImageTypes: seq<string> := ["jpeg", "jpg", "png"]
  const DocumentTypes: seq<string> := ["pdf", "doc", "docx", "xls", "xlsx"]
  const ImageRejection := "Only image files (jpeg, jpg, png) are allowed for signatures"
  const DocumentRejection := "Only document files are allowed"

  const SignatureMaxBytes: nat := 2 * 1024 * 1024
  const DocumentMaxBytes: nat := 10 * 1024 * 1024

  /** The lower-cased extension of the client's file name, the string both filters test. */
  function LoweredExtension(f: IncomingFile): string
  {
    ToLower(Paths.ExtName(f.originalName))
  }

  /**
   * `imageFilter`: the unanchored `/jpeg|jpg|png/` must match both the
   * lower-cased extension and the mimetype as multer passes it (not lower-cased here).
   */
  function ImageFilter(f: IncomingFile): (v: Verdict)
    ensures v.Accept? <==> OccursAny(LoweredExtension(f), ImageTypes) && OccursAny(f.mimeType, ImageTypes)
    ensures v.Reject? ==> v.message == ImageRejection
  {
    ContainsAnyIffOccursAny(LoweredExtension(f), ImageTypes);
    ContainsAnyIffOccursAny(f.mimeType, ImageTypes);
    var extOk := ContainsAny(LoweredExtension(f), ImageTypes);
    var mimeOk := ContainsAny(f.mimeType, ImageTypes);
    if mimeOk && extOk then Accept else Reject(ImageRejection)
  }

  /**
   * `documentFilter`: the unanchored `/pdf|doc|docx|xls|xlsx/` must match the
   * lower-cased extension; the mimetype is not looked at.
   */
  function DocumentFilter(f: IncomingFile): (v: Verdict)
    ensures v.Accept? <==> OccursAny(LoweredExtension(f), DocumentTypes)
    ensures v.Reject? ==> v.message == DocumentRejection
  {
    ContainsAnyIffOccursAny(LoweredExtension(f), DocumentTypes);
    if ContainsAny(LoweredExtension(f), DocumentTypes) then Accept else Reject(DocumentRejection)
  }

  /** The alternatives each instance's filter looks for. */
  function AllowedTypes(kind: UploadKind): seq<string>
  {
    match kind
    case SignatureUpload => ImageTypes
    case DocumentUpload => DocumentTypes
  }

  /**
   * The filter each multer instance is configured with: both instances test
   * the lower-cased extension, only the signature instance the mimetype too.
   */
  function Filter(kind: UploadKind, f: IncomingFile): (v: Verdict)
    ensures v.Accept? <==>
      (OccursAny(LoweredExtension(f), AllowedTypes(kind)) && (kind.SignatureUpload? ==> OccursAny(f.mimeType, ImageTypes)))
    ensures v.Reject? ==> v.message == (if kind.SignatureUpload? then ImageRejection else DocumentRejection)
  {
    match kind
    case SignatureUpload => ImageFilter(f)
    case DocumentUpload => DocumentFilter(f)
  }

  /** The `limits.fileSize` each multer instance is configured with, in bytes. */
  function MaxBytes(kind: UploadKind): (n: nat)
    ensures n == (if kind.SignatureUpload? then 2097152 else 10485760)
  {
    match kind
    case SignatureUpload => SignatureMaxBytes
    case DocumentUpload => DocumentMaxBytes
  }

  /** The storage directory each multer instance writes to: one directory under `uploads/`. */
  function Destination(kind: UploadKind): (r: string)
    ensures StartsWith(r, "uploads/") && |r| > 9 && r[|r| - 1] == '/'
    ensures '/' !in r[8..|r| - 1]
  {
    match kind
    case SignatureUpload => "uploads/signatures/"
    case DocumentUpload => "uploads/documents/"
  }

  /**
   * The stored file name: the fresh uuid followed by the client's extension.
   * It adds no separator of its own, so it is a single path segment whenever
   * the uuid is.
   */
  function StoredName(uuid: string, originalName: string): (r: string)
    ensures StartsWith(r, uuid) && EndsWith(r, Paths.ExtName(originalName))
    ensures |r| == |uuid| + |Paths.ExtName(originalName)|
    ensures '/' !in uuid ==> '/' !in r
  {
    var r := uuid + Paths.ExtName(originalName);
    assert r[..|uuid|] == uuid;
    assert r[|uuid|..] == Paths.ExtName(originalName);
    r
  }

  /** `req.file.path` as multer's disk storage builds it: the destination, then the stored name. */
  function StoredPath(kind: UploadKind, uuid: string, originalName: string): (r: string)
    ensures StartsWith(r, Destination(kind))
    ensures r[|Destination(kind)|..] == StoredName(uuid, originalName)
    ensures '/' !in uuid ==> '/' !in r[|Destination(kind)|..]
  {
    var dir, name := Destination(kind), StoredName(uuid, originalName);
    assert (dir + name)[..|dir|] == dir;
    assert (dir + name)[|dir|..] == name;
    dir + name
  }

  /** Signatures and documents are stored in different directories, so their paths never coincide. */
  lemma StoredPathsSeparate(uuid1: string, name1: string, uuid2: string, name2: string)
    ensures StoredPath(SignatureUpload, uuid1, name1) != StoredPath(DocumentUpload, uuid2, name2)
  {
    DestinationsDiffer();
    StoredPathLetter(SignatureUpload, uuid1, name1);
    StoredPathLetter(DocumentUpload, uuid2, name2);
  }

  lemma DestinationsDiffer()
    ensures Destination(SignatureUpload)[8] == 's' && Destination(DocumentUpload)[8] == 'd'
  {
  }

  lemma StoredPathLetter(kind: UploadKind, uuid: string, originalName: string)
    ensures StoredPath(kind, uuid, originalName)[8] == Destination(kind)[8]
  {
    var d, p := Destination(kind), StoredPath(kind, uuid, originalName);
    assert p[..|d|][8] == d[8];
  }

  /** The signature limit is 2 MiB, the document limit 10 MiB, and the first is the smaller. */
  lemma SizeLimits()
    ensures MaxBytes(SignatureUpload) == 2097152
    ensures MaxBytes(DocumentUpload) == 10485760
    ensures MaxBytes(SignatureUpload) < MaxBytes(DocumentUpload)
  {
  }

  /**
   * The stored name begins with the uuid and ends with the client's own final
   * extension, case preserved: a `.` followed by characters that are neither
   * `.` nor `/`, or nothing at all.
   */
  lemma StoredNameKeepsExtension(uuid: string, originalName: string)
    requires originalName == [] || originalName[|originalName| - 1] != '/'
    ensures var stored, ext := StoredName(uuid, originalName), Paths.ExtName(originalName);
      && StartsWith(stored, uuid)
      && EndsWith(stored, ext) && EndsWith(originalName, ext)
      && (ext == [] || (ext[0] == '.' && '.' !in ext[1..] && '/' !in ext))
  {
    var stored, ext := StoredName(uuid, originalName), Paths.ExtName(originalName);
    assert Paths.TrimTrailingSlashes(originalName) == originalName;
    assert stored[..|uuid|] == uuid;
    assert stored[|stored| - |ext|..] == ext;
  }

  /** The document instance never looks at the mimetype: replacing it changes no verdict. */
  lemma DocumentUploadIgnoresMimeType(f: IncomingFile, mimeType: string)
    ensures Filter(DocumentUpload, f.(mimeType := mimeType)) == Filter(DocumentUpload, f)
  {
    assert LoweredExtension(f.(mimeType := mimeType)) == LoweredExtension(f);
  }

  /**
   * `docx` and `xlsx` add nothing to the document filter: every string in
   * which they occur also contains `doc` or `xls`.
   */
  lemma {:induction false} DocumentAlternativesRedundant(ext: string)
    ensures ContainsAny(ext, DocumentTypes) <==> ContainsAny(ext, ["pdf", "doc", "xls"])
  {
    if Contains(ext, "docx") {
      assert OccursAt("docx", "doc", 0);
      OccurrenceIsContained("docx", "doc", 0);
      ContainsTransitive(ext, "docx", "doc");
    }
    if Contains(ext, "xlsx") {
      assert OccursAt("xlsx", "xls", 0);
      OccurrenceIsContained("xlsx", "xls", 0);
      ContainsTransitive(ext, "xlsx", "xls");
    }
    if ContainsAny(ext, DocumentTypes) {
      var k :| 0 <= k < |DocumentTypes| && Contains(ext, DocumentTypes[k]);
      assert ContainsAny(ext, ["pdf", "doc", "xls"]) by {
        if k == 0 { assert Contains(ext, ["pdf", "doc", "xls"][0]); }
        else if k == 1 || k == 2 { assert Contains(ext, ["pdf", "doc", "xls"][1]); }
        else { assert Contains(ext, ["pdf", "doc", "xls"][2]); }
      }
    }
    if ContainsAny(ext, ["pdf", "doc", "xls"]) {
      var k :| 0 <= k < 3 && Contains(ext, ["pdf", "doc", "xls"][k]);
      assert Contains(ext, DocumentTypes[if k == 0 then 0 else if k == 1 then 1 else 3]);
    }
  }

  /**
   * Matching is unanchored: any extension in which `png` occurs, such as
   * `.pngx`, passes the extension half of the image filter.
   */
  lemma UnanchoredImageMatch(f: IncomingFile, i: nat, j: nat)
    requires OccursAt(LoweredExtension(f), "png", i)
    requires OccursAt(f.mimeType, "png", j)
    ensures ImageFilter(f) == Accept
  {
    PngIsImageType(LoweredExtension(f), i);
    PngIsImageType(f.mimeType, j);
  }

  lemma PngIsImageType(s: string, i: nat)
    requires OccursAt(s, "png", i)
    ensures OccursAny(s, ImageTypes)
  {
    assert ImageTypes[2] == "png";
    assert OccursAt(s, ImageTypes[2], i);
  }

  /**
   * The mimetype is not lower-cased before the test, so a mimetype with no
   * lower-case letter (`IMAGE/PNG`) is refused whatever the file is called.
   */
  lemma UpperCaseMimeTypeRejected(f: IncomingFile)
    requires forall i :: 0 <= i < |f.mimeType| ==> !IsLower(f.mimeType[i])
    ensures ImageFilter(f) == Reject(ImageRejection)
  {
    forall k: nat | k < |ImageTypes| ensures forall i: nat :: !OccursAt(f.mimeType, ImageTypes[k], i) {
      NoLowerLetterNoOccurrence(f.mimeType, ImageTypes[k]);
    }
    assert !OccursAny(f.mimeType, ImageTypes);
  }

  lemma NoLowerLetterNoOccurrence(s: string, p: string)
    requires p != [] && IsLower(p[0])
    requires forall i :: 0 <= i < |s| ==> !IsLower(s[i])
    ensures forall i: nat :: !OccursAt(s, p, i)
  {
    forall i: nat ensures !OccursAt(s, p, i) {
      if i + |p| <= |s| {
        assert s[i..i + |p|][0] == s[i];
      }
    }
  }

  /**
   * The extension, unlike the mimetype, is lower-cased: an extension in which
   * `PNG` occurs, such as that of `SCAN.PNG`, passes with `image/png`.
   */
  lemma UpperCaseExtensionAccepted(f: IncomingFile, i: nat, j: nat)
    requires OccursAt(Paths.ExtName(f.originalName), "PNG", i)
    requires OccursAt(f.mimeType, "png", j)
    ensures ImageFilter(f) == Accept
  {
    UpperPngLetters(Paths.ExtName(f.originalName), i);
    PngOccurs(LoweredExtension(f), i);
    UnanchoredImageMatch(f, i, j);
  }

  lemma UpperPngLetters(s: string, i: nat)
    requires OccursAt(s, "PNG", i)
    ensures s[i] == 'P' && s[i + 1] == 'N' && s[i + 2] == 'G'
  {
    assert s[i..i + 3][0] == s[i] && s[i..i + 3][1] == s[i + 1] && s[i..i + 3][2] == s[i + 2];
  }

  lemma PngOccurs(s: string, i: nat)
    requires i + 3 <= |s| && s[i] == 'p' && s[i + 1] == 'n' && s[i + 2] == 'g'
    ensures OccursAt(s, "png", i)
  {
    assert s[i..i + 3] == "png";
  }
}
