/**
 * The report export of `src/controllers/documentController.js`: find the
 * vendor's and the approver's signatures among the report's attachments,
 * render the report into a temporary file, hand that file to the client and
 * remove it.
 */
module DocumentController {
  import opened Wrappers
  import opened Strings
  import Paths
  import opened Bapp
  import opened Storage
  import opened PdfService

  const NotFoundMessage := "BAPP not found"
  const ExportFailedMessage := "Error generating BAPP PDF"

  /** An attachment is `uploader`'s signature; a null uploader id matches nothing. */
  predicate SignedBy(a: Attachment, uploader: Option<UserId>)
  {
    a.fileType == "signature" && uploader == Some(a.uploadedBy)
  }

  /** `Array.find`: the index of the first attachment that is `uploader`'s signature. */
  function FirstSignedBy(atts: seq<Attachment>, uploader: Option<UserId>): (r: Option<nat>)
    ensures r.Some? ==> r.value < |atts| && SignedBy(atts[r.value], uploader)
    ensures r.Some? ==> forall j :: 0 <= j < r.value ==> !SignedBy(atts[j], uploader)
    ensures r.None? ==> forall j :: 0 <= j < |atts| ==> !SignedBy(atts[j], uploader)
  {
    if atts == [] then None
    else if SignedBy(atts[0], uploader) then Some(0)
    else match FirstSignedBy(atts[1..], uploader)
      case None => None
      case Some(i) => Some(i + 1)
  }

  /** The image path of `uploader`'s first signature, under the working directory. */
  function SignaturePath(atts: seq<Attachment>, uploader: Option<UserId>, cwd: string): (r: Option<string>)
    ensures r.None? <==> forall j :: 0 <= j < |atts| ==> !SignedBy(atts[j], uploader)
    ensures r.Some? ==>
      exists i :: 0 <= i < |atts| && SignedBy(atts[i], uploader) && r.value == Paths.Join(cwd, atts[i].filePath)
  {
    match FirstSignedBy(atts, uploader)
    case None => None
    case Some(i) => Some(Paths.Join(cwd, atts[i].filePath))
  }

  /**
   * The `signatures` object passed to the renderer: the vendor's key is set
   * exactly when the vendor uploaded a signature, the approver's exactly when
   * an approver is assigned and uploaded one; each value lies under `cwd`.
   */
  function ResolveSignatures(report: Report, cwd: string): (r: Signatures)
    ensures r.vendor.Some? <==>
      exists i :: 0 <= i < |report.attachments| && SignedBy(report.attachments[i], Some(report.vendorId))
    ensures r.approver.Some? <==> (report.direksiPekerjaanId.Some? &&
      exists i :: 0 <= i < |report.attachments| && SignedBy(report.attachments[i], report.direksiPekerjaanId))
    ensures r.vendor.Some? ==> StartsWith(r.vendor.value, cwd + "/")
    ensures r.approver.Some? ==> StartsWith(r.approver.value, cwd + "/")
  {
    Signatures(SignaturePath(report.attachments, Some(report.vendorId), cwd),
               SignaturePath(report.attachments, report.direksiPekerjaanId, cwd))
  }

  /**
   * A path is resolved for `uploader` exactly when some attachment is their
   * signature, and it is the path of the first such attachment in list order.
   */
  lemma ResolvedIsFirstMatch(atts: seq<Attachment>, uploader: Option<UserId>, cwd: string, p: string)
    ensures SignaturePath(atts, uploader, cwd) == Some(p) <==>
      exists i :: 0 <= i < |atts| && SignedBy(atts[i], uploader) && p == Paths.Join(cwd, atts[i].filePath)
        && forall j :: 0 <= j < i ==> !SignedBy(atts[j], uploader)
  {
    var r := FirstSignedBy(atts, uploader);
    forall i | 0 <= i < |atts| && SignedBy(atts[i], uploader) && forall j :: 0 <= j < i ==> !SignedBy(atts[j], uploader)
      ensures r == Some(i)
    {
      assert r.Some?;
      assert !(r.value < i) && !(i < r.value);
    }
  }

  /** Attachments that are not signatures are never selected: adding one anywhere changes nothing. */
  lemma {:induction false} NonSignaturesIgnored(atts: seq<Attachment>, k: nat, a: Attachment, uploader: Option<UserId>)
    requires k <= |atts| && a.fileType != "signature"
    ensures forall cwd :: SignaturePath(atts[..k] + [a] + atts[k..], uploader, cwd) == SignaturePath(atts, uploader, cwd)
  {
    var longer := atts[..k] + [a] + atts[k..];
    forall cwd ensures SignaturePath(longer, uploader, cwd) == SignaturePath(atts, uploader, cwd) {
      FirstMatchSkipsNonSignature(atts, k, a, uploader);
      var r, r' := FirstSignedBy(atts, uploader), FirstSignedBy(longer, uploader);
      if r.Some? {
        assert longer[r'.value] == atts[r.value];
      }
    }
  }

  lemma {:induction false} FirstMatchSkipsNonSignature(atts: seq<Attachment>, k: nat, a: Attachment, uploader: Option<UserId>)
    requires k <= |atts| && a.fileType != "signature"
    ensures var r, r' := FirstSignedBy(atts, uploader), FirstSignedBy(atts[..k] + [a] + atts[k..], uploader);
      && (r.None? <==> r'.None?)
      && (r.Some? ==> r'.value == if r.value < k then r.value else r.value + 1)
  {
    var longer := atts[..k] + [a] + atts[k..];
    assert |longer| == |atts| + 1;
    assert forall j :: 0 <= j < k ==> longer[j] == atts[j];
    assert forall j :: k < j < |longer| ==> longer[j] == atts[j - 1];
    assert !SignedBy(longer[k], uploader);
    var r, r' := FirstSignedBy(atts, uploader), FirstSignedBy(longer, uploader);
    if r.Some? {
      var i := r.value;
      var i' := if i < k then i else i + 1;
      assert SignedBy(longer[i'], uploader);
      assert forall j :: 0 <= j < i' ==> !SignedBy(longer[j], uploader) by {
        forall j | 0 <= j < i' ensures !SignedBy(longer[j], uploader) {
          if j < k { assert longer[j] == atts[j]; }
          else if j > k { assert longer[j] == atts[j - 1]; }
        }
      }
      assert r'.Some? && !(r'.value < i') && !(i' < r'.value);
    } else {
      forall j | 0 <= j < |longer| ensures !SignedBy(longer[j], uploader) {
        if j < k { assert longer[j] == atts[j]; }
        else if j > k { assert longer[j] == atts[j - 1]; }
      }
    }
  }

  /** With no approver assigned no approver signature is resolved, whatever the attachments. */
  lemma UnassignedApproverHasNoSignature(report: Report, cwd: string)
    requires report.direksiPekerjaanId.None?
    ensures ResolveSignatures(report, cwd).approver.None?
  {
  }

  // ---------------------------------------------------------------- export

  /**
   * How generating the temporary PDF ends: everything written and the stream
   * finished, or a failure (an unreadable signature image, a stream error);
   * `fileCreated` says whether the write stream had opened, and so created,
   * the file.
   */
  datatype Generation = Finished | Failed(fileCreated: bool)

  datatype Reply =
    | Json(status: nat, success: bool, message: string)
    | PdfDownload(fileName: string, document: seq<Command>)

  /** Node's `setHeader` refuses a value with a character outside tab, 0x20-0x7E and 0x80-0xFF. */
  predicate HeaderValueValid(v: string)
  {
    forall i :: 0 <= i < |v| ==> v[i] == '\t' || (' ' <= v[i] <= '~') || (128 <= v[i] as int <= 255)
  }

  const DispositionPrefix := "attachment; filename=\""

  /** The `Content-Disposition` value: the file name, quoted, after `attachment; filename=`. */
  function ContentDisposition(fileName: string): (r: string)
    ensures StartsWith(r, DispositionPrefix) && |r| == |DispositionPrefix| + |fileName| + 1
    ensures r[|DispositionPrefix|..|r| - 1] == fileName && r[|r| - 1] == '"'
  {
    var r := DispositionPrefix + fileName + "\"";
    assert r[..|DispositionPrefix|] == DispositionPrefix;
    assert r[|DispositionPrefix|..|r| - 1] == fileName;
    r
  }

  lemma HeaderValidConcat(a: string, b: string)
    ensures HeaderValueValid(a + b) <==> HeaderValueValid(a) && HeaderValueValid(b)
  {
    assert forall i :: 0 <= i < |a| ==> (a + b)[i] == a[i];
    assert forall i :: 0 <= i < |b| ==> (a + b)[|a| + i] == b[i];
  }

  /**
   * The header of an export is refused exactly when the report number holds a
   * character Node does not accept in a header: the rest of the file name is
   * fixed text and digits, and `/` is replaced by `_`, both accepted.
   */
  lemma HeaderAcceptedIffReportNumberValid(bappNumber: string, now: nat)
    ensures HeaderValueValid(ContentDisposition(TempFileName(bappNumber, now))) <==> HeaderValueValid(bappNumber)
  {
    var pre, sanitized, stamp, post := DispositionPrefix + "BAPP_", ReplaceAll(bappNumber, '/', '_'), Decimal(now), ".pdf\"";
    DispositionOfTempName(bappNumber, now);
    SanitizedValid(bappNumber);
    FixedPartsValid(now);
    HeaderValidConcat(pre, sanitized);
    HeaderValidConcat(pre + sanitized, "_");
    HeaderValidConcat(pre + sanitized + "_", stamp);
    HeaderValidConcat(pre + sanitized + "_" + stamp, post);
  }

  lemma DispositionOfTempName(bappNumber: string, now: nat)
    ensures ContentDisposition(TempFileName(bappNumber, now)) ==
      DispositionPrefix + "BAPP_" + ReplaceAll(bappNumber, '/', '_') + "_" + Decimal(now) + ".pdf\""
  {
  }

  lemma SanitizedValid(bappNumber: string)
    ensures HeaderValueValid(ReplaceAll(bappNumber, '/', '_')) <==> HeaderValueValid(bappNumber)
  {
    var sanitized := ReplaceAll(bappNumber, '/', '_');
    assert forall i :: 0 <= i < |bappNumber| && bappNumber[i] == '/' ==> sanitized[i] == '_';
  }

  lemma FixedPartsValid(now: nat)
    ensures HeaderValueValid(DispositionPrefix + "BAPP_") && HeaderValueValid("_")
    ensures HeaderValueValid(Decimal(now)) && HeaderValueValid(".pdf\"")
  {
  }

  /**
   * The reply of an export of a report that was found: the document when
   * generation finished and the headers were accepted, otherwise a 500.
   */
  function ExportReply(report: Report, cwd: string, now: nat, gen: Generation, formatDate: Date -> string): (r: Reply)
    ensures r.PdfDownload? <==> gen.Finished? && HeaderValueValid(report.bappNumber)
    ensures r.Json? ==> r == Json(500, false, ExportFailedMessage)
    ensures r.PdfDownload? ==> r.fileName == TempFileName(report.bappNumber, now)
    ensures r.PdfDownload? ==> (Images(r.document) ==
      SignatureImage(SignaturePath(report.attachments, Some(report.vendorId), cwd), 70) +
      SignatureImage(SignaturePath(report.attachments, report.direksiPekerjaanId, cwd), 370))
  {
    HeaderAcceptedIffReportNumberValid(report.bappNumber, now);
    LayoutImages(report, ResolveSignatures(report, cwd), formatDate);
    var fileName := TempFileName(report.bappNumber, now);
    if gen.Finished? && HeaderValueValid(ContentDisposition(fileName))
    then PdfDownload(fileName, ReportLayout(report, ResolveSignatures(report, cwd), formatDate))
    else Json(500, false, ExportFailedMessage)
  }

  /**
   * The file set once the handler as written has finished and the read
   * stream has closed. The temporary path is recorded only after generation
   * succeeds, so a failed generation leaves behind a file its write stream
   * created.
   */
  function FilesAfterExportAsWritten(files: set<Path>, temp: Path, gen: Generation): set<Path>
  {
    match gen
    case Finished => files - {temp}
    case Failed(created) => if created then files + {temp} else files
  }

  /** The file set once an export that cleans up on every path has finished. */
  function FilesAfterExport(files: set<Path>, temp: Path, gen: Generation): (r: set<Path>)
    ensures temp !in r
    ensures r - {temp} == files - {temp}
  {
    match gen
    case Finished => files - {temp}
    case Failed(created) => (if created then files + {temp} else files) - {temp}
  }

  /** A generation that fails after creating its file leaves that file behind in the handler as written. */
  lemma AsWrittenLeaksTempFile(files: set<Path>, temp: Path)
    ensures temp in FilesAfterExportAsWritten(files, temp, Failed(true))
    ensures FilesAfterExport(files, temp, Failed(true)) == files - {temp}
  {
  }

  class Exporter {
    const disk: Disk

    constructor(disk: Disk)
      ensures this.disk == disk
    {
      this.disk := disk;
    }

    /**
     * `downloadBAPPPDF` as written. `lookupFails` says whether the report
     * lookup throws, `report` is what it found,
     * `now` the clock, `gen` how generation ends, `formatDate` the date format.
     */
    method DownloadAsWritten(lookupFails: bool, report: Option<Report>, cwd: string, now: nat, gen: Generation,
                  formatDate: Date -> string)
      returns (reply: Reply)
      modifies disk
      ensures lookupFails ==> reply == Json(500, false, ExportFailedMessage) && disk.files == old(disk.files)
      ensures !lookupFails && report.None? ==> reply == Json(404, false, NotFoundMessage) && disk.files == old(disk.files)
      ensures !lookupFails && report.Some? ==> reply == ExportReply(report.value, cwd, now, gen, formatDate)
      ensures !lookupFails && report.Some? ==> disk.files == FilesAfterExportAsWritten(old(disk.files),
        TempFilePath(cwd, TempFileName(report.value.bappNumber, now)), gen)
    {
      var tempFilePath: Option<Path> := None;
      if lookupFails {
        return Json(500, false, ExportFailedMessage);
      }
      if report.None? {
        return Json(404, false, NotFoundMessage);
      }
      var bapp := report.value;
      var signatures := ResolveSignatures(bapp, cwd);
      var fileName := TempFileName(bapp.bappNumber, now);
      var filePath := TempFilePath(cwd, fileName);
      var document := BuildPdf(bapp, signatures, formatDate);
      var failed := false;
      if gen.Failed? {
        if gen.fileCreated {
          disk.Create(filePath);
        }
        failed := true;
      } else {
        disk.Create(filePath);
        tempFilePath := Some(filePath);
        if !HeaderValueValid(ContentDisposition(fileName)) {
          failed := true;
        } else {
          reply := PdfDownload(fileName, document);
          // the read stream closes once the client has the file
          var _ := disk.Unlink(filePath, false);
        }
      }
      if failed {
        if tempFilePath.Some? {
          var present := disk.Exists(tempFilePath.value);
          if present {
            var _ := disk.Unlink(tempFilePath.value, false);
          }
        }
        reply := Json(500, false, ExportFailedMessage);
      }
    }

    /**
     * `downloadBAPPPDF` with the temporary path recorded as soon as the file
     * is named, so that the error path removes whatever generation created.
     */
    method Download(lookupFails: bool, report: Option<Report>, cwd: string, now: nat, gen: Generation,
                  formatDate: Date -> string)
      returns (reply: Reply)
      modifies disk
      ensures lookupFails ==> reply == Json(500, false, ExportFailedMessage) && disk.files == old(disk.files)
      ensures !lookupFails && report.None? ==> reply == Json(404, false, NotFoundMessage) && disk.files == old(disk.files)
      ensures !lookupFails && report.Some? ==> reply == ExportReply(report.value, cwd, now, gen, formatDate)
      ensures !lookupFails && report.Some? ==> disk.files == FilesAfterExport(old(disk.files),
        TempFilePath(cwd, TempFileName(report.value.bappNumber, now)), gen)
    {
      var tempFilePath: Option<Path> := None;
      if lookupFails {
        return Json(500, false, ExportFailedMessage);
      }
      if report.None? {
        return Json(404, false, NotFoundMessage);
      }
      var bapp := report.value;
      var signatures := ResolveSignatures(bapp, cwd);
      var fileName := TempFileName(bapp.bappNumber, now);
      var filePath := TempFilePath(cwd, fileName);
      tempFilePath := Some(filePath);
      var document := BuildPdf(bapp, signatures, formatDate);
      var failed := false;
      if gen.Failed? {
        if gen.fileCreated {
          disk.Create(filePath);
        }
        failed := true;
      } else {
        disk.Create(filePath);
        if !HeaderValueValid(ContentDisposition(fileName)) {
          failed := true;
        } else {
          reply := PdfDownload(fileName, document);
          var _ := disk.Unlink(filePath, false);
        }
      }
      if failed {
        if tempFilePath.Some? {
          var present := disk.Exists(tempFilePath.value);
          if present {
            var _ := disk.Unlink(tempFilePath.value, false);
          }
        }
        reply := Json(500, false, ExportFailedMessage);
      }
    }
  }
}
