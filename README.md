# BAPP attachment and report-export backend, modelled in Dafny

This project models the core of a small Express/Sequelize backend for BAPP
reports ("Berita Acara Pemeriksaan Pekerjaan", work-completion inspection
reports). Vendors upload signature images and supporting documents for a
report. The backend stores the files and their attachment records, and it
renders a finished report to a PDF with the vendor's and the approver's
signatures embedded.

Four source files are modelled:

- `src/config/multer.js` (pure): the two upload filters, the two size
  limits, the storage directories and the stored-file-name rule
  (`upload_config.dfy`, module `UploadConfig`). The regular expressions are
  unanchored, so a test holds when one of the literal alternatives occurs
  anywhere in the string (`Strings.Contains`). `path.extname` follows Node's
  POSIX rules (`Paths.ExtName`).
- `src/services/pdfService.js` (mixed): `buildPDF` is the method
  `PdfService.BuildPdf`. Its loop over the work items is proved to produce
  `PdfService.ReportLayout`, the document as a sequence of drawing commands.
  Horizontal positions are absolute page coordinates (`PageX`), offsets from
  the table's left edge (`TableX`), or the flowing text position. Vertical
  positions are the flowing cursor or a fixed offset below a cursor position
  the renderer captured (`TableTop`, `RowTop(i)`, `SignatureTop`). The
  temporary file name is `PdfService.TempFileName`.
- `src/controllers/documentController.js` (mixed): signature resolution is
  a first-match search (`DocumentController.FirstSignedBy`). The export
  handler is two methods of the class `DocumentController.Exporter`:
  `DownloadAsWritten` as the code stands and `Download` corrected. The class
  holds a `Storage.Disk`, the set of existing files, and the methods modify
  it.
- `src/controllers/signatureController.js` (imperative): a class
  `SignatureController.AttachmentStore`. It holds the disk, the attachment
  records by id, an id counter and the set of existing report ids. Its
  methods are upload, delete and serve.

Modelled as inputs: the working directory, the millisecond clock, the uuid,
the date formatter, and the outcome of every call the handlers cannot decide
themselves. Those calls are the database lookup, insert and destroy, the
PDF generation, and an unlink error other than `ENOENT`.

`buildPDF` appends `...` to every work-item description, even one within the
30-character budget (`PdfService.ShortDescriptionGetsEllipsis`).

A filter returns a `Verdict` (`Accept` or `Reject` with its message), so by
construction it reports exactly one outcome through its callback.

## Model

| member | source | states |
|---|---|---|
| `UploadConfig.ImageFilter` | src/config/multer.js:28-37 | accepts exactly when one of `jpeg`, `jpg`, `png` occurs in the lower-cased extension and one occurs in the mimetype as multer passes it to the filter; otherwise rejects with the fixed signature message |
| `UploadConfig.DocumentFilter` | src/config/multer.js:40-48 | accepts exactly when one of `pdf`, `doc`, `docx`, `xls`, `xlsx` occurs in the lower-cased extension, whatever the mimetype; otherwise rejects with the fixed document message |
| `UploadConfig.DocumentAlternativesRedundant` | src/config/multer.js:41 | the document test accepts the same extensions as a test for only `pdf`, `doc` and `xls` |
| `UploadConfig.UnanchoredImageMatch` | src/config/multer.js:29-31 | any extension and mimetype in which `png` occurs pass, for example `.pngx` |
| `UploadConfig.UpperCaseMimeTypeRejected` | src/config/multer.js:31 | a mimetype with no lower-case letter, such as `IMAGE/PNG`, is rejected whatever the file name |
| `UploadConfig.UpperCaseExtensionAccepted` | src/config/multer.js:30 | the extension is lower-cased first: any file whose extension contains `PNG` (such as `SCAN.PNG`) is accepted when `png` occurs in its mimetype |
| `UploadConfig.Filter` | src/config/multer.js:50-60 | the signature instance accepts exactly when an image alternative occurs in both the lower-cased extension and the mimetype; the document instance exactly when a document alternative occurs in the lower-cased extension; a rejection carries that instance's message |
| `UploadConfig.DocumentUploadIgnoresMimeType` | src/config/multer.js:40-48 | replacing a file's mimetype never changes the document instance's verdict |
| `UploadConfig.MaxBytes` | src/config/multer.js:50-60 | the signature instance allows 2097152 bytes and the document instance 10485760 |
| `UploadConfig.SizeLimits` | src/config/multer.js:53-59 | the limits are 2 MiB and 10 MiB, and the signature limit is the smaller one |
| `UploadConfig.Destination` | src/config/multer.js:7-20 | each instance stores into a single directory directly under `uploads/`, ending in `/` |
| `UploadConfig.StoredName` | src/config/multer.js:10-23 | the stored name is the uuid followed directly by the extension of the client's name, with nothing between them; it contains no `/` unless the uuid does |
| `UploadConfig.StoredPath` | src/config/multer.js:6-26 | the stored path is the instance's directory followed by exactly the stored name, and adds no further `/` unless the uuid has one |
| `UploadConfig.StoredPathsSeparate` | src/config/multer.js:8 | a stored signature path never equals a stored document path, whatever the uuids and names |
| `UploadConfig.StoredNameKeepsExtension` | src/config/multer.js:10-23 | the stored name starts with the uuid; it ends with the original name's final extension, with its case kept; that extension is empty or a `.` followed by no further `.` or `/`. The lemma requires a name without a trailing `/`, which every call meets, because multer's `originalname` is already a basename |
| `Paths.LastSegment` | src/config/multer.js:11 | the last segment holds no `/`, is a suffix of the path without its trailing separators, and is either that whole path or preceded by a `/` |
| `Paths.ExtName` | src/config/multer.js:11 | the extension is empty or a single leading `.` with no further `.` and no `/`, and it is a suffix of the last segment |
| `Paths.ExtNameEmpty` | src/config/multer.js:11 | the extension is empty exactly when the last segment has at most one character, has no `.` after its first character, or is `..` |
| `Paths.Join` | src/controllers/documentController.js:37-40 | the joined path starts with the directory and ends with the relative path, with exactly one `/` between them |
| `Strings.ToLower` | src/config/multer.js:30 | same length; each upper-case ASCII letter becomes its lower-case counterpart, 32 code points up; every other character is kept |
| `Strings.ToUpper` | src/services/pdfService.js:89 | same length; each lower-case ASCII letter becomes its upper-case counterpart, 32 code points down; every other character is kept |
| `Strings.ContainsIffOccurs` | src/config/multer.js:29-31 | the left-to-right scan of an unanchored literal pattern succeeds exactly when the pattern occurs at some index |
| `Strings.ContainsAnyIffOccursAny` | src/config/multer.js:29 | an alternation of literals matches exactly when one alternative occurs at some index |
| `Strings.ReplaceAll` | src/services/pdfService.js:117 | global replacement of one character keeps the length; it changes exactly the occurrences of that character, and none of them remain |
| `Strings.Decimal` | src/services/pdfService.js:117 | the clock reading is rendered as at least one decimal digit and nothing else, with one digit exactly for values below 10 and no leading zero |
| `Strings.DecimalRoundTrip` | src/services/pdfService.js:117 | reading the rendered digits back as a decimal number gives the clock reading |
| `Strings.DecimalInjective` | src/services/pdfService.js:117 | different clock readings have different renderings |
| `PdfService.TempFileName` | src/services/pdfService.js:117 | the temporary name starts with `BAPP_`, ends with `.pdf` and contains no `/`, whatever the report number |
| `PdfService.TempFilePath` | src/services/pdfService.js:118 | the temporary path is the working directory, then `/uploads/temp/`, then the file name, with nothing else between them |
| `PdfService.TempFileNameIsLastSegment` | src/services/pdfService.js:117-118 | for any working directory, the last segment of the temporary path is the temporary file name |
| `PdfService.TempFileNameDeterminesTime` | src/services/pdfService.js:117 | for one report number, two exports at different milliseconds get different file names |
| `PdfService.SanitisedNumbersCollide` | src/services/pdfService.js:117 | two report numbers that agree except that one has `/` where the other has `_` (such as `A/B` and `A_B`) get the same temporary name in the same millisecond |
| `PdfService.DescriptionCell` | src/services/pdfService.js:74 | the cell holds the first min(30, length) characters of the description followed by `...`, so it is at most 33 long |
| `PdfService.ShortDescriptionGetsEllipsis` | src/services/pdfService.js:74 | a description of at most 30 characters is kept whole, but `...` is still appended |
| `PdfService.NotesText` | src/services/pdfService.js:85 | the notes when they are a non-empty string; the placeholder when they are null or empty |
| `PdfService.ApproverName` | src/services/pdfService.js:102 | the assigned officer's name, or `Direksi Pekerjaan (Belum Ditunjuk)` when none is assigned |
| `PdfService.StatusLine` | src/services/pdfService.js:89 | the line is `Status Akhir: ` followed by the status, each lower-case letter replaced by its upper-case counterpart and every other character kept |
| `PdfService.BuildPdf` | src/services/pdfService.js:11-110 | the loop over the work items produces exactly `ReportLayout`: opening sections, table header, one row per item in order, closing sections |
| `PdfService.ColumnOffsetValues` | src/services/pdfService.js:54-64 | the column offsets from the table edge are 0, 120, 270, 350, 430 and 470, and the table is 530 wide |
| `PdfService.ColumnsAbut` | src/services/pdfService.js:59-64 | each column starts where the previous one ends, so the offsets are prefix sums of the widths |
| `PdfService.ColumnOffsetsIncrease` | src/services/pdfService.js:59-64 | the column offsets strictly increase from left to right |
| `PdfService.RowCell` | src/services/pdfService.js:71-80 | the table has six cells per work item; cell c of item r holds that item's c-th text at the top of row r, with the header cell's offset and width |
| `PdfService.LayoutImages` | src/services/pdfService.js:95-106 | the document's only images are the vendor's, at x 70, present exactly when its path is, then the approver's, at x 370, present exactly when its path is; each is 20 below the block top and 80 wide |
| `PdfService.SignatureCaptions` | src/services/pdfService.js:85-107 | the document holds the notes line, the status line, both captions at x 50 and x 350, and both parenthesised name lines 80 below the block top, the approver's with its fallback |
| `DocumentController.FirstSignedBy` | src/controllers/documentController.js:30-34 | returns the index of the first attachment, in list order, that is a `signature` by the given uploader, or nothing when there is none; a null uploader id matches nothing |
| `DocumentController.ResolvedIsFirstMatch` | src/controllers/documentController.js:29-41 | a role's key is set to a path exactly when some attachment is that role's signature; the path is the working directory joined with the first such attachment's file path |
| `DocumentController.SignaturePath` | src/controllers/documentController.js:30-41 | no path exactly when no attachment is that uploader's signature; otherwise the working directory joined with the file path of one of their signatures |
| `DocumentController.ResolveSignatures` | src/controllers/documentController.js:29-41 | the vendor's key is set exactly when the vendor uploaded a signature; the approver's exactly when an approver is assigned and uploaded one; each value lies under the working directory |
| `DocumentController.NonSignaturesIgnored` | src/controllers/documentController.js:30-34 | inserting an attachment that is not a `signature`, at any position, never changes what is resolved, whoever uploaded it |
| `DocumentController.UnassignedApproverHasNoSignature` | src/controllers/documentController.js:34 | with no approver assigned, no approver signature is resolved |
| `DocumentController.ContentDisposition` | src/controllers/documentController.js:49 | the header value is `attachment; filename="`, the file name, and a closing `"` |
| `DocumentController.HeaderAcceptedIffReportNumberValid` | src/controllers/documentController.js:48-49 | Node accepts the disposition header exactly when every character of the report number is a tab, printable ASCII or in 0x80-0xFF; the rest of the temporary name always passes |
| `DocumentController.ExportReply` | src/controllers/documentController.js:43-52 | for a report that was found: a download exactly when generation finished and the report number passes the header check, otherwise a 500 with the fixed message; the download is named by the temporary name, and its only images are the vendor's and the approver's first signatures at x 70 and x 370 |
| `DocumentController.FilesAfterExport` | src/controllers/documentController.js:55-65 | after an export with cleanup on every path, the temporary file is gone and no other file has changed |
| `DocumentController.AsWrittenLeaksTempFile` | src/controllers/documentController.js:44-45 | as written, a generation that fails after creating its file leaves the file behind; the corrected export removes it |
| `DocumentController.Exporter.DownloadAsWritten` | src/controllers/documentController.js:9-72 | a lookup error gives 500 and a missing report 404, with no file touched; a finished generation followed by a valid header gives the rendered layout, anything else 500; the file set afterwards is as the code leaves it |
| `DocumentController.Exporter.Download` | src/controllers/documentController.js:9-72 | the same replies, and afterwards the temporary file is gone on every path while no other file has changed |
| `SignatureController.AttachmentStore.UploadSignature` | src/controllers/signatureController.js:14-61 | without a file: 400, nothing changes. Missing fields, unknown report, a lookup error or an insert error: the staged file is unlinked, no record is added, and the reply is 400, 404 or 500, or nothing when the unlink throws. Otherwise one record is added and the file is kept. On replying paths the staged file exists exactly when the new record refers to it, and the store stays consistent |
| `SignatureController.AttachmentStore.DeleteSignature` | src/controllers/signatureController.js:86-115 | a lookup error gives 500 and an unknown id 404, with nothing changed; a requester who is neither the uploader nor an admin gets 403, with nothing changed; otherwise the file is unlinked unless another error stops it, and the record is removed whatever the unlink did |
| `SignatureController.AttachmentStore.GetSignatureFile` | src/controllers/signatureController.js:121-136 | a lookup error gives 500 and a missing record 404; otherwise the stored path is served with the parent of the working directory as root |
| `Storage.Disk.Unlink` | src/controllers/signatureController.js:101-104 | an absent file gives `ENOENT`; an existing file is removed unless the environment refuses, in which case it stays |
| `Storage.Disk.Exists` | src/controllers/documentController.js:63 | reports whether the path is in the file set |
| `Storage.Disk.Create` | src/services/pdfService.js:125 | opening the write stream adds the temporary path to the file set |

## Left out

- `src/routes/signatureRoutes.js`: route wiring and middleware registration only.
- `getBAPPSignatures`: a single ORM query (`findAll` with `include` and `order: createdAt DESC`). Its filtering and ordering happen in the database.
- Multipart parsing and the enforcement of the size limits are done by the upload library. Only the constants and the filters are modelled.
- pdfkit internals are not modelled: fonts, font sizes, underline, `moveDown` spacing, line wrapping, absolute y values, the x of flowing text, and the page width that sizes the header rectangle.
- Date formatting with `moment` and its process-wide `id` locale. The formatter is a parameter of `BuildPdf`.
- `Date.now()`, `uuidv4()` and `process.cwd()` are parameters.
- `path.join` is modelled as concatenation with one separator, without normalisation. `path.extname` follows the POSIX rules only.
- `Strings.ToLower`, `Strings.ToUpper`: ASCII letters only, because Unicode case mapping is not modelled.
- Progress figures are kept as the text `toString` produces, because number formatting is not modelled.
- Null report fields are not modelled. A null vendor or description would make `buildPDF` throw, and that case is covered only as a failed generation.
- Stream plumbing is not modelled: `pipe`, the `finish`, `error` and `close` events, and a client that disconnects. The model takes the export's state after the read stream has closed, and the close-time unlink as having succeeded, because its failure is only logged.
- The creation of the `uploads/temp` directory, because directories are not modelled.
- The `error.message` detail in 500 replies.
- `PdfService.TempFileName`: requests are modelled one at a time. Two exports in the same millisecond share `TempFilePath` when their report numbers are equal, or equal after `/` is replaced by `_` (`PdfService.SanitisedNumbersCollide`). What this sharing does to the streamed file, and to the other export's clean-up, is not modelled.
- `PdfService.DescriptionCell`: the model counts Unicode scalar values, but `substring(0, 30)` counts UTF-16 code units. A description of 16 emoji (32 code units) keeps 15 emoji in the source and all 16 in the model, and a cut through a surrogate pair cannot be represented.
- `DocumentController.FirstSignedBy`: attachments are assumed always to have an uploader, because upload sets `req.user.id`. In the source a null `uploadedBy` would match a null approver id (`null === null`).
- `SignatureController.AttachmentStore.UploadSignature`: one `unlinkFault` flag covers both `unlinkSync` calls, so an unlink error is taken to persist. An error that goes away in time for the catch block's unlink, which then succeeds and replies 500, is not modelled.
- `DocumentController.Exporter.Download`: `Failed(true)` means the stream's asynchronous open finished before the catch block ran. Because `createWriteStream` opens its file after the current tick, recording the path early can still race; a complete fix would also destroy the stream and unlink once it has closed.
- `DocumentController.Exporter.DownloadAsWritten`, `DocumentController.Exporter.Download`: in the catch block, the clean-up `unlinkSync` is taken to succeed, because it runs right after `existsSync` found the file.

## Findings

| source | as written | input that shows it | evidently intended | confidence | as-written member | corrected member |
|---|---|---|---|---|---|---|
| src/controllers/documentController.js:44-45 | `tempFilePath` is assigned only after generation resolves, so the catch block (lines 63-65) never removes a temporary file whose generation failed | a report whose vendor signature image file is missing: `doc.image` throws, the write stream's pending open then creates `uploads/temp/BAPP_….pdf`, and nothing removes it | remove the temporary file on every failure path | medium, not executed | `DocumentController.Exporter.DownloadAsWritten` | `DocumentController.Exporter.Download` |
