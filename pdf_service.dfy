/**
 * The report renderer of `src/services/pdfService.js`. A document is the
 * sequence of drawing commands the renderer issues, in order. Horizontal
 * positions are absolute page coordinates, offsets from the table's left
 * edge, or the flowing text position; vertical positions are the flowing
 * cursor or a fixed offset below a cursor position the renderer captured
 * (the table top, the top of each row, the top of the signature block).
 */
module PdfService {
  import opened Wrappers
  import opened Strings
  import Paths
  import opened Bapp

  datatype Align = AlignLeft | AlignCenter

  datatype XPos = FlowX | TableX(dx: int) | PageX(x: int)

  datatype Anchor = TableTop | RowTop(row: nat) | SignatureTop

  datatype YPos = FlowY | Below(anchor: Anchor, dy: int)

  /**
   * `doc.text`, `doc.image` and the rectangle around the table header (whose
   * width is the page width minus both margins).
   */
  datatype Command =
    | Text(content: string, x: XPos, y: YPos, width: Option<nat>, align: Align)
    | Image(path: string, x: XPos, y: YPos, width: Option<nat>)
    | HeaderBox(x: XPos, y: YPos, height: nat)

  /** The resolved image paths: the `vendorSignature` and `approverSignature` keys. */
  datatype Signatures = Signatures(vendor: Option<string>, approver: Option<string>)

  const Title := "BERITA ACARA PEMERIKSAAN PEKERJAAN (BAPP)"
  const NotesPlaceholder := "Tidak ada catatan tambahan."
  const UnassignedApprover := "Direksi Pekerjaan (Belum Ditunjuk)"
  const StatusPrefix := "Status Akhir: "
  const DescriptionBudget: nat := 30
  const Ellipsis := "..."

  const ColumnHeaders: seq<string> :=
    ["Item Pekerjaan", "Deskripsi", "Progress Rencana (%)", "Progress Aktual (%)", "Unit", "Kualitas"]
  const ColumnWidths: seq<nat> := [120, 150, 80, 80, 40, 60]
  const ColumnAligns: seq<Align> := [AlignLeft, AlignLeft, AlignCenter, AlignCenter, AlignCenter, AlignCenter]

  function Line(s: string): Command { Text(s, FlowX, FlowY, None, AlignLeft) }
  function CenteredLine(s: string): Command { Text(s, FlowX, FlowY, None, AlignCenter) }

  // ---------------------------------------------------------------- file name

  /**
   * The temporary file name: `BAPP_`, the report number with every `/` made
   * `_`, `_`, the millisecond clock, `.pdf`.
   */
  function TempFileName(bappNumber: string, now: nat): (r: string)
    ensures StartsWith(r, "BAPP_") && EndsWith(r, ".pdf")
    ensures '/' !in r
  {
    var sanitized, stamp := ReplaceAll(bappNumber, '/', '_'), Decimal(now);
    var r := "BAPP_" + sanitized + "_" + stamp + ".pdf";
    assert forall i :: 0 <= i < |stamp| ==> stamp[i] != '/';
    assert r[..5] == "BAPP_";
    assert r[|r| - 4..] == ".pdf";
    r
  }

  /** Where the temporary file is written: `uploads/temp` under the working directory. */
  function TempFilePath(cwd: string, fileName: string): (r: string)
    ensures StartsWith(r, cwd) && EndsWith(r, "/uploads/temp/" + fileName)
    ensures |r| == |cwd| + |"/uploads/temp/"| + |fileName|
  {
    var r := Paths.Join(Paths.Join(Paths.Join(cwd, "uploads"), "temp"), fileName);
    assert r == cwd + "/uploads/temp/" + fileName;
    assert r[..|cwd|] == cwd;
    assert r[|r| - |"/uploads/temp/" + fileName|..] == "/uploads/temp/" + fileName;
    r
  }

  /** The temporary file's name is the last segment of its path, for any working directory. */
  lemma TempFileNameIsLastSegment(cwd: string, bappNumber: string, now: nat)
    ensures var name := TempFileName(bappNumber, now);
      Paths.LastSegment(TempFilePath(cwd, name)) == name
  {
    var name := TempFileName(bappNumber, now);
    var r := TempFilePath(cwd, name);
    var k := |r| - |name| - 1;
    assert r[|r| - |name|..] == name;
    assert r[k] == '/';
    assert r[|r| - 1] == name[|name| - 1] == 'f';
    assert Paths.TrimTrailingSlashes(r) == r;
    var last := Paths.LastIndexOf(r, '/');
    assert forall j :: k < j < |r| ==> r[j] == name[j - k - 1];
    assert last.Some? && last.value == k;
    assert r[k + 1..] == name;
  }

  /** For one report number, the file name determines the clock reading it was made at. */
  lemma TempFileNameDeterminesTime(bappNumber: string, t1: nat, t2: nat)
    requires TempFileName(bappNumber, t1) == TempFileName(bappNumber, t2)
    ensures t1 == t2
  {
    var head := "BAPP_" + ReplaceAll(bappNumber, '/', '_') + "_";
    var n1, n2 := TempFileName(bappNumber, t1), TempFileName(bappNumber, t2);
    assert n1 == head + Decimal(t1) + ".pdf";
    assert n2 == head + Decimal(t2) + ".pdf";
    assert |Decimal(t1)| == |Decimal(t2)|;
    assert Decimal(t1) == n1[|head|..|n1| - 4] == n2[|head|..|n2| - 4] == Decimal(t2);
    DecimalInjective(t1, t2);
  }

  /**
   * Sanitising loses information: two report numbers that agree except that
   * one has `/` where the other has `_` get the same temporary name in the
   * same millisecond (for example `A/B` and `A_B`).
   */
  lemma SanitisedNumbersCollide(number1: string, number2: string, now: nat)
    requires |number1| == |number2|
    requires forall i :: 0 <= i < |number1| ==>
      number1[i] == number2[i] || (number1[i] in "/_" && number2[i] in "/_")
    ensures TempFileName(number1, now) == TempFileName(number2, now)
  {
    var s1, s2 := ReplaceAll(number1, '/', '_'), ReplaceAll(number2, '/', '_');
    assert forall i :: 0 <= i < |s1| ==> s1[i] == s2[i];
    assert s1 == s2;
  }

  // ---------------------------------------------------------------- cell texts

  /** The description cell: at most the first 30 characters, then `...` always. */
  function DescriptionCell(description: string): (r: string)
    ensures |r| == (if |description| < DescriptionBudget then |description| else DescriptionBudget) + 3
    ensures |r| <= DescriptionBudget + 3
    ensures StartsWith(description, r[..|r| - 3]) && EndsWith(r, Ellipsis)
  {
    var keep := if |description| < DescriptionBudget then |description| else DescriptionBudget;
    var r := description[..keep] + Ellipsis;
    assert r[..|r| - 3] == description[..keep];
    assert r[|r| - 3..] == Ellipsis;
    r
  }

  /** A description within the budget is kept whole but still gets the ellipsis. */
  lemma ShortDescriptionGetsEllipsis(description: string)
    requires |description| <= DescriptionBudget
    ensures DescriptionCell(description) == description + Ellipsis
    ensures DescriptionCell(description) != description
  {
  }

  /** The notes line: the notes when they are a non-empty string, else the placeholder. */
  function NotesText(notes: Option<string>): (r: string)
    ensures r != ""
    ensures notes.Some? && notes.value != "" ==> r == notes.value
    ensures notes.None? || notes.value == "" ==> r == NotesPlaceholder
  {
    if notes.Some? && notes.value != "" then notes.value else NotesPlaceholder
  }

  /** The approver's name: the officer's when one is assigned, else the placeholder. */
  function ApproverName(officer: Option<Officer>): (r: string)
    ensures officer.Some? ==> r == officer.value.name
    ensures officer.None? ==> r == UnassignedApprover
  {
    match officer
    case Some(o) => o.name
    case None => UnassignedApprover
  }

  /** The status line: the fixed label, then the status in upper case. */
  function StatusLine(status: string): (r: string)
    ensures StartsWith(r, StatusPrefix) && |r| == |StatusPrefix| + |status|
    ensures forall i :: |StatusPrefix| <= i < |r| ==> !IsLower(r[i])
    ensures forall i :: 0 <= i < |status| && !IsLower(status[i]) ==> r[|StatusPrefix| + i] == status[i]
    ensures forall i :: 0 <= i < |status| && IsLower(status[i]) ==> r[|StatusPrefix| + i] as int == status[i] as int - 32
  {
    var r := StatusPrefix + ToUpper(status);
    assert r[..|StatusPrefix|] == StatusPrefix;
    r
  }

  // ---------------------------------------------------------------- table

  function Sum(ws: seq<nat>): nat
  {
    if ws == [] then 0 else Sum(ws[..|ws| - 1]) + ws[|ws| - 1]
  }

  /** The left edge of column `c`, measured from the table's left edge. */
  function ColumnOffset(c: nat): nat
    requires c <= |ColumnWidths|
  {
    Sum(ColumnWidths[..c])
  }

  function Cell(content: string, c: nat, y: YPos): Command
    requires c < |ColumnWidths|
  {
    Text(content, TableX(ColumnOffset(c)), y, Some(ColumnWidths[c]), ColumnAligns[c])
  }

  function Cells(contents: seq<string>, y: YPos): (r: seq<Command>)
    requires |contents| == |ColumnWidths|
    ensures |r| == |ColumnWidths|
  {
    seq(|ColumnWidths|, c requires 0 <= c < |ColumnWidths| => Cell(contents[c], c, y))
  }

  /** The bold header row and the rectangle drawn around it, 2 above the row. */
  function TableHeader(): seq<Command>
  {
    Cells(ColumnHeaders, Below(TableTop, 0)) + [HeaderBox(TableX(0), Below(TableTop, -2), 15)]
  }

  function RowTexts(item: WorkItem): (r: seq<string>)
    ensures |r| == |ColumnWidths|
  {
    [item.workItemName, DescriptionCell(item.description), item.plannedProgress,
     item.actualProgress, item.unit, item.quality]
  }

  /** The six cells of the row for `item`, all at the top of row `r`. */
  function Row(item: WorkItem, r: nat): seq<Command>
  {
    Cells(RowTexts(item), Below(RowTop(r), 0))
  }

  /** The rows of the table, one per work item in the given order. */
  function Rows(items: seq<WorkItem>): seq<Command>
  {
    if items == [] then [] else Rows(items[..|items| - 1]) + Row(items[|items| - 1], |items| - 1)
  }

  // ---------------------------------------------------------------- signatures

  function SignatureImage(path: Option<string>, x: int): seq<Command>
  {
    if path.Some? then [Image(path.value, PageX(x), Below(SignatureTop, 20), Some(80))] else []
  }

  /** The two side-by-side signature blocks: vendor on the left, approver on the right. */
  function SignatureBlock(sigs: Signatures, vendorName: string, approverName: string): seq<Command>
  {
    [Text("Dibuat oleh Vendor,", PageX(50), Below(SignatureTop, 0), None, AlignLeft)]
    + SignatureImage(sigs.vendor, 70)
    + [Text("(" + vendorName + ")", PageX(50), Below(SignatureTop, 80), None, AlignLeft),
       Text("Disetujui oleh Direksi Pekerjaan,", PageX(350), Below(SignatureTop, 0), None, AlignLeft)]
    + SignatureImage(sigs.approver, 370)
    + [Text("(" + approverName + ")", PageX(350), Below(SignatureTop, 80), None, AlignLeft)]
  }

  // ---------------------------------------------------------------- the document

  /** Title, sections I to III and the heading of the table. */
  function Opening(data: Report, formatDate: Date -> string): seq<Command>
  {
    [CenteredLine(Title),
     CenteredLine("Nomor BAPP: " + data.bappNumber),
     Line("I. INFORMASI PEKERJAAN"),
     Line("Nomor Kontrak/SPK: " + data.contractNumber),
     Line("Nama Proyek: " + data.projectName),
     Line("Lokasi Proyek: " + data.projectLocation),
     Line("Periode Pekerjaan: " + formatDate(data.startDate) + " s/d " + formatDate(data.endDate)),
     Line("Tanggal Penyelesaian: " + formatDate(data.completionDate)),
     Line("II. DETAIL REKANAN"),
     Line("Nama Rekanan (Vendor): " + data.vendor.name),
     Line("Perusahaan: " + data.vendor.company),
     Line("III. HASIL PEMERIKSAAN PEKERJAAN")]
  }

  /** Sections IV and V: notes, status and the signature blocks. */
  function Closing(data: Report, sigs: Signatures): seq<Command>
  {
    [Line("IV. CATATAN"),
     Line(NotesText(data.notes)),
     Line("V. PERSETUJUAN DOKUMEN"),
     Line(StatusLine(data.status))]
    + SignatureBlock(sigs, data.vendor.name, ApproverName(data.direksiPekerjaan))
  }

  /** The whole document `buildPDF` draws. */
  function ReportLayout(data: Report, sigs: Signatures, formatDate: Date -> string): seq<Command>
  {
    Opening(data, formatDate) + TableHeader() + Rows(data.workItems) + Closing(data, sigs)
  }

  /**
   * `buildPDF`: draws the fixed sections, then one row per work item while
   * moving the row cursor, then the closing sections.
   */
  method BuildPdf(data: Report, sigs: Signatures, formatDate: Date -> string) returns (doc: seq<Command>)
    ensures doc == ReportLayout(data, sigs, formatDate)
  {
    doc := Opening(data, formatDate) + TableHeader();
    var items := data.workItems;
    var i := 0;
    while i < |items|
      invariant 0 <= i <= |items|
      invariant doc == Opening(data, formatDate) + TableHeader() + Rows(items[..i])
    {
      assert items[..i + 1][..i] == items[..i];
      doc := doc + Row(items[i], i);
      i := i + 1;
    }
    assert items[..i] == items;
    doc := doc + Closing(data, sigs);
  }

  // ---------------------------------------------------------------- properties

  /** The column offsets are 0, 120, 270, 350, 430, 470, and the table is 530 wide. */
  lemma ColumnOffsetValues()
    ensures ColumnOffset(0) == 0 && ColumnOffset(1) == 120 && ColumnOffset(2) == 270
    ensures ColumnOffset(3) == 350 && ColumnOffset(4) == 430 && ColumnOffset(5) == 470
    ensures ColumnOffset(6) == 530
  {
    assert ColumnWidths[..1][..0] == ColumnWidths[..0];
    assert ColumnWidths[..2][..1] == ColumnWidths[..1];
    assert ColumnWidths[..3][..2] == ColumnWidths[..2];
    assert ColumnWidths[..4][..3] == ColumnWidths[..3];
    assert ColumnWidths[..5][..4] == ColumnWidths[..4];
    assert ColumnWidths[..6][..5] == ColumnWidths[..5];
  }

  /** Each column starts where the previous one ends. */
  lemma ColumnsAbut(c: nat)
    requires c < |ColumnWidths|
    ensures ColumnOffset(c) + ColumnWidths[c] == ColumnOffset(c + 1)
  {
    assert ColumnWidths[..c + 1][..c] == ColumnWidths[..c];
  }

  /** Prefix sums of positive widths strictly increase. */
  lemma {:induction false} PrefixSumsIncrease(ws: seq<nat>, c: nat, d: nat)
    requires forall i :: 0 <= i < |ws| ==> ws[i] > 0
    requires c < d <= |ws|
    ensures Sum(ws[..c]) < Sum(ws[..d])
    decreases d
  {
    assert ws[..d][..d - 1] == ws[..d - 1];
    if c < d - 1 {
      PrefixSumsIncrease(ws, c, d - 1);
    }
  }

  /** Column offsets strictly increase from left to right. */
  lemma ColumnOffsetsIncrease(c: nat, d: nat)
    requires c < d <= |ColumnWidths|
    ensures ColumnOffset(c) < ColumnOffset(d)
  {
    PrefixSumsIncrease(ColumnWidths, c, d);
  }

  /**
   * The table has six commands per work item; cell `c` of item `r` holds
   * that item's `c`-th text at the top of row `r`, with the same column
   * offset, width and alignment as the header's cell `c`.
   */
  lemma {:induction false} RowCell(items: seq<WorkItem>, r: nat, c: nat)
    requires r < |items| && c < |ColumnWidths|
    ensures |Rows(items)| == |ColumnWidths| * |items|
    ensures Rows(items)[|ColumnWidths| * r + c] == Cell(RowTexts(items[r])[c], c, Below(RowTop(r), 0))
    ensures Rows(items)[|ColumnWidths| * r + c].x == TableHeader()[c].x == TableX(ColumnOffset(c))
    ensures Rows(items)[|ColumnWidths| * r + c].width == TableHeader()[c].width
    decreases |items|
  {
    var n := |items|;
    var front := items[..n - 1];
    if r < n - 1 {
      RowCell(front, r, c);
      assert front[r] == items[r];
    } else {
      if n > 1 {
        RowCell(front, 0, 0);
      }
      assert |Rows(front)| == |ColumnWidths| * (n - 1);
    }
  }

  /** The image commands of a command sequence, in order. */
  function Images(cmds: seq<Command>): seq<Command>
  {
    if cmds == [] then []
    else (if cmds[0].Image? then [cmds[0]] else []) + Images(cmds[1..])
  }

  lemma {:induction false} ImagesAppend(a: seq<Command>, b: seq<Command>)
    ensures Images(a + b) == Images(a) + Images(b)
    decreases |a|
  {
    if a == [] {
      assert a + b == b;
    } else {
      assert (a + b)[0] == a[0];
      assert (a + b)[1..] == a[1..] + b;
      ImagesAppend(a[1..], b);
    }
  }

  lemma {:induction false} NoImages(cmds: seq<Command>)
    requires forall i :: 0 <= i < |cmds| ==> !cmds[i].Image?
    ensures Images(cmds) == []
    decreases |cmds|
  {
    if cmds != [] {
      NoImages(cmds[1..]);
    }
  }

  lemma {:induction false} RowsHaveNoImages(items: seq<WorkItem>)
    ensures Images(Rows(items)) == []
    decreases |items|
  {
    if items != [] {
      var n := |items|;
      RowsHaveNoImages(items[..n - 1]);
      NoImages(Row(items[n - 1], n - 1));
      ImagesAppend(Rows(items[..n - 1]), Row(items[n - 1], n - 1));
    }
  }

  lemma SignatureBlockImages(sigs: Signatures, vendorName: string, approverName: string)
    ensures Images(SignatureBlock(sigs, vendorName, approverName)) ==
      SignatureImage(sigs.vendor, 70) + SignatureImage(sigs.approver, 370)
  {
    var vendorCaption := [Text("Dibuat oleh Vendor,", PageX(50), Below(SignatureTop, 0), None, AlignLeft)];
    var middle := [Text("(" + vendorName + ")", PageX(50), Below(SignatureTop, 80), None, AlignLeft),
                   Text("Disetujui oleh Direksi Pekerjaan,", PageX(350), Below(SignatureTop, 0), None, AlignLeft)];
    var approverLine := [Text("(" + approverName + ")", PageX(350), Below(SignatureTop, 80), None, AlignLeft)];
    var vendorImage, approverImage := SignatureImage(sigs.vendor, 70), SignatureImage(sigs.approver, 370);
    NoImages(vendorCaption);
    NoImages(middle);
    NoImages(approverLine);
    assert Images(vendorImage) == vendorImage;
    assert Images(approverImage) == approverImage;
    ImagesAppend(vendorCaption, vendorImage);
    ImagesAppend(vendorCaption + vendorImage, middle);
    ImagesAppend(vendorCaption + vendorImage + middle, approverImage);
    ImagesAppend(vendorCaption + vendorImage + middle + approverImage, approverLine);
  }

  lemma ClosingImages(data: Report, sigs: Signatures)
    ensures Images(Closing(data, sigs)) == SignatureImage(sigs.vendor, 70) + SignatureImage(sigs.approver, 370)
  {
    var notes := [Line("IV. CATATAN"), Line(NotesText(data.notes)),
                  Line("V. PERSETUJUAN DOKUMEN"), Line(StatusLine(data.status))];
    NoImages(notes);
    SignatureBlockImages(sigs, data.vendor.name, ApproverName(data.direksiPekerjaan));
    ImagesAppend(notes, SignatureBlock(sigs, data.vendor.name, ApproverName(data.direksiPekerjaan)));
  }

  lemma OpeningAndHeaderHaveNoImages(data: Report, formatDate: Date -> string)
    ensures Images(Opening(data, formatDate) + TableHeader()) == []
  {
    NoImages(Opening(data, formatDate) + TableHeader());
  }

  /**
   * The only images in the document are the signatures: the vendor's at
   * x 70 when its path is present, then the approver's at x 370 when its path
   * is present, each 20 below the block top and 80 wide.
   */
  lemma LayoutImages(data: Report, sigs: Signatures, formatDate: Date -> string)
    ensures Images(ReportLayout(data, sigs, formatDate)) ==
      SignatureImage(sigs.vendor, 70) + SignatureImage(sigs.approver, 370)
  {
    var top := Opening(data, formatDate) + TableHeader();
    OpeningAndHeaderHaveNoImages(data, formatDate);
    RowsHaveNoImages(data.workItems);
    ClosingImages(data, sigs);
    ImagesAppend(top, Rows(data.workItems));
    ImagesAppend(top + Rows(data.workItems), Closing(data, sigs));
  }

  /**
   * The captions sit at x 50 and x 350 on the block top; both name lines,
   * in parentheses, sit 80 below it, the approver's with its fallback.
   */
  lemma SignatureCaptions(data: Report, sigs: Signatures, formatDate: Date -> string)
    ensures var doc := ReportLayout(data, sigs, formatDate);
      && Text("Dibuat oleh Vendor,", PageX(50), Below(SignatureTop, 0), None, AlignLeft) in doc
      && Text("(" + data.vendor.name + ")", PageX(50), Below(SignatureTop, 80), None, AlignLeft) in doc
      && Text("Disetujui oleh Direksi Pekerjaan,", PageX(350), Below(SignatureTop, 0), None, AlignLeft) in doc
      && Text("(" + ApproverName(data.direksiPekerjaan) + ")", PageX(350), Below(SignatureTop, 80), None, AlignLeft) in doc
      && Line(NotesText(data.notes)) in doc
      && Line(StatusLine(data.status)) in doc
  {
    var block := SignatureBlock(sigs, data.vendor.name, ApproverName(data.direksiPekerjaan));
    assert block[|block| - 1] == Text("(" + ApproverName(data.direksiPekerjaan) + ")", PageX(350), Below(SignatureTop, 80), None, AlignLeft);
    assert Closing(data, sigs)[1] == Line(NotesText(data.notes));
    assert Closing(data, sigs)[3] == Line(StatusLine(data.status));
  }
}
