/**
 * The records the slice reads and writes: a BAPP (work-completion report)
 * with its vendor, its approving officer ("direksi pekerjaan"), its work
 * items and its attachments, as the ORM hands them over.
 */
module Bapp {
  import opened Wrappers

  type UserId = nat

  /** A calendar date as stored; its rendering is a parameter of the renderer. */
  type Date = string

  datatype Vendor = Vendor(id: UserId, name: string, company: string)

  datatype Officer = Officer(id: UserId, name: string)

  /** One inspected line of work; the progress figures are kept as the text `toString` gives them. */
  datatype WorkItem = WorkItem(
    workItemName: string,
    description: string,
    plannedProgress: string,
    actualProgress: string,
    unit: string,
    quality: string)

  /** A stored file linked to a report: a `signature` image or a `document`. */
  datatype Attachment = Attachment(
    bappId: string,
    fileType: string,
    filePath: string,
    fileName: string,
    uploadedBy: UserId)

  /** The report aggregate loaded with its vendor, officer, work items and attachments. */
  datatype Report = Report(
    bappNumber: string,
    contractNumber: string,
    projectName: string,
    projectLocation: string,
    startDate: Date,
    endDate: Date,
    completionDate: Date,
    notes: Option<string>,
    status: string,
    vendorId: UserId,
    vendor: Vendor,
    direksiPekerjaanId: Option<UserId>,
    direksiPekerjaan: Option<Officer>,
    workItems: seq<WorkItem>,
    attachments: seq<Attachment>)
}
