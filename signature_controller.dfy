/**
 * The attachment handlers of `src/controllers/signatureController.js`,
 * over an attachment store: the files on disk and the attachment records
 * by id, kept in step by upload and delete.
 */
module SignatureController {
  import opened Wrappers
  import Paths
  import opened Bapp
  import opened Storage

  type AttachmentId = nat

  /** The authenticated requester (`req.user`). */
  datatype User = User(id: UserId, role: string)

  /** The file multer has already written (`req.file`). */
  datatype StagedFile = StagedFile(path: Path, filename: string)

  datatype Reply =
    | Json(status: nat, success: bool, message: string)
    | Created(message: string, data: Attachment)
    | SendFile(path: Path, root: Path)
    | NoReply   // the handler's promise rejected before any response was sent

  const FileRequired := "File is required for upload"
  const FieldsRequired := "bappId and fileType are required"
  const BappNotFound := "BAPP not found"
  const UploadFailed := "Error uploading attachment"
  const AttachmentNotFound := "Attachment not found"
  const NotAuthorized := "Not authorized to delete this attachment"
  const Deleted := "Attachment deleted successfully"
  const FileNotFound := "File not found"
  const DeleteFailed := "Error deleting attachment"
  const ServeFailed := "Error serving file"

  /** JavaScript truthiness of an optional form field. */
  predicate Truthy(v: Option<string>) { v.Some? && v.value != "" }

  /** Only the uploader or an administrator may delete an attachment. */
  predicate MayDelete(a: Attachment, user: User)
  {
    a.uploadedBy == user.id || user.role == "admin"
  }

  /** Whether `fs.unlinkSync(p)` returns rather than throws. */
  predicate UnlinkSucceeds(files: set<Path>, p: Path, fault: bool) { p in files && !fault }

  class AttachmentStore {
    const disk: Disk
    var records: map<AttachmentId, Attachment>
    var nextId: AttachmentId
    var bapps: set<string>

    /** Ids come from a counter that has passed every stored id. */
    ghost predicate Valid()
      reads this
    {
      forall id :: id in records ==> id < nextId
    }

    /** Every record's file exists and no two records share a file. */
    ghost predicate Consistent()
      reads this, disk
    {
      && (forall id :: id in records ==> records[id].filePath in disk.files)
      && (forall i, j :: i in records && j in records && records[i].filePath == records[j].filePath ==> i == j)
    }

    /** The staged file exists and no record refers to it yet (its name is a fresh uuid). */
    ghost predicate Fresh(file: StagedFile)
      reads this, disk
    {
      file.path in disk.files && forall id :: id in records ==> records[id].filePath != file.path
    }

    constructor(disk: Disk, bapps: set<string>)
      ensures Valid() && this.disk == disk && this.bapps == bapps
      ensures records == map[] && nextId == 0
    {
      this.disk := disk;
      this.bapps := bapps;
      records := map[];
      nextId := 0;
    }

    /**
     * `uploadSignature`. `lookupFails` says whether the report lookup throws,
     * `createFails` whether the record insert throws;
     * `unlinkFault` whether removing the staged file hits an error other than
     * `ENOENT`. A throwing `unlinkSync` sends control to the catch block, whose
     * own `unlinkSync` then throws again and nothing is sent.
     */
    method UploadSignature(file: Option<StagedFile>, bappId: Option<string>, fileType: Option<string>,
                           user: User, lookupFails: bool, createFails: bool, unlinkFault: bool)
      returns (reply: Reply)
      requires Valid()
      modifies this, disk
      ensures Valid() && bapps == old(bapps)
      ensures file.None? ==>
        && reply == Json(400, false, FileRequired)
        && records == old(records) && nextId == old(nextId) && disk.files == old(disk.files)
      ensures file.Some? && !(Truthy(bappId) && Truthy(fileType) && !lookupFails && bappId.value in bapps && !createFails) ==>
        && records == old(records) && nextId == old(nextId)
        && disk.files == AfterUnlink(old(disk.files), file.value.path, unlinkFault)
        && reply == (if !UnlinkSucceeds(old(disk.files), file.value.path, unlinkFault) then NoReply
                     else if !(Truthy(bappId) && Truthy(fileType)) then Json(400, false, FieldsRequired)
                     else if !lookupFails && bappId.value !in bapps then Json(404, false, BappNotFound)
                     else Json(500, false, UploadFailed))
      ensures file.Some? && Truthy(bappId) && Truthy(fileType) && !lookupFails && bappId.value in bapps && !createFails ==>
        var record := Attachment(bappId.value, fileType.value, file.value.path, file.value.filename, user.id);
        && reply == Created(fileType.value + " uploaded successfully", record)
        && records == old(records)[old(nextId) := record] && nextId == old(nextId) + 1
        && disk.files == old(disk.files)
      ensures file.Some? && reply != NoReply && file.value.path in old(disk.files) ==>
        (file.value.path in disk.files <==> old(nextId) in records && records[old(nextId)].filePath == file.value.path)
      ensures old(Consistent()) && (file.Some? ==> old(Fresh(file.value))) ==> Consistent()
    {
      if file.None? {
        return Json(400, false, FileRequired);
      }
      var staged := file.value;
      var thrown := false;
      if !(Truthy(bappId) && Truthy(fileType)) {
        var r := disk.Unlink(staged.path, unlinkFault);
        if r != Removed {
          thrown := true;
        } else {
          return Json(400, false, FieldsRequired);
        }
      } else if lookupFails {
        thrown := true;
      } else if bappId.value !in bapps {
        var r := disk.Unlink(staged.path, unlinkFault);
        if r != Removed {
          thrown := true;
        } else {
          return Json(404, false, BappNotFound);
        }
      } else if createFails {
        thrown := true;
      } else {
        var record := Attachment(bappId.value, fileType.value, staged.path, staged.filename, user.id);
        records := records[nextId := record];
        nextId := nextId + 1;
        return Created(fileType.value + " uploaded successfully", record);
      }
      // catch: remove the staged file, then answer 500
      var r := disk.Unlink(staged.path, unlinkFault);
      if r != Removed {
        return NoReply;
      }
      reply := Json(500, false, UploadFailed);
    }

    /**
     * `deleteSignature`. `lookupFails` says whether the record lookup throws,
     * `unlinkFault` whether removing the file hits an error other than
     * `ENOENT` (that error is only logged), `destroyFails` whether removing the
     * record throws inside the unlink callback, where nothing catches it.
     */
    method DeleteSignature(id: AttachmentId, user: User, lookupFails: bool, unlinkFault: bool, destroyFails: bool)
      returns (reply: Reply)
      requires Valid()
      modifies this, disk
      ensures Valid() && bapps == old(bapps) && nextId == old(nextId)
      ensures lookupFails ==>
        reply == Json(500, false, DeleteFailed) && records == old(records) && disk.files == old(disk.files)
      ensures !lookupFails && id !in old(records) ==>
        reply == Json(404, false, AttachmentNotFound) && records == old(records) && disk.files == old(disk.files)
      ensures !lookupFails && id in old(records) && !MayDelete(old(records)[id], user) ==>
        reply == Json(403, false, NotAuthorized) && records == old(records) && disk.files == old(disk.files)
      ensures !lookupFails && id in old(records) && MayDelete(old(records)[id], user) ==>
        && reply == (if destroyFails then NoReply else Json(200, true, Deleted))
        && records == (if destroyFails then old(records) else old(records) - {id})
        && disk.files == AfterUnlink(old(disk.files), old(records)[id].filePath, unlinkFault)
      ensures old(Consistent()) && !destroyFails ==> Consistent()
    {
      if lookupFails {
        return Json(500, false, DeleteFailed);
      }
      if id !in records {
        return Json(404, false, AttachmentNotFound);
      }
      var attachment := records[id];
      if attachment.uploadedBy != user.id && user.role != "admin" {
        return Json(403, false, NotAuthorized);
      }
      var _ := disk.Unlink(attachment.filePath, unlinkFault);
      if destroyFails {
        return NoReply;
      }
      records := records - {id};
      reply := Json(200, true, Deleted);
    }

    /** `getSignatureFile`: the stored path, served relative to the parent of the working directory. */
    method GetSignatureFile(id: AttachmentId, cwd: string, lookupFails: bool) returns (reply: Reply)
      ensures lookupFails ==> reply == Json(500, false, ServeFailed)
      ensures !lookupFails && id !in records ==> reply == Json(404, false, FileNotFound)
      ensures !lookupFails && id in records ==> reply == SendFile(records[id].filePath, Paths.Join(cwd, ".."))
    {
      if lookupFails {
        return Json(500, false, ServeFailed);
      }
      if id !in records {
        return Json(404, false, FileNotFound);
      }
      reply := SendFile(records[id].filePath, Paths.Join(cwd, ".."));
    }
  }
}
