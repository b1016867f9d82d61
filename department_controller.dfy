/**
 * The department controller of backend/src/controllers/departmentController.js.
 * No route mounts it (backend/src/app.js:43 mounts the routes file instead);
 * it is modelled as written, beside the live routes, because its rules differ:
 * an exact department match, and an update gate on the caller's name.
 */
module DepartmentController {
  import opened Wrappers
  import opened Models
  import opened Accounts
  import opened Storage
  import ReportController

  const ACCESS_DENIED: string := "Access denied"
  const UPDATE_FAILED: string := "Error updating report"
  const UPDATE_SUBJECT_PREFIX: string := "Update on your report \""

  /** The update is allowed iff the report's department is exactly the caller's name, or the caller is an admin. */
  predicate MayUpdate(caller: Account, r: Report): (ok: bool)
    ensures caller.role == ADMIN ==> ok
    ensures caller.role != ADMIN ==> (ok <==> r.department == caller.name)
  {
    r.department == caller.name || caller.role == ADMIN
  }

  function UpdateSubject(title: string): string {
    UPDATE_SUBJECT_PREFIX + title + "\""
  }

  /** getDepartmentReports: the reports whose department is exactly the name, newest first. */
  method GetDepartmentReports(store: ReportStore, departmentName: string) returns (res: Response<seq<Entry>>)
    requires store.Valid()
    ensures res.Ok?
    ensures forall e :: e in res.value <==>
              e.id in store.reports && store.reports[e.id] == e.report && e.report.department == departmentName
    ensures NewestFirst(res.value)
  {
    res := Ok(store.Find(ByDepartment(departmentName)));
  }

  /**
   * updateDepartmentReport: 404 before any permission check; 403 unless
   * MayUpdate (the caller's role is not otherwise looked at); proof fields
   * only with a file, status only when supplied, no Pending gate; after a
   * successful save the owner is emailed.
   */
  method UpdateDepartmentReport(store: ReportStore, users: seq<Account>, caller: Account, id: ReportId,
                                status: string, upload: ReportController.Upload) returns (res: Response<Report>)
    requires store.Valid()
    modifies store
    ensures store.Valid()
    ensures store.nextId == old(store.nextId) && store.destroyedHandles == old(store.destroyedHandles)
    ensures id !in old(store.reports) ==>
              res == NotFound(ReportController.REPORT_NOT_FOUND)
              && store.reports == old(store.reports) && store.emailsSent == old(store.emailsSent)
    ensures id in old(store.reports) && !MayUpdate(caller, old(store.reports)[id]) ==>
              res == Forbidden(ACCESS_DENIED)
              && store.reports == old(store.reports) && store.emailsSent == old(store.emailsSent)
    ensures id in old(store.reports) && MayUpdate(caller, old(store.reports)[id]) && upload.UploadFailed? ==>
              res == ServerError(UPDATE_FAILED)
              && store.reports == old(store.reports) && store.emailsSent == old(store.emailsSent)
    ensures id in old(store.reports) && MayUpdate(caller, old(store.reports)[id]) && !upload.UploadFailed? ==>
              var r := old(store.reports)[id];
              var updated := r.(proofImage := if upload.Uploaded? then Some(upload.secureUrl) else r.proofImage,
                                proofPublicId := if upload.Uploaded? then Some(upload.publicId) else r.proofPublicId,
                                status := if status != "" then status else r.status);
              && (status == "" || ValidStatus(status) ==>
                    && res == Ok(updated) && store.reports == old(store.reports)[id := updated]
                    && store.emailsSent
                       == old(store.emailsSent) + ReportController.MailTo(FindById(users, r.user), UpdateSubject(r.title)))
              && (status != "" && !ValidStatus(status) ==>
                    res == ServerError(UPDATE_FAILED)
                    && store.reports == old(store.reports) && store.emailsSent == old(store.emailsSent))
  {
    if id !in store.reports {
      return NotFound(ReportController.REPORT_NOT_FOUND);
    }
    var r := store.reports[id];
    if !MayUpdate(caller, r) {
      return Forbidden(ACCESS_DENIED);
    }
    var updated := r;
    match upload {
      case UploadFailed =>
        return ServerError(UPDATE_FAILED);
      case Uploaded(url, handle) =>
        updated := updated.(proofImage := Some(url), proofPublicId := Some(handle));
      case NoFile =>
    }
    if status != "" {
      updated := updated.(status := status);
    }
    var saved := store.Save(id, updated);
    if !saved {
      return ServerError(UPDATE_FAILED);
    }
    store.SendEmail(ReportController.MailTo(FindById(users, r.user), UpdateSubject(r.title)));
    res := Ok(updated);
  }

  /**
   * An account named "Electrical Department" is refused on a report the
   * router filed under "Electrical": the names differ, and it is not an admin.
   */
  lemma SuffixedAccountRefused(caller: Account, r: Report)
    requires caller.name == "Electrical Department" && caller.role == DEPARTMENT_ROLE
    requires r.department == "Electrical"
    ensures !MayUpdate(caller, r)
  {
    assert |caller.name| != |r.department|;
  }
}
