/**
 * The department routes mounted at /api/department-reports
 * (backend/src/routes/departmentReportRoutes.js:91-155): a listing by fuzzy
 * department name, and an update of status and proof image that checks the
 * caller's role and nothing else.
 */
module DepartmentRoutes {
  import opened Wrappers
  import opened Models
  import opened Accounts
  import opened Storage
  import DepartmentMatch
  import ReportController

  const ACCESS_DENIED: string := "Access denied"
  const UPDATE_FAILED: string := "Failed to update report"

  /** The route's role check: department accounts and admins pass, citizens never do. */
  predicate DepartmentOrAdmin(caller: Account): (ok: bool)
    ensures ok <==> caller.role in {DEPARTMENT_ROLE, ADMIN}
    ensures caller.role == CITIZEN ==> !ok
  {
    caller.role == DEPARTMENT_ROLE || caller.role == ADMIN
  }

  /**
   * GET /:departmentName: 403 unless the caller is a department or an admin;
   * otherwise every report whose department matches the name's pattern,
   * newest first. No match is an empty list, not an error; an empty pattern
   * matches every report.
   */
  method GetDepartmentReports(store: ReportStore, caller: Account, departmentName: string)
    returns (res: Response<seq<Entry>>)
    requires store.Valid()
    ensures res.Ok? || res == Forbidden(ACCESS_DENIED)
    ensures res.Forbidden? <==> !DepartmentOrAdmin(caller)
    ensures res.Ok? ==> forall e :: e in res.value <==>
              && e.id in store.reports && store.reports[e.id] == e.report
              && DepartmentMatch.MatchesDepartment(e.report.department, departmentName)
    ensures res.Ok? ==> NewestFirst(res.value)
    ensures res.Ok? && DepartmentMatch.Pattern(departmentName) == "" ==>
              forall id :: id in store.reports ==> Entry(id, store.reports[id]) in res.value
  {
    if !DepartmentOrAdmin(caller) {
      return Forbidden(ACCESS_DENIED);
    }
    res := Ok(store.Find(ByDepartmentPattern(departmentName)));
    if DepartmentMatch.Pattern(departmentName) == "" {
      assert forall id :: id in store.reports ==>
               DepartmentMatch.MatchesDepartment(store.reports[id].department, departmentName);
    }
  }

  /**
   * PATCH /:id: 404 for an unknown id before the role is looked at, then 403
   * unless department or admin. A proof image replaces the proof fields only
   * when a file came with the request; the status is replaced only when one
   * is supplied. There is no Pending gate and no check that the report
   * belongs to the caller's department, and lastUpdatedBy is left alone. A
   * status outside the enum fails the save: 500, record unchanged.
   */
  method PatchReport(store: ReportStore, caller: Account, id: ReportId, status: string,
                     upload: ReportController.Upload) returns (res: Response<Report>)
    requires store.Valid()
    modifies store
    ensures store.Valid()
    ensures store.nextId == old(store.nextId)
    ensures store.destroyedHandles == old(store.destroyedHandles) && store.emailsSent == old(store.emailsSent)
    ensures id !in old(store.reports) ==>
              res == NotFound(ReportController.REPORT_NOT_FOUND) && store.reports == old(store.reports)
    ensures id in old(store.reports) && !DepartmentOrAdmin(caller) ==>
              res == Forbidden(ACCESS_DENIED) && store.reports == old(store.reports)
    ensures id in old(store.reports) && DepartmentOrAdmin(caller) && upload.UploadFailed? ==>
              res == ServerError(UPDATE_FAILED) && store.reports == old(store.reports)
    ensures id in old(store.reports) && DepartmentOrAdmin(caller) && !upload.UploadFailed? ==>
              var r := old(store.reports)[id];
              var updated := r.(proofImage := if upload.Uploaded? then Some(upload.secureUrl) else r.proofImage,
                                proofPublicId := if upload.Uploaded? then Some(upload.publicId) else r.proofPublicId,
                                status := if status != "" then status else r.status);
              && (status == "" || ValidStatus(status) ==>
                    res == Ok(updated) && store.reports == old(store.reports)[id := updated])
              && (status != "" && !ValidStatus(status) ==>
                    res == ServerError(UPDATE_FAILED) && store.reports == old(store.reports))
  {
    if id !in store.reports {
      return NotFound(ReportController.REPORT_NOT_FOUND);
    }
    if !DepartmentOrAdmin(caller) {
      return Forbidden(ACCESS_DENIED);
    }
    var updated := store.reports[id];
    match upload {
      case UploadFailed =>
        return ServerError(UPDATE_FAILED);
      case Uploaded(url, handle) =>
        updated := updated.(proofImage := Some(url), proofPublicId := Some(handle));
      case NoFile =>
    }
    if status != "" {
      updated := updated.(status := status);
    }
    var saved := store.Save(id, updated);
    if !saved {
      return ServerError(UPDATE_FAILED);
    }
    res := Ok(updated);
  }
}
