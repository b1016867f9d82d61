/**
 * Properties that span several handlers: the Pending lock the admin route
 * keeps and the department route does not, the seeded "... Department"
 * accounts against the router's bare department names, and a refused upload
 * as the error handler answers it.
 */
module Scenarios {
  import opened Wrappers
  import opened Text
  import opened Models
  import opened Accounts
  import opened Storage
  import AdminController
  import DepartmentRoutes
  import DepartmentController
  import DepartmentMatch
  import ReportController
  import UploadMiddleware
  import ErrorHandler

  /**
   * The Pending lock is enforced only on the admin route: an admin is refused
   * on a Pending report, and right after that a department account resolves
   * the same report through PATCH /api/department-reports/:id.
   */
  method PendingLockBypass(store: ReportStore, users: seq<Account>, admin: Account, department: Account, id: ReportId)
    returns (adminRes: Response<Report>, departmentRes: Response<Report>)
    requires store.Valid() && id in store.reports && store.reports[id].status == PENDING
    requires admin.role == ADMIN && department.role == DEPARTMENT_ROLE
    modifies store
    ensures adminRes == Forbidden(AdminController.GATE_MESSAGE)
    ensures departmentRes == Ok(old(store.reports)[id].(status := RESOLVED))
    ensures store.reports == old(store.reports)[id := old(store.reports)[id].(status := RESOLVED)]
  {
    adminRes := AdminController.UpdateReportStatus(store, users, admin, id, RESOLVED, false, true);
    departmentRes := DepartmentRoutes.PatchReport(store, department, id, RESOLVED, ReportController.NoFile);
  }

  /**
   * The account seeded as "Electrical Department" lists, through the mounted
   * route, the reports the router files under "Electrical", while the
   * unmounted controller's exact-name rule would refuse it their update.
   */
  lemma ElectricalAccountSeesElectricalReports(reportDepartment: string, caller: Account, r: Report)
    requires reportDepartment == "Electrical"
    requires caller.name == reportDepartment + " Department" && caller.role == DEPARTMENT_ROLE
    requires r.department == reportDepartment
    ensures DepartmentMatch.MatchesDepartment(r.department, caller.name)
    ensures !DepartmentController.MayUpdate(caller, r)
  {
    ElectricalIsBareName(reportDepartment);
    DepartmentMatch.SuffixedNameMatchesStem(reportDepartment);
    assert |caller.name| != |r.department|;
  }

  /** "Electrical" has no "department" in it and no blank at either end. */
  lemma ElectricalIsBareName(name: string)
    requires name == "Electrical"
    ensures !ContainsCI(name, DepartmentMatch.DEPARTMENT_WORD)
    ensures name != [] && !IsSpace(name[0]) && !IsSpace(name[|name| - 1])
  {
    var lower := Lower(name);
    assert lower == "electrical";
    AbsentChar(lower, DepartmentMatch.DEPARTMENT_WORD, 0);
  }

  /**
   * A file that is not an image is refused by the filter, and since nothing
   * has set a status yet the error handler answers 500 with the filter's
   * message.
   */
  lemma NonImageUploadIsServerError(mimetype: string, size: nat, stack: string, production: bool)
    requires !StartsWith(mimetype, UploadMiddleware.IMAGE_PREFIX)
    ensures var outcome := UploadMiddleware.ReceiveFile(mimetype, size);
      && outcome.Refused?
      && ErrorHandler.HandleError(200, outcome.error, stack, production).status == 500
      && ErrorHandler.HandleError(200, outcome.error, stack, production).message == UploadMiddleware.ONLY_IMAGES
  {
  }
}
