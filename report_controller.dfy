/**
 * The citizen-facing handlers of backend/src/controllers/reportController.js.
 * Each takes the caller (req.user), the request fields and the store, and
 * returns the response it sends. The User collection is read only, for the
 * email addresses the handlers notify.
 */
module ReportController {
  import opened Wrappers
  import opened Text
  import opened Models
  import opened Accounts
  import opened Storage
  import Routing

  const MISSING_REPORT_FIELDS: string := "All required fields must be filled."
  const CREATE_FAILED: string := "Server error while creating report"
  const ACCESS_DENIED: string := "Access denied"
  const REPORT_NOT_FOUND: string := "Report not found"
  const NO_IMAGE: string := "No image to delete"
  const IMAGE_DELETED: string := "Image deleted successfully"
  const REPORT_DELETED: string := "Report deleted successfully"
  const IMAGE_DELETE_FAILED: string := "Server error deleting image"
  const REPORT_DELETE_FAILED: string := "Server error deleting report"
  const SUBMITTED_SUBJECT: string := "CivicEye - Report Submitted"
  const NEW_ISSUE_SUBJECT: string := "New Issue Reported - "

  /** The fields of the creation form; "" is a missing string, None a missing or unparsable number. */
  datatype ReportBody = ReportBody(
    title: string, description: string, category: string, address: string,
    department: string, latitude: Option<real>, longitude: Option<real>)

  /** The image that came with the request, and what the image host made of it. */
  datatype Upload = NoFile | Uploaded(secureUrl: string, publicId: string) | UploadFailed

  /** parseFloat(v) || 0. */
  function Coordinate(v: Option<real>): real {
    if v.Some? then v.value else 0.0
  }

  /** An admin may act on any report; anyone else only on the reports they own. */
  predicate OwnerOrAdmin(caller: Account, r: Report): (ok: bool)
    ensures caller.role == ADMIN ==> ok
    ensures caller.role != ADMIN ==> (ok <==> caller.id == r.user)
  {
    caller.role == ADMIN || caller.id == r.user
  }

  /** User.findOne({ role: "department", name: <department, case-insensitive> }). */
  function FindDepartmentUser(users: seq<Account>, department: string): (r: Option<Account>)
    ensures r.Some? ==> r.value in users && r.value.role == DEPARTMENT_ROLE && ContainsCI(r.value.name, department)
    ensures r.None? ==> forall u :: u in users ==> !(u.role == DEPARTMENT_ROLE && ContainsCI(u.name, department))
  {
    if users == [] then None
    else if users[0].role == DEPARTMENT_ROLE && ContainsCI(users[0].name, department) then Some(users[0])
    else FindDepartmentUser(users[1..], department)
  }

  /** A message to the account's address, when it has one. */
  function MailTo(account: Option<Account>, subject: string): (mails: seq<Email>)
    ensures |mails| <= 1
    ensures |mails| == 1 <==> account.Some? && account.value.email != ""
    ensures mails != [] ==> mails[0] == Email(account.value.email, subject)
  {
    if account.Some? && account.value.email != "" then [Email(account.value.email, subject)] else []
  }

  /**
   * The confirmation to the citizen, then the notice to the first matching
   * department account: at most two mails, each to the non-empty address of
   * a known account, the owner's first when it has an address.
   */
  function CreationEmails(users: seq<Account>, owner: UserId, title: string, department: string): (mails: seq<Email>)
    ensures |mails| <= 2
    ensures forall m :: m in mails ==> m.to != "" && exists a :: a in users && a.email == m.to
    ensures forall m :: m in mails ==> m.subject == SUBMITTED_SUBJECT || m.subject == NEW_ISSUE_SUBJECT + title
    ensures FindById(users, owner).Some? && FindById(users, owner).value.email != "" ==>
              mails != [] && mails[0] == Email(FindById(users, owner).value.email, SUBMITTED_SUBJECT)
  {
    MailTo(FindById(users, owner), SUBMITTED_SUBJECT)
      + MailTo(FindDepartmentUser(users, department), NEW_ISSUE_SUBJECT + title)
  }

  /**
   * createReport: 400 unless title, description and category are all given;
   * the department is routed from the category (the form's own department
   * field is ignored); the record is created with the schema defaults and the
   * caller as owner; then the emails go out.
   */
  method CreateReport(store: ReportStore, directory: seq<Department>, users: seq<Account>,
                      caller: Account, body: ReportBody, upload: Upload) returns (res: Response<Entry>)
    requires store.Valid()
    modifies store
    ensures store.Valid()
    ensures store.destroyedHandles == old(store.destroyedHandles)
    ensures body.title == "" || body.description == "" || body.category == "" ==>
              && res == BadRequest(MISSING_REPORT_FIELDS)
              && store.reports == old(store.reports) && store.nextId == old(store.nextId)
              && store.emailsSent == old(store.emailsSent)
    ensures body.title != "" && body.description != "" && body.category != "" && upload.UploadFailed? ==>
              && res == ServerError(CREATE_FAILED)
              && store.reports == old(store.reports) && store.nextId == old(store.nextId)
              && store.emailsSent == old(store.emailsSent)
    ensures body.title != "" && body.description != "" && body.category != "" && !upload.UploadFailed? ==>
              var department := Routing.RouteCategory(body.category, directory);
              && res.Created? && res.value.id == old(store.nextId)
              && Some(res.value.report) == CreateReportRecord(
                   caller.id, body.title, body.description, body.category, department,
                   if upload.Uploaded? then Some(upload.secureUrl) else None,
                   if upload.Uploaded? then Some(upload.publicId) else None,
                   Coordinate(body.longitude), Coordinate(body.latitude), body.address)
              && res.value.report.department == department != ""
              && res.value.report.user == caller.id
              && res.value.report.status == PENDING
              && store.reports == old(store.reports)[res.value.id := res.value.report]
              && store.nextId == old(store.nextId) + 1
              && store.emailsSent == old(store.emailsSent) + CreationEmails(users, caller.id, body.title, department)
  {
    if body.title == "" || body.description == "" || body.category == "" {
      return BadRequest(MISSING_REPORT_FIELDS);
    }
    var department := Routing.RouteCategory(body.category, directory);
    Routing.RouteNeverEmpty(body.category, directory);
    var imageUrl: Option<string> := None;
    var imagePublicId: Option<string> := None;
    match upload {
      case UploadFailed =>
        return ServerError(CREATE_FAILED);
      case Uploaded(url, handle) =>
        imageUrl, imagePublicId := Some(url), Some(handle);
      case NoFile =>
    }
    var record := CreateReportRecord(caller.id, body.title, body.description, body.category, department,
                                     imageUrl, imagePublicId, Coordinate(body.longitude), Coordinate(body.latitude),
                                     body.address).value;
    var id := store.Insert(record);
    store.SendEmail(CreationEmails(users, caller.id, body.title, department));
    res := Created(Entry(id, record));
  }

  /** getUserReports: the requested owner's reports, newest first, for that owner or an admin. */
  method GetUserReports(store: ReportStore, caller: Account, userId: UserId) returns (res: Response<seq<Entry>>)
    requires store.Valid()
    ensures res.Ok? || res.Forbidden?
    ensures res.Forbidden? <==> caller.role != ADMIN && caller.id != userId
    ensures res.Forbidden? ==> res.message == ACCESS_DENIED
    ensures res.Ok? ==> forall e :: e in res.value <==>
              e.id in store.reports && store.reports[e.id] == e.report && e.report.user == userId
    ensures res.Ok? ==> NewestFirst(res.value)
  {
    if caller.role != ADMIN && caller.id != userId {
      return Forbidden(ACCESS_DENIED);
    }
    res := Ok(store.Find(ByOwner(userId)));
  }

  /** voteReport: 404 for an unknown id, else the count goes up by exactly one. */
  method VoteReport(store: ReportStore, id: ReportId) returns (res: Response<nat>)
    requires store.Valid()
    modifies store
    ensures store.Valid()
    ensures store.nextId == old(store.nextId)
    ensures store.destroyedHandles == old(store.destroyedHandles) && store.emailsSent == old(store.emailsSent)
    ensures id !in old(store.reports) ==> res == NotFound(REPORT_NOT_FOUND) && store.reports == old(store.reports)
    ensures id in old(store.reports) ==>
              var r := old(store.reports)[id];
              && res == Ok(r.votes + 1)
              && store.reports == old(store.reports)[id := r.(votes := r.votes + 1)]
  {
    if id !in store.reports {
      return NotFound(REPORT_NOT_FOUND);
    }
    var r := store.reports[id];
    var updated := r.(votes := r.votes + 1);
    var saved := store.Save(id, updated);
    assert saved;
    res := Ok(updated.votes);
  }

  /**
   * deleteImageFromReport: 404, then 403 unless owner or admin, then 400 when
   * there is no image handle; otherwise the handle is destroyed once and both
   * image fields are cleared, nothing else changing. When the image host
   * rejects the destroy, the handler's catch answers 500 and nothing is saved.
   */
  method DeleteImageFromReport(store: ReportStore, caller: Account, id: ReportId, hostAccepts: bool)
    returns (res: Response<string>)
    requires store.Valid()
    modifies store
    ensures store.Valid()
    ensures store.nextId == old(store.nextId) && store.emailsSent == old(store.emailsSent)
    ensures id !in old(store.reports) ==>
              res == NotFound(REPORT_NOT_FOUND) && store.reports == old(store.reports)
              && store.destroyedHandles == old(store.destroyedHandles)
    ensures id in old(store.reports) && !OwnerOrAdmin(caller, old(store.reports)[id]) ==>
              res == Forbidden(ACCESS_DENIED) && store.reports == old(store.reports)
              && store.destroyedHandles == old(store.destroyedHandles)
    ensures id in old(store.reports) && OwnerOrAdmin(caller, old(store.reports)[id])
            && !Truthy(old(store.reports)[id].imagePublicId) ==>
              res == BadRequest(NO_IMAGE) && store.reports == old(store.reports)
              && store.destroyedHandles == old(store.destroyedHandles)
    ensures id in old(store.reports) && OwnerOrAdmin(caller, old(store.reports)[id])
            && Truthy(old(store.reports)[id].imagePublicId) && !hostAccepts ==>
              res == ServerError(IMAGE_DELETE_FAILED) && store.reports == old(store.reports)
              && store.destroyedHandles == old(store.destroyedHandles)
    ensures id in old(store.reports) && OwnerOrAdmin(caller, old(store.reports)[id])
            && Truthy(old(store.reports)[id].imagePublicId) && hostAccepts ==>
              var r := old(store.reports)[id];
              && res == Ok(IMAGE_DELETED)
              && store.destroyedHandles == old(store.destroyedHandles) + [r.imagePublicId.value]
              && store.reports == old(store.reports)[id := r.(imageUrl := None, imagePublicId := None)]
  {
    if id !in store.reports {
      return NotFound(REPORT_NOT_FOUND);
    }
    var r := store.reports[id];
    if !OwnerOrAdmin(caller, r) {
      return Forbidden(ACCESS_DENIED);
    }
    if !Truthy(r.imagePublicId) {
      return BadRequest(NO_IMAGE);
    }
    var destroyed := store.Destroy(r.imagePublicId.value, hostAccepts);
    if !destroyed {
      return ServerError(IMAGE_DELETE_FAILED);
    }
    var saved := store.Save(id, r.(imageUrl := None, imagePublicId := None));
    assert saved;
    res := Ok(IMAGE_DELETED);
  }

  /**
   * deleteReport: 404 before any ownership check, then 403 unless owner or
   * admin; otherwise the image handle (if any) is destroyed and the record
   * removed. A proof image handle is never released. When the image host
   * rejects the destroy, the handler's catch answers 500 and the record stays.
   */
  method DeleteReport(store: ReportStore, caller: Account, id: ReportId, hostAccepts: bool)
    returns (res: Response<string>)
    requires store.Valid()
    modifies store
    ensures store.Valid()
    ensures store.nextId == old(store.nextId) && store.emailsSent == old(store.emailsSent)
    ensures id !in old(store.reports) ==>
              res == NotFound(REPORT_NOT_FOUND) && store.reports == old(store.reports)
              && store.destroyedHandles == old(store.destroyedHandles)
    ensures id in old(store.reports) && !OwnerOrAdmin(caller, old(store.reports)[id]) ==>
              res == Forbidden(ACCESS_DENIED) && store.reports == old(store.reports)
              && store.destroyedHandles == old(store.destroyedHandles)
    ensures id in old(store.reports) && OwnerOrAdmin(caller, old(store.reports)[id])
            && Truthy(old(store.reports)[id].imagePublicId) && !hostAccepts ==>
              res == ServerError(REPORT_DELETE_FAILED) && store.reports == old(store.reports)
              && store.destroyedHandles == old(store.destroyedHandles)
    ensures id in old(store.reports) && OwnerOrAdmin(caller, old(store.reports)[id])
            && (Truthy(old(store.reports)[id].imagePublicId) ==> hostAccepts) ==>
              var r := old(store.reports)[id];
              && res == Ok(REPORT_DELETED)
              && store.reports == old(store.reports) - {id}
              && store.destroyedHandles
                 == old(store.destroyedHandles) + (if Truthy(r.imagePublicId) then [r.imagePublicId.value] else [])
  {
    if id !in store.reports {
      return NotFound(REPORT_NOT_FOUND);
    }
    var r := store.reports[id];
    if !OwnerOrAdmin(caller, r) {
      return Forbidden(ACCESS_DENIED);
    }
    if Truthy(r.imagePublicId) {
      var destroyed := store.Destroy(r.imagePublicId.value, hostAccepts);
      if !destroyed {
        return ServerError(REPORT_DELETE_FAILED);
      }
    }
    store.Remove(id);
    res := Ok(REPORT_DELETED);
  }
}
