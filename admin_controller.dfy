/**
 * The admin handlers of backend/src/controllers/adminController.js: the
 * filtered listing, the status update with its Pending gate, and analytics.
 */
module AdminController {
  import opened Wrappers
  import opened Models
  import opened Accounts
  import opened Storage
  import Analytics
  import ReportController

  const GATE_MESSAGE: string := "Department must take action before admin can update this issue."
  const UPDATE_FAILED: string := "Server error updating report"
  const STATUS_UPDATED_SUBJECT: string := "CivicEye - Report Status Updated"

  /**
   * getAllReports: narrow by exact status and by exact category, each only
   * when it is supplied ("" is not supplied), newest first.
   */
  method GetAllReports(store: ReportStore, status: string, category: string) returns (res: Response<seq<Entry>>)
    requires store.Valid()
    ensures res.Ok?
    ensures forall e :: e in res.value <==>
              && e.id in store.reports && store.reports[e.id] == e.report
              && (status != "" ==> e.report.status == status)
              && (category != "" ==> e.report.category == category)
    ensures NewestFirst(res.value)
  {
    var filter := ByFields(if status != "" then Some(status) else None,
                           if category != "" then Some(category) else None);
    res := Ok(store.Find(filter));
  }

  /**
   * updateReportStatus: 404 for an unknown id; 403 while the report is still
   * Pending, whatever was asked; otherwise the status is replaced when one is
   * supplied, lastUpdatedBy becomes the caller, and with removeImage an
   * existing image handle is destroyed and both image fields cleared. The save
   * then validates: a status outside the enum makes it fail with 500 and the
   * record keeps its old value, although a destroy already done stays done.
   * After a successful save the owner is emailed. When the image host rejects
   * the destroy, the handler's catch answers 500 before anything is saved or
   * mailed.
   */
  method UpdateReportStatus(store: ReportStore, users: seq<Account>, caller: Account, id: ReportId,
                            status: string, removeImage: bool, hostAccepts: bool) returns (res: Response<Report>)
    requires store.Valid()
    modifies store
    ensures store.Valid()
    ensures store.nextId == old(store.nextId)
    ensures id !in old(store.reports) ==>
              && res == NotFound(ReportController.REPORT_NOT_FOUND)
              && store.reports == old(store.reports)
              && store.destroyedHandles == old(store.destroyedHandles) && store.emailsSent == old(store.emailsSent)
    ensures id in old(store.reports) && old(store.reports)[id].status == PENDING ==>
              && res == Forbidden(GATE_MESSAGE)
              && store.reports == old(store.reports)
              && store.destroyedHandles == old(store.destroyedHandles) && store.emailsSent == old(store.emailsSent)
    ensures id in old(store.reports) && old(store.reports)[id].status != PENDING
            && removeImage && Truthy(old(store.reports)[id].imagePublicId) && !hostAccepts ==>
              && res == ServerError(UPDATE_FAILED)
              && store.reports == old(store.reports)
              && store.destroyedHandles == old(store.destroyedHandles) && store.emailsSent == old(store.emailsSent)
    ensures id in old(store.reports) && old(store.reports)[id].status != PENDING
            && !(removeImage && Truthy(old(store.reports)[id].imagePublicId) && !hostAccepts) ==>
              var r := old(store.reports)[id];
              var clear := removeImage && Truthy(r.imagePublicId);
              var updated := r.(status := if status != "" then status else r.status,
                                lastUpdatedBy := Some(caller.id),
                                imageUrl := if clear then None else r.imageUrl,
                                imagePublicId := if clear then None else r.imagePublicId);
              && store.destroyedHandles == old(store.destroyedHandles) + (if clear then [r.imagePublicId.value] else [])
              && (status == "" || ValidStatus(status) ==>
                    && res == Ok(updated)
                    && store.reports == old(store.reports)[id := updated]
                    && store.emailsSent
                       == old(store.emailsSent) + ReportController.MailTo(FindById(users, r.user), STATUS_UPDATED_SUBJECT))
              && (status != "" && !ValidStatus(status) ==>
                    && res == ServerError(UPDATE_FAILED)
                    && store.reports == old(store.reports) && store.emailsSent == old(store.emailsSent))
  {
    if id !in store.reports {
      return NotFound(ReportController.REPORT_NOT_FOUND);
    }
    var r := store.reports[id];
    if r.status == PENDING {
      return Forbidden(GATE_MESSAGE);
    }
    var updated := r;
    if status != "" {
      updated := updated.(status := status);
    }
    updated := updated.(lastUpdatedBy := Some(caller.id));
    if removeImage && Truthy(r.imagePublicId) {
      var destroyed := store.Destroy(r.imagePublicId.value, hostAccepts);
      if !destroyed {
        return ServerError(UPDATE_FAILED);
      }
      updated := updated.(imageUrl := None, imagePublicId := None);
    }
    var saved := store.Save(id, updated);
    if !saved {
      return ServerError(UPDATE_FAILED);
    }
    store.SendEmail(ReportController.MailTo(FindById(users, r.user), STATUS_UPDATED_SUBJECT));
    res := Ok(updated);
  }

  function Records(es: seq<Entry>): (rs: seq<Report>)
    ensures |rs| == |es| && forall i :: 0 <= i < |es| ==> rs[i] == es[i].report
  {
    seq(|es|, i requires 0 <= i < |es| => es[i].report)
  }

  /**
   * getAnalytics over the whole collection: the status counts never exceed the
   * total, "In-Progress" counts nothing, and byCategory accounts for every report.
   */
  method GetAnalytics(store: ReportStore) returns (s: Analytics.Summary)
    requires store.Valid()
    ensures s == Analytics.Summarize(Records(store.Find(All)))
    ensures s.total == |store.Find(All)|
    ensures s.pending + s.inProgress + s.resolved <= s.total
    ensures s.inProgress == 0
    ensures Analytics.Sum(s.byCategory) == s.total
    ensures Analytics.Distinct(s.byCategory) && Analytics.NonIncreasing(s.byCategory)
  {
    var es := store.Find(All);
    var rs := Records(es);
    forall i | 0 <= i < |rs| ensures SchemaValid(rs[i]) {
      assert es[i] in es;
    }
    Analytics.SummaryFacts(rs);
    Analytics.ByCategoryFacts(rs);
    s := Analytics.Summarize(rs);
  }
}
