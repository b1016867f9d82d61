/**
 * The Report collection as the controllers see it: records keyed by id, ids
 * issued in creation order (so "newest first", the controllers' sort on
 * createdAt, is descending id), plus two logs of the foreign effects the
 * handlers cause: image handles destroyed at the image host, and emails sent.
 */
module Storage {
  import opened Wrappers
  import opened Models
  import DepartmentMatch

  /** A stored record together with its id, as a query returns it. */
  datatype Entry = Entry(id: ReportId, report: Report)

  datatype Email = Email(to: string, subject: string)

  /** The Report.find filters the handlers use. */
  datatype Query =
    | All
    | ByOwner(owner: UserId)                                    // { user }
    | ByFields(status: Option<string>, category: Option<string>) // { status?, category? }
    | ByDepartment(name: string)                                // { department }, exact
    | ByDepartmentPattern(accountName: string)                  // { department: fuzzy regex }

  /** The filter of each query; an empty filter keeps every record. */
  predicate Matches(q: Query, r: Report): (m: bool)
    ensures q.All? || q == ByFields(None, None) ==> m
    ensures q.ByOwner? ==> (m <==> r.user == q.owner)
    ensures q.ByDepartment? ==> (m <==> r.department == q.name)
  {
    match q
    case All => true
    case ByOwner(owner) => r.user == owner
    case ByFields(status, category) =>
      (status.Some? ==> r.status == status.value) && (category.Some? ==> r.category == category.value)
    case ByDepartment(name) => r.department == name
    case ByDepartmentPattern(accountName) => DepartmentMatch.MatchesDepartment(r.department, accountName)
  }

  predicate NewestFirst(es: seq<Entry>) {
    forall i, j :: 0 <= i < j < |es| ==> es[i].id > es[j].id
  }

  /** The records with id below `below` that match q, newest first. */
  function Select(reports: map<ReportId, Report>, below: nat, q: Query): (es: seq<Entry>)
    ensures forall e :: e in es <==> e.id < below && e.id in reports && reports[e.id] == e.report && Matches(q, e.report)
    ensures forall i :: 0 <= i < |es| ==> es[i].id < below
    ensures NewestFirst(es)
  {
    if below == 0 then []
    else
      var rest := Select(reports, below - 1, q);
      var id := below - 1;
      if id in reports && Matches(q, reports[id]) then [Entry(id, reports[id])] + rest else rest
  }

  class ReportStore {
    var reports: map<ReportId, Report>
    var nextId: ReportId
    ghost var destroyedHandles: seq<string>
    ghost var emailsSent: seq<Email>

    /** Every stored id was issued, and every stored record passed the schema's validation. */
    ghost predicate Valid()
      reads this
    {
      forall id :: id in reports ==> id < nextId && SchemaValid(reports[id])
    }

    constructor ()
      ensures Valid()
      ensures reports == map[] && nextId == 0 && destroyedHandles == [] && emailsSent == []
    {
      reports := map[];
      nextId := 0;
      destroyedHandles := [];
      emailsSent := [];
    }

    /** Report.find(filter).sort({ createdAt: -1 }). */
    function Find(q: Query): (es: seq<Entry>)
      reads this
      requires Valid()
      ensures forall e :: e in es <==> e.id in reports && reports[e.id] == e.report && Matches(q, e.report)
      ensures NewestFirst(es)
    {
      Select(reports, nextId, q)
    }

    /**
     * cloudinary.uploader.destroy(handle). Whether the image host accepts the
     * call is an input; a rejected call destroys nothing and reports failure.
     */
    method Destroy(handle: string, hostAccepts: bool) returns (ok: bool)
      modifies this
      ensures ok == hostAccepts
      ensures destroyedHandles == old(destroyedHandles) + (if ok then [handle] else [])
      ensures reports == old(reports) && nextId == old(nextId) && emailsSent == old(emailsSent)
    {
      ok := hostAccepts;
      if ok {
        destroyedHandles := destroyedHandles + [handle];
      }
    }

    /** sendEmail, which swallows its own failures, so it never fails the request. */
    method SendEmail(mails: seq<Email>)
      modifies this
      ensures emailsSent == old(emailsSent) + mails
      ensures reports == old(reports) && nextId == old(nextId) && destroyedHandles == old(destroyedHandles)
    {
      emailsSent := emailsSent + mails;
    }

    /** report.save() on an existing record: Mongoose validates it first and throws when it is invalid. */
    method Save(id: ReportId, r: Report) returns (saved: bool)
      requires Valid() && id in reports
      modifies this
      ensures Valid()
      ensures saved == SchemaValid(r)
      ensures reports == if saved then old(reports)[id := r] else old(reports)
      ensures nextId == old(nextId) && destroyedHandles == old(destroyedHandles) && emailsSent == old(emailsSent)
    {
      saved := SchemaValid(r);
      if saved {
        reports := reports[id := r];
      }
    }

    /** Report.create after validation: the record gets the next id. */
    method Insert(r: Report) returns (id: ReportId)
      requires Valid() && SchemaValid(r)
      modifies this
      ensures Valid()
      ensures id == old(nextId) && id !in old(reports)
      ensures reports == old(reports)[id := r] && nextId == old(nextId) + 1
      ensures destroyedHandles == old(destroyedHandles) && emailsSent == old(emailsSent)
    {
      id := nextId;
      reports := reports[id := r];
      nextId := nextId + 1;
    }

    /** Report.findByIdAndDelete. */
    method Remove(id: ReportId)
      requires Valid()
      modifies this
      ensures Valid()
      ensures reports == old(reports) - {id}
      ensures nextId == old(nextId) && destroyedHandles == old(destroyedHandles) && emailsSent == old(emailsSent)
    {
      reports := reports - {id};
    }
  }
}
