/**
 * The two Mongoose schemas of the core: Report (backend/src/models/Report.js)
 * and Department (backend/src/models/Department.js). A record is a value; the
 * collections holding them are in ReportStore and Routing.
 */
module Models {
  import opened Wrappers

  type UserId = nat
  type ReportId = nat

  const PENDING: string := "Pending"
  const IN_PROGRESS: string := "In Progress"
  const RESOLVED: string := "Resolved"
  const GENERAL_CATEGORY: string := "general"
  const POINT: string := "Point"

  /** The status enum of the Report schema. */
  predicate ValidStatus(s: string) {
    s == PENDING || s == IN_PROGRESS || s == RESOLVED
  }

  /** A GeoJSON point: coordinates in [longitude, latitude] order, and a free-text address. */
  datatype Location = Location(kind: string, lng: real, lat: real, address: string)

  /**
   * A stored report. `votes`, `proofImage` and `proofPublicId` are not declared
   * by the schema; the controllers assign them all the same, so they are kept
   * here (a missing vote count is 0). "" stands for a missing string.
   */
  datatype Report = Report(
    user: UserId,
    title: string,
    description: string,
    department: string,
    category: string,
    imageUrl: Option<string>,
    imagePublicId: Option<string>,
    location: Location,
    status: string,
    lastUpdatedBy: Option<UserId>,
    votes: nat,
    proofImage: Option<string>,
    proofPublicId: Option<string>)

  /**
   * What Mongoose's validation checks before a save: the required fields are
   * non-empty strings, the status lies in its enum and the location type is "Point".
   */
  predicate SchemaValid(r: Report) {
    && r.title != ""
    && r.department != ""
    && ValidStatus(r.status)
    && r.location.kind == POINT
  }

  /**
   * Report.create: apply the schema defaults (category "general", location type
   * "Point", status "Pending") to the supplied fields and validate.
   */
  function CreateReportRecord(user: UserId, title: string, description: string, category: string,
                              department: string, imageUrl: Option<string>, imagePublicId: Option<string>,
                              lng: real, lat: real, address: string): (r: Option<Report>)
    ensures r.Some? <==> title != "" && department != ""
    ensures r.Some? ==> SchemaValid(r.value)
    ensures r.Some? ==> r.value.status == PENDING && r.value.votes == 0 && r.value.lastUpdatedBy == None
    ensures r.Some? ==> r.value.category == (if category == "" then GENERAL_CATEGORY else category)
    ensures r.Some? ==> r.value.user == user && r.value.title == title && r.value.department == department
    ensures r.Some? ==> r.value.location == Location(POINT, lng, lat, address)
    ensures r.Some? ==> r.value.proofImage == None && r.value.proofPublicId == None
  {
    if title == "" || department == "" then None
    else
      Some(Report(user, title, description, department,
                  if category == "" then GENERAL_CATEGORY else category,
                  imageUrl, imagePublicId, Location(POINT, lng, lat, address),
                  PENDING, None, 0, None, None))
  }

  /** A directory entry: name and email are required, description and imageUrl optional. */
  datatype Department = Department(name: string, email: string, description: Option<string>, imageUrl: Option<string>)
}
