/**
 * Department auto-assignment at report creation
 * (backend/src/controllers/reportController.js:22-41): ordered keyword rules
 * on the lower-cased category, then the first directory entry whose name
 * contains the category (case-insensitively, the category taken literally),
 * then "General Department".
 */
module Routing {
  import opened Wrappers
  import opened Text
  import opened Models

  const ROADS: string := "Roads & Infrastructure"
  const WATER: string := "Water Supply"
  const ELECTRICAL: string := "Electrical"
  const SANITATION: string := "Sanitation"
  const HEALTH: string := "Health"
  const GENERAL: string := "General Department"

  /**
   * The five keyword rules, first match wins (the order is stated by
   * RuleOrder). A keyword department is one of the five, and there is none
   * exactly when no keyword occurs in the lower-cased category.
   */
  function KeywordDepartment(category: string): (d: Option<string>)
    ensures d.Some? ==> d.value in {ROADS, WATER, ELECTRICAL, SANITATION, HEALTH}
    ensures d.None? <==>
              && !Contains(Lower(category), "road") && !Contains(Lower(category), "infrastructure")
              && !Contains(Lower(category), "water") && !Contains(Lower(category), "electric")
              && !Contains(Lower(category), "sanit") && !Contains(Lower(category), "health")
  {
    var c := Lower(category);
    if Contains(c, "road") || Contains(c, "infrastructure") then Some(ROADS)
    else if Contains(c, "water") then Some(WATER)
    else if Contains(c, "electric") then Some(ELECTRICAL)
    else if Contains(c, "sanit") then Some(SANITATION)
    else if Contains(c, "health") then Some(HEALTH)
    else None
  }

  /** Department.findOne({ name: { $regex: category, $options: "i" } }), in collection order. */
  function FirstNameContaining(directory: seq<Department>, category: string): (r: Option<nat>)
    ensures r.Some? ==> r.value < |directory| && ContainsCI(directory[r.value].name, category)
    ensures r.Some? ==> forall j :: 0 <= j < r.value ==> !ContainsCI(directory[j].name, category)
    ensures r.None? ==> forall j :: 0 <= j < |directory| ==> !ContainsCI(directory[j].name, category)
  {
    if directory == [] then None
    else if ContainsCI(directory[0].name, category) then Some(0)
    else match FirstNameContaining(directory[1..], category)
      case None => None
      case Some(k) =>
        assert directory[1..][k] == directory[k + 1];
        Some(k + 1)
  }

  /** The department a new report is assigned to. */
  function RouteCategory(category: string, directory: seq<Department>): (department: string)
    ensures department == GENERAL || department in {ROADS, WATER, ELECTRICAL, SANITATION, HEALTH}
         || exists i :: 0 <= i < |directory| && directory[i].name == department
  {
    match KeywordDepartment(category)
    case Some(d) => d
    case None =>
      match FirstNameContaining(directory, category)
      case Some(i) => directory[i].name
      case None => GENERAL
  }

  /** Rule order: each rule applies exactly when it matches and no earlier rule did. */
  lemma RuleOrder(category: string, directory: seq<Department>)
    ensures var c := Lower(category);
      && ((Contains(c, "road") || Contains(c, "infrastructure")) ==> RouteCategory(category, directory) == ROADS)
      && ((!Contains(c, "road") && !Contains(c, "infrastructure") && Contains(c, "water"))
          ==> RouteCategory(category, directory) == WATER)
      && ((!Contains(c, "road") && !Contains(c, "infrastructure") && !Contains(c, "water") && Contains(c, "electric"))
          ==> RouteCategory(category, directory) == ELECTRICAL)
      && ((!Contains(c, "road") && !Contains(c, "infrastructure") && !Contains(c, "water") && !Contains(c, "electric")
           && Contains(c, "sanit"))
          ==> RouteCategory(category, directory) == SANITATION)
      && ((!Contains(c, "road") && !Contains(c, "infrastructure") && !Contains(c, "water") && !Contains(c, "electric")
           && !Contains(c, "sanit") && Contains(c, "health"))
          ==> RouteCategory(category, directory) == HEALTH)
  {
  }

  /** "water" outranks "health": a category mentioning water is never routed to Health. */
  lemma WaterOutranksHealth(category: string, directory: seq<Department>)
    requires Contains(Lower(category), "water")
    ensures RouteCategory(category, directory) in {ROADS, WATER}
  {
  }

  /**
   * The directory is consulted only when no keyword matches; then the result is
   * the name of the first entry whose name contains the category, else the default.
   * The test runs one way only: an entry whose name is merely contained in the
   * category does not match.
   */
  lemma FallbackToDirectory(category: string, directory: seq<Department>)
    requires KeywordDepartment(category).None?
    ensures (exists i :: 0 <= i < |directory| && ContainsCI(directory[i].name, category))
        ==> exists i :: 0 <= i < |directory| && ContainsCI(directory[i].name, category)
             && (forall j :: 0 <= j < i ==> !ContainsCI(directory[j].name, category))
             && RouteCategory(category, directory) == directory[i].name
    ensures (forall i :: 0 <= i < |directory| ==> !ContainsCI(directory[i].name, category))
        ==> RouteCategory(category, directory) == GENERAL
  {
    var r := FirstNameContaining(directory, category);
    if r.Some? {
      assert ContainsCI(directory[r.value].name, category);
    }
  }

  /** A keyword hit decides the department whatever the directory holds. */
  lemma KeywordIgnoresDirectory(category: string, d1: seq<Department>, d2: seq<Department>)
    requires KeywordDepartment(category).Some?
    ensures RouteCategory(category, d1) == RouteCategory(category, d2) == KeywordDepartment(category).value
  {
  }

  /** A non-empty category is never routed to an empty department name. */
  lemma RouteNeverEmpty(category: string, directory: seq<Department>)
    requires category != ""
    ensures RouteCategory(category, directory) != ""
  {
    if KeywordDepartment(category).None? {
      var r := FirstNameContaining(directory, category);
      if r.Some? {
        ContainsNotLonger(Lower(directory[r.value].name), Lower(category));
      }
    }
  }

  /**
   * A category that is itself the name of a directory entry and hits no keyword
   * is routed to a directory entry at or before it, never to the default.
   */
  lemma DirectoryNameRoutesToDirectory(directory: seq<Department>, i: nat)
    requires i < |directory|
    requires KeywordDepartment(directory[i].name).None?
    ensures exists k :: 0 <= k <= i && RouteCategory(directory[i].name, directory) == directory[k].name
    ensures (forall j :: 0 <= j < i ==> !ContainsCI(directory[j].name, directory[i].name))
        ==> RouteCategory(directory[i].name, directory) == directory[i].name
  {
    var category := directory[i].name;
    ContainsCISelf(category);
    var r := FirstNameContaining(directory, category);
    assert r.Some? && r.value <= i;
  }

  lemma WaterHealthIssue(category: string, directory: seq<Department>)
    requires category == "Water Health Issue"
    ensures RouteCategory(category, directory) == WATER
  {
    var c := Lower(category);
    assert c == "water health issue";
    AbsentChar(c, "road", 1);
    AbsentChar(c, "infrastructure", 1);
    assert c[0..5] == "water";
    assert OccursAt(c, "water", 0);
  }

  lemma ElectricalFault(category: string, directory: seq<Department>)
    requires category == "Electrical fault"
    ensures RouteCategory(category, directory) == ELECTRICAL
  {
    var c := Lower(category);
    assert c == "electrical fault";
    AbsentChar(c, "road", 1);
    AbsentChar(c, "infrastructure", 1);
    AbsentChar(c, "water", 0);
    assert c[0..8] == "electric";
    assert OccursAt(c, "electric", 0);
  }
}
