/**
 * The fuzzy join between a department account's display name and the
 * department stored on reports (backend/src/routes/departmentReportRoutes.js:101):
 * drop the first case-insensitive "department", trim, and use what is left as
 * a case-insensitive pattern. The pattern is taken literally (no regular
 * expression metacharacters).
 */
module DepartmentMatch {
  import opened Wrappers
  import opened Text

  const DEPARTMENT_WORD: string := "department"

  /** departmentName.replace(/department/i, "").trim() */
  function Pattern(departmentName: string): (p: string)
    ensures !ContainsCI(departmentName, DEPARTMENT_WORD) ==> p == Trim(departmentName)
    ensures |p| <= |departmentName|
  {
    Trim(RemoveFirstCI(departmentName, DEPARTMENT_WORD))
  }

  /**
   * Report.find({ department: new RegExp(pattern, "i") }) keeps a report iff
   * this holds. A name that is only "department" and white space gives the
   * empty pattern, which matches every report; otherwise a match needs a
   * department at least as long as the pattern.
   */
  predicate MatchesDepartment(reportDepartment: string, departmentName: string): (m: bool)
    ensures Pattern(departmentName) == "" ==> m
    ensures m ==> |Pattern(departmentName)| <= |reportDepartment|
  {
    ContainsEmpty(Lower(reportDepartment));
    var m := ContainsCI(reportDepartment, Pattern(departmentName));
    if m then ContainsNotLonger(Lower(reportDepartment), Lower(Pattern(departmentName))); m else m
  }

  lemma PatternOfDepartment()
    ensures Pattern("Department") == ""
  {
    var s := "Department";
    assert Lower(s) == DEPARTMENT_WORD;
    IndexOfIs(Lower(s), Lower(DEPARTMENT_WORD), 0);
    assert RemoveFirstCI(s, DEPARTMENT_WORD) == [];
  }

  lemma FirstDepartmentInRoadsDepartment()
    ensures IndexOf("roads department", DEPARTMENT_WORD) == Some(6)
  {
    var l := "roads department";
    assert l[6..16] == DEPARTMENT_WORD;
    forall j | 0 <= j < 6 ensures !OccursAt(l, DEPARTMENT_WORD, j) {
      if j == 3 { assert l[4] != 'e'; } else { assert l[j] != 'd'; }
    }
    IndexOfIs(l, DEPARTMENT_WORD, 6);
  }

  lemma RemoveFromRoadsDepartment(s: string)
    requires s == "Roads Department"
    ensures RemoveFirstCI(s, DEPARTMENT_WORD) == "Roads "
  {
    assert Lower(s) == "roads department";
    assert Lower(DEPARTMENT_WORD) == DEPARTMENT_WORD;
    FirstDepartmentInRoadsDepartment();
  }

  lemma PatternOfRoadsDepartment(s: string)
    requires s == "Roads Department"
    ensures Pattern(s) == "Roads"
  {
    RemoveFromRoadsDepartment(s);
    var stripped := "Roads ";
    assert SkipSpaceFrom(stripped, 0) == 0;
    assert SkipSpaceBack(stripped, 6) == 5;
  }

  /** "Roads Department" sees the reports routed to "Roads & Infrastructure". */
  lemma RoadsDepartmentSeesRoadsReports(reportDepartment: string, accountName: string)
    requires reportDepartment == "Roads & Infrastructure" && accountName == "Roads Department"
    ensures MatchesDepartment(reportDepartment, accountName)
  {
    PatternOfRoadsDepartment(accountName);
    assert Lower(reportDepartment)[0..5] == Lower("Roads");
    assert OccursAt(Lower(reportDepartment), Lower("Roads"), 0);
  }

  /** Only the first "department" goes: the pattern of "Department Department" is "Department". */
  lemma OnlyFirstOccurrenceStripped(s: string)
    requires s == "Department Department"
    ensures Pattern(s) == "Department"
  {
    RemoveFromDepartmentDepartment(s);
    TrimLeadingBlank(" Department");
  }

  lemma FirstDepartmentInDepartmentDepartment()
    ensures IndexOf("department department", DEPARTMENT_WORD) == Some(0)
  {
    var l := "department department";
    assert l[0..10] == DEPARTMENT_WORD;
    IndexOfIs(l, DEPARTMENT_WORD, 0);
  }

  lemma RemoveFromDepartmentDepartment(s: string)
    requires s == "Department Department"
    ensures RemoveFirstCI(s, DEPARTMENT_WORD) == " Department"
  {
    assert Lower(s) == "department department";
    assert Lower(DEPARTMENT_WORD) == DEPARTMENT_WORD;
    FirstDepartmentInDepartmentDepartment();
    assert s[..0] + s[10..] == " Department";
  }

  /** Trimming " Department" drops its one leading blank. */
  lemma TrimLeadingBlank(s: string)
    requires s == " Department"
    ensures Trim(s) == "Department"
  {
    assert SkipSpaceFrom(s, 1) == 1;
    assert SkipSpaceFrom(s, 0) == 1;
    assert SkipSpaceBack(s, 11) == 11;
  }

  /** Trimming x followed by one space gives x back when x has no white space at either end. */
  lemma TrimTrailingBlank(x: string)
    requires x != [] && !IsSpace(x[0]) && !IsSpace(x[|x| - 1])
    ensures Trim(x + " ") == x
  {
    var s := x + " ";
    assert SkipSpaceFrom(s, 0) == 0;
    assert SkipSpaceBack(s, |s|) == |x| by {
      assert IsSpace(s[|s| - 1]);
      assert SkipSpaceBack(s, |x|) == |x|;
    }
    assert s[0..|x|] == x;
  }

  /** Lower-casing works character by character, so it distributes over concatenation. */
  lemma LowerConcat(a: string, b: string)
    ensures Lower(a + b) == Lower(a) + Lower(b)
  {
  }

  /** Before the suffix " department" there is no occurrence when x has none. */
  lemma {:induction false} NoOccurrenceBeforeSuffix(lx: string, suffix: string)
    requires !Contains(lx, DEPARTMENT_WORD)
    requires suffix == " department"
    ensures forall j | 0 <= j < |lx| + 1 :: !OccursAt(lx + suffix, DEPARTMENT_WORD, j)
  {
    var l := lx + suffix;
    var w := DEPARTMENT_WORD;
    forall j | 0 <= j < |lx| + 1
      ensures !OccursAt(l, w, j)
    {
      if j + |w| <= |lx| {
        assert l[j..j + |w|] == lx[j..j + |w|];
        assert !OccursAt(lx, w, j);
      } else if j + |w| <= |l| {
        assert l[j..j + |w|][|lx| - j] == l[|lx|] == ' ';
        assert ' ' !in w;
      }
    }
  }

  /** In x + " Department" the first "department" is the suffix, when x has none of its own. */
  lemma SuffixIsFirstOccurrence(x: string, suffix: string)
    requires !ContainsCI(x, DEPARTMENT_WORD)
    requires suffix == " Department"
    ensures IndexOf(Lower(x + suffix), DEPARTMENT_WORD) == Some(|x| + 1)
  {
    LowerConcat(x, suffix);
    assert Lower(suffix) == " department";
    assert Lower(DEPARTMENT_WORD) == DEPARTMENT_WORD;
    var l := Lower(x) + " department";
    NoOccurrenceBeforeSuffix(Lower(x), " department");
    assert l[|x| + 1..|x| + 11] == DEPARTMENT_WORD;
    IndexOfIs(l, DEPARTMENT_WORD, |x| + 1);
  }

  /**
   * An account named "<x> Department", where x itself does not mention
   * "department", gets the pattern x: the suffix is the first occurrence.
   */
  lemma PatternOfSuffixedName(x: string)
    requires !ContainsCI(x, DEPARTMENT_WORD)
    requires x != [] && !IsSpace(x[0]) && !IsSpace(x[|x| - 1])
    ensures Pattern(x + " Department") == x
  {
    var suffix := " Department";
    SuffixIsFirstOccurrence(x, suffix);
    assert Lower(DEPARTMENT_WORD) == DEPARTMENT_WORD;
    assert (x + suffix)[..|x| + 1] + (x + suffix)[|x| + 11..] == x + " ";
    TrimTrailingBlank(x);
  }

  /** Such an account sees every report whose department is exactly x. */
  lemma SuffixedNameMatchesStem(x: string)
    requires !ContainsCI(x, DEPARTMENT_WORD)
    requires x != [] && !IsSpace(x[0]) && !IsSpace(x[|x| - 1])
    ensures MatchesDepartment(x, x + " Department")
  {
    PatternOfSuffixedName(x);
    ContainsCISelf(x);
  }

  /** An account whose name does not mention "department" sees the department of that very name. */
  lemma PlainNameMatchesItself(x: string)
    requires !ContainsCI(x, DEPARTMENT_WORD)
    requires x != [] ==> !IsSpace(x[0]) && !IsSpace(x[|x| - 1])
    ensures MatchesDepartment(x, x)
  {
    TrimNoSpace(x);
    ContainsCISelf(x);
  }
}
