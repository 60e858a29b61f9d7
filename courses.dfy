/** The course catalogue filter (courses/page.tsx): a free-text search over
    three fields, a department filter and a level filter, each select having an
    "All ..." entry that switches it off. Case folding is ASCII only. */
module Courses {
  import opened Common

  datatype Course = Course(id: int, title: string, instructor: string, description: string,
                           department: string, level: string)

  const AllDepartments := "All Departments"
  const AllLevels := "All Levels"

  function LowerChar(c: char): char
  {
    if 'A' <= c <= 'Z' then (c as int + 32) as char else c
  }

  /** `toLowerCase` restricted to ASCII letters. */
  function Lower(s: string): (r: string)
    ensures |r| == |s|
    ensures forall k :: 0 <= k < |s| ==> r[k] == LowerChar(s[k])
  {
    if s == [] then [] else [LowerChar(s[0])] + Lower(s[1..])
  }

  /** `haystack.includes(needle)`, scanning from the left. */
  function Includes(haystack: string, needle: string): bool
    decreases |haystack|
  {
    if |needle| > |haystack| then false
    else if haystack[..|needle|] == needle then true
    else Includes(haystack[1..], needle)
  }

  /** `needle` starts at position `i` of `haystack`. */
  predicate MatchAt(haystack: string, needle: string, i: int)
  {
    0 <= i && i + |needle| <= |haystack| && haystack[i..i + |needle|] == needle
  }

  /** `needle` occurs at some position of `haystack`. */
  ghost predicate Occurs(needle: string, haystack: string)
  {
    exists i :: MatchAt(haystack, needle, i)
  }

  /** The scan agrees with the definition of a substring. */
  lemma {:induction false} IncludesIsSubstring(haystack: string, needle: string)
    ensures Includes(haystack, needle) <==> Occurs(needle, haystack)
    decreases |haystack|
  {
    if |needle| > |haystack| {
    } else if haystack[..|needle|] == needle {
      assert MatchAt(haystack, needle, 0);
    } else {
      IncludesIsSubstring(haystack[1..], needle);
      if Occurs(needle, haystack) {
        var i :| MatchAt(haystack, needle, i);
        assert i != 0;
        assert haystack[1..][i - 1..i - 1 + |needle|] == haystack[i..i + |needle|];
        assert MatchAt(haystack[1..], needle, i - 1);
      }
      if Includes(haystack[1..], needle) {
        var i :| MatchAt(haystack[1..], needle, i);
        assert haystack[1..][i..i + |needle|] == haystack[i + 1..i + 1 + |needle|];
        assert MatchAt(haystack, needle, i + 1);
      }
    }
  }

  lemma IncludesEmpty(haystack: string)
    ensures Includes(haystack, "")
  {
  }

  predicate MatchesSearch(c: Course, query: string)
  {
    var q := Lower(query);
    Includes(Lower(c.title), q) || Includes(Lower(c.instructor), q) || Includes(Lower(c.description), q)
  }

  predicate MatchesDepartment(c: Course, department: string)
  {
    department == AllDepartments || c.department == department
  }

  predicate MatchesLevel(c: Course, level: string)
  {
    level == AllLevels || c.level == level
  }

  predicate Shown(c: Course, query: string, department: string, level: string)
  {
    MatchesSearch(c, query) && MatchesDepartment(c, department) && MatchesLevel(c, level)
  }

  /** `filteredCourses`. */
  function FilteredCourses(courses: seq<Course>, query: string, department: string, level: string): (r: seq<Course>)
    ensures |r| <= |courses|
    ensures forall k :: 0 <= k < |r| ==> r[k] in courses && Shown(r[k], query, department, level)
    ensures forall k :: 0 <= k < |courses| && Shown(courses[k], query, department, level) ==> courses[k] in r
  {
    Filter(courses, c => Shown(c, query, department, level))
  }

  /** A course is listed exactly when the lowered query occurs in its lowered
      title, instructor or description, and both selects admit it. */
  lemma ShownMeans(c: Course, query: string, department: string, level: string)
    ensures Shown(c, query, department, level) <==>
      && (|| Occurs(Lower(query), Lower(c.title))
          || Occurs(Lower(query), Lower(c.instructor))
          || Occurs(Lower(query), Lower(c.description)))
      && (department == AllDepartments || c.department == department)
      && (level == AllLevels || c.level == level)
  {
    IncludesIsSubstring(Lower(c.title), Lower(query));
    IncludesIsSubstring(Lower(c.instructor), Lower(query));
    IncludesIsSubstring(Lower(c.description), Lower(query));
  }

  /** The listing keeps catalogue order: it acts piecewise on a split catalogue. */
  lemma FilteredCoursesOrder(a: seq<Course>, b: seq<Course>, query: string, department: string, level: string)
    ensures FilteredCourses(a + b, query, department, level)
         == FilteredCourses(a, query, department, level) + FilteredCourses(b, query, department, level)
  {
    FilterAppend(a, b, c => Shown(c, query, department, level));
  }

  /** The page's initial state (empty query, both "All" entries) lists the
      whole catalogue, in order. */
  lemma DefaultFiltersShowAll(courses: seq<Course>)
    ensures FilteredCourses(courses, "", AllDepartments, AllLevels) == courses
  {
    forall k | 0 <= k < |courses| ensures Shown(courses[k], "", AllDepartments, AllLevels) {
      IncludesEmpty(Lower(courses[k].title));
    }
    FilterAllPass(courses, c => Shown(c, "", AllDepartments, AllLevels));
  }

  /** Search ignores ASCII case: a query and its lower-case form list the same courses. */
  lemma SearchIgnoresCase(c: Course, query: string)
    ensures MatchesSearch(c, query) == MatchesSearch(c, Lower(query))
  {
    LowerIdempotent(query);
  }

  lemma LowerIdempotent(s: string)
    ensures Lower(Lower(s)) == Lower(s)
  {
  }
}
