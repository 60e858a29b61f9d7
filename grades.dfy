/** The grades page (grades/page.tsx): two colour classifiers and the credit
    aggregates. Percentages are exact reals here; the source computes them in
    floating point. */
module Grades {
  import opened Common

  datatype GradedCourse = GradedCourse(code: string, title: string, grade: string,
                                       percentage: Option<real>, credits: int)

  datatype PreviousTerm = PreviousTerm(term: string, courses: int, credits: int)

  const Muted := "text-muted-foreground"
  const PendingGrade := "Pending"

  /** The letter-grade colour table. */
  const GradeTable: map<string, string> := map[
    "A+" := "text-success", "A" := "text-success", "A-" := "text-success",
    "B+" := "text-success/80", "B" := "text-success/70", "B-" := "text-info",
    "C+" := "text-info/80", "C" := "text-warning", "C-" := "text-warning/80",
    "D+" := "text-warning/70", "D" := "text-destructive/80", "F" := "text-destructive"]

  /** `getGradeColor`: a missing, empty (falsy) or pending grade is muted; a
      listed grade gets its class; anything else falls back to muted. */
  function GradeColor(grade: Option<string>): (c: string)
    ensures grade.None? || grade.value == "" || grade.value == PendingGrade ==> c == Muted
    ensures grade.Some? && grade.value in GradeTable ==> c == GradeTable[grade.value]
    ensures grade.Some? && grade.value !in GradeTable ==> c == Muted
  {
    if grade.None? || grade.value == "" || grade.value == PendingGrade then Muted
    else GetOr(GradeTable, grade.value, Muted)
  }

  /** A grade shows a colour other than muted exactly when it is listed;
      every class shown is one of the table's or muted. */
  lemma GradeColorIsListed(g: string)
    ensures GradeColor(Some(g)) != Muted <==> g in GradeTable
    ensures GradeColor(Some(g)) == Muted || GradeColor(Some(g)) in GradeTable.Values
  {
  }

  const Success := "text-success"
  const Success70 := "text-success/70"
  const Info := "text-info"
  const WarningClass := "text-warning"
  const Destructive := "text-destructive"

  /** `getPercentageColor`: the first band the percentage reaches. */
  function PercentageColor(percentage: Option<real>): (c: string)
  {
    if percentage.None? then Muted
    else if percentage.value >= 90.0 then Success
    else if percentage.value >= 80.0 then Success70
    else if percentage.value >= 70.0 then Info
    else if percentage.value >= 60.0 then WarningClass
    else Destructive
  }

  /** The band of a colour, from destructive (0) to success (4). */
  function Band(c: string): int
  {
    if c == Success then 4 else if c == Success70 then 3 else if c == Info then 2
    else if c == WarningClass then 1 else 0
  }

  /** Each band is the interval between its threshold and the next one up. */
  lemma PercentageBands(p: real)
    ensures PercentageColor(Some(p)) == Success <==> p >= 90.0
    ensures PercentageColor(Some(p)) == Success70 <==> 80.0 <= p < 90.0
    ensures PercentageColor(Some(p)) == Info <==> 70.0 <= p < 80.0
    ensures PercentageColor(Some(p)) == WarningClass <==> 60.0 <= p < 70.0
    ensures PercentageColor(Some(p)) == Destructive <==> p < 60.0
    ensures PercentageColor(None) == Muted
  {
  }

  /** A higher percentage never lands in a lower band. */
  lemma PercentageBandsMonotone(p: real, q: real)
    requires p <= q
    ensures Band(PercentageColor(Some(p))) <= Band(PercentageColor(Some(q)))
  {
  }

  predicate IsCompleted(c: GradedCourse)
  {
    c.grade != PendingGrade
  }

  /** `completedCourses`: the courses that do not say "Pending". */
  function CompletedCourses(courses: seq<GradedCourse>): (r: seq<GradedCourse>)
    ensures |r| <= |courses|
    ensures forall k :: 0 <= k < |r| ==> r[k] in courses && r[k].grade != PendingGrade
    ensures forall k :: 0 <= k < |courses| && courses[k].grade != PendingGrade ==> courses[k] in r
  {
    Filter(courses, IsCompleted)
  }

  function Credits(c: GradedCourse): int { c.credits }

  function TermCredits(t: PreviousTerm): int { t.credits }

  /** `totalCredits`: the credits of the completed courses. */
  function TotalCredits(courses: seq<GradedCourse>): int
  {
    SumOf(CompletedCourses(courses), Credits)
  }

  /** Both aggregates are additive over the course list, a pending course
      adds nothing, and a completed course adds its credits. */
  lemma {:induction false} TotalCreditsAdditive(a: seq<GradedCourse>, b: seq<GradedCourse>)
    ensures CompletedCourses(a + b) == CompletedCourses(a) + CompletedCourses(b)
    ensures TotalCredits(a + b) == TotalCredits(a) + TotalCredits(b)
  {
    FilterAppend(a, b, IsCompleted);
    SumOfAppend(CompletedCourses(a), CompletedCourses(b), Credits);
  }

  lemma TotalCreditsOfOne(c: GradedCourse)
    ensures TotalCredits([c]) == if c.grade == PendingGrade then 0 else c.credits
  {
    FilterSingleton(c, IsCompleted);
    if c.grade != PendingGrade {
      assert SumOf([c], Credits) == SumOf([c][..0], Credits) + c.credits;
    }
  }

  /** "Total Credits": this term's completed credits plus every previous term's. */
  function OverallCredits(courses: seq<GradedCourse>, previous: seq<PreviousTerm>): int
  {
    TotalCredits(courses) + SumOf(previous, TermCredits)
  }

  /** "Terms completed": the previous terms and the current one. */
  function TermsCompleted(previous: seq<PreviousTerm>): (n: nat)
    ensures n == |previous| + 1
  {
    |previous| + 1
  }

  /** A further completed course or previous term moves the overall total by
      exactly its credits; a further pending course leaves it alone. */
  lemma OverallCreditsGrowth(courses: seq<GradedCourse>, previous: seq<PreviousTerm>,
                             c: GradedCourse, t: PreviousTerm)
    ensures OverallCredits(courses + [c], previous) ==
            OverallCredits(courses, previous) + (if c.grade == PendingGrade then 0 else c.credits)
    ensures OverallCredits(courses, previous + [t]) == OverallCredits(courses, previous) + t.credits
  {
    TotalCreditsAdditive(courses, [c]);
    TotalCreditsOfOne(c);
    SumOfAppend(previous, [t], TermCredits);
    assert SumOf([t], TermCredits) == SumOf([t][..0], TermCredits) + t.credits;
  }

  /** The two cards that read the previous terms move together: one more
      previous term is one more term completed and exactly its credits more
      in the overall total, and with no previous term only the current one
      counts. */
  lemma PreviousTermGrowth(courses: seq<GradedCourse>, previous: seq<PreviousTerm>, t: PreviousTerm)
    ensures TermsCompleted(previous + [t]) == TermsCompleted(previous) + 1
    ensures OverallCredits(courses, previous + [t]) == OverallCredits(courses, previous) + t.credits
    ensures TermsCompleted([]) == 1 && OverallCredits(courses, []) == TotalCredits(courses)
  {
    SumOfAppend(previous, [t], TermCredits);
    assert SumOf([t], TermCredits) == SumOf([t][..0], TermCredits) + t.credits;
  }

  /** With non-negative credits, the total never exceeds the sum over all courses. */
  lemma {:induction false} TotalCreditsBounded(courses: seq<GradedCourse>)
    requires forall k :: 0 <= k < |courses| ==> courses[k].credits >= 0
    ensures 0 <= TotalCredits(courses) <= SumOf(courses, Credits)
    decreases |courses|
  {
    if courses != [] {
      var init := courses[..|courses| - 1];
      var last := courses[|courses| - 1];
      assert courses == init + [last];
      TotalCreditsBounded(init);
      TotalCreditsAdditive(init, [last]);
      TotalCreditsOfOne(last);
    }
  }
}
