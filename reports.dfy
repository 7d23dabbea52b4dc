/**
 * The reports page: overall statistics, the five-band distribution, and the
 * per-student and per-subject reports, each built by walking the students
 * (or subjects), pushing a report for every one that has grades, and sorting
 * the result by average, best first.
 */
module Reports {
  import opened Seqs
  import opened Sorting
  import opened Grades
  import opened Analytics

  /** The overview cards; unlike the per-student page, no grades show 0 rather than 'N/A'. */
  datatype OverallStats = OverallStats(total: nat, average: real, highest: real, lowest: real)

  function CalculateOverallStats(grades: seq<ValidGrade>): (s: OverallStats)
    ensures |grades| == 0 ==> s == OverallStats(0, 0.0, 0.0, 0.0)
    ensures |grades| > 0 ==> s.total == |grades| && s.average == MeanPct(grades)
    ensures |grades| > 0 ==> s.lowest <= s.average <= s.highest
    ensures |grades| > 0 ==> forall i :: 0 <= i < |grades| ==> s.lowest <= Percentage(grades[i]) <= s.highest
    ensures |grades| > 0 ==> exists i :: 0 <= i < |grades| && Percentage(grades[i]) == s.highest
    ensures |grades| > 0 ==> exists i :: 0 <= i < |grades| && Percentage(grades[i]) == s.lowest
  {
    if |grades| == 0 then OverallStats(0, 0.0, 0.0, 0.0)
    else
      MeanBetween(grades);
      OverallStats(|grades|, MeanPct(grades), MaxPct(grades), MinPct(grades))
  }

  /** The distinct subject ids among some grades (`new Set(grades.map(g => g.subject_id))`). */
  function SubjectIdsOf(gs: seq<ValidGrade>): set<int>
  {
    set i | 0 <= i < |gs| :: gs[i].subject_id
  }

  /** The distinct student ids among some grades. */
  function StudentIdsOf(gs: seq<ValidGrade>): set<int>
  {
    set i | 0 <= i < |gs| :: gs[i].student_id
  }

  /** A non-empty list of grades has between one and as many distinct subject ids as grades. */
  lemma {:induction false} SubjectIdsBound(gs: seq<ValidGrade>)
    ensures |SubjectIdsOf(gs)| <= |gs|
    ensures |gs| > 0 ==> |SubjectIdsOf(gs)| >= 1
  {
    if gs != [] {
      SubjectIdsBound(gs[1..]);
      assert SubjectIdsOf(gs) == {gs[0].subject_id} + SubjectIdsOf(gs[1..]) by {
        forall x | x in SubjectIdsOf(gs) ensures x in {gs[0].subject_id} + SubjectIdsOf(gs[1..]) {
          var i :| 0 <= i < |gs| && gs[i].subject_id == x;
          if i > 0 { assert gs[1..][i - 1] == gs[i]; }
        }
        forall x | x in SubjectIdsOf(gs[1..]) ensures x in SubjectIdsOf(gs) {
          var i :| 0 <= i < |gs[1..]| && gs[1..][i].subject_id == x;
          assert gs[i + 1] == gs[1..][i];
        }
      }
    }
  }

  /** A non-empty list of grades has between one and as many distinct student ids as grades. */
  lemma {:induction false} StudentIdsBound(gs: seq<ValidGrade>)
    ensures |StudentIdsOf(gs)| <= |gs|
    ensures |gs| > 0 ==> |StudentIdsOf(gs)| >= 1
  {
    if gs != [] {
      StudentIdsBound(gs[1..]);
      assert StudentIdsOf(gs) == {gs[0].student_id} + StudentIdsOf(gs[1..]) by {
        forall x | x in StudentIdsOf(gs) ensures x in {gs[0].student_id} + StudentIdsOf(gs[1..]) {
          var i :| 0 <= i < |gs| && gs[i].student_id == x;
          if i > 0 { assert gs[1..][i - 1] == gs[i]; }
        }
        forall x | x in StudentIdsOf(gs[1..]) ensures x in StudentIdsOf(gs) {
          var i :| 0 <= i < |gs[1..]| && gs[1..][i].student_id == x;
          assert gs[i + 1] == gs[1..][i];
        }
      }
    }
  }

  // ---------------------------------------------------------------- students

  datatype StudentReport = StudentReport(student: Student, grades: seq<ValidGrade>, average_score: real,
                                         total_subjects: nat)

  /** The report the page pushes for one student, or None when the student has no grades. */
  function StudentReportOf(s: Student, grades: seq<ValidGrade>): Option<StudentReport>
  {
    var sg := GradesOfStudent(grades, s.id);
    if |sg| > 0 then Some(StudentReport(s, sg, MeanPct(sg), |SubjectIdsOf(sg)|)) else None
  }

  /** The body of the page's `forEach` over students, as a function of the student. */
  function StudentReporter(grades: seq<ValidGrade>): Student -> Option<StudentReport>
  {
    s => StudentReportOf(s, grades)
  }

  /** The reports in the order the students are visited, before sorting. */
  function BuildStudentReports(students: seq<Student>, grades: seq<ValidGrade>): seq<StudentReport>
  {
    FilterMap(students, StudentReporter(grades))
  }

  /** The comparator `(a, b) => b.average_score - a.average_score`. */
  predicate HigherStudent(a: StudentReport, b: StudentReport)
  {
    a.average_score >= b.average_score
  }

  /** What every pushed report satisfies. */
  ghost predicate IsStudentReport(r: StudentReport, grades: seq<ValidGrade>)
  {
    && r.grades == GradesOfStudent(grades, r.student.id)
    && |r.grades| > 0
    && r.average_score == MeanPct(r.grades)
    && r.total_subjects == |SubjectIdsOf(r.grades)|
  }

  /** One student's report exists exactly when the student has grades, and describes them. */
  lemma StudentReportOfSound(s: Student, grades: seq<ValidGrade>)
    ensures StudentReportOf(s, grades).Some? <==> |GradesOfStudent(grades, s.id)| > 0
    ensures StudentReportOf(s, grades).Some? ==>
              StudentReportOf(s, grades).value.student == s && IsStudentReport(StudentReportOf(s, grades).value, grades)
  {
  }

  /** Each unsorted report belongs to a listed student and is built from exactly that student's grades. */
  lemma BuildStudentReportsSound(students: seq<Student>, grades: seq<ValidGrade>)
    ensures var b := BuildStudentReports(students, grades);
      && |b| <= |students|
      && (forall k :: 0 <= k < |b| ==> b[k].student in students && IsStudentReport(b[k], grades))
  {
    var f := StudentReporter(grades);
    var b := FilterMap(students, f);
    FilterMapSound(students, f);
    forall k | 0 <= k < |b| ensures b[k].student in students && IsStudentReport(b[k], grades) {
      var j :| 0 <= j < |students| && f(students[j]) == Some(b[k]);
      StudentReportOfSound(students[j], grades);
    }
  }

  /** Every listed student with at least one grade has a report in `b`. */
  ghost predicate CoversStudents(b: seq<StudentReport>, students: seq<Student>, grades: seq<ValidGrade>)
  {
    forall i :: 0 <= i < |students| && |GradesOfStudent(grades, students[i].id)| > 0 ==>
      exists k :: 0 <= k < |b| && b[k].student == students[i]
  }

  /** Each listed student with grades has an unsorted report. */
  lemma BuildStudentReportsCovers(students: seq<Student>, grades: seq<ValidGrade>)
    ensures CoversStudents(BuildStudentReports(students, grades), students, grades)
  {
    var f := StudentReporter(grades);
    var b := FilterMap(students, f);
    FilterMapCovers(students, f);
    forall i | 0 <= i < |students| && |GradesOfStudent(grades, students[i].id)| > 0
      ensures exists k :: 0 <= k < |b| && b[k].student == students[i]
    {
      StudentReportOfSound(students[i], grades);
      var k :| 0 <= k < |b| && b[k] == f(students[i]).value;
    }
  }

  /** A pushed student report counts between one and as many subjects as it has grades. */
  lemma StudentReportBounds(r: StudentReport, grades: seq<ValidGrade>)
    requires IsStudentReport(r, grades)
    ensures 1 <= r.total_subjects <= |r.grades|
  {
    SubjectIdsBound(r.grades);
  }

  /** Every sorted report belongs to a listed student and is built from exactly that student's grades. */
  lemma StudentReportsWellFormed(students: seq<Student>, grades: seq<ValidGrade>)
    ensures var reports := Sort(BuildStudentReports(students, grades), HigherStudent);
      && (forall k :: 0 <= k < |reports| ==> reports[k].student in students && IsStudentReport(reports[k], grades))
      && (forall k :: 0 <= k < |reports| ==> 1 <= reports[k].total_subjects <= |reports[k].grades|)
      && |reports| <= |students|
  {
    var built := BuildStudentReports(students, grades);
    var reports := Sort(built, HigherStudent);
    BuildStudentReportsSound(students, grades);
    SortSameElements(built, HigherStudent);
    forall k | 0 <= k < |reports|
      ensures reports[k].student in students && IsStudentReport(reports[k], grades)
      ensures 1 <= reports[k].total_subjects <= |reports[k].grades|
    {
      assert reports[k] in built;
      StudentReportBounds(reports[k], grades);
    }
  }

  /** Every student with at least one grade has a report among the sorted reports. */
  lemma StudentReportsComplete(students: seq<Student>, grades: seq<ValidGrade>)
    ensures CoversStudents(Sort(BuildStudentReports(students, grades), HigherStudent), students, grades)
  {
    var built := BuildStudentReports(students, grades);
    var reports := Sort(built, HigherStudent);
    BuildStudentReportsCovers(students, grades);
    SortSameElements(built, HigherStudent);
    forall j | 0 <= j < |students| && |GradesOfStudent(grades, students[j].id)| > 0
      ensures exists k :: 0 <= k < |reports| && reports[k].student == students[j]
    {
      var k :| 0 <= k < |built| && built[k].student == students[j];
      assert built[k] in reports;
      var m :| 0 <= m < |reports| && reports[m] == built[k];
    }
    assert CoversStudents(reports, students, grades);
  }

  /**
   * `generateStudentReports`: one report per student with at least one grade,
   * best average first.
   */
  method GenerateStudentReports(students: seq<Student>, grades: seq<ValidGrade>) returns (reports: seq<StudentReport>)
    ensures reports == Sort(BuildStudentReports(students, grades), HigherStudent)
    ensures forall i, j :: 0 <= i < j < |reports| ==> reports[i].average_score >= reports[j].average_score
    ensures forall k :: 0 <= k < |reports| ==> reports[k].student in students && IsStudentReport(reports[k], grades)
    ensures forall k :: 0 <= k < |reports| ==> 1 <= reports[k].total_subjects <= |reports[k].grades|
    ensures CoversStudents(reports, students, grades)
    ensures |reports| <= |students|
  {
    var built: seq<StudentReport> := [];
    var i := 0;
    while i < |students|
      invariant 0 <= i <= |students|
      invariant built == BuildStudentReports(students[..i], grades)
    {
      var student := students[i];
      var studentGrades := GradesOfStudent(grades, student.id);
      assert students[..i + 1][..i] == students[..i];
      if |studentGrades| > 0 {
        var average := MeanPct(studentGrades);
        built := built + [StudentReport(student, studentGrades, average, |SubjectIdsOf(studentGrades)|)];
      }
      i := i + 1;
    }
    assert students[..i] == students;
    reports := Sort(built, HigherStudent);
    SortSorted(built, HigherStudent);
    StudentReportsWellFormed(students, grades);
    StudentReportsComplete(students, grades);
  }

  /** The "Top 5" panel: the first five reports (`studentReports.slice(0, 5)`). */
  function TopStudents(reports: seq<StudentReport>): (top: seq<StudentReport>)
    ensures |top| == if |reports| < 5 then |reports| else 5
    ensures top == reports[..|top|]
    ensures SortedBy(reports, HigherStudent) ==>
              forall i, j :: 0 <= i < |top| <= j < |reports| ==> top[i].average_score >= reports[j].average_score
  {
    Take(reports, 5)
  }

  // ---------------------------------------------------------------- subjects

  datatype SubjectReport = SubjectReport(subject: Subject, grades: seq<ValidGrade>, average_score: real,
                                         total_students: nat, highest_score: real, lowest_score: real)

  /** The report the page pushes for one subject, or None when the subject has no grades. */
  function SubjectReportOf(s: Subject, grades: seq<ValidGrade>): Option<SubjectReport>
  {
    var sg := GradesOfSubject(grades, s.id);
    if |sg| > 0 then Some(SubjectReport(s, sg, MeanPct(sg), |StudentIdsOf(sg)|, MaxPct(sg), MinPct(sg)))
    else None
  }

  /** The body of the page's `forEach` over subjects, as a function of the subject. */
  function SubjectReporter(grades: seq<ValidGrade>): Subject -> Option<SubjectReport>
  {
    s => SubjectReportOf(s, grades)
  }

  /** The reports in the order the subjects are visited, before sorting. */
  function BuildSubjectReports(subjects: seq<Subject>, grades: seq<ValidGrade>): seq<SubjectReport>
  {
    FilterMap(subjects, SubjectReporter(grades))
  }

  /** The comparator `(a, b) => b.average_score - a.average_score`. */
  predicate HigherSubject(a: SubjectReport, b: SubjectReport)
  {
    a.average_score >= b.average_score
  }

  /** What every pushed report satisfies. */
  ghost predicate IsSubjectReport(r: SubjectReport, grades: seq<ValidGrade>)
  {
    && r.grades == GradesOfSubject(grades, r.subject.id)
    && |r.grades| > 0
    && r.average_score == MeanPct(r.grades)
    && r.total_students == |StudentIdsOf(r.grades)|
    && r.highest_score == MaxPct(r.grades)
    && r.lowest_score == MinPct(r.grades)
  }

  /** One subject's report exists exactly when the subject has grades, and describes them. */
  lemma SubjectReportOfSound(s: Subject, grades: seq<ValidGrade>)
    ensures SubjectReportOf(s, grades).Some? <==> |GradesOfSubject(grades, s.id)| > 0
    ensures SubjectReportOf(s, grades).Some? ==>
              SubjectReportOf(s, grades).value.subject == s && IsSubjectReport(SubjectReportOf(s, grades).value, grades)
  {
  }

  /** A subject with grades gets a report, and that report names the subject. */
  lemma SubjectReportOfHasSubject(s: Subject, grades: seq<ValidGrade>)
    requires |GradesOfSubject(grades, s.id)| > 0
    ensures SubjectReportOf(s, grades).Some? && SubjectReportOf(s, grades).value.subject == s
  {
  }

  /** Visiting one more subject pushes its report, if it has one. */
  lemma BuildSubjectReportsStep(subjects: seq<Subject>, grades: seq<ValidGrade>, i: nat)
    requires i < |subjects|
    ensures BuildSubjectReports(subjects[..i + 1], grades) ==
              BuildSubjectReports(subjects[..i], grades)
              + match SubjectReportOf(subjects[i], grades) { case Some(r) => [r] case None => [] }
  {
    assert subjects[..i + 1][..i] == subjects[..i];
  }

  /** Each unsorted report belongs to a listed subject and is built from exactly that subject's grades. */
  lemma BuildSubjectReportsSound(subjects: seq<Subject>, grades: seq<ValidGrade>)
    ensures var b := BuildSubjectReports(subjects, grades);
      && |b| <= |subjects|
      && (forall k :: 0 <= k < |b| ==> b[k].subject in subjects && IsSubjectReport(b[k], grades))
  {
    var f := SubjectReporter(grades);
    var b := FilterMap(subjects, f);
    FilterMapSound(subjects, f);
    forall k | 0 <= k < |b| ensures b[k].subject in subjects && IsSubjectReport(b[k], grades) {
      var j :| 0 <= j < |subjects| && f(subjects[j]) == Some(b[k]);
      SubjectReportOfSound(subjects[j], grades);
    }
  }

  /** Every listed subject with at least one grade has a report in `b`. */
  ghost predicate CoversSubjects(b: seq<SubjectReport>, subjects: seq<Subject>, grades: seq<ValidGrade>)
  {
    forall i :: 0 <= i < |subjects| && |GradesOfSubject(grades, subjects[i].id)| > 0 ==>
      exists k :: 0 <= k < |b| && b[k].subject == subjects[i]
  }

  /** One listed subject with grades has an unsorted report. */
  lemma BuildSubjectReportsCoversOne(subjects: seq<Subject>, grades: seq<ValidGrade>, i: nat)
    requires i < |subjects| && |GradesOfSubject(grades, subjects[i].id)| > 0
    ensures exists k :: 0 <= k < |BuildSubjectReports(subjects, grades)| &&
                        BuildSubjectReports(subjects, grades)[k].subject == subjects[i]
  {
    var b := BuildSubjectReports(subjects, grades);
    var s := subjects[i];
    FilterMapCovers(subjects, SubjectReporter(grades));
    SubjectReportOfHasSubject(s, grades);
    assert SubjectReporter(grades)(s) == SubjectReportOf(s, grades);
    var r := SubjectReportOf(s, grades).value;
    assert r in b;
    var k :| 0 <= k < |b| && b[k] == r;
  }

  /** Each listed subject with grades has an unsorted report. */
  lemma BuildSubjectReportsCovers(subjects: seq<Subject>, grades: seq<ValidGrade>)
    ensures CoversSubjects(BuildSubjectReports(subjects, grades), subjects, grades)
  {
    forall i | 0 <= i < |subjects| && |GradesOfSubject(grades, subjects[i].id)| > 0
      ensures exists k :: 0 <= k < |BuildSubjectReports(subjects, grades)| &&
                          BuildSubjectReports(subjects, grades)[k].subject == subjects[i]
    {
      BuildSubjectReportsCoversOne(subjects, grades, i);
    }
  }

  /** A pushed subject report's average lies between its worst and best grade, and it counts between one and as many students as grades. */
  lemma SubjectReportBounds(r: SubjectReport, grades: seq<ValidGrade>)
    requires IsSubjectReport(r, grades)
    ensures r.lowest_score <= r.average_score <= r.highest_score
    ensures 1 <= r.total_students <= |r.grades|
  {
    StudentIdsBound(r.grades);
    MeanBetween(r.grades);
  }

  /** One sorted subject report belongs to a listed subject, is built from its grades and lies between its worst and best grade. */
  lemma SortedSubjectReportSound(subjects: seq<Subject>, grades: seq<ValidGrade>, r: SubjectReport)
    requires r in Sort(BuildSubjectReports(subjects, grades), HigherSubject)
    ensures r.subject in subjects && IsSubjectReport(r, grades)
    ensures r.lowest_score <= r.average_score <= r.highest_score
    ensures 1 <= r.total_students <= |r.grades|
  {
    var built := BuildSubjectReports(subjects, grades);
    SortSameElements(built, HigherSubject);
    var k :| 0 <= k < |built| && built[k] == r;
    BuildSubjectReportsSound(subjects, grades);
    SubjectReportBounds(r, grades);
  }

  /** Every sorted subject report belongs to a listed subject and lies between its worst and best grade. */
  lemma SubjectReportsWellFormed(subjects: seq<Subject>, grades: seq<ValidGrade>)
    ensures var reports := Sort(BuildSubjectReports(subjects, grades), HigherSubject);
      && (forall k :: 0 <= k < |reports| ==> reports[k].subject in subjects && IsSubjectReport(reports[k], grades))
      && (forall k :: 0 <= k < |reports| ==>
            reports[k].lowest_score <= reports[k].average_score <= reports[k].highest_score)
      && (forall k :: 0 <= k < |reports| ==> 1 <= reports[k].total_students <= |reports[k].grades|)
      && |reports| <= |subjects|
  {
    var reports := Sort(BuildSubjectReports(subjects, grades), HigherSubject);
    FilterMapSound(subjects, SubjectReporter(grades));
    forall k | 0 <= k < |reports|
      ensures reports[k].subject in subjects && IsSubjectReport(reports[k], grades)
      ensures reports[k].lowest_score <= reports[k].average_score <= reports[k].highest_score
      ensures 1 <= reports[k].total_students <= |reports[k].grades|
    {
      SortedSubjectReportSound(subjects, grades, reports[k]);
    }
  }

  lemma SubjectReportsComplete(subjects: seq<Subject>, grades: seq<ValidGrade>)
    ensures CoversSubjects(Sort(BuildSubjectReports(subjects, grades), HigherSubject), subjects, grades)
  {
    var built := BuildSubjectReports(subjects, grades);
    var reports := Sort(built, HigherSubject);
    BuildSubjectReportsCovers(subjects, grades);
    SortSameElements(built, HigherSubject);
    forall j | 0 <= j < |subjects| && |GradesOfSubject(grades, subjects[j].id)| > 0
      ensures exists k :: 0 <= k < |reports| && reports[k].subject == subjects[j]
    {
      var k :| 0 <= k < |built| && built[k].subject == subjects[j];
      assert built[k] in reports;
      var m :| 0 <= m < |reports| && reports[m] == built[k];
    }
    assert CoversSubjects(reports, subjects, grades);
  }

  /**
   * `generateSubjectReports`: one report per subject with at least one grade,
   * best average first, each with its best and worst percentage.
   */
  method GenerateSubjectReports(subjects: seq<Subject>, grades: seq<ValidGrade>) returns (reports: seq<SubjectReport>)
    ensures reports == Sort(BuildSubjectReports(subjects, grades), HigherSubject)
    ensures forall i, j :: 0 <= i < j < |reports| ==> reports[i].average_score >= reports[j].average_score
    ensures forall k :: 0 <= k < |reports| ==> reports[k].subject in subjects && IsSubjectReport(reports[k], grades)
    ensures forall k :: 0 <= k < |reports| ==>
              reports[k].lowest_score <= reports[k].average_score <= reports[k].highest_score
    ensures forall k :: 0 <= k < |reports| ==> 1 <= reports[k].total_students <= |reports[k].grades|
    ensures CoversSubjects(reports, subjects, grades)
    ensures |reports| <= |subjects|
  {
    var built: seq<SubjectReport> := [];
    var i := 0;
    while i < |subjects|
      invariant 0 <= i <= |subjects|
      invariant built == BuildSubjectReports(subjects[..i], grades)
    {
      var subject := subjects[i];
      var subjectGrades := GradesOfSubject(grades, subject.id);
      BuildSubjectReportsStep(subjects, grades, i);
      if |subjectGrades| > 0 {
        var average := MeanPct(subjectGrades);
        var highest := MaxPct(subjectGrades);
        var lowest := MinPct(subjectGrades);
        built := built + [SubjectReport(subject, subjectGrades, average, |StudentIdsOf(subjectGrades)|, highest, lowest)];
      }
      i := i + 1;
    }
    assert subjects[..i] == subjects;
    reports := Sort(built, HigherSubject);
    SortSorted(built, HigherSubject);
    SubjectReportsWellFormed(subjects, grades);
    SubjectReportsComplete(subjects, grades);
  }
}
