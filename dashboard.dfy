/**
 * The dashboard page: totals, the overall mean percentage, the five best
 * students and subjects by mean percentage, and the five-band distribution,
 * all computed in one pass over the fetched students, subjects and grades.
 */
module Dashboard {
  import opened Seqs
  import opened Sorting
  import opened Grades
  import opened Analytics

  /** A student or a subject paired with the mean percentage of its grades (`{ student, average }`). */
  datatype Ranked<T> = Ranked(item: T, average: real)

  /** Only entries with a positive mean are ranked (`filter(s => s.average > 0)`). */
  predicate Positive<T>(r: Ranked<T>)
  {
    r.average > 0.0
  }

  /** The comparator `(a, b) => b.average - a.average`, best first. */
  predicate Higher<T>(a: Ranked<T>, b: Ranked<T>)
  {
    a.average >= b.average
  }

  lemma HigherIsOrder<T(!new)>()
    ensures Total(Higher<T>) && Transitive(Higher<T>)
  {
    assert Total(Higher<T>) by {
      forall a: Ranked<T>, b: Ranked<T> ensures Higher(a, b) || Higher(b, a) {
      }
    }
    assert Transitive(Higher<T>) by {
      forall a: Ranked<T>, b: Ranked<T>, c: Ranked<T> | Higher(a, b) && Higher(b, c)
        ensures Higher(a, c)
      {
      }
    }
  }

  /** Every student with the mean of its grades; 0 when it has none. */
  function StudentAverages(students: seq<Student>, grades: seq<ValidGrade>): (r: seq<Ranked<Student>>)
    ensures |r| == |students|
    ensures forall i :: 0 <= i < |r| ==> r[i].item == students[i]
    ensures forall i :: 0 <= i < |r| ==> r[i].average == MeanPct(GradesOfStudent(grades, students[i].id))
  {
    seq(|students|, i requires 0 <= i < |students| =>
      Ranked(students[i], MeanPct(GradesOfStudent(grades, students[i].id))))
  }

  /** Every subject with the mean of its grades; 0 when it has none. */
  function SubjectAverages(subjects: seq<Subject>, grades: seq<ValidGrade>): (r: seq<Ranked<Subject>>)
    ensures |r| == |subjects|
    ensures forall i :: 0 <= i < |r| ==> r[i].item == subjects[i]
    ensures forall i :: 0 <= i < |r| ==> r[i].average == MeanPct(GradesOfSubject(grades, subjects[i].id))
  {
    seq(|subjects|, i requires 0 <= i < |subjects| =>
      Ranked(subjects[i], MeanPct(GradesOfSubject(grades, subjects[i].id))))
  }

  /** `.filter(s => s.average > 0).sort((a, b) => b.average - a.average).slice(0, 5)`. */
  function TopFive<T>(rs: seq<Ranked<T>>): seq<Ranked<T>>
  {
    Take(Sort(Filter(rs, Positive<T>), Higher<T>), 5)
  }

  /**
   * The ranking holds at most five entries, all with a positive mean, best
   * first, all taken from the input, and it is as long as it can be.
   */
  lemma TopFiveSpec<T(!new)>(rs: seq<Ranked<T>>)
    ensures var top := TopFive(rs);
      && |top| <= 5
      && (forall k :: 0 <= k < |top| ==> top[k].average > 0.0 && top[k] in rs)
      && (forall i, j :: 0 <= i < j < |top| ==> top[i].average >= top[j].average)
      && |top| == (if |Filter(rs, Positive<T>)| < 5 then |Filter(rs, Positive<T>)| else 5)
  {
    var pos := Filter(rs, Positive<T>);
    var sorted := Sort(pos, Higher<T>);
    var top := Take(sorted, 5);
    HigherIsOrder<T>();
    SortSorted(pos, Higher<T>);
    forall k | 0 <= k < |top|
      ensures top[k].average > 0.0 && top[k] in rs
    {
      assert top[k] == sorted[k];
      assert sorted[k] in multiset(pos);
    }
  }

  /** No entry with a positive mean that was left out of the ranking beats an entry shown. */
  lemma TopFiveBest<T(!new)>(rs: seq<Ranked<T>>)
    ensures var top := TopFive(rs);
      forall i, k :: 0 <= i < |rs| && rs[i].average > 0.0 && rs[i] !in top && 0 <= k < |top| ==>
        top[k].average >= rs[i].average
  {
    var pos := Filter(rs, Positive<T>);
    var sorted := Sort(pos, Higher<T>);
    var top := Take(sorted, 5);
    HigherIsOrder<T>();
    SortSorted(pos, Higher<T>);
    forall i, k | 0 <= i < |rs| && rs[i].average > 0.0 && rs[i] !in top && 0 <= k < |top|
      ensures top[k].average >= rs[i].average
    {
      assert rs[i] in multiset(sorted);
      var j :| 0 <= j < |sorted| && sorted[j] == rs[i];
      assert top == sorted[..|top|];
      assert Higher(sorted[k], sorted[j]);
    }
  }

  /** The dashboard figures (`DashboardStats`). */
  datatype DashboardStats = DashboardStats(
    totalStudents: nat, totalSubjects: nat, totalGrades: nat, averageGrade: real,
    topStudents: seq<Ranked<Student>>, topSubjects: seq<Ranked<Subject>>,
    gradeDistribution: FiveBuckets)

  function CalculateStats(students: seq<Student>, subjects: seq<Subject>, grades: seq<ValidGrade>): (st: DashboardStats)
    ensures st.totalStudents == |students| && st.totalSubjects == |subjects| && st.totalGrades == |grades|
    ensures |grades| == 0 ==> st.averageGrade == 0.0
    ensures |grades| > 0 ==> st.averageGrade == MeanPct(grades)
    ensures st.gradeDistribution.Sum() == st.totalGrades
    ensures |st.topStudents| <= 5 && |st.topSubjects| <= 5
  {
    FiveBucketsPartition(grades);
    TopFiveSpec(StudentAverages(students, grades));
    TopFiveSpec(SubjectAverages(subjects, grades));
    DashboardStats(|students|, |subjects|, |grades|, MeanPct(grades),
                   TopFive(StudentAverages(students, grades)),
                   TopFive(SubjectAverages(subjects, grades)),
                   FiveBucketDistribution(grades))
  }

  /** The overall average lies between the worst and the best grade. */
  lemma AverageGradeBetween(students: seq<Student>, subjects: seq<Subject>, grades: seq<ValidGrade>)
    requires |grades| > 0
    ensures MinPct(grades) <= CalculateStats(students, subjects, grades).averageGrade <= MaxPct(grades)
  {
    MeanBetween(grades);
  }

  /**
   * Each ranked student is a listed student with a positive mean, shown with
   * the mean of its own grades, best first.
   */
  lemma TopStudentsSpec(students: seq<Student>, subjects: seq<Subject>, grades: seq<ValidGrade>)
    ensures var top := CalculateStats(students, subjects, grades).topStudents;
      && (forall k :: 0 <= k < |top| ==>
            top[k].item in students && top[k].average > 0.0
            && top[k].average == MeanPct(GradesOfStudent(grades, top[k].item.id)))
      && (forall i, j :: 0 <= i < j < |top| ==> top[i].average >= top[j].average)
  {
    var rs := StudentAverages(students, grades);
    TopFiveSpec(rs);
    var top := TopFive(rs);
    forall k | 0 <= k < |top|
      ensures top[k].item in students && top[k].average == MeanPct(GradesOfStudent(grades, top[k].item.id))
    {
      var i :| 0 <= i < |rs| && rs[i] == top[k];
    }
  }

  /** Each ranked subject is a listed subject with a positive mean, best first. */
  lemma TopSubjectsSpec(students: seq<Student>, subjects: seq<Subject>, grades: seq<ValidGrade>)
    ensures var top := CalculateStats(students, subjects, grades).topSubjects;
      && (forall k :: 0 <= k < |top| ==>
            top[k].item in subjects && top[k].average > 0.0
            && top[k].average == MeanPct(GradesOfSubject(grades, top[k].item.id)))
      && (forall i, j :: 0 <= i < j < |top| ==> top[i].average >= top[j].average)
  {
    var rs := SubjectAverages(subjects, grades);
    TopFiveSpec(rs);
    var top := TopFive(rs);
    forall k | 0 <= k < |top|
      ensures top[k].item in subjects && top[k].average == MeanPct(GradesOfSubject(grades, top[k].item.id))
    {
      var i :| 0 <= i < |rs| && rs[i] == top[k];
    }
  }

  /**
   * A student without grades, or whose scores are all 0, is never ranked:
   * the dashboard drops it while the reports page keeps a student whose
   * grades are all 0.
   */
  lemma ZeroStudentNotRanked(students: seq<Student>, subjects: seq<Subject>, grades: seq<ValidGrade>, s: Student)
    requires forall i :: 0 <= i < |grades| && grades[i].student_id == s.id ==> grades[i].score == 0.0
    ensures forall k :: 0 <= k < |CalculateStats(students, subjects, grades).topStudents| ==>
              CalculateStats(students, subjects, grades).topStudents[k].item != s
  {
    TopStudentsSpec(students, subjects, grades);
    var own := GradesOfStudent(grades, s.id);
    forall j | 0 <= j < |own| ensures own[j].score == 0.0 {
      var i :| 0 <= i < |grades| && grades[i] == own[j];
    }
    MeanOfZeroScores(own);
  }

  /** A subject without grades, or whose scores are all 0, is never ranked. */
  lemma ZeroSubjectNotRanked(students: seq<Student>, subjects: seq<Subject>, grades: seq<ValidGrade>, s: Subject)
    requires forall i :: 0 <= i < |grades| && grades[i].subject_id == s.id ==> grades[i].score == 0.0
    ensures forall k :: 0 <= k < |CalculateStats(students, subjects, grades).topSubjects| ==>
              CalculateStats(students, subjects, grades).topSubjects[k].item != s
  {
    TopSubjectsSpec(students, subjects, grades);
    var own := GradesOfSubject(grades, s.id);
    forall j | 0 <= j < |own| ensures own[j].score == 0.0 {
      var i :| 0 <= i < |grades| && grades[i] == own[j];
    }
    MeanOfZeroScores(own);
  }

  /**
   * A listed student with a positive mean that is not ranked is outranked by
   * every ranked student; so with fewer than five such students all of them appear.
   */
  lemma TopStudentsAreBest(students: seq<Student>, subjects: seq<Subject>, grades: seq<ValidGrade>, i: nat)
    requires i < |students|
    requires MeanPct(GradesOfStudent(grades, students[i].id)) > 0.0
    ensures var top := CalculateStats(students, subjects, grades).topStudents;
      Ranked(students[i], MeanPct(GradesOfStudent(grades, students[i].id))) in top
      || (forall k :: 0 <= k < |top| ==> top[k].average >= MeanPct(GradesOfStudent(grades, students[i].id)))
  {
    TopFiveBest(StudentAverages(students, grades));
  }
}
