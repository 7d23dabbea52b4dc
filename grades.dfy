/**
 * The records the grades dashboard receives from its REST API
 * (students, subjects, grades, enrollments), the percentage of a grade,
 * look-ups by id, and the order used for names.
 */
module Grades {
  import opened Seqs

  /** A student; contact and profile fields play no part in any computation and are omitted. */
  datatype Student = Student(id: int, first_name: string, last_name: string, dni: string)

  /** A subject; `max_students` is shown as credits and never computed with. */
  datatype Subject = Subject(id: int, name: string, code: string, max_students: int)

  /**
   * A grade. Scores are real numbers; `date` stands for the timestamp the
   * history page sorts by (`new Date(created_at).getTime()`, in milliseconds),
   * taken to be present and valid on every grade.
   */
  datatype Grade = Grade(id: int, student_id: int, subject_id: int, score: real, max_score: real,
                         comments: string, date: int)

  /** Every page divides by `max_score` without a guard; only grades with a positive maximum have a percentage. */
  type ValidGrade = g: Grade | g.max_score > 0.0 witness Grade(0, 0, 0, 0.0, 20.0, "", 0)

  datatype Enrollment = Enrollment(id: int, student_id: int, subject_id: int)

  /** `score / max_score * 100`. */
  function Percentage(g: ValidGrade): (p: real)
    ensures p * g.max_score == g.score * 100.0
    ensures 0.0 <= g.score <= g.max_score ==> 0.0 <= p <= 100.0
    ensures g.score == 0.0 <==> p == 0.0
  {
    g.score / g.max_score * 100.0
  }

  /** The grades of one student, in input order (`grades.filter(g => g.student_id === id)`). */
  function GradesOfStudent(grades: seq<ValidGrade>, id: int): (r: seq<ValidGrade>)
    ensures forall i :: 0 <= i < |r| ==> r[i] in grades && r[i].student_id == id
    ensures forall i :: 0 <= i < |grades| && grades[i].student_id == id ==> grades[i] in r
  {
    Filter(grades, (g: ValidGrade) => g.student_id == id)
  }

  /** The grades of one subject, in input order. */
  function GradesOfSubject(grades: seq<ValidGrade>, id: int): (r: seq<ValidGrade>)
    ensures forall i :: 0 <= i < |r| ==> r[i] in grades && r[i].subject_id == id
    ensures forall i :: 0 <= i < |grades| && grades[i].subject_id == id ==> grades[i] in r
  {
    Filter(grades, (g: ValidGrade) => g.subject_id == id)
  }

  /** `students.find(s => s.id === id)`: the first student with the id. */
  function FindStudent(students: seq<Student>, id: int): (r: Option<Student>)
    ensures r.None? <==> forall i :: 0 <= i < |students| ==> students[i].id != id
    ensures r.Some? ==> exists i :: 0 <= i < |students| && students[i] == r.value && r.value.id == id
                                    && forall j :: 0 <= j < i ==> students[j].id != id
  {
    var p := (s: Student) => s.id == id;
    FindIsFirst(students, p);
    Find(students, p)
  }

  /** `subjects.find(s => s.id === id)`: the first subject with the id. */
  function FindSubject(subjects: seq<Subject>, id: int): (r: Option<Subject>)
    ensures r.None? <==> forall i :: 0 <= i < |subjects| ==> subjects[i].id != id
    ensures r.Some? ==> exists i :: 0 <= i < |subjects| && subjects[i] == r.value && r.value.id == id
                                    && forall j :: 0 <= j < i ==> subjects[j].id != id
  {
    var p := (s: Subject) => s.id == id;
    FindIsFirst(subjects, p);
    Find(subjects, p)
  }

  /** `${first_name} ${last_name}`. */
  function FullName(s: Student): string
  {
    s.first_name + " " + s.last_name
  }

  /**
   * The full name of the first student with the id, or `fallback` when no
   * student has it (`find`, then a conditional).
   */
  function StudentNameOr(students: seq<Student>, id: int, fallback: string): (name: string)
    ensures (forall i :: 0 <= i < |students| ==> students[i].id != id) ==> name == fallback
    ensures (exists i :: 0 <= i < |students| && students[i].id == id) ==>
              exists i :: 0 <= i < |students| && students[i].id == id && name == FullName(students[i])
                          && forall j :: 0 <= j < i ==> students[j].id != id
  {
    match FindStudent(students, id)
    case Some(s) => FullName(s)
    case None => fallback
  }

  /** The name of the first subject with the id, or `fallback` when no subject has it. */
  function SubjectNameOr(subjects: seq<Subject>, id: int, fallback: string): (name: string)
    ensures (forall i :: 0 <= i < |subjects| ==> subjects[i].id != id) ==> name == fallback
    ensures (exists i :: 0 <= i < |subjects| && subjects[i].id == id) ==>
              exists i :: 0 <= i < |subjects| && subjects[i].id == id && name == subjects[i].name
                          && forall j :: 0 <= j < i ==> subjects[j].id != id
  {
    match FindSubject(subjects, id)
    case Some(s) => s.name
    case None => fallback
  }

  /**
   * The order in which names are compared. The pages use `localeCompare`;
   * the model uses lexicographic order on character codes.
   */
  predicate NameLe(a: string, b: string)
  {
    a == [] || (b != [] && (a[0] < b[0] || (a[0] == b[0] && NameLe(a[1..], b[1..]))))
  }

  lemma {:induction false} NameLeTotal(a: string, b: string)
    ensures NameLe(a, b) || NameLe(b, a)
  {
    if a != [] && b != [] && a[0] == b[0] {
      NameLeTotal(a[1..], b[1..]);
    }
  }

  lemma {:induction false} NameLeTransitive(a: string, b: string, c: string)
    requires NameLe(a, b) && NameLe(b, c)
    ensures NameLe(a, c)
  {
    if a != [] && a[0] == b[0] && b[0] == c[0] {
      NameLeTransitive(a[1..], b[1..], c[1..]);
    }
  }

  lemma {:induction false} NameLeAntisymmetric(a: string, b: string)
    requires NameLe(a, b) && NameLe(b, a)
    ensures a == b
  {
    if a != [] && b != [] {
      NameLeAntisymmetric(a[1..], b[1..]);
      assert a == [a[0]] + a[1..] && b == [b[0]] + b[1..];
    }
  }
}
