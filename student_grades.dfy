/**
 * The per-student grades page: the subject name shown on each row, and
 * (through the shared statistics) the cards, row colours and three-band
 * distribution over the student's grades.
 */
module StudentGrades {
  import opened Seqs
  import opened Grades

  /** `getSubjectName`: the name of the first subject with the id, or 'N/A' when none has it. */
  function SubjectName(subjects: seq<Subject>, subjectId: int): (name: string)
    ensures (forall i :: 0 <= i < |subjects| ==> subjects[i].id != subjectId) ==> name == "N/A"
    ensures (exists i :: 0 <= i < |subjects| && subjects[i].id == subjectId) ==>
              exists i :: 0 <= i < |subjects| && subjects[i].id == subjectId && name == subjects[i].name
                          && forall j :: 0 <= j < i ==> subjects[j].id != subjectId
  {
    SubjectNameOr(subjects, subjectId, "N/A")
  }
}
