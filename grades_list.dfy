/**
 * The grades list page: the filter record held as page state, the value
 * each filter input stores, and the names and percentage shown on each row.
 */
module GradesList {
  import opened Seqs
  import opened Grades
  import opened Filters

  /**
   * `getStudentName` of this page: the same look-up as the history page's,
   * with 'N/A' instead of 'No encontrado' when no student has the id.
   */
  function StudentName(students: seq<Student>, id: int): (name: string)
    ensures (forall i :: 0 <= i < |students| ==> students[i].id != id) ==> name == "N/A"
    ensures (exists i :: 0 <= i < |students| && students[i].id == id) ==>
              exists i :: 0 <= i < |students| && students[i].id == id && name == FullName(students[i])
                          && forall j :: 0 <= j < i ==> students[j].id != id
  {
    StudentNameOr(students, id, "N/A")
  }

  /**
   * `subject?.name || 'N/A'`: unlike the other pages, a subject whose name
   * is empty also shows 'N/A', so the cell is never empty.
   */
  function SubjectName(subjects: seq<Subject>, id: int): (name: string)
    ensures name != ""
    ensures (forall i :: 0 <= i < |subjects| ==> subjects[i].id != id) ==> name == "N/A"
    ensures name != "N/A" ==> exists i :: 0 <= i < |subjects| && subjects[i].id == id && name == subjects[i].name
                                          && forall j :: 0 <= j < i ==> subjects[j].id != id
    ensures FindSubject(subjects, id).Some? && FindSubject(subjects, id).value.name != "" ==>
              name == FindSubject(subjects, id).value.name
  {
    match FindSubject(subjects, id)
    case Some(s) => if s.name != "" then s.name else "N/A"
    case None => "N/A"
  }

  /** Where a listed subject has a non-empty name, the cell shows the name of the first subject with that id. */
  lemma SubjectNameAgrees(subjects: seq<Subject>, id: int)
    requires FindSubject(subjects, id).Some? && FindSubject(subjects, id).value.name != ""
    ensures SubjectName(subjects, id) == SubjectNameOr(subjects, id, "N/A")
  {
  }

  /** An empty subject name is the one place where the list and the other pages disagree. */
  lemma SubjectNameEmptyName(subjects: seq<Subject>, id: int)
    requires FindSubject(subjects, id).Some? && FindSubject(subjects, id).value.name == ""
    ensures SubjectName(subjects, id) == "N/A" && SubjectNameOr(subjects, id, "N/A") == ""
  {
  }

  /** `calculatePercentage(score, maxScore)` before `toFixed(1)`. */
  function CalculatePercentage(score: real, maxScore: real): (p: real)
    requires maxScore > 0.0
    ensures p * maxScore == score * 100.0
    ensures 0.0 <= score <= maxScore ==> 0.0 <= p <= 100.0
  {
    score / maxScore * 100.0
  }

  /** The row's percentage is the grade's percentage. */
  lemma RowPercentage(g: ValidGrade)
    ensures CalculatePercentage(g.score, g.max_score) == Percentage(g)
  {
  }

  /**
   * The student select stores `Number(value) || undefined`: `choice` is the
   * id of the chosen option, None for "Todos los estudiantes" (value '').
   */
  function StudentSelectValue(choice: Option<int>): (v: FilterValue)
    ensures v == Undefined <==> choice.None? || choice.value == 0
    ensures choice.Some? && choice.value != 0 ==> v == Num(choice.value as real)
  {
    match choice
    case None => NumberOrUndefined(Some(0.0))
    case Some(id) => NumberOrUndefined(Some(id as real))
  }

  /** The page state: the filter record sent with the grades query. */
  class GradesListView {
    var filters: GradeFilters

    /** The page opens with no filter. */
    constructor ()
      ensures filters == Empty()
    {
      filters := Empty();
    }

    /** `handleFilterChange(key, value)`: only that key of the filters changes. */
    method HandleFilterChange(key: FilterKey, value: FilterValue)
      modifies this
      ensures filters == old(filters).With(key, value)
      ensures filters.Get(key) == value
      ensures forall k :: k != key ==> filters.Get(k) == old(filters).Get(k)
    {
      filters := filters.With(key, value);
    }

    /** `clearFilters`. */
    method ClearFilters()
      modifies this
      ensures filters == Empty() && filters.IsEmpty()
    {
      filters := Empty();
    }
  }
}
