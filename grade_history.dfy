/**
 * The grade history page: a filter record, a sort column and a sort
 * direction held as page state; the history sorted by the chosen column;
 * the sort icons; and the summary cards over the sorted history.
 */
module GradeHistory {
  import opened Seqs
  import opened Sorting
  import opened Grades
  import opened Analytics
  import opened Filters

  datatype SortKey = Date | StudentCol | SubjectCol | Score
  datatype SortOrder = Asc | Desc

  /** `getStudentName`: the first matching student's full name, or 'No encontrado'. */
  function StudentName(students: seq<Student>, id: int): (name: string)
    ensures (forall i :: 0 <= i < |students| ==> students[i].id != id) ==> name == "No encontrado"
    ensures (exists i :: 0 <= i < |students| && students[i].id == id) ==>
              exists i :: 0 <= i < |students| && students[i].id == id && name == FullName(students[i])
                          && forall j :: 0 <= j < i ==> students[j].id != id
  {
    StudentNameOr(students, id, "No encontrado")
  }

  /** `getSubjectName`: the first matching subject's name, or 'No encontrado'. */
  function SubjectName(subjects: seq<Subject>, id: int): (name: string)
    ensures (forall i :: 0 <= i < |subjects| ==> subjects[i].id != id) ==> name == "No encontrado"
    ensures (exists i :: 0 <= i < |subjects| && subjects[i].id == id) ==>
              exists i :: 0 <= i < |subjects| && subjects[i].id == id && name == subjects[i].name
                          && forall j :: 0 <= j < i ==> subjects[j].id != id
  {
    SubjectNameOr(subjects, id, "No encontrado")
  }

  /** `localeCompare` as a sign: negative, zero or positive. */
  function NameCompare(a: string, b: string): (c: int)
    ensures c <= 0 <==> NameLe(a, b)
    ensures c == 0 <==> a == b
  {
    if a == b then NameLeTotal(a, b); 0
    else if NameLe(a, b) then -1
    else 1
  }

  lemma NameCompareFlips(a: string, b: string)
    ensures NameCompare(b, a) == -NameCompare(a, b)
  {
    NameLeTotal(a, b);
    if NameLe(a, b) && NameLe(b, a) {
      NameLeAntisymmetric(a, b);
    }
  }

  /** The value of the comparator's switch, before the direction is applied. */
  function Comparison(key: SortKey, students: seq<Student>, subjects: seq<Subject>, a: ValidGrade, b: ValidGrade): real
  {
    match key
    case Date => (a.date - b.date) as real
    case StudentCol => NameCompare(StudentName(students, a.student_id), StudentName(students, b.student_id)) as real
    case SubjectCol => NameCompare(SubjectName(subjects, a.subject_id), SubjectName(subjects, b.subject_id)) as real
    case Score => Percentage(a) - Percentage(b)
  }

  /** `a` may come before `b`: the comparator, negated for `desc`, is not positive. */
  function Before(key: SortKey, order: SortOrder, students: seq<Student>, subjects: seq<Subject>): (ValidGrade, ValidGrade) -> bool
  {
    (a: ValidGrade, b: ValidGrade) =>
      (if order == Asc then Comparison(key, students, subjects, a, b)
       else -Comparison(key, students, subjects, a, b)) <= 0.0
  }

  /** What "a comes no later than b" means for each column, stated directly on the column's values. */
  predicate InOrder(key: SortKey, order: SortOrder, students: seq<Student>, subjects: seq<Subject>, a: ValidGrade, b: ValidGrade)
  {
    match key
    case Date => if order == Asc then a.date <= b.date else a.date >= b.date
    case StudentCol =>
      var na, nb := StudentName(students, a.student_id), StudentName(students, b.student_id);
      if order == Asc then NameLe(na, nb) else NameLe(nb, na)
    case SubjectCol =>
      var na, nb := SubjectName(subjects, a.subject_id), SubjectName(subjects, b.subject_id);
      if order == Asc then NameLe(na, nb) else NameLe(nb, na)
    case Score => if order == Asc then Percentage(a) <= Percentage(b) else Percentage(a) >= Percentage(b)
  }

  /** The comparator orders exactly as the column's values do. */
  lemma BeforeMeansInOrder(key: SortKey, order: SortOrder, students: seq<Student>, subjects: seq<Subject>, a: ValidGrade, b: ValidGrade)
    ensures Before(key, order, students, subjects)(a, b) <==> InOrder(key, order, students, subjects, a, b)
  {
    if key == StudentCol {
      NameCompareFlips(StudentName(students, a.student_id), StudentName(students, b.student_id));
    } else if key == SubjectCol {
      NameCompareFlips(SubjectName(subjects, a.subject_id), SubjectName(subjects, b.subject_id));
    }
  }

  /** Every column gives a total, transitive order in both directions, so sorting yields an ordered list. */
  lemma BeforeIsOrder(key: SortKey, order: SortOrder, students: seq<Student>, subjects: seq<Subject>)
    ensures Total(Before(key, order, students, subjects)) && Transitive(Before(key, order, students, subjects))
  {
    var le := Before(key, order, students, subjects);
    forall a, b ensures le(a, b) || le(b, a) {
      BeforeMeansInOrder(key, order, students, subjects, a, b);
      BeforeMeansInOrder(key, order, students, subjects, b, a);
      if key == StudentCol {
        NameLeTotal(StudentName(students, a.student_id), StudentName(students, b.student_id));
      } else if key == SubjectCol {
        NameLeTotal(SubjectName(subjects, a.subject_id), SubjectName(subjects, b.subject_id));
      }
    }
    forall a, b, c | le(a, b) && le(b, c) ensures le(a, c) {
      BeforeMeansInOrder(key, order, students, subjects, a, b);
      BeforeMeansInOrder(key, order, students, subjects, b, c);
      BeforeMeansInOrder(key, order, students, subjects, a, c);
      var sa, sb, sc := StudentName(students, a.student_id), StudentName(students, b.student_id), StudentName(students, c.student_id);
      var ta, tb, tc := SubjectName(subjects, a.subject_id), SubjectName(subjects, b.subject_id), SubjectName(subjects, c.subject_id);
      if key == StudentCol && order == Asc {
        NameLeTransitive(sa, sb, sc);
      } else if key == StudentCol {
        NameLeTransitive(sc, sb, sa);
      } else if key == SubjectCol && order == Asc {
        NameLeTransitive(ta, tb, tc);
      } else if key == SubjectCol {
        NameLeTransitive(tc, tb, ta);
      }
    }
  }

  /** `sortGrades`: a sorted copy of the history; the page's own list is a value and stays as it was. */
  function SortGrades(grades: seq<ValidGrade>, key: SortKey, order: SortOrder,
                      students: seq<Student>, subjects: seq<Subject>): (r: seq<ValidGrade>)
    ensures multiset(r) == multiset(grades)
    ensures |r| == |grades|
  {
    Sort(grades, Before(key, order, students, subjects))
  }

  /** The sorted history is ordered by the chosen column in the chosen direction. */
  lemma SortGradesOrdered(grades: seq<ValidGrade>, key: SortKey, order: SortOrder,
                          students: seq<Student>, subjects: seq<Subject>)
    ensures var r := SortGrades(grades, key, order, students, subjects);
      forall i, j :: 0 <= i < j < |r| ==> InOrder(key, order, students, subjects, r[i], r[j])
  {
    var le := Before(key, order, students, subjects);
    BeforeIsOrder(key, order, students, subjects);
    SortSorted(grades, le);
    var r := SortGrades(grades, key, order, students, subjects);
    forall i, j | 0 <= i < j < |r| ensures InOrder(key, order, students, subjects, r[i], r[j]) {
      BeforeMeansInOrder(key, order, students, subjects, r[i], r[j]);
    }
  }

  /** The summary cards over the sorted history are those of the history itself. */
  lemma SummaryOfSorted(grades: seq<ValidGrade>, key: SortKey, order: SortOrder,
                        students: seq<Student>, subjects: seq<Subject>)
    ensures CardStats(SortGrades(grades, key, order, students, subjects)) == CardStats(grades)
  {
    CardStatsSort(grades, Before(key, order, students, subjects));
  }

  /**
   * `handleSort` as a function of the state: the clicked column becomes the
   * sort column; clicking the current one flips the direction, another one
   * starts descending.
   */
  function NextSort(sortBy: SortKey, sortOrder: SortOrder, column: SortKey): (r: (SortKey, SortOrder))
    ensures r.0 == column
    ensures sortBy == column ==> r.1 != sortOrder
    ensures sortBy != column ==> r.1 == Desc
  {
    if sortBy == column then (sortBy, if sortOrder == Asc then Desc else Asc)
    else (column, Desc)
  }

  /** Clicking the same column twice restores the sort. */
  lemma NextSortTwice(sortBy: SortKey, sortOrder: SortOrder)
    ensures var s := NextSort(sortBy, sortOrder, sortBy); NextSort(s.0, s.1, sortBy) == (sortBy, sortOrder)
  {
  }

  /** The page state: the filter record and the sort column and direction. */
  class GradeHistoryView {
    var filters: GradeFilters
    var sortBy: SortKey
    var sortOrder: SortOrder

    /** The page opens with no filter, newest first. */
    constructor ()
      ensures filters == Empty() && sortBy == Date && sortOrder == Desc
    {
      filters := Empty();
      sortBy := Date;
      sortOrder := Desc;
    }

    /** `handleFilterChange(key, value)`: only that key of the filters changes. */
    method HandleFilterChange(key: FilterKey, value: FilterValue)
      modifies this
      ensures filters == old(filters).With(key, value)
      ensures filters.Get(key) == value
      ensures forall k :: k != key ==> filters.Get(k) == old(filters).Get(k)
      ensures sortBy == old(sortBy) && sortOrder == old(sortOrder)
    {
      filters := filters.With(key, value);
    }

    /** `clearFilters`. */
    method ClearFilters()
      modifies this
      ensures filters == Empty() && filters.IsEmpty()
      ensures sortBy == old(sortBy) && sortOrder == old(sortOrder)
    {
      filters := Empty();
    }

    /** `handleSort(column)`. */
    method HandleSort(column: SortKey)
      modifies this
      ensures (sortBy, sortOrder) == NextSort(old(sortBy), old(sortOrder), column)
      ensures sortBy == column
      ensures old(sortBy) == column ==> sortOrder != old(sortOrder)
      ensures old(sortBy) != column ==> sortOrder == Desc
      ensures filters == old(filters)
    {
      if sortBy == column {
        sortOrder := if sortOrder == Asc then Desc else Asc;
      } else {
        sortBy := column;
        sortOrder := Desc;
      }
    }

    /** `getSortIcon(column)`: both arrows off the sort column, otherwise the direction's arrow. */
    function GetSortIcon(column: SortKey): (icon: string)
      reads this
      ensures sortBy != column <==> icon == "\U{2195}\U{FE0F}"
      ensures icon == "\U{2191}" <==> sortBy == column && sortOrder == Asc
      ensures icon == "\U{2193}" <==> sortBy == column && sortOrder == Desc
    {
      assert |"\U{2195}\U{FE0F}"| == 2 && |"\U{2191}"| == 1 && |"\U{2193}"| == 1 && "\U{2191}"[0] != "\U{2193}"[0];
      if sortBy != column then "\U{2195}\U{FE0F}"
      else
        match sortOrder
        case Asc => "\U{2191}"
        case Desc => "\U{2193}"
    }
  }
}
