/**
 * The filter record shared by the grades list and the grade history
 * (`GradeFilters`): six optional keys, each absent (`undefined`), a number
 * or a string, merged one key at a time by the filter inputs.
 */
module Filters {
  import opened Seqs

  datatype FilterKey = StudentId | SubjectId | DateFrom | DateTo | ScoreMin | ScoreMax

  /** A filter entry: `undefined` (no constraint), a number, or the raw text of a select. */
  datatype FilterValue = Undefined | Num(n: real) | Text(s: string)

  datatype GradeFilters = GradeFilters(
    student_id: FilterValue, subject_id: FilterValue, date_from: FilterValue,
    date_to: FilterValue, score_min: FilterValue, score_max: FilterValue)
  {
    /** `filters[key]`. */
    function Get(key: FilterKey): FilterValue
    {
      match key
      case StudentId => student_id
      case SubjectId => subject_id
      case DateFrom => date_from
      case DateTo => date_to
      case ScoreMin => score_min
      case ScoreMax => score_max
    }

    /** `{ ...filters, [key]: value }`: the given key now holds `value`, every other key is unchanged. */
    function With(key: FilterKey, value: FilterValue): (r: GradeFilters)
      ensures r.Get(key) == value
      ensures forall k :: k != key ==> r.Get(k) == Get(k)
    {
      match key
      case StudentId => this.(student_id := value)
      case SubjectId => this.(subject_id := value)
      case DateFrom => this.(date_from := value)
      case DateTo => this.(date_to := value)
      case ScoreMin => this.(score_min := value)
      case ScoreMax => this.(score_max := value)
    }

    /** No key constrains the query. */
    predicate IsEmpty()
    {
      forall k :: Get(k) == Undefined
    }
  }

  /** `{}`. */
  function Empty(): (f: GradeFilters)
    ensures f.IsEmpty()
  {
    GradeFilters(Undefined, Undefined, Undefined, Undefined, Undefined, Undefined)
  }

  /** Two filter records that agree on every key are the same record. */
  lemma Extensionality(f: GradeFilters, g: GradeFilters)
    requires forall k :: f.Get(k) == g.Get(k)
    ensures f == g
  {
    assert f.Get(StudentId) == g.Get(StudentId) && f.Get(SubjectId) == g.Get(SubjectId);
    assert f.Get(DateFrom) == g.Get(DateFrom) && f.Get(DateTo) == g.Get(DateTo);
    assert f.Get(ScoreMin) == g.Get(ScoreMin) && f.Get(ScoreMax) == g.Get(ScoreMax);
  }

  /** Setting a key twice keeps only the last value. */
  lemma WithOverwrites(f: GradeFilters, key: FilterKey, v: FilterValue, w: FilterValue)
    ensures f.With(key, v).With(key, w) == f.With(key, w)
  {
    Extensionality(f.With(key, v).With(key, w), f.With(key, w));
  }

  /** Changes to different keys commute. */
  lemma WithCommutes(f: GradeFilters, k1: FilterKey, v1: FilterValue, k2: FilterKey, v2: FilterValue)
    requires k1 != k2
    ensures f.With(k1, v1).With(k2, v2) == f.With(k2, v2).With(k1, v1)
  {
    Extensionality(f.With(k1, v1).With(k2, v2), f.With(k2, v2).With(k1, v1));
  }

  /** Writing back the value a key already holds changes nothing. */
  lemma WithSameValue(f: GradeFilters, key: FilterKey)
    ensures f.With(key, f.Get(key)) == f
  {
    Extensionality(f.With(key, f.Get(key)), f);
  }

  /** The only record with no constraint is `{}`. */
  lemma EmptyIsUnique(f: GradeFilters)
    requires f.IsEmpty()
    ensures f == Empty()
  {
    Extensionality(f, Empty());
  }

  /** `value || undefined` on the text of a select: the empty option means no constraint. */
  function TextOrUndefined(value: string): (v: FilterValue)
    ensures v == Undefined <==> value == ""
    ensures value != "" ==> v == Text(value)
  {
    if value == "" then Undefined else Text(value)
  }

  /**
   * `Number(value) || undefined`: `number` is what `Number` made of the input,
   * None standing for NaN; NaN and 0 are falsy and mean no constraint.
   */
  function NumberOrUndefined(number: Option<real>): (v: FilterValue)
    ensures v == Undefined <==> number.None? || number.value == 0.0
    ensures v != Undefined ==> v == Num(number.value)
  {
    match number
    case None => Undefined
    case Some(x) => if x == 0.0 then Undefined else Num(x)
  }
}
