/**
 * The four-step grade entry wizard: 1 student, 2 subject, 3 score,
 * 4 confirmation. The form record is updated one field at a time, each
 * step has a validity predicate that gates moving forward and submitting,
 * and step 2 offers only the subjects the chosen student is enrolled in.
 */
module GradeForm {
  import opened Seqs
  import opened Grades

  /**
   * `GradeFormData`. The ids start as '' and the selects store
   * `Number(value)`; both '' and 0 are falsy, so "not chosen" is 0 here.
   */
  datatype FormData = FormData(student_id: int, subject_id: int, score: real, max_score: real, comments: string)

  /** The record the wizard starts from. */
  function InitialForm(): (d: FormData)
    ensures d.student_id == 0 && d.subject_id == 0 && d.score == 0.0 && d.max_score == 20.0 && d.comments == ""
  {
    FormData(0, 0, 0.0, 20.0, "")
  }

  /** One call of `handleInputChange(field, value)`. */
  datatype FieldUpdate =
    | SetStudent(student: int)
    | SetSubject(subject: int)
    | SetScore(score: real)
    | SetMaxScore(max: real)
    | SetComments(text: string)

  /** `{ ...prev, [field]: value }`: the named field takes the value, the others keep theirs. */
  function Apply(d: FormData, u: FieldUpdate): (r: FormData)
    ensures u.SetStudent? ==> r.student_id == u.student
    ensures u.SetSubject? ==> r.subject_id == u.subject
    ensures u.SetScore? ==> r.score == u.score
    ensures u.SetMaxScore? ==> r.max_score == u.max
    ensures u.SetComments? ==> r.comments == u.text
    ensures !u.SetStudent? ==> r.student_id == d.student_id
    ensures !u.SetSubject? ==> r.subject_id == d.subject_id
    ensures !u.SetScore? ==> r.score == d.score
    ensures !u.SetMaxScore? ==> r.max_score == d.max_score
    ensures !u.SetComments? ==> r.comments == d.comments
  {
    match u
    case SetStudent(v) => d.(student_id := v)
    case SetSubject(v) => d.(subject_id := v)
    case SetScore(v) => d.(score := v)
    case SetMaxScore(v) => d.(max_score := v)
    case SetComments(v) => d.(comments := v)
  }

  /** `validateStep(step)`. */
  function StepValid(step: int, d: FormData): (ok: bool)
    ensures step == 1 ==> (ok <==> d.student_id != 0)
    ensures step == 2 ==> (ok <==> d.subject_id != 0)
    ensures step == 3 ==> (ok <==> 0.0 <= d.score <= d.max_score && d.max_score > 0.0)
    ensures step != 1 && step != 2 && step != 3 ==> ok
  {
    match step
    case 1 => d.student_id != 0
    case 2 => d.subject_id != 0
    case 3 => d.score >= 0.0 && d.score <= d.max_score && d.max_score > 0.0
    case _ => true
  }

  /** A fresh wizard cannot leave step 1; its score step is already acceptable. */
  lemma InitialFormValidity()
    ensures !StepValid(1, InitialForm()) && !StepValid(2, InitialForm())
    ensures StepValid(3, InitialForm()) && StepValid(4, InitialForm())
  {
  }

  /** A valid step 3 describes a grade with a percentage between 0 and 100. */
  lemma ScoreStepGivesPercentage(d: FormData)
    requires StepValid(3, d)
    ensures var g := Grade(0, d.student_id, d.subject_id, d.score, d.max_score, d.comments, 0);
      g.max_score > 0.0 && 0.0 <= Percentage(g) <= 100.0
  {
  }

  /** A field update never affects the validity of a step that does not read that field. */
  lemma UpdateKeepsOtherSteps(d: FormData, u: FieldUpdate, step: int)
    requires step == 1 ==> !u.SetStudent?
    requires step == 2 ==> !u.SetSubject?
    requires step == 3 ==> !u.SetScore? && !u.SetMaxScore?
    ensures StepValid(step, Apply(d, u)) == StepValid(step, d)
  {
  }

  /** The subject ids the student's enrollments name (`enrollments.map(e => e.subject_id)`). */
  function EnrolledIds(enrollments: seq<Enrollment>): (ids: seq<int>)
    ensures |ids| == |enrollments|
    ensures forall i :: 0 <= i < |ids| ==> ids[i] == enrollments[i].subject_id
  {
    seq(|enrollments|, i requires 0 <= i < |enrollments| => enrollments[i].subject_id)
  }

  /** `subjects.filter(s => enrolledSubjectIds.includes(s.id))`. */
  function EnrolledSubjects(subjects: seq<Subject>, enrollments: seq<Enrollment>): (r: seq<Subject>)
    ensures forall k :: 0 <= k < |r| ==>
              r[k] in subjects && exists e :: 0 <= e < |enrollments| && enrollments[e].subject_id == r[k].id
    ensures forall i, e :: 0 <= i < |subjects| && 0 <= e < |enrollments| && enrollments[e].subject_id == subjects[i].id ==>
              subjects[i] in r
  {
    var ids := EnrolledIds(enrollments);
    var r := Filter(subjects, (s: Subject) => s.id in ids);
    forall i, e | 0 <= i < |subjects| && 0 <= e < |enrollments| && enrollments[e].subject_id == subjects[i].id
      ensures subjects[i] in r
    {
      assert ids[e] == subjects[i].id;
    }
    r
  }

  /** The enrolled subjects keep the order of the subject list. */
  lemma EnrolledSubjectsInOrder(subjects: seq<Subject>, enrollments: seq<Enrollment>)
    ensures IsSubsequence(EnrolledSubjects(subjects, enrollments), subjects)
  {
    var ids := EnrolledIds(enrollments);
    FilterIsSubsequence(subjects, (s: Subject) => s.id in ids);
  }

  /** What the create call did: stored the grade, or threw. */
  datatype CreateOutcome = Created | CreateFailed

  /** What the user sees after a submit: nothing, the grades list, or the error alert. */
  datatype SubmitResult = Ignored | NavigatedToGrades | AlertShown

  /** The wizard's state. `created` records the records sent to the create call. */
  class GradeWizard {
    var currentStep: int
    var formData: FormData
    var submitting: bool
    ghost var created: seq<FormData>

    /** The buttons keep the step within the four steps. */
    predicate Valid()
      reads this
    {
      1 <= currentStep <= 4
    }

    constructor ()
      ensures Valid() && currentStep == 1 && formData == InitialForm() && !submitting && created == []
    {
      currentStep := 1;
      formData := InitialForm();
      submitting := false;
      created := [];
    }

    /** `handleInputChange(field, value)`. */
    method HandleInputChange(u: FieldUpdate)
      modifies this
      ensures formData == Apply(old(formData), u)
      ensures currentStep == old(currentStep) && submitting == old(submitting) && created == old(created)
    {
      formData := Apply(formData, u);
    }

    /** `nextStep`: forward by one when the current step is valid, otherwise nothing. */
    method NextStep()
      modifies this
      ensures StepValid(old(currentStep), old(formData)) ==> currentStep == old(currentStep) + 1
      ensures !StepValid(old(currentStep), old(formData)) ==> currentStep == old(currentStep)
      ensures formData == old(formData) && submitting == old(submitting) && created == old(created)
    {
      if StepValid(currentStep, formData) {
        currentStep := currentStep + 1;
      }
    }

    /** `prevStep`: back by one, unguarded; the button guards it. */
    method PrevStep()
      modifies this
      ensures currentStep == old(currentStep) - 1
      ensures formData == old(formData) && submitting == old(submitting) && created == old(created)
    {
      currentStep := currentStep - 1;
    }

    /** The "Anterior" button: disabled on step 1. */
    method PressPrevious()
      requires Valid()
      modifies this
      ensures Valid()
      ensures old(currentStep) == 1 ==> currentStep == 1
      ensures old(currentStep) > 1 ==> currentStep == old(currentStep) - 1
      ensures formData == old(formData) && created == old(created)
    {
      if currentStep != 1 {
        PrevStep();
      }
    }

    /** The "Siguiente" button: shown below step 4 and disabled while the step is invalid. */
    method PressNext()
      requires Valid()
      modifies this
      ensures Valid()
      ensures old(currentStep) < 4 && StepValid(old(currentStep), old(formData)) ==> currentStep == old(currentStep) + 1
      ensures old(currentStep) == 4 || !StepValid(old(currentStep), old(formData)) ==> currentStep == old(currentStep)
      ensures formData == old(formData) && created == old(created)
    {
      if currentStep < 4 && StepValid(currentStep, formData) {
        NextStep();
      }
    }

    /**
     * `handleSubmit`: nothing when the current step is invalid; otherwise the
     * record is sent, and the page moves to the list or shows the alert;
     * `submitting` is false again on both paths.
     */
    method HandleSubmit(outcome: CreateOutcome) returns (result: SubmitResult)
      modifies this
      ensures !StepValid(old(currentStep), old(formData)) ==>
                result == Ignored && created == old(created) && submitting == old(submitting)
      ensures StepValid(old(currentStep), old(formData)) ==>
                created == old(created) + [old(formData)] && !submitting
                && (result == NavigatedToGrades <==> outcome == Created)
                && (result == AlertShown <==> outcome == CreateFailed)
      ensures currentStep == old(currentStep) && formData == old(formData)
    {
      if !StepValid(currentStep, formData) {
        return Ignored;
      }
      submitting := true;
      created := created + [formData];
      if outcome == Created {
        result := NavigatedToGrades;
      } else {
        result := AlertShown;
      }
      submitting := false;
    }
  }
}
