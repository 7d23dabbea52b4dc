/**
 * The per-subject grades page: which subject the route id selects, how a
 * student is labelled, and (through the shared statistics) the cards, row
 * colours and three-band distribution over the subject's grades.
 */
module SubjectGrades {
  import opened Seqs
  import opened Grades

  /** What the page shows once loading ends: the not-found message, or the subject. */
  datatype SubjectView = NotFound | Found(subject: Subject)

  /**
   * `subjects.find(s => s.id === subjectId) || null`, then `if (!subject)`:
   * the first subject with the id, or the not-found branch when none has it.
   */
  function LoadSubject(subjects: seq<Subject>, id: int): (v: SubjectView)
    ensures v.NotFound? <==> forall i :: 0 <= i < |subjects| ==> subjects[i].id != id
    ensures v.Found? ==> exists i :: 0 <= i < |subjects| && subjects[i] == v.subject && v.subject.id == id
                                && forall j :: 0 <= j < i ==> subjects[j].id != id
  {
    match FindSubject(subjects, id)
    case None => NotFound
    case Some(s) => Found(s)
  }

  /** The decimal digits of a natural number, most significant first, without leading zeros. */
  function NatToString(n: nat): (s: string)
    ensures |s| >= 1
    ensures forall i :: 0 <= i < |s| ==> '0' <= s[i] <= '9'
    ensures |s| > 1 ==> s[0] != '0'
    decreases n
  {
    if n < 10 then [Digit(n)] else NatToString(n / 10) + [Digit(n % 10)]
  }

  function Digit(d: nat): (c: char)
    requires d < 10
    ensures '0' <= c <= '9'
  {
    ['0', '1', '2', '3', '4', '5', '6', '7', '8', '9'][d]
  }

  /** The number a string of decimal digits denotes. */
  function DecimalValue(s: string): nat
    requires forall i :: 0 <= i < |s| ==> '0' <= s[i] <= '9'
  {
    if s == [] then 0 else 10 * DecimalValue(s[..|s| - 1]) + ((s[|s| - 1] as int) - ('0' as int))
  }

  /** Reading back the digits gives the number. */
  lemma {:induction false} NatToStringRoundTrip(n: nat)
    ensures DecimalValue(NatToString(n)) == n
    decreases n
  {
    var s := NatToString(n);
    if n >= 10 {
      NatToStringRoundTrip(n / 10);
      assert s[..|s| - 1] == NatToString(n / 10);
    }
    assert (Digit(n % 10) as int) - ('0' as int) == n % 10;
  }

  /** JavaScript's `${n}` for an integer: an optional minus sign, then the digits. */
  function IntToString(n: int): (s: string)
    ensures n >= 0 ==> (forall i :: 0 <= i < |s| ==> '0' <= s[i] <= '9') && DecimalValue(s) == n
    ensures n < 0 ==> |s| >= 2 && s[0] == '-' && (forall i :: 1 <= i < |s| ==> '0' <= s[i] <= '9')
                      && DecimalValue(s[1..]) == -n
  {
    if n < 0 then
      NatToStringRoundTrip(-n);
      var s := "-" + NatToString(-n);
      assert s[1..] == NatToString(-n);
      s
    else
      NatToStringRoundTrip(n);
      NatToString(n)
  }

  /** Different integers print differently. */
  lemma IntToStringInjective(a: int, b: int)
    requires IntToString(a) == IntToString(b)
    ensures a == b
  {
  }

  /** `getStudentName`: the page shows `ID: n` and never looks the student up. */
  function StudentLabel(studentId: int): (s: string)
    ensures |s| > 4 && s[..4] == "ID: " && s[4..] == IntToString(studentId)
  {
    "ID: " + IntToString(studentId)
  }

  /** Different students get different labels. */
  lemma StudentLabelInjective(a: int, b: int)
    requires StudentLabel(a) == StudentLabel(b)
    ensures a == b
  {
    assert StudentLabel(a)[4..] == StudentLabel(b)[4..];
    IntToStringInjective(a, b);
  }
}
