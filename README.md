# MineTech grades dashboard: a Dafny model of its in-browser logic

MineTech is a React front end for a school grades service. The service
returns students, subjects, grades and enrollments over REST. The pages
compute everything else in the browser, and that is what this project
models:

- a grade's percentage;
- overall statistics: count, mean, best and worst;
- the five-band distribution (overview pages) and the three-band,
  colour-named distribution (per-student and per-subject pages);
- per-student and per-subject reports, ranked by mean;
- the dashboard's top-five rankings;
- the grade history's multi-column sort with its ascending/descending toggle;
- the filter records of the list pages;
- the four-step grade entry wizard;
- the API-key checks of the login form;
- the category and search filters of the two catalogue pages.

Percentages are real numbers. Every grade has a positive `max_score`
(`Grades.ValidGrade`): no page guards the division, and the entry form
refuses a non-positive maximum. The data the pages fetch is given to the
model as sequences. The remote login and the create-grade call are
parameters whose answer the caller chooses.

Modules, one per file:

| module | file | what it holds |
|---|---|---|
| `Seqs` | seqs.dfy | `filter`, `find` and `slice(0, n)` on sequences; `Option` |
| `Sorting` | sorting.dfy | a stable insertion sort standing for `Array.prototype.sort`, with sortedness and permutation proofs |
| `Grades` | grades.dfy | the records, the percentage, id look-ups, and the name order |
| `Analytics` | analytics.dfy | sum, mean, best and worst percentage, stat cards, colour and band classification, distributions |
| `Reports` | reports.dfy | the reports page |
| `Dashboard` | dashboard.dfy | the dashboard page |
| `SubjectGrades` | subject_grades.dfy | the per-subject page |
| `StudentGrades` | student_grades.dfy | the per-student page |
| `Filters` | filters.dfy | the `GradeFilters` record shared by the two list pages |
| `GradeHistory` | grade_history.dfy | the grade history page; its state is the class `GradeHistoryView` |
| `GradesList` | grades_list.dfy | the grades list page; its state is the class `GradesListView` |
| `GradeForm` | grade_form.dfy | the grade entry wizard; its state is the class `GradeWizard` |
| `Login` | login.dfy | the login form; its state is the class `LoginForm` |
| `Catalogue` | catalogue.dfy | lower-casing, substring search and the colour lookup of the catalogue pages |
| `Resources` | resources.dfy | the educational resources page |
| `Technologies` | technologies.dfy | the technologies page |

How the pages' own forms are kept:

- Where a page builds a list step by step (`forEach` plus `push` in the
  reports page), the model is a method with a loop. The loop's invariant
  ties what has been built to a recursive function.
- Where a page updates React state (filters, sort column and direction,
  wizard step and form record, login error and loading flag), the model is
  a class whose methods assign its fields.
- Everything else is a function.

## Model

| member | source | states |
|---|---|---|
| Grades.Percentage | src/pages/Reports.tsx:40 | the percentage times the maximum is the score times 100; it lies in 0..100 when 0 <= score <= max; it is 0 exactly when the score is 0 |
| Grades.GradesOfStudent | src/pages/Reports.tsx:73 | every kept grade has that `student_id`, and every grade with it is kept |
| Grades.GradesOfSubject | src/pages/Reports.tsx:92 | every kept grade has that `subject_id`, and every grade with it is kept |
| Grades.FindStudent | src/pages/GradeHistory.tsx:53 | None exactly when no student has the id; otherwise the student at the first index with that id |
| Grades.FindSubject | src/pages/SubjectGrades.tsx:26 | None exactly when no subject has the id; otherwise the subject at the first index with that id |
| Grades.StudentNameOr | src/pages/GradeHistory.tsx:52-55 | the fallback when no student has the id; otherwise the full name of the first student with that id |
| Grades.SubjectNameOr | src/pages/GradeHistory.tsx:57-60 | the fallback when no subject has the id; otherwise the name of the first subject with that id |
| Grades.FullName | src/pages/GradeHistory.tsx:54 | first name, a space, last name (a template literal; no contract of its own) |
| Grades.NameLeTotal | src/pages/GradeHistory.tsx:77 | any two names are ordered one way or the other |
| Grades.NameLeTransitive | src/pages/GradeHistory.tsx:77 | the name order is transitive |
| Grades.NameLeAntisymmetric | src/pages/GradeHistory.tsx:77 | names ordered both ways are equal |
| Seqs.Find | src/pages/SubjectGrades.tsx:26 | None exactly when no element satisfies the predicate; otherwise the first element of the corresponding filter |
| Seqs.FindIsFirst | src/pages/SubjectGrades.tsx:26 | `find` returns the element at the first index that satisfies the predicate |
| Seqs.Filter | src/pages/Reports.tsx:73 | `filter`: no longer than the input; every kept element is in the input and satisfies the predicate; every element that satisfies it is kept |
| Seqs.Take | src/pages/Reports.tsx:216 | `slice(0, n)`: min(n, length) elements, each equal to the input's element at the same index |
| Seqs.FilterIsSubsequence | src/pages/Resources.tsx:182 | a filter keeps the order of what it keeps |
| Seqs.FilterMap | src/pages/Reports.tsx:72-83 | the values pushed by a `forEach` that pushes when an element has a value (stated by FilterMapSound and FilterMapCovers) |
| Seqs.FilterMapSound | src/pages/Reports.tsx:72-83 | a `forEach` that pushes some elements' values pushes no more values than elements, each the value of some element |
| Seqs.FilterMapCovers | src/pages/Reports.tsx:72-83 | every element that has a value gets it pushed |
| Sorting.Sort | src/pages/Reports.tsx:85 | the result is a permutation of the input (same multiset, same length) |
| Sorting.SortSorted | src/pages/Reports.tsx:85 | for a total, transitive comparator the result is ordered |
| Analytics.SumPct | src/pages/SubjectGrades.tsx:44 | the `reduce` sum of the percentages (bounded by SumAtLeast and SumAtMost, unchanged by sorting through SumSort) |
| Analytics.MeanPct | src/pages/SubjectGrades.tsx:42-46 | the mean percentage is 0 for no grades |
| Analytics.MeanTimesCount | src/pages/Reports.tsx:42 | for a non-empty list, the mean times the count is the sum of the percentages |
| Analytics.MaxPct | src/pages/SubjectGrades.tsx:116 | `Math.max` of the percentages: at least every percentage, and attained |
| Analytics.MinPct | src/pages/SubjectGrades.tsx:125 | `Math.min` of the percentages: at most every percentage, and attained |
| Analytics.MeanBetween | src/pages/StudentGrades.tsx:44-48 | a non-empty list's mean lies between its worst and best percentage |
| Analytics.MeanOfZeroScores | src/pages/Dashboard.tsx:60-64 | grades whose scores are all 0 have mean 0 |
| Analytics.CardStats | src/pages/SubjectGrades.tsx:102-129 | count = length; no grades gives mean 0 and best/worst N/A; otherwise mean = `MeanPct`, worst <= mean <= best, and every percentage lies between worst and best (the same cards appear in src/pages/StudentGrades.tsx:100-128) |
| Analytics.CardStatsSort | src/pages/GradeHistory.tsx:203-235 | the cards of a sorted list equal the cards of the list |
| Analytics.GradeColor | src/pages/SubjectGrades.tsx:48-52 | green iff p >= 80, yellow iff 60 <= p < 80, red iff p < 60 (the per-student and history pages use the same thresholds) |
| Analytics.BandOf | src/pages/Reports.tsx:49-67 | each of the five bands (>= 90, [80, 90), [70, 80), [60, 70), < 60) holds exactly its range, so every percentage is in exactly one |
| Analytics.IsExcellent | src/pages/Reports.tsx:51 | the `>= 90` band filter |
| Analytics.IsGood | src/pages/Reports.tsx:52-55 | the `[80, 90)` band filter |
| Analytics.IsFair | src/pages/Reports.tsx:56-59 | the `[70, 80)` band filter |
| Analytics.IsBelow | src/pages/Reports.tsx:60-63 | the `[60, 70)` band filter |
| Analytics.IsFailing | src/pages/Reports.tsx:64 | the `< 60` band filter |
| Analytics.FiveBandsDisjoint | src/pages/Reports.tsx:51-64 | a grade passes exactly one of the five band filters, the one of its band |
| Analytics.FiveBucketDistribution | src/pages/Reports.tsx:49-67 | `getGradeDistribution` (and the dashboard's `gradeDistribution`): one count per band filter, which FiveBucketsPartition proves sum to the number of grades |
| Analytics.FiveBucketsPartition | src/pages/Dashboard.tsx:80-95 | the five counts sum to the number of grades (the same counts as src/pages/Reports.tsx:49-67) |
| Analytics.IsRed | src/pages/SubjectGrades.tsx:222 | the `< 60` band, shown in red |
| Analytics.IsYellow | src/pages/SubjectGrades.tsx:228-231 | the `[60, 80)` band, shown in yellow |
| Analytics.IsGreen | src/pages/SubjectGrades.tsx:237 | the `>= 80` band, shown in green |
| Analytics.ThreeBucketDistribution | src/pages/SubjectGrades.tsx:221-238 | the red, yellow and green counts of the per-subject and per-student pages |
| Analytics.ThreeBucketsPartition | src/pages/SubjectGrades.tsx:222-237 | the three counts (< 60, [60, 80), >= 80) sum to the number of grades (also on the per-student page) |
| Analytics.ThreeBucketsByColor | src/pages/SubjectGrades.tsx:221-238 | each band's count is the number of grades shown in that band's colour |
| Reports.CalculateOverallStats | src/pages/Reports.tsx:37-47 | no grades gives all zeros; otherwise total = count, average = the mean, lowest <= average <= highest, every percentage lies between lowest and highest, and both are attained |
| Reports.SubjectIdsOf | src/pages/Reports.tsx:80 | `new Set(grades.map(g => g.subject_id))` (its size bounded by SubjectIdsBound) |
| Reports.StudentIdsOf | src/pages/Reports.tsx:103 | `new Set(grades.map(g => g.student_id))` (its size bounded by StudentIdsBound) |
| Reports.SubjectIdsBound | src/pages/Reports.tsx:80 | the number of distinct subject ids of a non-empty list is between 1 and its length |
| Reports.StudentIdsBound | src/pages/Reports.tsx:103 | the number of distinct student ids of a non-empty list is between 1 and its length |
| Reports.StudentReportOf | src/pages/Reports.tsx:73-82 | the report pushed for one student, none without grades (stated by StudentReportOfSound) |
| Reports.BuildStudentReports | src/pages/Reports.tsx:72-83 | the reports in visiting order, before the sort (stated by BuildStudentReportsSound and BuildStudentReportsCovers) |
| Reports.HigherStudent | src/pages/Reports.tsx:85 | the comparator `b.average_score - a.average_score` read as "a may precede b" |
| Reports.StudentReportOfSound | src/pages/Reports.tsx:73-82 | a student gets a report exactly when it has grades, and the report carries its grades, their mean and their distinct-subject count |
| Reports.StudentReportBounds | src/pages/Reports.tsx:73-82 | a pushed student report counts at least one and at most as many distinct subjects as it has grades |
| Reports.BuildStudentReportsSound | src/pages/Reports.tsx:72-83 | every pushed report is for a listed student and carries that student's grades in input order, their mean and their distinct-subject count |
| Reports.BuildStudentReportsCovers | src/pages/Reports.tsx:72-83 | every listed student with at least one grade gets a report |
| Reports.StudentReportsWellFormed | src/pages/Reports.tsx:72-85 | after sorting, every report is still well formed, with 1 <= total_subjects <= number of its grades |
| Reports.StudentReportsComplete | src/pages/Reports.tsx:72-85 | after sorting, every student with at least one grade still has a report |
| Reports.GenerateStudentReports | src/pages/Reports.tsx:69-86 | the returned list is the sorted list of pushed reports: non-increasing by average, well formed, covering every student with grades, no longer than the student list |
| Reports.TopStudents | src/pages/Reports.tsx:216 | at most five reports, a prefix of the list; on a sorted list, none of the rest has a higher average |
| Reports.SubjectReportOf | src/pages/Reports.tsx:92-107 | the report pushed for one subject, none without grades (stated by SubjectReportOfSound) |
| Reports.BuildSubjectReports | src/pages/Reports.tsx:91-108 | the reports in visiting order, before the sort (stated by BuildSubjectReportsSound and BuildSubjectReportsCovers) |
| Reports.HigherSubject | src/pages/Reports.tsx:110 | the comparator `b.average_score - a.average_score` read as "a may precede b" |
| Reports.SubjectReportOfSound | src/pages/Reports.tsx:92-107 | a subject gets a report exactly when it has grades, and the report carries its grades, their mean, best, worst and distinct-student count |
| Reports.SubjectReportOfHasSubject | src/pages/Reports.tsx:92-107 | a subject with at least one grade gets a report, and the report names that subject |
| Reports.BuildSubjectReportsStep | src/pages/Reports.tsx:91-108 | visiting one more subject appends its report when it has one and nothing otherwise |
| Reports.SubjectReportBounds | src/pages/Reports.tsx:92-107 | a pushed subject report has lowest <= average <= highest and counts between one and as many distinct students as it has grades |
| Reports.BuildSubjectReportsSound | src/pages/Reports.tsx:91-108 | every pushed report is for a listed subject and carries that subject's grades, their mean, best, worst and distinct-student count |
| Reports.BuildSubjectReportsCovers | src/pages/Reports.tsx:91-108 | every listed subject with at least one grade gets a report |
| Reports.BuildSubjectReportsCoversOne | src/pages/Reports.tsx:91-108 | one listed subject with at least one grade has a report among the pushed ones |
| Reports.SortedSubjectReportSound | src/pages/Reports.tsx:91-110 | any report in the sorted list is for a listed subject, is built from its grades and has lowest <= average <= highest |
| Reports.SubjectReportsWellFormed | src/pages/Reports.tsx:91-110 | after sorting, each report has lowest <= average <= highest and 1 <= total_students <= number of its grades |
| Reports.SubjectReportsComplete | src/pages/Reports.tsx:91-110 | after sorting, every subject with at least one grade still has a report |
| Reports.GenerateSubjectReports | src/pages/Reports.tsx:88-111 | the returned list is the sorted list of pushed reports: non-increasing by average, well formed with lowest <= average <= highest, covering every subject with grades |
| Dashboard.StudentAverages | src/pages/Dashboard.tsx:58-63 | one entry per student, in order, paired with that student and carrying the mean of that student's grades (0 with none) |
| Dashboard.SubjectAverages | src/pages/Dashboard.tsx:69-74 | one entry per subject, in order, paired with that subject and carrying the mean of that subject's grades (0 with none) |
| Dashboard.Positive | src/pages/Dashboard.tsx:64 | the `s.average > 0` filter |
| Dashboard.Higher | src/pages/Dashboard.tsx:65 | the comparator `b.average - a.average` read as "a may precede b" |
| Dashboard.TopFive | src/pages/Dashboard.tsx:64-66 | filter, sort, `slice(0, 5)` (stated by TopFiveSpec and TopFiveBest) |
| Dashboard.HigherIsOrder | src/pages/Dashboard.tsx:65 | the comparator `b.average - a.average` is total and transitive |
| Dashboard.TopFiveSpec | src/pages/Dashboard.tsx:64-66 | at most five entries, each with a positive average and taken from the input, best first; exactly min(5, number of positive entries) of them |
| Dashboard.TopFiveBest | src/pages/Dashboard.tsx:64-66 | no positive entry left out of the ranking has a higher average than an entry shown |
| Dashboard.CalculateStats | src/pages/Dashboard.tsx:49-106 | totals are the three lengths; the average is 0 for no grades and the mean otherwise; the distribution sums to the number of grades; both rankings have at most five entries |
| Dashboard.AverageGradeBetween | src/pages/Dashboard.tsx:54-56 | the average lies between the worst and the best grade |
| Dashboard.TopStudentsSpec | src/pages/Dashboard.tsx:58-66 | every ranked student is listed, has a positive average equal to the mean of its own grades, and the ranking is non-increasing |
| Dashboard.TopSubjectsSpec | src/pages/Dashboard.tsx:69-77 | the same for subjects |
| Dashboard.ZeroStudentNotRanked | src/pages/Dashboard.tsx:60-64 | a student with no grades, or with all scores 0, is never ranked |
| Dashboard.ZeroSubjectNotRanked | src/pages/Dashboard.tsx:71-75 | a subject with no grades, or with all scores 0, is never ranked |
| Dashboard.TopStudentsAreBest | src/pages/Dashboard.tsx:64-66 | a student with a positive mean is either ranked or outranked by every ranked student |
| SubjectGrades.LoadSubject | src/pages/SubjectGrades.tsx:26-27 | not found exactly when no subject has the id; otherwise the first subject with that id |
| SubjectGrades.NatToString | src/pages/SubjectGrades.tsx:55 | only decimal digits, at least one, and no leading zero |
| SubjectGrades.NatToStringRoundTrip | src/pages/SubjectGrades.tsx:55 | reading the digits back gives the number |
| SubjectGrades.IntToString | src/pages/SubjectGrades.tsx:55 | digits of the value for n >= 0; a minus sign and the digits of -n otherwise |
| SubjectGrades.IntToStringInjective | src/pages/SubjectGrades.tsx:55 | different integers print differently |
| SubjectGrades.StudentLabel | src/pages/SubjectGrades.tsx:54-56 | `ID: ` followed by the printed id |
| SubjectGrades.StudentLabelInjective | src/pages/SubjectGrades.tsx:54-56 | different ids get different labels |
| StudentGrades.SubjectName | src/pages/StudentGrades.tsx:39-42 | 'N/A' when no subject has the id; otherwise the name of the first subject with that id |
| Filters.GradeFilters.With | src/pages/GradeHistory.tsx:41-46 | the key holds the new value and every other key is unchanged |
| Filters.Empty | src/pages/GradeHistory.tsx:48-50 | the empty record constrains no key |
| Filters.Extensionality | src/types/index.ts:46-53 | two records that agree on every key are equal |
| Filters.WithOverwrites | src/pages/GradesList.tsx:39-44 | setting a key twice keeps the last value |
| Filters.WithCommutes | src/pages/GradesList.tsx:39-44 | updates to different keys commute |
| Filters.WithSameValue | src/pages/GradesList.tsx:39-44 | writing back a key's own value changes nothing |
| Filters.EmptyIsUnique | src/pages/GradesList.tsx:46-48 | a record with no constraint is `{}` |
| Filters.TextOrUndefined | src/pages/GradeHistory.tsx:142 | the empty option gives `undefined`; any other text is stored as text |
| Filters.NumberOrUndefined | src/pages/GradesList.tsx:138 | NaN and 0 give `undefined`; any other number is stored |
| GradeHistory.StudentName | src/pages/GradeHistory.tsx:52-55 | the full name of the first student with the id, or 'No encontrado' |
| GradeHistory.SubjectName | src/pages/GradeHistory.tsx:57-60 | the name of the first subject with the id, or 'No encontrado' |
| GradeHistory.NameCompare | src/pages/GradeHistory.tsx:77 | not positive exactly when the names are in order; zero exactly when they are equal |
| GradeHistory.NameCompareFlips | src/pages/GradeHistory.tsx:77 | swapping the names negates the comparison |
| GradeHistory.Comparison | src/pages/GradeHistory.tsx:70-87 | the `switch` value per column: date difference, name comparison or percentage difference |
| GradeHistory.Before | src/pages/GradeHistory.tsx:89 | the comparator, negated for `desc`, read as "a may precede b" (not positive) |
| GradeHistory.InOrder | src/pages/GradeHistory.tsx:70-89 | the intended order of each column and direction, stated on the column's values |
| GradeHistory.BeforeMeansInOrder | src/pages/GradeHistory.tsx:69-90 | the comparator, with the sign flipped for `desc`, puts a before b exactly when the chosen column's values are in order (date, student name, subject name or percentage) |
| GradeHistory.BeforeIsOrder | src/pages/GradeHistory.tsx:69-90 | for every column and direction the comparator is total and transitive |
| GradeHistory.SortGrades | src/pages/GradeHistory.tsx:68-69 | a sorted copy: same multiset and length as the input |
| GradeHistory.SortGradesOrdered | src/pages/GradeHistory.tsx:70-90 | `asc` gives a non-decreasing and `desc` a non-increasing list in the chosen column |
| GradeHistory.SummaryOfSorted | src/pages/GradeHistory.tsx:212-234 | the summary cards over the sorted history equal those over the history |
| GradeHistory.NextSort | src/pages/GradeHistory.tsx:93-100 | the clicked column becomes the sort column; the same column flips the direction; another column starts descending |
| GradeHistory.NextSortTwice | src/pages/GradeHistory.tsx:93-100 | clicking the same column twice restores the sort |
| GradeHistory.GradeHistoryView.constructor | src/pages/GradeHistory.tsx:14-16 | no filters, sorted by date, descending |
| GradeHistory.GradeHistoryView.HandleFilterChange | src/pages/GradeHistory.tsx:41-46 | only the given key of the filters changes; the sort is unchanged |
| GradeHistory.GradeHistoryView.ClearFilters | src/pages/GradeHistory.tsx:48-50 | the filters become `{}`; the sort is unchanged |
| GradeHistory.GradeHistoryView.HandleSort | src/pages/GradeHistory.tsx:93-100 | the new sort state is `NextSort` of the old one; the filters are unchanged |
| GradeHistory.GradeHistoryView.GetSortIcon | src/pages/GradeHistory.tsx:102-105 | the up-down arrow exactly for a column that is not the sort column; otherwise up for `asc` and down for `desc` |
| GradesList.StudentName | src/pages/GradesList.tsx:50-53 | the full name of the first student with the id, or 'N/A' |
| GradesList.SubjectName | src/pages/GradesList.tsx:55-58 | never empty; 'N/A' when no subject has the id; the first matching subject's name when it is not empty; anything other than 'N/A' is the name of the first subject with the id |
| GradesList.SubjectNameAgrees | src/pages/GradesList.tsx:55-58 | where the first matching subject has a non-empty name, this page shows what the other pages show |
| GradesList.SubjectNameEmptyName | src/pages/GradesList.tsx:57 | a found subject with an empty name shows 'N/A' here, where the other pages show '' |
| GradesList.CalculatePercentage | src/pages/GradesList.tsx:60-62 | the percentage times the maximum is the score times 100; in 0..100 for 0 <= score <= max |
| GradesList.RowPercentage | src/pages/GradesList.tsx:213 | a row's percentage is the grade's percentage |
| GradesList.StudentSelectValue | src/pages/GradesList.tsx:97 | `undefined` exactly for the empty option or id 0; otherwise the id as a number |
| GradesList.GradesListView.constructor | src/pages/GradesList.tsx:14 | no filters |
| GradesList.GradesListView.HandleFilterChange | src/pages/GradesList.tsx:39-44 | only the given key of the filters changes |
| GradesList.GradesListView.ClearFilters | src/pages/GradesList.tsx:46-48 | the filters become `{}` |
| GradeForm.InitialForm | src/pages/GradeForm.tsx:17-23 | no student, no subject, score 0, max 20, no comments |
| GradeForm.Apply | src/pages/GradeForm.tsx:63-68 | the named field takes the value and the other four keep theirs |
| GradeForm.StepValid | src/pages/GradeForm.tsx:70-81 | step 1 iff a student is chosen; step 2 iff a subject is chosen; step 3 iff 0 <= score <= max and max > 0; any other step is valid |
| GradeForm.InitialFormValidity | src/pages/GradeForm.tsx:17-23 | a fresh form fails steps 1 and 2 and passes steps 3 and 4 |
| GradeForm.ScoreStepGivesPercentage | src/pages/GradeForm.tsx:77 | a form that passes step 3 describes a grade with a percentage in 0..100 |
| GradeForm.UpdateKeepsOtherSteps | src/pages/GradeForm.tsx:63-81 | updating a field never changes the validity of a step that does not read it |
| GradeForm.EnrolledIds | src/pages/GradeForm.tsx:55 | the enrollments' subject ids, in order |
| GradeForm.EnrolledSubjects | src/pages/GradeForm.tsx:55-56 | exactly the listed subjects whose id some enrollment names |
| GradeForm.EnrolledSubjectsInOrder | src/pages/GradeForm.tsx:56 | the enrolled subjects keep the subject list's order |
| GradeForm.GradeWizard.constructor | src/pages/GradeForm.tsx:11-23 | step 1, the initial form, not submitting, nothing sent |
| GradeForm.GradeWizard.HandleInputChange | src/pages/GradeForm.tsx:63-68 | the form becomes `Apply` of the old form; nothing else changes |
| GradeForm.GradeWizard.NextStep | src/pages/GradeForm.tsx:83-87 | one step forward when the current step is valid, otherwise no change |
| GradeForm.GradeWizard.PrevStep | src/pages/GradeForm.tsx:89-91 | one step back, unguarded |
| GradeForm.GradeWizard.PressPrevious | src/pages/GradeForm.tsx:303-306 | disabled at step 1; keeps the step within 1..4 |
| GradeForm.GradeWizard.PressNext | src/pages/GradeForm.tsx:310-314 | offered below step 4 and only for a valid step; keeps the step within 1..4 |
| GradeForm.GradeWizard.HandleSubmit | src/pages/GradeForm.tsx:93-106 | nothing happens for an invalid step; otherwise the form is sent once, the result is navigation on success or the alert on failure, and `submitting` ends false |
| Login.TrimStart | src/pages/Login.tsx:23 | removes exactly the leading JavaScript whitespace |
| Login.TrimEnd | src/pages/Login.tsx:23 | removes exactly the trailing JavaScript whitespace |
| Login.Trim | src/pages/Login.tsx:23 | `trim()`: no longer than the key, and neither starting nor ending with whitespace |
| Login.TrimEmptyIffBlank | src/pages/Login.tsx:23 | `trim()` gives '' exactly when every character is whitespace |
| Login.Utf16Length | src/pages/Login.tsx:29 | the UTF-16 length lies between the number of characters and twice it |
| Login.Validate | src/pages/Login.tsx:23-33 | 'required' exactly for a blank key; 'too short' exactly for a non-blank key under 8 code units; no error otherwise |
| Login.ValidKeyShape | src/pages/Login.tsx:23-33 | a key that passes has at least 8 code units and a non-whitespace character |
| Login.RedirectTarget | src/pages/Login.tsx:16 | '/dashboard' when the origin path is absent or empty; the origin path otherwise; never empty |
| Login.LoginForm.constructor | src/pages/Login.tsx:8-10 | empty key, no error, not loading, no login attempted |
| Login.LoginForm.SetApiKey | src/pages/Login.tsx:67 | only the key changes |
| Login.LoginForm.HandleSubmit | src/pages/Login.tsx:18-47 | a failed check shows its message and does not call the login; otherwise the login is called once with the key, and success navigates to the redirect target with no error, false shows 'API Key inválida', and an exception shows 'Error al iniciar sesión'; loading ends false on every path |
| Catalogue.LowerChar | src/pages/Resources.tsx:184 | capitals map to their lower case (code + 32); other characters are unchanged |
| Catalogue.ToLower | src/pages/Resources.tsx:184 | same length, each character lowered |
| Catalogue.ToLowerIdempotent | src/pages/Resources.tsx:184-186 | lowering twice is lowering once |
| Catalogue.ContainsEmptyAndSelf | src/pages/Resources.tsx:184 | every string contains '' and itself |
| Catalogue.Contains | src/pages/Resources.tsx:184 | `includes`: the term is a prefix of some suffix (stated by ContainsAt) |
| Catalogue.ContainsAt | src/pages/Resources.tsx:184 | `includes` holds exactly when the term starts at some index |
| Catalogue.ContainsShorter | src/pages/Resources.tsx:184 | what a string contains is no longer than it |
| Catalogue.ClassesFor | src/pages/Resources.tsx:202 | the mapped classes for a colour with a non-empty entry; the gray classes otherwise |
| Resources.MatchesCategory | src/pages/Resources.tsx:183 | 'all' or the resource's category |
| Resources.MatchesSearch | src/pages/Resources.tsx:184-186 | the lowered term occurs in the lowered title, description or some tag |
| Resources.Shown | src/pages/Resources.tsx:187 | both conditions |
| Resources.FilteredResources | src/pages/Resources.tsx:182-188 | every result is a resource of the selected category (unless 'all') that matches the search; every such resource is a result |
| Resources.FilteredInOrder | src/pages/Resources.tsx:182-188 | the results keep the catalogue's order |
| Resources.NoFilterShowsAll | src/pages/Resources.tsx:182-188 | 'all' with an empty search shows the whole catalogue |
| Resources.SearchIgnoresTermCase | src/pages/Resources.tsx:184-186 | searching for the lowered term matches the same resources |
| Resources.ColorClasses | src/pages/Resources.tsx:190-203 | a mapped colour gets its classes; any other colour gets gray |
| Resources.ColorClassesKnown | src/pages/Resources.tsx:191-201 | the mapped colours are exactly the nine listed, yellow among them; gray falls back |
| Resources.CountOfType | src/pages/Resources.tsx:334 | a count never exceeds the catalogue |
| Resources.CountOfTypeIsMultiplicity | src/pages/Resources.tsx:334-347 | each count is the number of entries of exactly that type |
| Resources.FourCountsBound | src/pages/Resources.tsx:334-347 | the four counters together never exceed the catalogue |
| Technologies.FilteredTechnologies | src/pages/Technologies.tsx:188-190 | 'all' gives the list unchanged; any other category gives exactly the technologies of that category |
| Technologies.FilteredInOrder | src/pages/Technologies.tsx:188-190 | the result keeps the list's order |
| Technologies.UnknownCategoryIsEmpty | src/pages/Technologies.tsx:284 | a category no technology has gives the empty list |
| Technologies.ColorClasses | src/pages/Technologies.tsx:192-204 | a mapped colour gets its classes; any other colour gets gray |
| Technologies.YellowIsGray | src/pages/Technologies.tsx:193-202 | this page has no yellow entry, so yellow falls back to gray |

## Left out

- HTTP and loading. The axios client and every `load…` function are left
  out; their results are the sequences the model is given. This includes
  server-side filtering (`gradesApi.getAll(filters)`), so the filter
  record is modelled but the query it drives is not. The loading flags of
  the data pages are left out too.
- Authentication plumbing. The context's `localStorage` handling and API-key
  validation are not part of this model. The login is a parameter that
  answers accepted, rejected or threw. The page's own `catch`
  (src/pages/Login.tsx:42-43) is modelled, but src/context/AuthContext.tsx:54-56
  already catches every exception and resolves false. So, as the
  application is wired, the reply is never `Threw`, and the message
  'Error al iniciar sesión' is never shown.
- Static pages, routing, JSX markup and Tailwind class choices, apart from
  the colour and icon functions listed above.
- `toFixed(1)` formatting. Averages, best and worst values are the exact
  real numbers. On the reports page the non-empty averages are strings in
  the source.
- Floating point. NaN, Infinity and rounding are not modelled, and neither is
  the argument limit of `Math.max(...)` / `Math.min(...)`. A `max_score` of
  0 is excluded by the grade type.
- Grades.NameLe: `localeCompare` is replaced by lexicographic order on
  character codes, a total order. The locale's collation is not modelled.
- Dates are integer timestamps. `new Date(...)` parsing and
  `toLocaleDateString` are left out.
- GradeHistory.Comparison: the history page sorts by `created_at`
  (src/pages/GradeHistory.tsx:74). The `Grade` type declares only `date`
  (src/types/index.ts:29). The model assumes every grade carries a valid
  creation timestamp and sorts by it. If the server did not send
  `created_at`, the source's date difference would be NaN, which the sort
  treats as 0. The date column would then keep the fetched order; the model
  does not capture that case.
- Catalogue.LowerChar: only A-Z and the Latin-1 capitals are lowered. Other
  scripts' case mappings, and characters whose lower case has a different
  length, are not modelled.
- Catalogue.ClassesFor: JavaScript's `colorMap[color]` also finds inherited
  object members (for example `toString`). The model looks up only the
  map's own entries. The pages only pass the listed colours.
- Sorting.Sort: ties are left in input order, as in JavaScript's
  `Array.prototype.sort`, which is stable since ES2019. Ties matter in
  several places:
  - equal averages decide which entries survive `slice(0, 5)`
    (src/pages/Reports.tsx:85 and 110, src/pages/Dashboard.tsx:65 and 76);
  - equal keys keep their fetched order in the history
    (src/pages/GradeHistory.tsx:69).

  The model agrees with the source on ties only because both sorts are
  stable. No contract here states stability.
- Navigation and alerts are outcome values (`navigatedTo`,
  `NavigatedToGrades`, `AlertShown`), not side effects. The wizard's
  `submitting` flag is true only while the create call runs, which a
  sequential model cannot observe; the model proves that it ends false.
- Loading the enrolled subjects fires when `student_id` changes. The model
  gives the filter as a function of the student's enrollments; the effect
  that triggers it is not modelled.
- GradeForm.FormData: the form's student and subject ids start as '' in the
  source and the selects store `Number(value)`. Both '' and 0 are falsy,
  so the model writes "not chosen" as 0 and does not keep the string.
- Unused fields (email, phone, dates, photo key, description, location,
  links, icons) are left out of the records.
- The catalogues' hard-coded entries are not reproduced. The filters, colour
  lookups and counts are proved for any list.
