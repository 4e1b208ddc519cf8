/**
 * The plain catalog page: per course, how many chapters are completed out of
 * how many, the unguarded completion percentage, and the start button's label.
 */
module CourseList {
  import opened ProgressKeys
  import opened Progress
  import opened Percent

  const ContinueText: string := "继续学习"
  const StartText: string := "开始学习"

  datatype Tally = Tally(completed: nat, total: nat)

  /** `getCourseProgress(course)`: chapters counted, and those completed among them. */
  function CourseProgress(m: ProgressMap, course: Course): (t: Tally)
    requires course.chapters.Some?
    ensures t.total == |course.chapters.value| && t.completed <= t.total
    ensures t.completed == t.total
        <==> forall i :: 0 <= i < t.total ==> IsCompleted(m, CourseKey(course.id, course.chapters.value[i].id))
    ensures t.completed == 0
        <==> forall i :: 0 <= i < t.total ==> !IsCompleted(m, CourseKey(course.id, course.chapters.value[i].id))
  {
    var chs := course.chapters.value;
    AllCompletedCount(m, NatToString(course.id), chs);
    NoneCompletedCount(m, NatToString(course.id), chs);
    Tally(CountCompleted(m, NatToString(course.id), chs), |chs|)
  }

  /**
   * `(completed / total) * 100` with no zero guard: NaN for a course without
   * chapters; otherwise in [0, 100], and 100 exactly when every chapter is completed.
   */
  function ProgressPercentage(m: ProgressMap, course: Course): (r: JsNumber)
    requires course.chapters.Some?
    ensures r.NaN? <==> course.chapters.value == []
    ensures r.Finite? ==> 0.0 <= r.value <= 100.0
    ensures r.Finite? ==> (r.value == 100.0 <==> forall i :: 0 <= i < |course.chapters.value| ==>
      IsCompleted(m, CourseKey(course.id, course.chapters.value[i].id)))
    ensures r.Finite? ==>
      r.value == Percentage(CountCompleted(m, NatToString(course.id), course.chapters.value), |course.chapters.value|)
  {
    var t := CourseProgress(m, course);
    Ratio(t.completed, t.total)
  }

  /** The start button: "继续学习" once a chapter is completed, "开始学习" before. */
  function StartLabel(t: Tally): (text: string)
    ensures text == ContinueText <==> t.completed > 0
  {
    if t.completed > 0 then ContinueText else StartText
  }
}
