/**
 * The catalog page with purchases: per course, the completed and in-progress
 * chapter counts, the last chapter watched, the guarded completion percentage,
 * the start or purchase button, and the default price.
 */
module CourseListSimple {
  import opened Wrappers
  import opened ProgressKeys
  import opened Progress
  import opened Percent
  import CourseList

  datatype Summary = Summary(total: nat, completed: nat, inProgress: nat)

  /** `course.chapters`, with a missing list read as no chapters. */
  function ChapterList(course: Course): seq<Chapter> {
    if course.chapters.Some? then course.chapters.value else []
  }

  /**
   * `getCourseProgress(course)`: total, completed and in-progress chapters; no
   * chapter is counted twice, and a course without a chapter list counts nothing.
   */
  function CourseProgress(m: ProgressMap, course: Course): (s: Summary)
    ensures s.completed + s.inProgress <= s.total
    ensures course.chapters.None? ==> s == Summary(0, 0, 0)
    ensures s.total == |ChapterList(course)|
    ensures s.completed == CountCompleted(m, NatToString(course.id), ChapterList(course))
    ensures s.inProgress == CountInProgress(m, NatToString(course.id), ChapterList(course))
  {
    var chs := ChapterList(course);
    CountsDisjoint(m, NatToString(course.id), chs);
    Summary(|chs|, CountCompleted(m, NatToString(course.id), chs), CountInProgress(m, NatToString(course.id), chs))
  }

  /** The last-watched time of the `i`-th chapter of the course, 0 when none is recorded. */
  function WatchedAt(m: ProgressMap, course: Course, i: int): int
    requires 0 <= i < |ChapterList(course)|
  {
    LastWatchedAt(m, CourseKey(course.id, ChapterList(course)[i].id))
  }

  /**
   * `getLastWatchedChapter(course)`, giving the chapter's position: the chapter
   * with the greatest positive last-watched time, the earliest of those on a
   * tie; none when no chapter has a positive time.
   */
  method LastWatchedChapter(m: ProgressMap, course: Course) returns (last: Option<nat>)
    ensures last.None? <==> forall i :: 0 <= i < |ChapterList(course)| ==> WatchedAt(m, course, i) <= 0
    ensures last.Some? ==> last.value < |ChapterList(course)| && WatchedAt(m, course, last.value) > 0
    ensures last.Some? ==> forall i :: 0 <= i < |ChapterList(course)| ==>
      WatchedAt(m, course, i) <= WatchedAt(m, course, last.value)
    ensures last.Some? ==> forall i :: 0 <= i < last.value ==>
      WatchedAt(m, course, i) < WatchedAt(m, course, last.value)
  {
    var chs := ChapterList(course);
    var text := NatToString(course.id);
    last := None;
    var lastTimestamp := 0;
    var i := 0;
    while i < |chs|
      invariant 0 <= i <= |chs|
      invariant last.None? ==> lastTimestamp == 0 && forall j :: 0 <= j < i ==> WatchedAt(m, course, j) <= 0
      invariant last.Some? ==> last.value < i && lastTimestamp == WatchedAt(m, course, last.value) > 0
      invariant last.Some? ==> forall j :: 0 <= j < i ==> WatchedAt(m, course, j) <= lastTimestamp
      invariant last.Some? ==> forall j :: 0 <= j < last.value ==> WatchedAt(m, course, j) < lastTimestamp
    {
      var key := Key(text, chs[i].id);
      if key in m && m[key].lastWatched != 0 && m[key].lastWatched > lastTimestamp {
        lastTimestamp := m[key].lastWatched;
        last := Some(i);
      }
      i := i + 1;
    }
  }

  /**
   * The guarded `progressPercentage`: 0 for a course without chapters,
   * otherwise completed / total * 100, in [0, 100] and 100 exactly when every
   * chapter is completed.
   */
  function CardPercentage(m: ProgressMap, course: Course): (r: real)
    ensures 0.0 <= r <= 100.0
    ensures ChapterList(course) == [] ==> r == 0.0
    ensures ChapterList(course) != [] ==> (r == 100.0 <==> forall i :: 0 <= i < |ChapterList(course)| ==>
      IsCompleted(m, CourseKey(course.id, ChapterList(course)[i].id)))
    ensures ChapterList(course) != [] ==>
      r == Percentage(CountCompleted(m, NatToString(course.id), ChapterList(course)), |ChapterList(course)|)
  {
    var s := CourseProgress(m, course);
    AllCompletedCount(m, NatToString(course.id), ChapterList(course));
    if s.total > 0 then Percentage(s.completed, s.total) else 0.0
  }

  /** The start button's label: "继续学习" once any chapter is completed or in progress. */
  function StartLabel(s: Summary): (text: string)
    ensures text == CourseList.ContinueText || text == CourseList.StartText
    ensures text == CourseList.StartText <==> s.completed == 0 && s.inProgress == 0
  {
    if s.completed > 0 || s.inProgress > 0 then CourseList.ContinueText else CourseList.StartText
  }

  /** The label reads "继续学习" exactly when some chapter of the course has been completed or started. */
  lemma StartLabelMeaning(m: ProgressMap, course: Course)
    ensures var chs := ChapterList(course);
      StartLabel(CourseProgress(m, course)) == CourseList.ContinueText
      <==> (exists i :: 0 <= i < |chs| &&
             (IsCompleted(m, CourseKey(course.id, chs[i].id)) || IsInProgress(m, CourseKey(course.id, chs[i].id))))
  {
    NoneCompletedCount(m, NatToString(course.id), ChapterList(course));
    NoneInProgressCount(m, NatToString(course.id), ChapterList(course));
  }

  /** `course.price || 99`: a missing or zero price shows as 99. */
  function DisplayPrice(course: Course): (p: real)
    ensures course.price.None? || course.price == Some(0.0) ==> p == 99.0
    ensures course.price.Some? && course.price.value != 0.0 ==> p == course.price.value
    ensures p != 0.0
  {
    if course.price.Some? && course.price.value != 0.0 then course.price.value else 99.0
  }

  /** `selectedCourse?.price || 99`: the price handed to the payment dialog. */
  function ModalPrice(selected: Option<Course>): (p: real)
    ensures selected.None? ==> p == 99.0
    ensures selected.Some? ==> p == DisplayPrice(selected.value)
  {
    if selected.Some? then DisplayPrice(selected.value) else 99.0
  }

  /** The card's action: a start link when access is granted, otherwise a purchase button. */
  datatype Action = StartLink(caption: string) | PurchaseButton(price: real)

  function CardAction(accessGranted: bool, m: ProgressMap, course: Course): (a: Action)
    ensures a.StartLink? <==> accessGranted
    ensures a.StartLink? ==> a.caption == StartLabel(CourseProgress(m, course))
    ensures a.PurchaseButton? ==> a.price == ModalPrice(Some(course))
  {
    if accessGranted then StartLink(StartLabel(CourseProgress(m, course)))
    else PurchaseButton(DisplayPrice(course))
  }

  /**
   * Both catalog pages count the same chapters and the same completed ones;
   * their start labels differ exactly for a course with chapters in progress
   * and none completed.
   */
  lemma CatalogPagesAgree(m: ProgressMap, course: Course)
    requires course.chapters.Some?
    ensures CourseList.CourseProgress(m, course).total == CourseProgress(m, course).total
    ensures CourseList.CourseProgress(m, course).completed == CourseProgress(m, course).completed
    ensures CourseList.StartLabel(CourseList.CourseProgress(m, course)) != StartLabel(CourseProgress(m, course))
        <==> CourseProgress(m, course).completed == 0 && CourseProgress(m, course).inProgress > 0
  {
  }
}
