/**
 * The chapter list beside the player: each chapter's status (completed,
 * current, in progress or not started, in that order of precedence), its
 * icon and progress bar, and the course's rounded overall completion.
 * `courseText` is the course id as the list receives it, as text.
 */
module ChapterNavigation {
  import opened ProgressKeys
  import opened Progress
  import opened Percent

  datatype Status = Completed | Current | InProgress | NotStarted

  /** `getChapterStatus(chapter, index)` with `currentChapter == current`. */
  function ChapterStatus(m: ProgressMap, courseText: string, chapter: Chapter, index: int, current: int): (s: Status)
    ensures var k := Key(courseText, chapter.id);
      && (IsCompleted(m, k) ==> s == Completed)
      && (!IsCompleted(m, k) && index == current ==> s == Current)
      && (s == InProgress <==> index != current && IsInProgress(m, k))
      && (s == NotStarted <==> !IsCompleted(m, k) && index != current && !IsInProgress(m, k))
  {
    var key := Key(courseText, chapter.id);
    if key in m && m[key].completed then Completed
    else if index == current then Current
    else if key in m && m[key].progress > 0.0 then InProgress
    else NotStarted
  }

  /** `getStatusIcon(status)`. */
  function StatusIcon(s: Status): (icon: string)
    ensures icon in {"✅", "▶️", "⏸️", "⭕"}
    ensures icon == "✅" <==> s == Completed
    ensures icon == "⭕" <==> s == NotStarted
  {
    match s
    case Completed => "✅"
    case Current => "▶️"
    case InProgress => "⏸️"
    case NotStarted => "⭕"
  }

  /** Each status has its own icon, so the icon tells the status. */
  lemma StatusIconInjective(s1: Status, s2: Status)
    requires StatusIcon(s1) == StatusIcon(s2)
    ensures s1 == s2
  {
  }

  /** `getChapterProgress(chapter)`: the stored percentage, 0 when there is none. */
  function ChapterProgress(m: ProgressMap, courseText: string, chapter: Chapter): (p: real)
    ensures Key(courseText, chapter.id) !in m ==> p == 0.0
    ensures Key(courseText, chapter.id) in m ==> p == m[Key(courseText, chapter.id)].progress
  {
    StoredProgress(m, Key(courseText, chapter.id))
  }

  /** `getTotalCourseProgress()`: `Math.round(completed / total * 100)`, NaN for no chapters. */
  function TotalCourseProgress(m: ProgressMap, courseText: string, chs: seq<Chapter>): (r: JsNumber)
    ensures r.NaN? <==> chs == []
    ensures r.Finite? ==> 0.0 <= r.value <= 100.0 && r.value == r.value.Floor as real
    ensures chs != [] ==> r == Round(Ratio(CountCompleted(m, courseText, chs), |chs|))
    ensures chs != [] && (forall i :: 0 <= i < |chs| ==> IsCompleted(m, Key(courseText, chs[i].id)))
      ==> r == Finite(100.0)
    ensures chs != [] && (forall i :: 0 <= i < |chs| ==> !IsCompleted(m, Key(courseText, chs[i].id)))
      ==> r == Finite(0.0)
  {
    var completed := CountCompleted(m, courseText, chs);
    AllCompletedCount(m, courseText, chs);
    NoneCompletedCount(m, courseText, chs);
    if chs == [] then Round(Ratio(completed, 0))
    else
      RoundedPercentage(completed, |chs|);
      Round(Ratio(completed, |chs|))
  }

  /** The percentage text beside a chapter is shown only for an in-progress chapter. */
  function ShowsPercentText(s: Status): (b: bool)
    ensures b ==> s != Completed && s != Current && s != NotStarted
    ensures s == InProgress ==> b
  {
    s == InProgress
  }

  /** The chapter's own bar: in progress or current, and some progress recorded. */
  function ShowsChapterBar(s: Status, chapterProgress: real): (b: bool)
    ensures b ==> s != Completed && s != NotStarted && chapterProgress > 0.0
    ensures s == InProgress && chapterProgress > 0.0 ==> b
  {
    (s == InProgress || s == Current) && chapterProgress > 0.0
  }

  /** The playing indicator is shown on the current chapter. */
  function ShowsCurrentIndicator(s: Status): (b: bool)
    ensures b ==> s != Completed && s != InProgress
    ensures s == Current ==> b
  {
    s == Current
  }

  /**
   * What a chapter row shows: a completed chapter shows neither bar nor
   * percentage, even when it is the one playing; an in-progress chapter always
   * shows both; a bar means the chapter is not completed and has progress.
   */
  lemma RowDisplay(m: ProgressMap, courseText: string, chapter: Chapter, index: int, current: int)
    ensures var s := ChapterStatus(m, courseText, chapter, index, current);
      var p := ChapterProgress(m, courseText, chapter);
      var k := Key(courseText, chapter.id);
      && (IsCompleted(m, k) ==> !ShowsChapterBar(s, p) && !ShowsPercentText(s) && !ShowsCurrentIndicator(s))
      && (ShowsPercentText(s) <==> index != current && IsInProgress(m, k))
      && (ShowsPercentText(s) ==> ShowsChapterBar(s, p))
      && (ShowsChapterBar(s, p) <==> !IsCompleted(m, k) && p > 0.0)
      && (ShowsCurrentIndicator(s) <==> !IsCompleted(m, k) && index == current)
  {
  }
}
