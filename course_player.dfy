/**
 * The course player: which course the route names, which chapter to resume
 * at, bounded next/previous navigation, and the progress reports the video
 * sends, which mark a chapter completed from 90% on.
 */
module CoursePlayer {
  import opened Wrappers
  import opened ProgressKeys
  import opened Progress
  import opened AppState

  /** `courses.find(c => c.id === id)`: the first course with that id; NaN matches none. */
  function FindCourse(courses: seq<Course>, id: Option<nat>): (r: Option<Course>)
    ensures r.Some? ==> r.value in courses && id == Some(r.value.id)
    ensures r.None? <==> forall i :: 0 <= i < |courses| ==> id != Some(courses[i].id)
    ensures r.Some? ==> (exists i :: 0 <= i < |courses| && courses[i] == r.value
                                    && forall j :: 0 <= j < i ==> id != Some(courses[j].id))
  {
    if courses == [] then None
    else if id == Some(courses[0].id) then Some(courses[0])
    else
      var r := FindCourse(courses[1..], id);
      assert forall i :: 1 <= i < |courses| ==> courses[i] == courses[1..][i - 1];
      r
  }

  /**
   * `chapters.findIndex(ch => !userProgress[key(ch)]?.completed)`: the first
   * chapter not completed, or -1 when every chapter is.
   */
  function FirstNotCompleted(m: ProgressMap, keyText: string, chs: seq<Chapter>): (r: int)
    ensures -1 <= r < |chs|
    ensures r == -1 <==> forall i :: 0 <= i < |chs| ==> IsCompleted(m, Key(keyText, chs[i].id))
    ensures r >= 0 ==> !IsCompleted(m, Key(keyText, chs[r].id))
    ensures forall i :: 0 <= i < r ==> IsCompleted(m, Key(keyText, chs[i].id))
  {
    if chs == [] then -1
    else if !IsCompleted(m, Key(keyText, chs[0].id)) then 0
    else
      var r := FirstNotCompleted(m, keyText, chs[1..]);
      assert forall i :: 1 <= i < |chs| ==> chs[i] == chs[1..][i - 1];
      if r == -1 then -1 else r + 1
  }

  /**
   * The chapter the player opens at: the first chapter not completed, so every
   * earlier one is completed; chapter 0 when all of them are.
   */
  function ResumeIndex(m: ProgressMap, keyText: string, chs: seq<Chapter>): (r: nat)
    ensures chs != [] ==> r < |chs|
    ensures forall i :: 0 <= i < r && i < |chs| ==> IsCompleted(m, Key(keyText, chs[i].id))
    ensures (r < |chs| && !IsCompleted(m, Key(keyText, chs[r].id)))
         || (r == 0 && forall i :: 0 <= i < |chs| ==> IsCompleted(m, Key(keyText, chs[i].id)))
  {
    var i := FirstNotCompleted(m, keyText, chs);
    if i == -1 then 0 else i
  }

  /** The entry a progress report writes: completed from 90% watched on. */
  function ProgressReport(progress: real, now: int): (e: Entry)
    ensures e.completed <==> progress >= 90.0
    ensures e.progress == progress && e.lastWatched == now
  {
    Entry(progress, progress >= 90.0, now)
  }

  /**
   * After a report for a chapter, the catalog sees it completed exactly from
   * 90% on and in progress exactly strictly between 0% and 90%.
   */
  lemma ReportClassification(m: ProgressMap, courseId: nat, chapterId: nat, progress: real, now: int)
    ensures var m' := Updated(m, courseId, chapterId, ProgressReport(progress, now));
      var k := CourseKey(courseId, chapterId);
      && (IsCompleted(m', k) <==> progress >= 90.0)
      && (IsInProgress(m', k) <==> 0.0 < progress < 90.0)
      && LastWatchedAt(m', k) == now
  {
  }

  /** A completed chapter stays completed when another chapter's entry is replaced. */
  lemma CompletedSurvivesOtherUpdate(m: ProgressMap, courseId: nat, chapterId: nat, e: Entry, otherId: nat)
    requires otherId != chapterId && IsCompleted(m, CourseKey(courseId, otherId))
    ensures IsCompleted(Updated(m, courseId, chapterId, e), CourseKey(courseId, otherId))
  {
    UpdateLeavesOtherChapters(m, courseId, chapterId, e, courseId, otherId);
  }

  /**
   * Writing a completed entry for chapter `r`, when every chapter before it is
   * completed, leaves chapters 0 to `r` completed; a chapter sharing the
   * written id is completed by the same write.
   */
  lemma CompletedThrough(m: ProgressMap, courseId: nat, chs: seq<Chapter>, r: nat, e: Entry)
    requires r < |chs| && e.completed
    requires forall i :: 0 <= i < r ==> IsCompleted(m, CourseKey(courseId, chs[i].id))
    ensures forall i :: 0 <= i <= r ==> IsCompleted(Updated(m, courseId, chs[r].id, e), CourseKey(courseId, chs[i].id))
  {
    forall i | 0 <= i <= r
      ensures IsCompleted(Updated(m, courseId, chs[r].id, e), CourseKey(courseId, chs[i].id))
    {
      if chs[i].id != chs[r].id {
        CompletedSurvivesOtherUpdate(m, courseId, chs[r].id, e, chs[i].id);
      }
    }
  }

  /**
   * Finishing the chapter the player resumed at moves the resume point past
   * it: the keys the player reads are the ones it writes.
   */
  lemma ResumeAdvancesAfterCompletion(m: ProgressMap, courseId: nat, chs: seq<Chapter>, progress: real, now: int)
    requires chs != []
    requires progress >= 90.0
    ensures var r := ResumeIndex(m, NatToString(courseId), chs);
      var m' := Updated(m, courseId, chs[r].id, ProgressReport(progress, now));
      var r' := ResumeIndex(m', NatToString(courseId), chs);
      r' > r || (r' == 0 && forall i :: 0 <= i < |chs| ==> IsCompleted(m', CourseKey(courseId, chs[i].id)))
  {
    var r := ResumeIndex(m, NatToString(courseId), chs);
    CompletedThrough(m, courseId, chs, r, ProgressReport(progress, now));
  }

  /** The player's state: the course being played, the chapter index and the video's progress. */
  class Player {
    var course: Option<Course>
    var current: int
    var videoProgress: real

    ghost predicate Valid()
      reads this
    {
      && 0 <= current
      && (course.None? ==> current == 0)
      && (course.Some? ==> course.value.chapters.Some?
                           && (current == 0 || current < |course.value.chapters.value|))
    }

    function Chapters(): seq<Chapter>
      reads this
      requires course.Some? && course.value.chapters.Some?
    {
      course.value.chapters.value
    }

    /** `hasNext`: a later chapter exists, so the next index is a chapter of the course. */
    function HasNext(): (b: bool)
      reads this
      requires course.Some? && course.value.chapters.Some?
      ensures b && current >= 0 ==> 0 < current + 1 < |Chapters()|
      ensures !b ==> current + 1 >= |Chapters()|
    {
      current < |Chapters()| - 1
    }

    /** `hasPrev`: an earlier chapter exists, so the previous index is not negative. */
    function HasPrev(): (b: bool)
      reads this
      ensures course.Some? && course.value.chapters.Some? && current < |Chapters()| ==>
      (b <==> 0 <= current - 1 < |Chapters()|)
    {
      current > 0
    }

    /** Before the course is found: no course, chapter 0, no video progress. */
    constructor ()
      ensures Valid() && course.None? && current == 0 && videoProgress == 0.0
    {
      course, current, videoProgress := None, 0, 0.0;
    }

    /**
     * The resume effect, run when the player opens a course: the course the
     * route names, opened at its first chapter not completed. Progress is read
     * under the course's own id, the key it is written under. When no course
     * matches, nothing changes.
     */
    method SelectCourse(courses: seq<Course>, routeParam: string, m: ProgressMap)
      requires Valid()
      requires var found := FindCourse(courses, ParseIntPrefix(routeParam));
        found.Some? ==> found.value.chapters.Some?
      modifies this
      ensures Valid() && videoProgress == old(videoProgress)
      ensures var found := FindCourse(courses, ParseIntPrefix(routeParam));
        if found.Some?
        then course == found
          && current == ResumeIndex(m, NatToString(found.value.id), found.value.chapters.value)
        else course == old(course) && current == old(current)
    {
      var found := FindCourse(courses, ParseIntPrefix(routeParam));
      if found.Some? {
        course := found;
        current := ResumeIndex(m, NatToString(found.value.id), found.value.chapters.value);
      }
    }

    /** The same effect as the source writes it: progress read under the route text. */
    method SelectCourseAsWritten(courses: seq<Course>, routeParam: string, m: ProgressMap)
      requires Valid()
      requires var found := FindCourse(courses, ParseIntPrefix(routeParam));
        found.Some? ==> found.value.chapters.Some?
      modifies this
      ensures Valid() && videoProgress == old(videoProgress)
      ensures var found := FindCourse(courses, ParseIntPrefix(routeParam));
        if found.Some?
        then course == found && current == ResumeIndex(m, routeParam, found.value.chapters.value)
        else course == old(course) && current == old(current)
    {
      var found := FindCourse(courses, ParseIntPrefix(routeParam));
      if found.Some? {
        course := found;
        current := ResumeIndex(m, routeParam, found.value.chapters.value);
      }
    }

    /** `handleChapterChange(i)`: go to chapter `i` and restart the video's progress at 0. */
    method ChangeChapter(i: int)
      requires Valid() && course.Some? && 0 <= i < |Chapters()|
      modifies this
      ensures Valid() && course == old(course)
      ensures current == i && videoProgress == 0.0
    {
      current := i;
      videoProgress := 0.0;
    }

    /** `handleNextChapter`: one chapter on when there is a later one; otherwise nothing. */
    method Next()
      requires Valid()
      modifies this
      ensures Valid() && course == old(course)
      ensures if old(course.Some? && HasNext())
        then current == old(current) + 1 && videoProgress == 0.0
        else current == old(current) && videoProgress == old(videoProgress)
      ensures course.Some? && Chapters() != [] ==> current < |Chapters()|
    {
      if course.Some? && current < |course.value.chapters.value| - 1 {
        ChangeChapter(current + 1);
      }
    }

    /** `handlePrevChapter`: one chapter back when there is an earlier one; otherwise nothing. */
    method Prev()
      requires Valid()
      modifies this
      ensures Valid() && course == old(course)
      ensures if old(HasPrev())
        then current == old(current) - 1 && videoProgress == 0.0
        else current == old(current) && videoProgress == old(videoProgress)
    {
      if current > 0 {
        current := current - 1;
        videoProgress := 0.0;
      }
    }

    /**
     * `handleVideoProgress(p)`: the video's progress becomes `p`, and the
     * playing chapter's entry is replaced by the report, through the app.
     * The chapter being played stays the same.
     */
    method ReportProgress(p: real, now: int, app: App)
      requires Valid()
      requires course.Some? ==> current < |Chapters()|
      modifies this, app
      ensures Valid() && course == old(course) && current == old(current) && videoProgress == p
      ensures course.Some? ==>
        app.userProgress == Updated(old(app.userProgress), course.value.id, Chapters()[current].id, ProgressReport(p, now))
      ensures course.Some? ==> app.storage == old(app.storage)[StorageKey := app.userProgress]
      ensures course.None? ==> app.userProgress == old(app.userProgress) && app.storage == old(app.storage)
      ensures app.courses == old(app.courses)
    {
      videoProgress := p;
      if course.Some? {
        var chapter := course.value.chapters.value[current];
        app.UpdateProgress(course.value.id, chapter.id, ProgressReport(p, now));
      }
    }

    /**
     * A progress report as the source wires it: the resume effect depends on
     * the progress map, so every report re-runs it and re-opens the course at
     * its first chapter not completed.
     */
    method ReportProgressAsWritten(p: real, now: int, app: App, courses: seq<Course>, routeParam: string)
      requires Valid()
      requires course.Some? ==> current < |Chapters()|
      requires var found := FindCourse(courses, ParseIntPrefix(routeParam));
        found.Some? ==> found.value.chapters.Some?
      modifies this, app
      ensures Valid() && videoProgress == p
      ensures old(course.Some?) ==>
        app.userProgress == Updated(old(app.userProgress), old(course.value.id), old(Chapters()[current].id), ProgressReport(p, now))
      ensures var found := FindCourse(courses, ParseIntPrefix(routeParam));
        if found.Some?
        then course == found && current == ResumeIndex(app.userProgress, routeParam, found.value.chapters.value)
        else course == old(course) && current == old(current)
      ensures old(course.Some?) ==> app.storage == old(app.storage)[StorageKey := app.userProgress]
      ensures old(course.None?) ==> app.userProgress == old(app.userProgress) && app.storage == old(app.storage)
      ensures app.courses == old(app.courses)
    {
      ReportProgress(p, now, app);
      SelectCourseAsWritten(courses, routeParam, app.userProgress);
    }
  }

  /**
   * The player as wired in the source: open course 1 at its first chapter,
   * click chapter 2, and let the video report 10%. The re-run effect puts the
   * player back on chapter 1 while chapter 2's video is playing.
   */
  method ReportPullsBackToFirstUnfinished() returns (chosen: int, afterReport: int)
    ensures chosen == 1 && afterReport == 0
  {
    var app := new App(map[]);
    var player := new Player();
    player.SelectCourseAsWritten(app.courses, "1", app.userProgress);
    ParseIntRoundTrip(1);
    assert NatToString(1) == "1";
    player.ChangeChapter(1);
    chosen := player.current;
    var chs := MockCourses[0].chapters.value;
    assert player.course == Some(MockCourses[0]) && chs[1].id == 2;
    player.ReportProgressAsWritten(10.0, 1000, app, app.courses, "1");
    assert app.userProgress == Updated(map[], 1, 2, ProgressReport(10.0, 1000));
    assert NatToString(2) == "2" && CourseKey(1, 2) == "1-2";
    assert Key("1", chs[0].id) == "1-1";
    assert app.userProgress.Keys == {"1-2"};
    afterReport := player.current;
  }

  /** With the resume effect run only on opening, the chosen chapter survives the report. */
  method ReportKeepsChosenChapter() returns (chosen: int, afterReport: int)
    ensures chosen == 1 && afterReport == 1
  {
    var app := new App(map[]);
    var player := new Player();
    player.SelectCourse(app.courses, "1", app.userProgress);
    ParseIntRoundTrip(1);
    player.ChangeChapter(1);
    chosen := player.current;
    player.ReportProgress(10.0, 1000, app);
    afterReport := player.current;
  }

  /**
   * A route written "01" finds course 1 (`parseInt("01") === 1`), but the
   * source then reads progress under "01-…" while reports are written under
   * "1-…": a completed first chapter is not seen and the player resumes at it.
   * Read under the course's own id, the player resumes after it.
   */
  lemma RouteTextMissesProgress()
    ensures ParseIntPrefix("01") == Some(1)
    ensures FindCourse(MockCourses, Some(1)) == Some(MockCourses[0])
    ensures var chs := MockCourses[0].chapters.value;
      var m := Updated(map[], 1, chs[0].id, ProgressReport(100.0, 1000));
      ResumeIndex(m, "01", chs) == 0 && ResumeIndex(m, NatToString(1), chs) == 1
  {
    assert LeadingDigits("01") == "01";
    assert DigitsValue("01") == 1 by {
      assert "01"[..1] == "0";
      assert "0"[..0] == "";
    }
    var chs := MockCourses[0].chapters.value;
    var m := Updated(map[], 1, chs[0].id, ProgressReport(100.0, 1000));
    assert NatToString(1) == "1";
    assert Key("01", 1) != CourseKey(1, 1);
    assert !IsCompleted(m, Key("01", chs[0].id));
    assert IsCompleted(m, Key(NatToString(1), chs[0].id));
    assert !IsCompleted(m, Key(NatToString(1), chs[1].id)) by {
      UpdateLeavesOtherChapters(map[], 1, 1, ProgressReport(100.0, 1000), 1, 2);
    }
  }
}
