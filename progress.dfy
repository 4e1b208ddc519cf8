/**
 * The data the progress-tracking pages share: the course catalog entries and
 * the per-chapter progress map `userProgress`, keyed by `${courseId}-${chapterId}`,
 * together with the per-chapter tests and chapter counts that the catalog,
 * the chapter list and the player each compute from it.
 */
module Progress {
  import opened Wrappers
  import opened ProgressKeys

  datatype Chapter = Chapter(id: nat, title: string, duration: string)

  /** A catalog course; `chapters` and `price` may be missing from the record. */
  datatype Course = Course(
    id: nat,
    title: string,
    description: string,
    chapters: Option<seq<Chapter>>,
    price: Option<real>)

  /**
   * One chapter's entry: the watched percentage, whether it counts as
   * completed and when it was last watched (milliseconds since the epoch).
   * A field missing from a stored entry reads as 0 / false, which is how
   * every reader of the map treats it.
   */
  datatype Entry = Entry(progress: real, completed: bool, lastWatched: int)

  type ProgressMap = map<string, Entry>

  /** `userProgress[key]?.completed` is truthy. */
  function IsCompleted(m: ProgressMap, key: string): (b: bool)
    ensures b ==> key in m
    ensures key in m ==> (b <==> m[key].completed)
  {
    key in m && m[key].completed
  }

  /** `progress && progress.progress > 0 && !progress.completed`. */
  function IsInProgress(m: ProgressMap, key: string): (b: bool)
    ensures b ==> key in m && m[key].progress > 0.0
    ensures b ==> !IsCompleted(m, key)
    ensures key in m && m[key].progress > 0.0 && !m[key].completed ==> b
  {
    key in m && m[key].progress > 0.0 && !m[key].completed
  }

  /** `userProgress[key]?.progress || 0`. */
  function StoredProgress(m: ProgressMap, key: string): (p: real)
    ensures key !in m ==> p == 0.0
    ensures IsInProgress(m, key) ==> p > 0.0
  {
    if key in m then m[key].progress else 0.0
  }

  /** `userProgress[key]?.lastWatched`, with a missing entry or field read as 0. */
  function LastWatchedAt(m: ProgressMap, key: string): int {
    if key in m then m[key].lastWatched else 0
  }

  /** `chapters.filter(ch => userProgress[key(ch)]?.completed).length`. */
  function CountCompleted(m: ProgressMap, courseText: string, chs: seq<Chapter>): (n: nat)
    ensures n <= |chs|
  {
    if chs == [] then 0
    else (if IsCompleted(m, Key(courseText, chs[0].id)) then 1 else 0)
         + CountCompleted(m, courseText, chs[1..])
  }

  /** The number of chapters whose entry exists, has progress > 0 and is not completed. */
  function CountInProgress(m: ProgressMap, courseText: string, chs: seq<Chapter>): (n: nat)
    ensures n <= |chs|
  {
    if chs == [] then 0
    else (if IsInProgress(m, Key(courseText, chs[0].id)) then 1 else 0)
         + CountInProgress(m, courseText, chs[1..])
  }

  /** A chapter is never counted both as completed and as in progress. */
  lemma {:induction false} CountsDisjoint(m: ProgressMap, courseText: string, chs: seq<Chapter>)
    ensures CountCompleted(m, courseText, chs) + CountInProgress(m, courseText, chs) <= |chs|
  {
    if chs != [] {
      CountsDisjoint(m, courseText, chs[1..]);
    }
  }

  /** The completed count is the whole list exactly when every chapter is completed. */
  lemma {:induction false} AllCompletedCount(m: ProgressMap, courseText: string, chs: seq<Chapter>)
    ensures CountCompleted(m, courseText, chs) == |chs|
        <==> forall i :: 0 <= i < |chs| ==> IsCompleted(m, Key(courseText, chs[i].id))
  {
    if chs != [] {
      AllCompletedCount(m, courseText, chs[1..]);
      assert forall i :: 1 <= i < |chs| ==> chs[i] == chs[1..][i - 1];
    }
  }

  /** The completed count is zero exactly when no chapter is completed. */
  lemma {:induction false} NoneCompletedCount(m: ProgressMap, courseText: string, chs: seq<Chapter>)
    ensures CountCompleted(m, courseText, chs) == 0
        <==> forall i :: 0 <= i < |chs| ==> !IsCompleted(m, Key(courseText, chs[i].id))
  {
    if chs != [] {
      NoneCompletedCount(m, courseText, chs[1..]);
      assert forall i :: 1 <= i < |chs| ==> chs[i] == chs[1..][i - 1];
    }
  }

  /** The in-progress count is zero exactly when no chapter is in progress. */
  lemma {:induction false} NoneInProgressCount(m: ProgressMap, courseText: string, chs: seq<Chapter>)
    ensures CountInProgress(m, courseText, chs) == 0
        <==> forall i :: 0 <= i < |chs| ==> !IsInProgress(m, Key(courseText, chs[i].id))
  {
    if chs != [] {
      NoneInProgressCount(m, courseText, chs[1..]);
      assert forall i :: 1 <= i < |chs| ==> chs[i] == chs[1..][i - 1];
    }
  }

  /**
   * `updateProgress(courseId, chapterId, entry)` on a map: the entry under the
   * chapter's key is replaced by `entry`, wholesale.
   */
  function Updated(m: ProgressMap, courseId: nat, chapterId: nat, e: Entry): (r: ProgressMap)
    ensures CourseKey(courseId, chapterId) in r && r[CourseKey(courseId, chapterId)] == e
    ensures r.Keys == m.Keys + {CourseKey(courseId, chapterId)}
    ensures forall k :: k in m && k != CourseKey(courseId, chapterId) ==> k in r && r[k] == m[k]
  {
    m[CourseKey(courseId, chapterId) := e]
  }

  /** Writing the same entry twice leaves the map as writing it once. */
  lemma UpdateIdempotent(m: ProgressMap, courseId: nat, chapterId: nat, e: Entry)
    ensures Updated(Updated(m, courseId, chapterId, e), courseId, chapterId, e)
         == Updated(m, courseId, chapterId, e)
  {
  }

  /** Updates of two different chapters do not interfere: their order does not matter. */
  lemma UpdatesCommute(m: ProgressMap, c1: nat, ch1: nat, e1: Entry, c2: nat, ch2: nat, e2: Entry)
    requires c1 != c2 || ch1 != ch2
    ensures Updated(Updated(m, c1, ch1, e1), c2, ch2, e2)
         == Updated(Updated(m, c2, ch2, e2), c1, ch1, e1)
  {
    if CourseKey(c1, ch1) == CourseKey(c2, ch2) {
      CourseKeyInjective(c1, ch1, c2, ch2);
      assert false;
    }
  }

  /** An update of one chapter leaves every other chapter's entry, of any course, as it was. */
  lemma UpdateLeavesOtherChapters(m: ProgressMap, c: nat, ch: nat, e: Entry, c': nat, ch': nat)
    requires c != c' || ch != ch'
    ensures var k := CourseKey(c', ch');
      (k in Updated(m, c, ch, e)) == (k in m) && (k in m ==> Updated(m, c, ch, e)[k] == m[k])
  {
    if CourseKey(c, ch) == CourseKey(c', ch') {
      CourseKeyInjective(c, ch, c', ch');
      assert false;
    }
  }
}
