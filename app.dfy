/**
 * The application root: it owns the catalog and the per-chapter progress
 * map, loads the map from the browser's storage once on mount, and writes the
 * whole map back through on every update. Storage is a string-keyed store
 * whose `courseProgress` item holds the serialized map; serialization is the
 * identity here.
 */
module AppState {
  import opened Wrappers
  import opened ProgressKeys
  import opened Progress

  const StorageKey: string := "courseProgress"

  /** The mock catalog the app installs on mount. */
  const MockCourses: seq<Course> := [
    Course(1, "React 基础教程", "从零开始学习React开发",
      Some([Chapter(1, "React 简介", "10:30"), Chapter(2, "组件基础", "15:45"),
            Chapter(3, "状态管理", "20:15"), Chapter(4, "生命周期", "18:20")]), None),
    Course(2, "JavaScript 进阶", "深入学习JavaScript高级特性",
      Some([Chapter(1, "闭包与作用域", "12:30"), Chapter(2, "异步编程", "25:00"),
            Chapter(3, "ES6+ 特性", "22:15")]), None)
  ]

  class App {
    var courses: seq<Course>
    var userProgress: ProgressMap
    /** The storage items, each holding a serialized progress map. */
    var storage: map<string, ProgressMap>

    /** Mounting: the mock catalog, and the saved map when there is one (else empty). */
    constructor (saved: map<string, ProgressMap>)
      ensures courses == MockCourses && storage == saved
      ensures StorageKey in saved ==> userProgress == saved[StorageKey]
      ensures StorageKey !in saved ==> userProgress == map[]
    {
      courses := MockCourses;
      storage := saved;
      userProgress := map[];
      if StorageKey in saved {
        userProgress := saved[StorageKey];
      }
    }

    /**
     * `updateProgress(courseId, chapterId, progress)`: the chapter's entry is
     * replaced by `e`, every other key keeps its entry, and the new map is
     * what storage now holds under `courseProgress`.
     */
    method UpdateProgress(courseId: nat, chapterId: nat, e: Entry)
      modifies this
      ensures userProgress == Updated(old(userProgress), courseId, chapterId, e)
      ensures userProgress[CourseKey(courseId, chapterId)] == e
      ensures forall k :: k != CourseKey(courseId, chapterId) ==>
        (k in userProgress <==> k in old(userProgress)) &&
        (k in userProgress ==> userProgress[k] == old(userProgress)[k])
      ensures storage == old(storage)[StorageKey := userProgress]
      ensures courses == old(courses)
    {
      userProgress := Updated(userProgress, courseId, chapterId, e);
      storage := storage[StorageKey := userProgress];
    }
  }

  /** Within a course, the mock chapters have distinct ids and so distinct keys. */
  lemma MockChapterKeysDistinct(c: int, i: int, j: int)
    requires 0 <= c < |MockCourses| && MockCourses[c].chapters.Some?
    requires 0 <= i < j < |MockCourses[c].chapters.value|
    ensures var chs := MockCourses[c].chapters.value;
      CourseKey(MockCourses[c].id, chs[i].id) != CourseKey(MockCourses[c].id, chs[j].id)
  {
    var chs := MockCourses[c].chapters.value;
    if CourseKey(MockCourses[c].id, chs[i].id) == CourseKey(MockCourses[c].id, chs[j].id) {
      CourseKeyInjective(MockCourses[c].id, chs[i].id, MockCourses[c].id, chs[j].id);
    }
  }

  /** Two identical updates in a row leave the same state as one. */
  method UpdateTwice(app: App, courseId: nat, chapterId: nat, e: Entry)
    modifies app
    ensures app.userProgress == Updated(old(app.userProgress), courseId, chapterId, e)
    ensures app.storage == old(app.storage)[StorageKey := app.userProgress]
    ensures app.courses == old(app.courses)
  {
    app.UpdateProgress(courseId, chapterId, e);
    app.UpdateProgress(courseId, chapterId, e);
    UpdateIdempotent(old(app.userProgress), courseId, chapterId, e);
  }
}
