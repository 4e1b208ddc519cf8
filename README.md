# Course progress tracking, modelled in Dafny

This project models the progress-tracking core of a browser-based course
storefront. It also models the display mappings of the storefront's order
history page.

- **App root** (`app.dfy`, module `AppState`). The app owns the map `userProgress`. Each key has the form `"<courseId>-<chapterId>"` and each value is an entry `{progress, completed, lastWatched}`. On mount the app loads the map from the `courseProgress` storage item. Each update replaces one entry and writes the whole map back.
- **Keys** (`keys.dfy`, `ProgressKeys`). Ids are written in decimal. A key never belongs to two different (course, chapter) pairs. `parseInt` reads back the text of an id.
- **Shared progress data** (`progress.dfy`, `Progress`). This module defines the catalog records and the entry record. It also defines the tests for "completed" and "in progress" that every page uses, the chapter counts, and the one-entry map update.
- **Chapter list** (`chapter_navigation.dfy`). It classifies each chapter by precedence: completed, then current, then in progress, then not started. It also gives the icons, the per-row bars and indicators, and the rounded overall completion.
- **Player** (`course_player.dfy`). The player finds the course named by its route and resumes at the first chapter not completed. Next and previous moves are bounded. A progress report marks a chapter completed from 90% watched on.
- **Catalog pages** (`course_list_simple.dfy`, `course_list.dfy`). Both pages show counts, a percentage (guarded on one page, unguarded on the other) and a start label. The purchase page (`course_list_simple.dfy`) also shows the chapter watched last, a purchase button and the default price of 99.
- **Order history** (`order_history.dfy`). This covers status text and colour, the payment-method label, the optional times, and the payment-details block.
- **Percentages** (`percent.dfy`). They use exact reals. `Math.round` is round-half-up. JavaScript's `0 / 0` is an explicit NaN value.

Storage is a map from item names to progress maps, and serialization is the identity. `Date.now()` is passed in as a parameter. The device-access check on the catalog page is a boolean parameter.

## Model

| member | source | states |
|---|---|---|
| `AppState.App.constructor` | src/App.jsx:9-43 | After mount, the progress map is the saved `courseProgress` map when storage holds one, and empty otherwise. The catalog is the mock catalog. |
| `AppState.App.UpdateProgress` | src/App.jsx:45-52 | The chapter's key now maps to the given entry. The old entry is replaced wholesale. Every other key keeps its entry. Storage's `courseProgress` item equals the new map, and other storage items are unchanged. |
| `AppState.UpdateTwice` | src/App.jsx:45-52 | Two identical updates leave the same map and storage as one update, and the catalog unchanged. |
| `AppState.MockChapterKeysDistinct` | src/App.jsx:13-35 | Within a mock course, different chapters get different keys. |
| `Progress.Updated` | src/App.jsx:46-49 | The updated map holds the new entry under the chapter's key. Its key set gains only that key. All other entries are kept. |
| `Progress.UpdateIdempotent` | src/App.jsx:45-52 | Writing the same entry twice equals writing it once. |
| `Progress.UpdatesCommute` | src/App.jsx:46-49 | Updates of two different (course, chapter) pairs commute. |
| `Progress.UpdateLeavesOtherChapters` | src/App.jsx:47 | An update leaves every other chapter's entry, in any course, unchanged. |
| `ProgressKeys.CourseKeyInjective` | src/App.jsx:48 | Equal keys imply the same course id and the same chapter id. |
| `ProgressKeys.NatToString` | src/App.jsx:48 | An id's text is a non-empty run of decimal digits with no leading zero. |
| `ProgressKeys.NatToStringInjective` | src/App.jsx:48 | Different ids have different texts. |
| `ProgressKeys.ParseIntRoundTrip` | src/components/CoursePlayer.jsx:17 | `parseInt` of an id's decimal text gives the id back. |
| `ProgressKeys.LeadingDigits` | src/components/CoursePlayer.jsx:17 | The result is the longest all-digit prefix of the string. |
| `ProgressKeys.Key` | src/components/ChapterNavigation.jsx:5 | A key starts with the course text, then has `-`, then ends with the chapter id's decimal text. |
| `ProgressKeys.ParseIntPrefix` | src/components/CoursePlayer.jsx:17 | `parseInt` gives NaN exactly when the string does not start with a digit. Otherwise it gives the value of the leading digits. |
| `Progress.IsCompleted` | src/components/ChapterNavigation.jsx:6 | `?.completed` holds only for a key that is present, and then exactly when its entry is completed. |
| `Progress.IsInProgress` | src/components/CourseListSimple.jsx:33-35 | A key is in progress exactly when it is present, has progress > 0, and is not completed. |
| `Progress.StoredProgress` | src/components/ChapterNavigation.jsx:21-24 | A missing entry reads as 0. An in-progress entry reads as a positive value. |
| `Progress.CountCompleted` | src/components/ChapterNavigation.jsx:28-30 | The completed count never exceeds the number of chapters. |
| `Progress.CountInProgress` | src/components/CourseListSimple.jsx:31-36 | The in-progress count never exceeds the number of chapters. |
| `Progress.CountsDisjoint` | src/components/CourseListSimple.jsx:27-36 | completed + inProgress <= total, because no chapter is counted twice. |
| `Progress.AllCompletedCount` | src/components/CourseList.jsx:7-9 | The completed count equals the total exactly when every chapter's entry is completed. |
| `Progress.NoneCompletedCount` | src/components/CourseList.jsx:7-9 | The completed count is 0 exactly when no chapter's entry is completed. |
| `Progress.NoneInProgressCount` | src/components/CourseListSimple.jsx:31-36 | The in-progress count is 0 exactly when no chapter is in progress. |
| `ChapterNavigation.ChapterStatus` | src/components/ChapterNavigation.jsx:4-10 | A completed chapter is 'completed' even when it is current. A chapter that is not completed but current is 'current', whatever its progress. 'in-progress' holds exactly for a chapter that is not current and is in progress: it has an entry, progress > 0, and is not completed. Every other chapter, including one with no entry, is 'not-started'. |
| `ChapterNavigation.StatusIcon` | src/components/ChapterNavigation.jsx:12-19 | The icon is one of the four. '✅' is shown exactly for a completed chapter, and '⭕' exactly for a chapter not started. |
| `ChapterNavigation.StatusIconInjective` | src/components/ChapterNavigation.jsx:12-19 | The four statuses have four different icons. |
| `ChapterNavigation.ChapterProgress` | src/components/ChapterNavigation.jsx:21-24 | The result is 0 without an entry, and the stored progress otherwise. |
| `ChapterNavigation.TotalCourseProgress` | src/components/ChapterNavigation.jsx:26-32 | The result is NaN for an empty chapter list. Otherwise it is `Math.round` of completed/total*100, a whole number in [0,100]. It is 100 when all chapters are completed and 0 when none are. |
| `ChapterNavigation.ShowsPercentText` | src/components/ChapterNavigation.jsx:73 | The percentage text is shown exactly for an in-progress chapter: never for a completed, current or not-started one. |
| `ChapterNavigation.ShowsChapterBar` | src/components/ChapterNavigation.jsx:81 | A chapter bar needs positive progress and a chapter that is neither completed nor not started. An in-progress chapter with positive progress always shows one. |
| `ChapterNavigation.ShowsCurrentIndicator` | src/components/ChapterNavigation.jsx:90 | The playing indicator is shown on a current chapter, and never on a completed or in-progress one. |
| `ChapterNavigation.RowDisplay` | src/components/ChapterNavigation.jsx:73-94 | A completed chapter shows no bar, no percentage and no playing indicator. The percentage is shown exactly for a chapter that is not current and is in progress. A percentage always comes with a bar. A bar is shown exactly for a chapter that is not completed and has positive progress. The playing indicator is shown exactly on the current chapter when it is not completed. |
| `Percent.FractionBounds` | src/components/ChapterNavigation.jsx:31 | completed/total lies in [0,1]. It is 1 only when all chapters are completed and 0 only when none are. |
| `Percent.Percentage` | src/components/CourseListSimple.jsx:86 | `completed / total * 100` lies in [0,100]. It is 100 exactly when completed = total, and 0 exactly when completed = 0. |
| `Percent.RoundHalfUp` | src/components/ChapterNavigation.jsx:31 | The result is the nearest integer, with halves rounded up. |
| `Percent.Round` | src/components/ChapterNavigation.jsx:31 | NaN stays NaN. A finite value is rounded half up. |
| `Percent.Ratio` | src/components/CourseList.jsx:23 | Without a guard, the result is NaN exactly when the total is 0. |
| `Percent.RoundedPercentage` | src/components/ChapterNavigation.jsx:31 | A rounded percentage lies in [0,100]. It is 100 when all chapters are completed and 0 when none are. |
| `Percent.RoundedHundredBeforeAllCompleted` | src/components/ChapterNavigation.jsx:31 | With 199 of 200 chapters completed, the rounded value is already 100. So the converse of the rule above fails. |
| `CoursePlayer.FindCourse` | src/components/CoursePlayer.jsx:17 | The result is the first course whose id equals the parsed route. There is none when no course matches or the route is NaN. |
| `CoursePlayer.FirstNotCompleted` | src/components/CoursePlayer.jsx:21-24 | `findIndex`: the result is -1 exactly when every chapter is completed. Otherwise it is the first chapter not completed, and every earlier chapter is completed. |
| `CoursePlayer.ResumeIndex` | src/components/CoursePlayer.jsx:21-25 | With chapters present, the index is in [0, len). Every earlier chapter is completed. The indexed chapter is not completed, or else all chapters are completed and the index is 0. |
| `CoursePlayer.ProgressReport` | src/components/CoursePlayer.jsx:38-44 | The entry is completed exactly when progress >= 90. It stores the progress and the time. |
| `CoursePlayer.ReportClassification` | src/components/CoursePlayer.jsx:38-44 | After a report, the chapter counts as completed exactly when progress >= 90. It counts as in progress exactly when 0 < progress < 90. Its lastWatched is the report's time. |
| `CoursePlayer.CompletedSurvivesOtherUpdate` | src/components/CoursePlayer.jsx:40 | A report for one chapter keeps another completed chapter completed. |
| `CoursePlayer.CompletedThrough` | src/components/CoursePlayer.jsx:21-44 | When every chapter before chapter r is completed, writing a completed entry for chapter r leaves chapters 0 to r completed, including any chapter that shares r's id. |
| `CoursePlayer.ResumeAdvancesAfterCompletion` | src/components/CoursePlayer.jsx:21-44 | Completing the resumed chapter, read under the key it is written under, moves the resume point past it, or else every chapter is now completed. This holds for every non-empty chapter list, including one with repeated ids. |
| `CoursePlayer.Player.HasNext` | src/components/CoursePlayer.jsx:94 | When `hasNext` holds, the next index is a chapter of the course. Otherwise the playing chapter is the last one or beyond. |
| `CoursePlayer.Player.HasPrev` | src/components/CoursePlayer.jsx:95 | For an index inside the open course's chapter list, `hasPrev` holds exactly when the previous index is also a chapter of that course. |
| `CoursePlayer.Player.constructor` | src/components/CoursePlayer.jsx:11-14 | The player starts with no course, chapter 0 and video progress 0. |
| `CoursePlayer.Player.SelectCourse` | src/components/CoursePlayer.jsx:16-27 | When the route names a course, that course opens at its resume index, read under the course's own id. Otherwise nothing changes. The index stays in bounds. |
| `CoursePlayer.Player.SelectCourseAsWritten` | src/components/CoursePlayer.jsx:16-27 | The same rule as written in the source, with progress read under the route text. |
| `CoursePlayer.Player.ChangeChapter` | src/components/CoursePlayer.jsx:29-32 | The index becomes the chosen chapter and the video's progress resets to 0. |
| `CoursePlayer.Player.Next` | src/components/CoursePlayer.jsx:48-52 | The index grows by one exactly when a course is open and `hasNext` holds (index < len-1), and the video's progress resets. Otherwise nothing changes. The index stays below len. |
| `CoursePlayer.Player.Prev` | src/components/CoursePlayer.jsx:54-58 | The index drops by one exactly when `hasPrev` holds (index > 0), and the video's progress resets. Otherwise nothing changes. |
| `CoursePlayer.Player.ReportProgress` | src/components/CoursePlayer.jsx:34-46 | The video's progress becomes p. With a course open, the playing chapter's entry is replaced by the report through the app, and storage follows. Without a course, nothing is written. The chapter index is unchanged. |
| `CoursePlayer.Player.ReportProgressAsWritten` | src/components/CoursePlayer.jsx:16-46 | Report, then re-run the resume effect because the progress map changed. When the route finds a course, that course stays open and the index becomes the resume index of the new map, read under the route text. Otherwise the course and index stay. With a course open, storage holds the new map. Without one, the map and storage are unchanged. The catalog is unchanged. |
| `CoursePlayer.ReportPullsBackToFirstUnfinished` | src/components/CoursePlayer.jsx:27 | In the source's wiring, a 10% report on chapter 2 puts the player back on chapter 1. |
| `CoursePlayer.ReportKeepsChosenChapter` | src/components/CoursePlayer.jsx:34-46 | When the resume runs only on opening, the chosen chapter 2 survives the report. |
| `CoursePlayer.RouteTextMissesProgress` | src/components/CoursePlayer.jsx:17-25 | The route "01" finds course 1, but progress written under "1-…" is not read under "01-…". |
| `CourseListSimple.CourseProgress` | src/components/CourseListSimple.jsx:26-43 | completed + inProgress <= total. Without a chapter list, all three counts are 0. The counts are the completed and in-progress filters over the chapters. |
| `CourseListSimple.LastWatchedChapter` | src/components/CourseListSimple.jsx:45-58 | The result is none exactly when no chapter has lastWatched > 0. Otherwise it is a chapter with positive and greatest lastWatched, and every earlier chapter has a strictly smaller time, so ties go to the earliest chapter. |
| `CourseListSimple.CardPercentage` | src/components/CourseListSimple.jsx:86 | The result is 0 without chapters. It always lies in [0,100]. With chapters, it is completed / total * 100, and 100 exactly when every chapter is completed. |
| `CourseListSimple.StartLabel` | src/components/CourseListSimple.jsx:131 | The label is one of the two texts. It is '开始学习' exactly when no chapter is completed and none is in progress. |
| `CourseListSimple.StartLabelMeaning` | src/components/CourseListSimple.jsx:131 | The button reads '继续学习' exactly when some chapter is completed or in progress, and '开始学习' otherwise. |
| `CourseListSimple.DisplayPrice` | src/components/CourseListSimple.jsx:138 | A missing or zero price shows as 99. Any other price shows as itself. |
| `CourseListSimple.ModalPrice` | src/components/CourseListSimple.jsx:153 | The payment dialog gets 99 when no course is selected, and otherwise the price the course's button shows. |
| `CourseListSimple.CardAction` | src/components/CourseListSimple.jsx:129-139 | A start link appears exactly when access is granted, and its caption is the card's start label. Otherwise a purchase button with the dialog's price appears. |
| `CourseListSimple.CatalogPagesAgree` | src/components/CourseList.jsx:5-11 | Both catalog pages count the same total and completed chapters. Their labels differ exactly when no chapter is completed and some chapter is in progress. |
| `CourseList.CourseProgress` | src/components/CourseList.jsx:5-11 | total is the number of chapters and completed <= total. completed = total exactly when all chapters are completed, and completed = 0 exactly when none are. |
| `CourseList.ProgressPercentage` | src/components/CourseList.jsx:23 | The result is NaN exactly for a course without chapters. Otherwise it is completed / total * 100, in [0,100], and 100 exactly when every chapter is completed. |
| `CourseList.StartLabel` | src/components/CourseList.jsx:45 | The button reads '继续学习' exactly when completed > 0. |
| `OrderHistory.ParseStatus` | src/components/OrderHistoryPage.jsx:46-52 | Only the four status names parse, each to its own status. |
| `OrderHistory.ParseStatusName` | src/components/OrderHistoryPage.jsx:46-52 | Each known status name parses back to its status. |
| `OrderHistory.StatusText` | src/components/OrderHistoryPage.jsx:46-54 | The result is '未知状态' exactly for a string outside pending, paid, completed and cancelled. |
| `OrderHistory.StatusColor` | src/components/OrderHistoryPage.jsx:36-44 | The result is '#95a5a6' exactly for a string outside the four statuses. |
| `OrderHistory.KnownStatusesDistinguished` | src/components/OrderHistoryPage.jsx:36-51 | Different known statuses get different texts and different colours. |
| `OrderHistory.PaymentMethodLabel` | src/components/OrderHistoryPage.jsx:116 | The result is '微信支付' exactly for 'wechat', and '激活码' for every other value. |
| `OrderHistory.Present` | src/components/OrderHistoryPage.jsx:120 | A time is truthy exactly when it is present and not empty. |
| `OrderHistory.OrderTimes` | src/components/OrderHistoryPage.jsx:119-125 | The creation time is always listed. The paid and completed times are listed only when present and non-empty. |
| `OrderHistory.RenderOrder` | src/components/OrderHistoryPage.jsx:104-125 | The row shows the order status's text and colour. The status text is unknown exactly when the colour is the default grey. The row carries the method label and the listed times. |
| `OrderHistory.ShowsDetails` | src/components/OrderHistoryPage.jsx:159 | The details block is shown exactly when `details` is present and is not the empty object. |
| `OrderHistory.RenderPayment` | src/components/OrderHistoryPage.jsx:154-165 | The details block is shown exactly when details are present and non-empty. |

## Left out

- Licensing and order services. The device-fingerprint service and the order-management service are not part of this model. The catalog's access check (`checkCourseAccess(...).success`) is a boolean parameter of `CourseListSimple.CardAction`. The orders and payment records the history page lists are inputs.
- Simulated user ids built from `Date.now()` are not modelled. Report times are a parameter.
- Storage, `JSON.parse` and `JSON.stringify` are abstracted. Storage maps item names to progress maps, and serialization is the identity. A saved item that fails to parse is not modelled.
- `ProgressKeys.NatToString` writes every id in plain decimal. JavaScript writes numbers from 1e21 on in exponent form and cannot hold every integer from 2^53 on exactly, so `ProgressKeys.CourseKeyInjective` describes JavaScript only for ids below 2^53. Catalog ids are small.
- `ProgressKeys.ParseIntPrefix` models `parseInt` only for strings that start with their digits. Leading whitespace, signs and other radixes are not modelled.
- Progress values are exact reals. IEEE-754 rounding and NaN progress values are not modelled. `Math.round` is floor(x + 1/2), which matches JavaScript except for the negative zero it returns in (-0.5, 0); percentages never reach that range.
- A stored entry's missing field reads as 0 or false. Fields of other types, such as a string `progress`, are not modelled.
- `CoursePlayer.Player.ReportProgress` requires the current index to lie inside the chapter list when a course is open. The source renders the video only for an existing chapter, and a course with no chapters fails at render time, which is not modelled.
- `CoursePlayer.Player.ChangeChapter` requires an index inside the chapter list, as every caller passes one: the chapter list passes a row's index, and next/previous pass a bounded step.
- `CoursePlayer.Player.SelectCourse`, `CoursePlayer.Player.SelectCourseAsWritten` and `CoursePlayer.Player.ReportProgressAsWritten` require the course the route finds to carry a chapter list. The source would fail on opening such a course.
- `CourseList.CourseProgress` and `CourseList.ProgressPercentage` require a chapter list, because that page reads `course.chapters.length` without a guard.
- Rendering is not modelled: JSX markup, CSS widths, icons beyond the status mapping, the notes panel, the video element, content protection, routing and date formatting. The license management page is not modelled either.

## Findings

| source | as written | input that shows it | evidently intended | confidence | as-written member | corrected member |
|---|---|---|---|---|---|---|
| src/components/CoursePlayer.jsx:27 | The resume effect depends on `userProgress`. Every progress report replaces that map, so the effect re-runs and resets the chapter to the first one not completed. | Open course 1 with no progress. Click chapter 2. The video reports 10%. The player is back on chapter 1 while chapter 2 plays. | Resume only when the course is opened, and keep the chapter the user chose. | not executed; high (the video reports on every `timeupdate`) | `CoursePlayer.Player.ReportProgressAsWritten`, `CoursePlayer.ReportPullsBackToFirstUnfinished` | `CoursePlayer.Player.ReportProgress`, `CoursePlayer.ReportKeepsChosenChapter` |
| src/components/CoursePlayer.jsx:22 | Progress is read under the route text `courseId`, but reports are written under the numeric `currentCourse.id` (line 40). | Route `/course/01` with chapter 1 of course 1 completed. `parseInt` finds course 1, but the read key "01-1" misses the written "1-1", so the player resumes at chapter 1. | Read and write under the same key, the course's own id. | not executed; low (only non-canonical routes) | `CoursePlayer.Player.SelectCourseAsWritten`, `CoursePlayer.RouteTextMissesProgress` | `CoursePlayer.Player.SelectCourse`, `CoursePlayer.ResumeAdvancesAfterCompletion` |
