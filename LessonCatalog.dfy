/**
 * The chapter catalogue: lookup of a lesson by id, and the split of chapter 1
 * into the lessons already available and those still upcoming, gated by a
 * configured count. The configured value arrives already parsed: `None` stands
 * for an unset or empty setting.
 */
module LessonCatalog {
  import opened Wrappers
  import opened LessonTypes

  /** The count used when the setting is unset or empty (`|| '2'`). */
  const DefaultAvailableCount: int := 2

  /** The count the setting asks for. */
  function ConfiguredCount(setting: Option<int>): int {
    setting.GetOr(DefaultAvailableCount)
  }

  function Min(a: int, b: int): int { if a <= b then a else b }

  function Max(a: int, b: int): int { if a >= b then a else b }

  /** `Math.max(1, Math.min(count, length))`: the count clamped into `[1, length]`. */
  function ValidCount(count: int, length: nat): (k: int)
    ensures k >= 1
    ensures length >= 1 ==> k <= length
    ensures 1 <= count <= length ==> k == count
    ensures count < 1 ==> k == 1
    ensures count > length ==> k == Max(1, length)
  {
    Max(1, Min(count, length))
  }

  /** `s.slice(0, k)` for `k >= 0`: JavaScript clamps `k` to the length. */
  function Take<T>(s: seq<T>, k: nat): (r: seq<T>)
    ensures |r| == Min(k, |s|) && r == s[..|r|]
  {
    if k <= |s| then s[..k] else s
  }

  /** `s.slice(k)` for `k >= 0`: empty once `k` passes the length. */
  function Skip<T>(s: seq<T>, k: nat): (r: seq<T>)
    ensures |r| == |s| - Min(k, |s|) && r == s[|s| - |r|..]
  {
    if k <= |s| then s[k..] else []
  }

  /** `getAvailableChapter1Lessons`: the first `ValidCount` lessons, in order. */
  function AvailableChapter1Lessons(chapter: seq<Lesson>, setting: Option<int>): (available: seq<Lesson>)
    ensures available <= chapter
    ensures |chapter| >= 1 ==> |available| == ValidCount(ConfiguredCount(setting), |chapter|)
    ensures |chapter| >= 1 ==> 1 <= |available| <= |chapter|
    ensures |chapter| == 0 ==> available == []
  {
    Take(chapter, ValidCount(ConfiguredCount(setting), |chapter|))
  }

  /** `getUpcomingChapter1Lessons`: the lessons after the first `ValidCount`, in order. */
  function UpcomingChapter1Lessons(chapter: seq<Lesson>, setting: Option<int>): (upcoming: seq<Lesson>)
    ensures |upcoming| <= |chapter| && upcoming == chapter[|chapter| - |upcoming|..]
    ensures |chapter| >= 1 ==> |upcoming| == |chapter| - ValidCount(ConfiguredCount(setting), |chapter|)
    ensures |chapter| >= 1 ==> |upcoming| < |chapter|
  {
    Skip(chapter, ValidCount(ConfiguredCount(setting), |chapter|))
  }

  /** `getAvailableLessons`, kept for compatibility: the chapter-1 result. */
  function AvailableLessons(chapter: seq<Lesson>, setting: Option<int>): (available: seq<Lesson>)
    ensures available == AvailableChapter1Lessons(chapter, setting)
  {
    AvailableChapter1Lessons(chapter, setting)
  }

  /** `getUpcomingLessons`, kept for compatibility: the chapter-1 result. */
  function UpcomingLessons(chapter: seq<Lesson>, setting: Option<int>): (upcoming: seq<Lesson>)
    ensures upcoming == UpcomingChapter1Lessons(chapter, setting)
  {
    UpcomingChapter1Lessons(chapter, setting)
  }

  /** Available followed by upcoming is the whole chapter: every lesson is in exactly one of the
      two lists, in its original position. */
  lemma AvailableThenUpcoming(chapter: seq<Lesson>, setting: Option<int>)
    ensures AvailableChapter1Lessons(chapter, setting) + UpcomingChapter1Lessons(chapter, setting) == chapter
    ensures |AvailableChapter1Lessons(chapter, setting)| + |UpcomingChapter1Lessons(chapter, setting)| == |chapter|
  {
    var a, u := AvailableChapter1Lessons(chapter, setting), UpcomingChapter1Lessons(chapter, setting);
    assert |a| + |u| == |chapter|;
    assert a + u == chapter[..|a|] + chapter[|a|..];
  }

  /** With the setting unset, two lessons are available (when the chapter has at least two). */
  lemma UnsetSettingShowsTwo(chapter: seq<Lesson>)
    requires |chapter| >= 2
    ensures AvailableChapter1Lessons(chapter, None) == chapter[..2]
    ensures UpcomingChapter1Lessons(chapter, None) == chapter[2..]
  {
  }

  /** A zero or negative setting still leaves the first lesson available. */
  lemma NonPositiveSettingShowsFirst(chapter: seq<Lesson>, count: int)
    requires |chapter| >= 1 && count <= 0
    ensures AvailableChapter1Lessons(chapter, Some(count)) == chapter[..1]
  {
  }

  /** `allLessons.find((lesson) => lesson.id === id)`: the first lesson with that id, if any. */
  function GetLessonById(lessons: seq<Lesson>, id: string): (found: Option<Lesson>)
    ensures found.None? <==> forall i :: 0 <= i < |lessons| ==> lessons[i].id != id
    ensures found.Some? ==> exists i :: (0 <= i < |lessons| && lessons[i] == found.value && lessons[i].id == id
      && forall j :: 0 <= j < i ==> lessons[j].id != id)
    decreases |lessons|
  {
    if lessons == [] then None
    else if lessons[0].id == id then Some(lessons[0])
    else
      var rest := GetLessonById(lessons[1..], id);
      assert rest.Some? ==> exists i :: (0 < i < |lessons| && lessons[i] == rest.value && lessons[i].id == id
        && forall j :: 0 <= j < i ==> lessons[j].id != id) by {
        if rest.Some? {
          var k :| 0 <= k < |lessons| - 1 && lessons[1..][k] == rest.value && lessons[1..][k].id == id
            && forall j :: 0 <= j < k ==> lessons[1..][j].id != id;
          assert lessons[k + 1] == rest.value;
          assert forall j :: 0 <= j < k + 1 ==> lessons[j].id != id by {
            forall j | 0 <= j < k + 1 ensures lessons[j].id != id {
              if j > 0 { assert lessons[j] == lessons[1..][j - 1]; }
            }
          }
        }
      }
      rest
  }
}
