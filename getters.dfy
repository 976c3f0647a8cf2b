/** The store's derived queries. */
module Getters {
  import opened Wrappers
  import opened Js
  import opened Session
  import Actions

  /** `getLessonById(id)`: `lessons.find(lesson => lesson.id === id)`, the
      first lesson with the id, `None` (`undefined`) when there is none. */
  function GetLessonById(lessons: seq<Lesson>, id: Value): (r: Option<Lesson>)
    ensures r.None? <==> !LessonExists(lessons, id)
    ensures r.Some? ==> exists i :: (0 <= i < |lessons| && lessons[i] == r.value && IdMatches(r.value, id) &&
      forall j :: 0 <= j < i ==> !IdMatches(lessons[j], id))
  {
    var i := FindIndex(lessons, id);
    if i == -1 then None else Some(lessons[i])
  }

  /** The object `getUserStats` returns. */
  datatype UserStats = UserStats(
    completedLessons: Value,
    totalLessons: Value,
    totalStudyTime: Value,
    currentStreak: Value,
    progressPercentage: Rounded)

  /** `getUserStats`: the four counters of the user as they are stored
      (`undefined` when absent) and the rounded percentage of completed
      lessons; all zero out of twenty when nobody is logged in. */
  function GetUserStats(user: Option<Record>): (r: UserStats)
    ensures user.None? ==> r == UserStats(Num(0), Num(Actions.TotalLessons), Num(0), Num(0), Finite(0))
    ensures user.Some? ==>
      r.completedLessons == Get(user.value, "completedLessons") &&
      r.totalLessons == Get(user.value, "totalLessons") &&
      r.totalStudyTime == Get(user.value, "totalStudyTime") &&
      r.currentStreak == Get(user.value, "currentStreak")
    ensures user.Some? ==>
      r.progressPercentage == ProgressPercentage(Get(user.value, "completedLessons"), Get(user.value, "totalLessons"))
    // A consequence of the previous clause and `Js.RoundedPercent`, spelled out.
    ensures user.Some? && r.completedLessons.Num? && r.totalLessons.Num? && r.totalLessons.n > 0 ==>
      var c, t := r.completedLessons.n, r.totalLessons.n;
      r.progressPercentage.Finite? &&
      2 * t * r.progressPercentage.n - t <= 200 * c < 2 * t * r.progressPercentage.n + t
  {
    match user
    case None => UserStats(Num(0), Num(Actions.TotalLessons), Num(0), Num(0), Finite(0))
    case Some(u) =>
      var completed, total := Get(u, "completedLessons"), Get(u, "totalLessons");
      UserStats(completed, total, Get(u, "totalStudyTime"), Get(u, "currentStreak"),
                ProgressPercentage(completed, total))
  }

  /** A user who has completed one lesson of twenty is at 5%. */
  lemma OneOfTwentyStats(u: Record)
    requires Get(u, "completedLessons") == Num(1) && Get(u, "totalLessons") == Num(20)
    ensures GetUserStats(Some(u)).progressPercentage == Finite(5)
  {
    OneOfTwentyIsFive();
  }

  /** A freshly logged-in user is at 0% of twenty lessons. */
  lemma FreshUserStats(u: Record)
    requires Actions.FreshProgress(u)
    ensures var r := GetUserStats(Some(u));
      r.completedLessons == Num(0) && r.totalLessons == Num(20) && r.progressPercentage == Finite(0)
  {
  }
}
