/** The state of the session store: the current user record, the
    authentication flag and token, the read-only lesson catalog and the
    append-only conversation. */
module Session {
  import opened Wrappers
  import opened Js
  import opened Messages

  /** A catalog lesson. Only the id takes part in the store's logic; the
      grammar points, vocabulary and exercises are static prose. */
  datatype Lesson = Lesson(id: int, title: string, textbook: string, chapter: string)

  /** `state`: `user` is `None` for `null`. */
  datatype StoreState = StoreState(
    user: Option<Record>,
    isAuthenticated: bool,
    authToken: Value,
    lessons: seq<Lesson>,
    conversation: seq<Message>)

  /** The three lessons the store is created with. */
  function Catalog(): seq<Lesson>
  {
    [ Lesson(1, "はじめまして - Introduction", "Minna no Nihongo", "Lesson 1"),
      Lesson(2, "家族 - Family Members", "Minna no Nihongo", "Lesson 2"),
      Lesson(3, "数字と時間 - Numbers and Time", "Minna no Nihongo", "Lesson 3") ]
  }

  const WelcomeText := "Kon'nichiwa! こんにちは！ Welcome to your AI practice session. Ask me anything about Japanese grammar, vocabulary, or conversation. What would you like to practice today?"

  /** The store as it is created at time `startTime`: nobody logged in, no
      token, the catalog, and the tutor's welcome message. */
  function Initial(startTime: int): (s: StoreState)
    ensures AuthConsistent(s)
    ensures s.user.None? && !s.isAuthenticated && s.authToken == Null
    ensures s.lessons == Catalog()
    ensures |s.conversation| == 1 && s.conversation[0].sender == "ai" && s.conversation[0].text == WelcomeText
    ensures s.conversation[0] == Message(1, "ai", WelcomeText, startTime, Undefined)
  {
    StoreState(None, false, Null, Catalog(), [Message(1, "ai", WelcomeText, startTime, Undefined)])
  }

  /** The authentication invariant: the flag is only set together with a
      user and a truthy token, and when it is clear the token is `null`. */
  predicate AuthConsistent(s: StoreState)
  {
    && (s.isAuthenticated ==> s.user.Some? && Truthy(s.authToken))
    && (!s.isAuthenticated ==> s.authToken == Null)
  }

  /** `lesson.id === id`: strict equality, so only a number equal to the id
      matches (a string "1" does not match lesson 1). */
  predicate IdMatches(lesson: Lesson, id: Value)
  {
    id == Num(lesson.id)
  }

  /** Some lesson of the catalog has the id. */
  predicate LessonExists(lessons: seq<Lesson>, id: Value)
  {
    exists j :: 0 <= j < |lessons| && IdMatches(lessons[j], id)
  }

  /** `lessons.findIndex(lesson => lesson.id === id)`: the index of the first
      lesson with the id, or -1 when there is none. */
  function FindIndex(lessons: seq<Lesson>, id: Value): (i: int)
    ensures -1 <= i < |lessons|
    ensures i == -1 <==> !LessonExists(lessons, id)
    ensures i >= 0 ==> IdMatches(lessons[i], id) && forall j :: 0 <= j < i ==> !IdMatches(lessons[j], id)
  {
    if lessons == [] then -1
    else if IdMatches(lessons[0], id) then 0
    else
      var k := FindIndex(lessons[1..], id);
      assert forall j :: 1 <= j < |lessons| ==> lessons[j] == lessons[1..][j - 1];
      if k == -1 then -1 else k + 1
  }
}
