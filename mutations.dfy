/** The store's mutations, as functions from the state before to the state
    after. `SET_USER` is declared twice in the mutations object; the later
    declaration (the shallow merge) is the one that takes effect. */
module Mutations {
  import opened Wrappers
  import opened Js
  import opened Messages
  import opened Session

  /** `SET_USER(state, userData)`: `state.user = { ...state.user, ...userData }`.
      Only the user changes; it becomes the merge (see `Js.Merge`). */
  function SetUser(s: StoreState, userData: Record): (r: StoreState)
    ensures r.user.Some? && r.user.value == Merge(s.user, userData)
    ensures s.user.None? ==> r.user == Some(userData)
    ensures r.isAuthenticated == s.isAuthenticated && r.authToken == s.authToken
    ensures r.lessons == s.lessons && r.conversation == s.conversation
  {
    s.(user := Some(Merge(s.user, userData)))
  }

  /** `SET_AUTH_STATUS(state, { isAuthenticated, authToken = null })`: the
      flag as given, the token as given, `null` when it is `undefined`. */
  function SetAuthStatus(s: StoreState, isAuthenticated: bool, authToken: Value): (r: StoreState)
    ensures r.isAuthenticated == isAuthenticated
    ensures authToken != Undefined ==> r.authToken == authToken
    ensures authToken == Undefined ==> r.authToken == Null
    ensures r.user == s.user && r.lessons == s.lessons && r.conversation == s.conversation
  {
    s.(isAuthenticated := isAuthenticated, authToken := if authToken == Undefined then Null else authToken)
  }

  /** `ADD_MESSAGE(state, message)`: `conversation.push(message)`; exactly
      one entry more, at the end, the earlier ones kept in order. */
  function AddMessage(s: StoreState, message: Message): (r: StoreState)
    ensures |r.conversation| == |s.conversation| + 1
    ensures r.conversation[..|s.conversation|] == s.conversation
    ensures r.conversation[|s.conversation|] == message
    ensures r.user == s.user && r.isAuthenticated == s.isAuthenticated && r.authToken == s.authToken
    ensures r.lessons == s.lessons
  {
    s.(conversation := s.conversation + [message])
  }

  /** `UPDATE_USER_LESSON_PROGRESS(state, lessonId)`: when a user is set and
      some lesson has the id, `user.completedLessons += 1`; otherwise the
      state is left as it is. Nothing records which lessons were completed. */
  function UpdateUserLessonProgress(s: StoreState, lessonId: Value): (r: StoreState)
    ensures s.user.Some? && LessonExists(s.lessons, lessonId) ==>
      r == s.(user := Some(s.user.value["completedLessons" := PlusOne(Get(s.user.value, "completedLessons"))]))
    ensures !(s.user.Some? && LessonExists(s.lessons, lessonId)) ==> r == s
  {
    if s.user.Some? then
      var lessonIndex := FindIndex(s.lessons, lessonId);
      if lessonIndex != -1 then
        var u := s.user.value;
        s.(user := Some(u["completedLessons" := PlusOne(Get(u, "completedLessons"))]))
      else s
    else s
  }

  /** `LOGOUT(state)`: no user, flag clear, token `null`; the catalog and
      the conversation are kept. */
  function Logout(s: StoreState): (r: StoreState)
    ensures r.user.None? && !r.isAuthenticated && r.authToken == Null
    ensures r.lessons == s.lessons && r.conversation == s.conversation
    ensures AuthConsistent(r)
  {
    s.(user := None, isAuthenticated := false, authToken := Null)
  }

  /** Logging out twice is logging out once. */
  lemma LogoutIdempotent(s: StoreState)
    ensures Logout(Logout(s)) == Logout(s)
  {
  }

  /** With a numeric counter, a progress update on an existing lesson raises
      `completedLessons` by exactly one and leaves every other field of the
      user as it was. */
  lemma ProgressCountsOne(s: StoreState, lessonId: Value, n: int)
    requires s.user.Some? && Get(s.user.value, "completedLessons") == Num(n)
    requires LessonExists(s.lessons, lessonId)
    ensures var r := UpdateUserLessonProgress(s, lessonId);
      r.user.Some? && Get(r.user.value, "completedLessons") == Num(n + 1) &&
      r.user.value.Keys == s.user.value.Keys &&
      (forall k :: k in s.user.value && k != "completedLessons" ==> r.user.value[k] == s.user.value[k]) &&
      r.isAuthenticated == s.isAuthenticated && r.authToken == s.authToken &&
      r.conversation == s.conversation && r.lessons == s.lessons
  {
  }

  /** Completing the same lesson twice counts twice. */
  lemma ProgressTwiceCountsTwice(s: StoreState, lessonId: Value, n: int)
    requires s.user.Some? && Get(s.user.value, "completedLessons") == Num(n)
    requires LessonExists(s.lessons, lessonId)
    ensures var r := UpdateUserLessonProgress(UpdateUserLessonProgress(s, lessonId), lessonId);
      r.user.Some? && Get(r.user.value, "completedLessons") == Num(n + 2)
  {
    ProgressCountsOne(s, lessonId, n);
    ProgressCountsOne(UpdateUserLessonProgress(s, lessonId), lessonId, n + 1);
  }
}
