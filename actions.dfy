/** The store's actions. Each action is a sequence of commits; here it is a
    function from the state before to the state after (`Apply`), plus a
    function for the value its promise resolves or rejects with. The clock
    readings the actions take (`Date.now()`, `new Date()`) are parameters,
    and the simulated latency before `login`/`register` complete is not
    modelled: an action is one synchronous transition. */
module Actions {
  import opened Wrappers
  import opened Text
  import opened Js
  import opened Messages
  import opened Session
  import Mutations

  datatype AuthError = InvalidCredentials | EmailAlreadyRegistered

  /** The fields `register` reads from its argument; `None` is `undefined`. */
  datatype Registration = Registration(
    email: Option<string>,
    phone: Option<string>,
    password: Option<string>,
    name: Option<string>,
    nativeLanguage: Option<string>,
    learningGoal: Option<string>)

  const BeginnerLevel := "Beginner (N5-N4)"
  const TotalLessons := 20

  /** The keys every mock user created by `login` has. */
  const LoginKeys: set<string> := {
    "id", "name", "email", "nativeLanguage", "learningGoal", "level", "completedLessons",
    "totalLessons", "totalStudyTime", "currentStreak", "achievements", "authToken" }

  /** The progress fields a fresh mock user starts with. */
  predicate FreshProgress(u: Record)
  {
    && "level" in u && u["level"] == Str(BeginnerLevel)
    && "completedLessons" in u && u["completedLessons"] == Num(0)
    && "totalLessons" in u && u["totalLessons"] == Num(TotalLessons)
    && "totalStudyTime" in u && u["totalStudyTime"] == Num(0)
    && "currentStreak" in u && u["currentStreak"] == Num(0)
    && "achievements" in u && u["achievements"] == List([])
  }

  // ---------------------------------------------------------------------
  // login

  /** The mock back end's rejection rule for `login`. */
  predicate LoginRejected(identifier: string, password: string)
  {
    identifier == "fail@test.com" || password == "wrong"
  }

  /** The mock user `login` creates; `now` and `tokenNow` are the two
      `Date.now()` readings (for the id and for the token). The name is the
      text before the first '@' of an e-mail identifier and the identifier
      itself otherwise; the e-mail is the identifier, or the identifier at
      example.com when it has no '@'. */
  function LoginUser(identifier: string, now: nat, tokenNow: nat): (u: Record)
    ensures u.Keys == LoginKeys && FreshProgress(u)
    ensures u["id"] == Num(now)
    ensures u["name"].Str? && '@' !in u["name"].s
    ensures '@' in identifier ==> u["name"].s + "@" <= identifier
    ensures '@' !in identifier ==> u["name"].s == identifier
    ensures u["email"].Str? && '@' in u["email"].s
    ensures u["email"].s == if '@' in identifier then identifier else identifier + "@example.com"
    ensures u["nativeLanguage"] == Str("English") && u["learningGoal"] == Str("General Conversation")
    ensures u["authToken"] == Str("mock_login_token_" + Decimal(tokenNow)) && Truthy(u["authToken"])
  {
    var hasAt := '@' in identifier;
    var email := if hasAt then identifier else identifier + "@example.com";
    assert '@' in email by {
      if !hasAt { assert email[|identifier|] == '@'; }
    }
    map[
      "id" := Num(now),
      "name" := Str(if hasAt then BeforeFirst(identifier, '@') else identifier),
      "email" := Str(email),
      "nativeLanguage" := Str("English"),
      "learningGoal" := Str("General Conversation"),
      "level" := Str(BeginnerLevel),
      "completedLessons" := Num(0),
      "totalLessons" := Num(TotalLessons),
      "totalStudyTime" := Num(0),
      "currentStreak" := Num(0),
      "achievements" := List([]),
      "authToken" := Str("mock_login_token_" + Decimal(tokenNow))]
  }

  /** What the promise `login` returns settles with. */
  function LoginResult(identifier: string, password: string, now: nat, tokenNow: nat): (r: Result<Record, AuthError>)
    ensures r.Failure? <==> LoginRejected(identifier, password)
    ensures r.Failure? ==> r.error == InvalidCredentials
    ensures r.Success? ==> r.value == LoginUser(identifier, now, tokenNow)
  {
    if LoginRejected(identifier, password) then Failure(InvalidCredentials)
    else Success(LoginUser(identifier, now, tokenNow))
  }

  // ---------------------------------------------------------------------
  // register

  /** The mock back end's rejection rule for `register`. */
  predicate RegisterRejected(data: Registration)
  {
    data.email == Some("duplicate@test.com")
  }

  /** The mock user `register` creates. Every key is present, even when the
      registration left the field `undefined`; the name is the given name if
      it is non-empty, else the part of a non-empty e-mail before its first
      '@', else the phone. */
  function RegisterUser(data: Registration, now: nat, tokenNow: nat): (u: Record)
    ensures u.Keys == LoginKeys + {"phone"} && FreshProgress(u)
    ensures u["id"] == Num(now)
    ensures u["email"] == FromOptional(data.email) && u["phone"] == FromOptional(data.phone)
    ensures u["nativeLanguage"] == FromOptional(data.nativeLanguage)
    ensures u["learningGoal"] == FromOptional(data.learningGoal)
    ensures Truthy(FromOptional(data.name)) ==> u["name"] == Str(data.name.value)
    ensures !Truthy(FromOptional(data.name)) && Truthy(FromOptional(data.email)) ==>
      u["name"].Str? && '@' !in u["name"].s &&
      ('@' in data.email.value ==> u["name"].s + "@" <= data.email.value) &&
      ('@' !in data.email.value ==> u["name"].s == data.email.value)
    ensures !Truthy(FromOptional(data.name)) && !Truthy(FromOptional(data.email)) ==>
      u["name"] == FromOptional(data.phone)
    ensures u["authToken"] == Str("mock_register_token_" + Decimal(tokenNow)) && Truthy(u["authToken"])
  {
    var name :=
      if Truthy(FromOptional(data.name)) then FromOptional(data.name)
      else if Truthy(FromOptional(data.email)) then Str(BeforeFirst(data.email.value, '@'))
      else FromOptional(data.phone);
    map[
      "id" := Num(now),
      "name" := name,
      "email" := FromOptional(data.email),
      "phone" := FromOptional(data.phone),
      "nativeLanguage" := FromOptional(data.nativeLanguage),
      "learningGoal" := FromOptional(data.learningGoal),
      "level" := Str(BeginnerLevel),
      "completedLessons" := Num(0),
      "totalLessons" := Num(TotalLessons),
      "totalStudyTime" := Num(0),
      "currentStreak" := Num(0),
      "achievements" := List([]),
      "authToken" := Str("mock_register_token_" + Decimal(tokenNow))]
  }

  /** What the promise `register` returns settles with. */
  function RegisterResult(data: Registration, now: nat, tokenNow: nat): (r: Result<Record, AuthError>)
    ensures r.Failure? <==> RegisterRejected(data)
    ensures r.Failure? ==> r.error == EmailAlreadyRegistered
    ensures r.Success? ==> r.value == RegisterUser(data, now, tokenNow)
  {
    if RegisterRejected(data) then Failure(EmailAlreadyRegistered)
    else Success(RegisterUser(data, now, tokenNow))
  }

  // ---------------------------------------------------------------------
  // loginSuccess, sendMessage, getAIResponse

  /** The user `loginSuccess` installs and resolves with: the given data
      with its token kept when truthy and replaced by a generated one
      otherwise. */
  function SessionUser(userData: Record, now: nat): (u: Record)
    ensures u.Keys == userData.Keys + {"authToken"}
    ensures forall k :: k in userData && k != "authToken" ==> u[k] == userData[k]
    ensures Truthy(u["authToken"])
    ensures Truthy(Get(userData, "authToken")) ==> u["authToken"] == userData["authToken"]
    ensures !Truthy(Get(userData, "authToken")) ==> u["authToken"] == Str("mock_token_" + Decimal(now))
  {
    var token := Get(userData, "authToken");
    userData["authToken" := if Truthy(token) then token else Str("mock_token_" + Decimal(now))]
  }

  /** The message `sendMessage` appends and resolves with. */
  function UserMessage(text: string, userId: Value, now: int, timestamp: int): (m: Message)
    ensures m.sender == "user" && m.text == text && m.userId == userId
    ensures m.id == now && m.timestamp == timestamp
  {
    Message(now, "user", text, timestamp, userId)
  }

  const SimulatedPrefix := "This is a simulated response from the AI for your input: \""
  const SimulatedSuffix := "\". In a real application, this would be generated by the Qwen AI model based on the provided context and conversation history."

  /** `getAIResponse`: a fixed sentence quoting the input. The tutor service
      is not called, and the context and history are not used. */
  function GetAIResponse(userInput: string, context: string, history: seq<Message>): (r: string)
    ensures |r| == |SimulatedPrefix| + |userInput| + |SimulatedSuffix|
    ensures SimulatedPrefix <= r
    ensures r[|SimulatedPrefix|..|SimulatedPrefix| + |userInput|] == userInput
    ensures r[|SimulatedPrefix| + |userInput|..] == SimulatedSuffix
  {
    SimulatedPrefix + userInput + SimulatedSuffix
  }

  /** The reply depends on the input only. */
  lemma GetAIResponseIgnoresContext(userInput: string, c1: string, h1: seq<Message>, c2: string, h2: seq<Message>)
    ensures GetAIResponse(userInput, c1, h1) == GetAIResponse(userInput, c2, h2)
  {
  }

  // ---------------------------------------------------------------------
  // The actions as transitions

  datatype Action =
    | Login(identifier: string, password: string, now: nat, tokenNow: nat)
    | Register(data: Registration, now: nat, tokenNow: nat)
    | LoginSuccess(userData: Record, now: nat)
    | Logout
    | SendMessage(text: string, userId: Value, now: nat, timestamp: int)
    | AddMessage(message: Message)
    | CompleteLesson(lessonId: Value)
    | UpdateUser(userData: Record)

  /** `commit('SET_USER', user); commit('SET_AUTH_STATUS', { isAuthenticated:
      true, authToken: user.authToken })`, the tail of every sign-in. */
  function SignIn(s: StoreState, user: Record): (r: StoreState)
    requires "authToken" in user && Truthy(user["authToken"])
    ensures r.user == Some(Merge(s.user, user))
    ensures r.isAuthenticated && r.authToken == user["authToken"]
    ensures r.lessons == s.lessons && r.conversation == s.conversation
    ensures AuthConsistent(r)
  {
    Mutations.SetAuthStatus(Mutations.SetUser(s, user), true, user["authToken"])
  }

  /** The state after dispatching `a` in state `s`. No action changes the
      catalog, and the conversation only ever grows, by at most one entry at
      the end. */
  function Apply(s: StoreState, a: Action): (r: StoreState)
    ensures r.lessons == s.lessons
    ensures |s.conversation| <= |r.conversation| <= |s.conversation| + 1
    ensures r.conversation[..|s.conversation|] == s.conversation
  {
    match a
    case Login(identifier, password, now, tokenNow) =>
      if LoginRejected(identifier, password) then s
      else SignIn(s, LoginUser(identifier, now, tokenNow))
    case Register(data, now, tokenNow) =>
      if RegisterRejected(data) then s
      else SignIn(s, RegisterUser(data, now, tokenNow))
    case LoginSuccess(userData, now) =>
      SignIn(s, SessionUser(userData, now))
    case Logout =>
      Mutations.Logout(s)
    case SendMessage(text, userId, now, timestamp) =>
      Mutations.AddMessage(s, UserMessage(text, userId, now, timestamp))
    case AddMessage(message) =>
      Mutations.AddMessage(s, message)
    case CompleteLesson(lessonId) =>
      Mutations.UpdateUserLessonProgress(s, lessonId)
    case UpdateUser(userData) =>
      Mutations.SetUser(s, userData)
  }

  /** The state after dispatching the actions one after the other. */
  function Run(s: StoreState, actions: seq<Action>): StoreState
    decreases |actions|
  {
    if actions == [] then s else Run(Apply(s, actions[0]), actions[1..])
  }

  /** Every action keeps the authentication invariant. */
  lemma ApplyKeepsAuthConsistent(s: StoreState, a: Action)
    requires AuthConsistent(s)
    ensures AuthConsistent(Apply(s, a))
  {
    match a
    case CompleteLesson(lessonId) =>
      var r := Mutations.UpdateUserLessonProgress(s, lessonId);
      assert r.isAuthenticated == s.isAuthenticated && r.authToken == s.authToken;
      assert s.user.Some? ==> r.user.Some?;
    case _ =>
  }

  /** Every state reached from a consistent state by dispatching actions is
      consistent. */
  lemma {:induction false} RunKeepsAuthConsistent(s: StoreState, actions: seq<Action>)
    requires AuthConsistent(s)
    ensures AuthConsistent(Run(s, actions))
    decreases |actions|
  {
    if actions != [] {
      ApplyKeepsAuthConsistent(s, actions[0]);
      RunKeepsAuthConsistent(Apply(s, actions[0]), actions[1..]);
    }
  }

  // ---------------------------------------------------------------------
  // Properties of single actions

  /** `login` rejects exactly on the sentinels and then changes nothing; on
      success it merges the mock user into the current one and signs in with
      the mock user's token. */
  lemma LoginOutcome(s: StoreState, identifier: string, password: string, now: nat, tokenNow: nat)
    ensures var r := Apply(s, Login(identifier, password, now, tokenNow));
      var u := LoginUser(identifier, now, tokenNow);
      (LoginRejected(identifier, password) ==> r == s) &&
      (!LoginRejected(identifier, password) ==>
        r.user == Some(Merge(s.user, u)) && r.isAuthenticated && r.authToken == u["authToken"] &&
        r.lessons == s.lessons && r.conversation == s.conversation)
  {
  }

  /** Because `SET_USER` merges, a field of the earlier user that the login
      mock user does not have (such as the phone from an earlier
      registration) survives a later login. */
  lemma LoginKeepsEarlierPhone(s: StoreState, identifier: string, password: string, now: nat, tokenNow: nat)
    requires s.user.Some? && "phone" in s.user.value
    requires !LoginRejected(identifier, password)
    ensures var r := Apply(s, Login(identifier, password, now, tokenNow));
      r.user.Some? && "phone" in r.user.value && r.user.value["phone"] == s.user.value["phone"]
  {
    var u := LoginUser(identifier, now, tokenNow);
    assert "phone" !in u;
    assert Apply(s, Login(identifier, password, now, tokenNow)).user == Some(Merge(s.user, u));
  }

  /** `register` rejects exactly the sentinel e-mail and then changes
      nothing; on success it merges the mock user in and signs in. */
  lemma RegisterOutcome(s: StoreState, data: Registration, now: nat, tokenNow: nat)
    ensures var r := Apply(s, Register(data, now, tokenNow));
      var u := RegisterUser(data, now, tokenNow);
      (RegisterRejected(data) ==> r == s) &&
      (!RegisterRejected(data) ==>
        r.user == Some(Merge(s.user, u)) && r.isAuthenticated && r.authToken == u["authToken"] &&
        r.lessons == s.lessons && r.conversation == s.conversation)
  {
  }

  /** A registration without a phone still writes the `phone` key, so an
      earlier phone is overwritten by `undefined`. */
  lemma RegisterWithoutPhoneClearsPhone(s: StoreState, data: Registration, now: nat, tokenNow: nat)
    requires !RegisterRejected(data) && data.phone.None?
    ensures var r := Apply(s, Register(data, now, tokenNow));
      r.user.Some? && Get(r.user.value, "phone") == Undefined
  {
  }

  /** `loginSuccess` keeps a truthy token of the given data, generates one
      otherwise, and signs in with it. */
  lemma LoginSuccessToken(s: StoreState, userData: Record, now: nat)
    ensures var r := Apply(s, LoginSuccess(userData, now));
      r.isAuthenticated && r.user.Some? && Truthy(r.authToken) &&
      r.authToken == Get(r.user.value, "authToken") &&
      (Truthy(Get(userData, "authToken")) ==> r.authToken == userData["authToken"]) &&
      (!Truthy(Get(userData, "authToken")) ==> r.authToken == Str("mock_token_" + Decimal(now)))
  {
  }

  /** `sendMessage` appends exactly one entry, the message it resolves with,
      sent by the user; everything before it is kept in order. */
  lemma SendMessageAppends(s: StoreState, text: string, userId: Value, now: nat, timestamp: int)
    ensures var r := Apply(s, SendMessage(text, userId, now, timestamp));
      var m := UserMessage(text, userId, now, timestamp);
      |r.conversation| == |s.conversation| + 1 &&
      r.conversation[..|s.conversation|] == s.conversation &&
      r.conversation[|s.conversation|] == m && m.sender == "user" &&
      r.user == s.user && r.isAuthenticated == s.isAuthenticated && r.authToken == s.authToken
  {
  }

  /** The authentication invariant holds in one direction only: `updateUser`
      on a logged-out store creates a user from the given fields while the
      flag stays clear. */
  lemma UpdateUserWhileLoggedOut(s: StoreState, userData: Record)
    requires AuthConsistent(s) && s.user.None?
    ensures var r := Apply(s, UpdateUser(userData));
      r.user == Some(userData) && r.isAuthenticated == s.isAuthenticated && r.authToken == s.authToken
  {
  }
}
