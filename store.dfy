/** The session store as the object the application holds: its state
    fields are updated in place by the mutations, and the actions run
    mutations one after the other. Each method is specified by the
    functions of `Mutations` and `Actions`, whose properties are proved
    there. */
module Store {
  import opened Wrappers
  import opened Js
  import opened Messages
  import opened Session
  import Mutations
  import Actions

  class SessionStore {
    var user: Option<Record>
    var isAuthenticated: bool
    var authToken: Value
    /** The catalog; no mutation changes it. */
    const lessons: seq<Lesson>
    var conversation: seq<Message>

    /** The store's state as a value. */
    function State(): StoreState
      reads this
    {
      StoreState(user, isAuthenticated, authToken, lessons, conversation)
    }

    /** The authentication invariant on the current state. */
    ghost predicate Valid()
      reads this
    {
      AuthConsistent(State())
    }

    /** The store as created at time `startTime`. */
    constructor(startTime: int)
      ensures State() == Initial(startTime)
      ensures Valid()
    {
      user := None;
      isAuthenticated := false;
      authToken := Null;
      lessons := Catalog();
      conversation := [Message(1, "ai", WelcomeText, startTime, Undefined)];
    }

    // -------------------------------------------------------------------
    // Mutations

    method CommitSetUser(userData: Record)
      modifies this
      ensures State() == Mutations.SetUser(old(State()), userData)
    {
      user := Some(Merge(user, userData));
    }

    method CommitSetAuthStatus(flag: bool, token: Value)
      modifies this
      ensures State() == Mutations.SetAuthStatus(old(State()), flag, token)
    {
      isAuthenticated := flag;
      authToken := if token == Undefined then Null else token;
    }

    method CommitAddMessage(message: Message)
      modifies this
      ensures State() == Mutations.AddMessage(old(State()), message)
    {
      conversation := conversation + [message];
    }

    method CommitUpdateUserLessonProgress(lessonId: Value)
      modifies this
      ensures State() == Mutations.UpdateUserLessonProgress(old(State()), lessonId)
    {
      if user.Some? {
        var lessonIndex := FindIndex(lessons, lessonId);
        if lessonIndex != -1 {
          var u := user.value;
          user := Some(u["completedLessons" := PlusOne(Get(u, "completedLessons"))]);
        }
      }
    }

    method CommitLogout()
      modifies this
      ensures State() == Mutations.Logout(old(State()))
    {
      user := None;
      isAuthenticated := false;
      authToken := Null;
    }

    // -------------------------------------------------------------------
    // Actions. Each one ends in the state `Actions.Apply` gives, returns
    // what its promise settles with, and keeps the invariant.

    method Login(identifier: string, password: string, now: nat, tokenNow: nat)
      returns (r: Result<Record, Actions.AuthError>)
      modifies this
      ensures r == Actions.LoginResult(identifier, password, now, tokenNow)
      ensures State() == Actions.Apply(old(State()), Actions.Login(identifier, password, now, tokenNow))
      ensures old(Valid()) ==> Valid()
    {
      if Actions.LoginRejected(identifier, password) {
        return Failure(Actions.InvalidCredentials);
      }
      var mockUser := Actions.LoginUser(identifier, now, tokenNow);
      CommitSetUser(mockUser);
      CommitSetAuthStatus(true, mockUser["authToken"]);
      r := Success(mockUser);
    }

    method Register(data: Actions.Registration, now: nat, tokenNow: nat)
      returns (r: Result<Record, Actions.AuthError>)
      modifies this
      ensures r == Actions.RegisterResult(data, now, tokenNow)
      ensures State() == Actions.Apply(old(State()), Actions.Register(data, now, tokenNow))
      ensures old(Valid()) ==> Valid()
    {
      if Actions.RegisterRejected(data) {
        return Failure(Actions.EmailAlreadyRegistered);
      }
      var mockUser := Actions.RegisterUser(data, now, tokenNow);
      CommitSetUser(mockUser);
      CommitSetAuthStatus(true, mockUser["authToken"]);
      r := Success(mockUser);
    }

    method SendMessage(text: string, userId: Value, now: nat, timestamp: int) returns (m: Message)
      modifies this
      ensures m == Actions.UserMessage(text, userId, now, timestamp)
      ensures State() == Actions.Apply(old(State()), Actions.SendMessage(text, userId, now, timestamp))
      ensures old(Valid()) ==> Valid()
    {
      m := Message(now, "user", text, timestamp, userId);
      CommitAddMessage(m);
    }

    method LoginSuccess(userData: Record, now: nat) returns (u: Record)
      modifies this
      ensures u == Actions.SessionUser(userData, now)
      ensures State() == Actions.Apply(old(State()), Actions.LoginSuccess(userData, now))
      ensures Valid()
    {
      u := Actions.SessionUser(userData, now);
      CommitSetUser(u);
      CommitSetAuthStatus(true, u["authToken"]);
    }

    method Logout()
      modifies this
      ensures State() == Actions.Apply(old(State()), Actions.Logout)
      ensures Valid()
    {
      CommitLogout();
    }

    method AddMessage(message: Message)
      modifies this
      ensures State() == Actions.Apply(old(State()), Actions.AddMessage(message))
      ensures old(Valid()) ==> Valid()
    {
      CommitAddMessage(message);
    }

    method CompleteLesson(lessonId: Value)
      modifies this
      ensures State() == Actions.Apply(old(State()), Actions.CompleteLesson(lessonId))
      ensures old(Valid()) ==> Valid()
    {
      CommitUpdateUserLessonProgress(lessonId);
      if old(Valid()) {
        Actions.ApplyKeepsAuthConsistent(old(State()), Actions.CompleteLesson(lessonId));
      }
    }

    method UpdateUser(userData: Record)
      modifies this
      ensures State() == Actions.Apply(old(State()), Actions.UpdateUser(userData))
      ensures old(Valid()) ==> Valid()
    {
      CommitSetUser(userData);
    }
  }
}
