# Minnano Sensei: session store, tutor service and auth helpers

This project models the logic of the Minnano Sensei Japanese-tutor web app in Dafny. It covers three parts.

- **The session store** (`src/store/index.js`). Its state holds:
  - the current user record;
  - the authenticated flag and the token;
  - the read-only lesson catalog;
  - the append-only conversation.

  The mutations (`SET_AUTH_STATUS`, `ADD_MESSAGE`, `UPDATE_USER_LESSON_PROGRESS`, `SET_USER`, `LOGOUT`) update the state in place. The actions (`login`, `register`, `sendMessage`, `getAIResponse`, `loginSuccess`, `logout`, `addMessage`, `completeLesson`, `updateUser`) run mutations one after another, except `getAIResponse`, which commits nothing. The getters `getLessonById` and `getUserStats` are queries.
- **The tutor service** (`src/api/aiService.js`). It contains:
  - the fallback tutor `generateMockResponse`, a keyword classifier over the lower-cased input, tried in priority order;
  - the request shaping and reply selection of `generateResponse`;
  - `isConfigured`.
- **The auth helpers** (`src/utils/auth.js`): `isAuthenticated`, `getAuthToken` and `logout`.

Layout:

- `wrappers.dfy`: `Option` and `Result`.
- `text.dfy`: the string operations the source relies on: `includes`, ASCII `toLowerCase`, `split('@')[0]`, decimal rendering of `Date.now()` and `join`.
- `js.dfy`: JavaScript values as the user record holds them. It covers truthiness, object spread, `+= 1`, `Number(...)` coercion and `Math.round` of a percentage.
- `messages.dfy`: a conversation entry.
- `session.dfy`: the store state, the initial state, the auth invariant and the lesson lookup.
- `mutations.dfy` and `actions.dfy`: the mutations, and the actions as transitions on the state value. `actions.dfy` also holds the invariant proofs.
- `getters.dfy`: the derived queries.
- `store.dfy`: the class `SessionStore`. Its fields are updated in place, and each method is proved to reach the state the transition functions give.
- `ai_service.dfy`: the fallback tutor, the message list and the choice/fallback rule.
- `auth.dfy`: the helpers.

The parts of the app that are not deterministic are parameters:

- every `Date.now()` and `new Date()` reading is an argument;
- the `Math.random()` pick among the five default replies is a `roll` with `0 <= roll < 5`;
- the HTTP completion call is a function `remote` from the posted message list to an outcome (failure, or a body with optional choices).

The user record is a map from property names to values. A key present with the value `undefined` is different from a missing key. This matters because the effective `SET_USER` is a spread merge: spreading copies keys whose value is `undefined`.

Points where the code behaves differently from what one might expect:

- The auth invariant holds in one direction only. The flag implies a user and a truthy token (`Actions.RunKeepsAuthConsistent`), but `updateUser` on a logged-out store creates a user while the flag stays false (`Actions.UpdateUserWhileLoggedOut`).
- Senders are stored as `'ai'` and `'user'`; `'ai'` becomes `assistant` only in the API request.
- `SET_USER` is declared twice in the mutations object. The later declaration, the shallow merge at `src/store/index.js:152-154`, replaces the first, so the model uses the merge only.
- `getAIResponse` in the store does not call the tutor service. It returns a fixed sentence quoting the input.

## Model

| member | source | states |
|---|---|---|
| Text.ContainsIffOccurs | src/api/aiService.js:87-103 | `includes` holds exactly when the keyword occurs at some position of the input |
| Text.Lower | src/api/aiService.js:84 | lower-casing keeps the length and lower-cases each character in place |
| Text.LowerIdempotent | src/api/aiService.js:84 | lower-casing an already lower-cased input changes nothing |
| Text.BeforeFirst | src/store/index.js:178 | `split('@')[0]` contains no '@'; followed by '@' it is a prefix of the input; without an '@' it is the whole input |
| Text.Decimal | src/store/index.js:188 | the rendered number is a non-empty digit string without a leading zero |
| Text.DecimalRoundTrip | src/store/index.js:188 | reading the rendered number back gives the number |
| Js.FromOptional | src/store/index.js:202-217 | an omitted field reads as `undefined` and a given one as that string; the value is truthy exactly when a non-empty string was given |
| Js.Merge | src/store/index.js:152-154 | spread merge: the payload's keys win, the other keys of the old user are kept, the keys are the union, and merging into `null` yields exactly the payload |
| Js.TruthyIsToBoolean | src/store/index.js:145 | `Js.Truthy` agrees with `Boolean(v)`: a number is truthy unless it is 0 or NaN (with `null` and `undefined` converting to 0 and NaN), a string unless it is empty, an array always |
| Js.PlusOne | src/store/index.js:148 | `+= 1` concatenates "1" to a string or to an array's comma-joined form, and otherwise converts to a number and adds 1, NaN staying NaN |
| Js.ToNumber | src/store/index.js:310 | `Number(v)`: `null` is 0, `undefined` and NaN are NaN, a string by its digits, an array through its comma-joined string |
| Js.JoinHasSeparator | src/store/index.js:310 | an array of two or more elements never converts to a number |
| Js.RoundedPercent | src/store/index.js:310 | the result is the integer nearest to 100·c/t, halves rounding up, for either sign of t |
| Js.ProgressPercentage | src/store/index.js:310 | numeric operands with a non-zero total give the nearest-integer percentage (`Js.RoundedPercent`); non-numeric operands give NaN; a zero total gives ±Infinity or NaN; a finite result needs numeric operands and a non-zero total |
| Js.OneOfTwentyIsFive | src/store/index.js:310 | 1 of 20 lessons rounds to 5 |
| Session.Initial | src/store/index.js:4-132 | the store starts with no user, the flag clear, a `null` token and the three-lesson catalog, one welcome message from the tutor (id 1, created at the start time, no user id), and it satisfies the auth invariant |
| Session.FindIndex | src/store/index.js:146 | `findIndex` with strict equality: -1 exactly when no lesson has the id, else the first index whose lesson has it |
| Mutations.SetUser | src/store/index.js:152-154 | the user becomes the merge of the old user and the payload; nothing else changes |
| Mutations.SetAuthStatus | src/store/index.js:137-140 | the flag and token are set as given, with a missing token stored as `null`; nothing else changes |
| Mutations.AddMessage | src/store/index.js:141-143 | exactly one entry is appended at the end; earlier entries keep their values and order |
| Mutations.UpdateUserLessonProgress | src/store/index.js:144-151 | `completedLessons` becomes its `+= 1` value exactly when a user is set and a lesson has the id; otherwise the whole state is unchanged |
| Mutations.Logout | src/store/index.js:155-159 | no user, the flag clear and the token `null`; the catalog and conversation are kept |
| Mutations.LogoutIdempotent | src/store/index.js:155-159 | logging out twice equals logging out once |
| Mutations.ProgressCountsOne | src/store/index.js:144-151 | with a numeric counter, completing an existing lesson adds exactly 1 and leaves every other user field and the rest of the state as they were |
| Mutations.ProgressTwiceCountsTwice | src/store/index.js:144-151 | completing the same lesson twice adds 2 |
| Actions.LoginUser | src/store/index.js:176-189 | the login mock user: fixed keys, fresh progress (0 of 20, Beginner), the name before the first '@' or the identifier, the e-mail as given or at example.com, and a truthy `mock_login_token_` token |
| Actions.LoginResult | src/store/index.js:162-196 | `login` rejects with invalid credentials exactly on `fail@test.com` or password `wrong`, and otherwise resolves with the mock user |
| Actions.RegisterUser | src/store/index.js:211-225 | the registration mock user: all fields present even when `undefined`, name = name, else the e-mail prefix, else the phone, fresh progress, and a truthy `mock_register_token_` token |
| Actions.RegisterResult | src/store/index.js:197-231 | `register` rejects exactly on `duplicate@test.com` and otherwise resolves with the mock user |
| Actions.SessionUser | src/store/index.js:263-266 | `loginSuccess` keeps every supplied field and a truthy supplied token, and otherwise generates a `mock_token_` token; the token is always truthy |
| Actions.UserMessage | src/store/index.js:235-241 | the sent message has sender `user` and the given text, user id, id and timestamp |
| Actions.GetAIResponse | src/store/index.js:249-260 | the reply is the fixed prefix, the input verbatim, then the fixed suffix |
| Actions.GetAIResponseIgnoresContext | src/store/index.js:249-260 | the reply does not depend on the context or the history |
| Actions.Apply | src/store/index.js:162-283 | the dispatch of every action: none changes the catalog, and the conversation only grows, by at most one entry at the end |
| Actions.SignIn | src/store/index.js:191-192 | after `SET_USER` then `SET_AUTH_STATUS`, the user is the merge, the flag is set with the user's token, and the invariant holds |
| Actions.ApplyKeepsAuthConsistent | src/store/index.js:162-283 | every action keeps "flag ⇒ user present and token truthy; no flag ⇒ token `null`" |
| Actions.RunKeepsAuthConsistent | src/store/index.js:162-283 | every sequence of actions from a consistent state ends in a consistent state |
| Actions.LoginOutcome | src/store/index.js:170-193 | a rejected login changes nothing; an accepted one merges the mock user in and signs in with its token |
| Actions.LoginKeepsEarlierPhone | src/store/index.js:176-191 | a phone left by an earlier registration survives a later login |
| Actions.RegisterOutcome | src/store/index.js:205-229 | a rejected registration changes nothing; an accepted one merges the mock user in and signs in with its token |
| Actions.RegisterWithoutPhoneClearsPhone | src/store/index.js:211-215 | a registration without a phone overwrites any earlier phone with `undefined` |
| Actions.LoginSuccessToken | src/store/index.js:261-270 | `loginSuccess` signs in with a truthy token equal to the stored user's, keeping a truthy supplied token |
| Actions.SendMessageAppends | src/store/index.js:233-248 | `sendMessage` appends exactly its returned user message at the end and keeps the earlier entries and the auth state |
| Actions.UpdateUserWhileLoggedOut | src/store/index.js:281-283 | on a logged-out store, `updateUser` yields a user made of exactly the payload while the flag stays clear |
| Getters.GetLessonById | src/store/index.js:291-293 | `find` yields nothing exactly when no lesson has the id, and otherwise the first lesson that has it |
| Getters.GetUserStats | src/store/index.js:294-312 | with no user, 0 of 20 at 0%; otherwise the stored counters (`undefined` when absent) and `Math.round` of completed over total after numeric coercion, which is NaN when a counter is missing |
| Getters.OneOfTwentyStats | src/store/index.js:294-312 | a user with 1 of 20 lessons completed is at 5% |
| Getters.FreshUserStats | src/store/index.js:294-312 | a freshly created mock user is at 0 of 20, 0% |
| Store.SessionStore.constructor | src/store/index.js:4-132 | the new store holds the initial state and satisfies the invariant |
| Store.SessionStore.CommitSetUser | src/store/index.js:152-154 | the fields become the `SET_USER` state |
| Store.SessionStore.CommitSetAuthStatus | src/store/index.js:137-140 | the fields become the `SET_AUTH_STATUS` state |
| Store.SessionStore.CommitAddMessage | src/store/index.js:141-143 | the fields become the `ADD_MESSAGE` state |
| Store.SessionStore.CommitUpdateUserLessonProgress | src/store/index.js:144-151 | the fields become the `UPDATE_USER_LESSON_PROGRESS` state |
| Store.SessionStore.CommitLogout | src/store/index.js:155-159 | the fields become the `LOGOUT` state |
| Store.SessionStore.Login | src/store/index.js:162-196 | returns the login result, ends in the transition's state and keeps the invariant |
| Store.SessionStore.Register | src/store/index.js:197-231 | returns the registration result, ends in the transition's state and keeps the invariant |
| Store.SessionStore.SendMessage | src/store/index.js:233-248 | returns the user message, ends in the transition's state and keeps the invariant |
| Store.SessionStore.LoginSuccess | src/store/index.js:261-270 | returns the session user, ends in the transition's state and is consistent afterwards |
| Store.SessionStore.Logout | src/store/index.js:271-274 | ends in the logged-out state, which is consistent |
| Store.SessionStore.AddMessage | src/store/index.js:275-277 | ends in the transition's state and keeps the invariant |
| Store.SessionStore.CompleteLesson | src/store/index.js:278-280 | ends in the transition's state and keeps the invariant |
| Store.SessionStore.UpdateUser | src/store/index.js:281-283 | ends in the transition's state and keeps the invariant |
| AIService.MatchesTable | src/api/aiService.js:87-103 | each category matches exactly when one of its keywords occurs; the question category needs both "how" and "say" |
| AIService.ClassifyIsFirstMatch | src/api/aiService.js:87-105 | the if/else chain picks the first matching category of the priority list |
| AIService.FirstMatchAt | src/api/aiService.js:87-105 | the first match is category i exactly when category i matches and no earlier one does |
| AIService.ClassifyPriority | src/api/aiService.js:87-105 | the input is classified as priority entry i exactly when that entry matches and none before it does |
| AIService.CannedIsNotDefault | src/api/aiService.js:88-114 | no category reply is one of the five default replies |
| AIService.GenerateMockResponse | src/api/aiService.js:83-116 | the reply is a default reply exactly when no category matches the lower-cased input, and otherwise it is the first matching category's reply |
| AIService.MockResponsePriority | src/api/aiService.js:87-104 | the reply is category i's reply exactly when category i matches and no earlier category does |
| AIService.QuestionKeywords | src/api/aiService.js:95 | the question category matches exactly when both "how" and "say" occur |
| AIService.QuestionNeedsHowAndSay | src/api/aiService.js:95 | the question reply requires both "how" and "say" in the input |
| AIService.NoMatchGivesDefault | src/api/aiService.js:105-115 | with no keyword present, the reply is the default reply picked by the roll |
| AIService.MockResponseIgnoresCase | src/api/aiService.js:84 | inputs with the same lower-cased form get the same reply |
| AIService.HelloThereIsGreeting | src/api/aiService.js:87-88 | "Hello there" gets the greeting reply |
| AIService.GreetingWins | src/api/aiService.js:84-88 | any input whose lower-cased form contains a greeting keyword gets the greeting reply, whatever else it contains |
| AIService.ShoutedHelloIsGreeting | src/api/aiService.js:84-88 | "HELLO" and "hello" both get the greeting reply |
| AIService.Retag | src/api/aiService.js:45-48 | history entry i becomes request entry i with the same text, and its role is `assistant` exactly when the sender was `ai` (never `system`) |
| AIService.BuildMessages | src/api/aiService.js:38-53 | the request has the history's length plus 2: the persona with the context first, the re-tagged history in order, the new input last |
| AIService.FirstChoice | src/api/aiService.js:63-67 | a reply exists exactly when the call succeeded with a non-empty `choices` whose first entry has a message, and it is that message's content |
| AIService.IsConfigured | src/api/aiService.js:122-124 | configured exactly when the key is non-empty |
| AIService.GenerateResponse | src/api/aiService.js:30-76 | without a key, the fallback reply; with a key, the remote first choice for exactly the built request, or the fallback reply; it always yields a string |
| AIService.UnconfiguredMakesNoCall | src/api/aiService.js:31-34 | without a key the reply does not depend on the remote service |
| AIService.ConfiguredReply | src/api/aiService.js:36-75 | with a key, the first choice when there is one, and the fallback reply on failure or missing choices |
| Auth.IsAuthenticated | src/utils/auth.js:11 | true exactly when the flag is set and a user is present; in a consistent state it equals the flag |
| Auth.GetAuthToken | src/utils/auth.js:18-20 | the stored token unchanged; in a consistent state the token is `null` exactly when nobody is signed in, and truthy otherwise |
| Auth.Logout | src/utils/auth.js:25-27 | after `logout()` nobody is signed in and the token is `null` |
| Auth.ReachableStatesAgree | src/utils/auth.js:11 | in every state reachable from the initial store, `isAuthenticated()` equals the flag and the token is `null` exactly when it is false |
| Auth.LoginThenLogout | src/utils/auth.js:11-27 | after a successful login the helper says signed in with the login token; after logout it says signed out with a `null` token |

## Left out

- The HTTP layer is not modelled. This covers the axios client, the bearer header, the timeout, the POST body (model, temperature, token limit) and console logging. The remote call is the parameter `remote`.
- `setTimeout` delays and promise wrapping are not modelled. An action is one synchronous transition; a rejection is a `Failure` result that leaves the state unchanged.
- Clock readings and `Math.random()` are parameters. The model does not claim that ids are unique or increasing.
- Text.Lower: only ASCII letters are lower-cased. Full Unicode `toLowerCase` is not modelled; the Japanese keywords have no case.
- Numbers in the user record are integers. Floating-point arithmetic, `Infinity` and booleans as stored values are not modelled. `Math.round` is computed exactly by `Js.RoundedPercent`, without float rounding error.
- Js.ToNumber: string coercion covers only the empty string and plain digit strings. Signs, decimals, exponents and surrounding whitespace read as NaN.
- Js.Value: nested objects and arrays of non-strings are not property values. `achievements` is a list of strings.
- AIService.FirstChoice: a first choice whose message has no `content` makes `generateResponse` return `undefined` in the source. The model treats the message's content as a string.
- The lesson catalog keeps only the ids, titles, textbook and chapter. The `content`, grammar points, vocabulary and exercises are static prose.
- The first `SET_USER` declaration (`src/store/index.js:134-136`) is not modelled: the later declaration replaces it in the object literal.
- The getters `getUser`, `isAuthenticated`, `getAuthToken`, `getLessons` and `getConversation` are not separate members. They are plain field reads, available as the fields of `Session.StoreState`.
- Logged out does not imply no user (see above); only the one-way invariant is claimed.
- The router (`src/router/index.js`), the build configuration (`vite.config.js`) and the Vuex machinery (reactivity, `createStore`, the singleton exports) are not part of this model.
