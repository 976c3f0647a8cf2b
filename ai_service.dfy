/** The tutor response service: the keyword-driven fallback tutor, the
    chat message list sent to the remote completion endpoint, and the choice
    of reply from the remote answer with fallback on every failure. The HTTP
    call itself is a parameter (`remote`), and the random index of the
    fallback tutor is a parameter (`roll`). */
module AIService {
  import opened Wrappers
  import opened Text
  import opened Messages

  // ---------------------------------------------------------------------
  // Fallback tutor

  /** The reply categories, plus the no-match case. */
  datatype Category =
    | Greeting | Thanks | Grammar | Vocabulary | Question
    | Counting | Polite | Particles | Help | NoMatch

  /** The order in which categories are tried; the first one that matches wins. */
  const Priority: seq<Category> :=
    [Greeting, Thanks, Grammar, Vocabulary, Question, Counting, Polite, Particles, Help]

  /** The keywords of each category. The question category is the one that
      needs two keywords at once, so it has its own test in `Matches`. */
  function Keywords(c: Category): seq<string>
  {
    match c
    case Greeting => ["hello", "こんにちは", "konnichiwa"]
    case Thanks => ["thank", "ありがとう", "arigato"]
    case Grammar => ["grammar", "grammer", "文法"]
    case Vocabulary => ["vocabulary", "vocab", "単語"]
    case Question => ["how", "say"]
    case Counting => ["counting", "numbers", "数"]
    case Polite => ["polite", "masu", "formal"]
    case Particles => ["particles", "助詞"]
    case Help => ["help"]
    case NoMatch => []
  }

  /** Some keyword of `ks` occurs in `s`. */
  function ContainsAny(s: string, ks: seq<string>): bool
  {
    if ks == [] then false else Contains(s, ks[0]) || ContainsAny(s, ks[1..])
  }

  /** Every keyword of `ks` occurs in `s`. */
  function ContainsAll(s: string, ks: seq<string>): bool
  {
    if ks == [] then true else Contains(s, ks[0]) && ContainsAll(s, ks[1..])
  }

  /** Category `c` applies to the (already lower-cased) input: any one of its
      keywords, except for the question category, which needs all of them. */
  predicate Matches(lowerInput: string, c: Category)
  {
    if c == Question then ContainsAll(lowerInput, Keywords(c))
    else ContainsAny(lowerInput, Keywords(c))
  }

  /** The if/else-if chain over the lower-cased input. */
  function Classify(lowerInput: string): Category
  {
    var l := lowerInput;
    if Contains(l, "hello") || Contains(l, "こんにちは") || Contains(l, "konnichiwa") then Greeting
    else if Contains(l, "thank") || Contains(l, "ありがとう") || Contains(l, "arigato") then Thanks
    else if Contains(l, "grammar") || Contains(l, "grammer") || Contains(l, "文法") then Grammar
    else if Contains(l, "vocabulary") || Contains(l, "vocab") || Contains(l, "単語") then Vocabulary
    else if Contains(l, "how") && Contains(l, "say") then Question
    else if Contains(l, "counting") || Contains(l, "numbers") || Contains(l, "数") then Counting
    else if Contains(l, "polite") || Contains(l, "masu") || Contains(l, "formal") then Polite
    else if Contains(l, "particles") || Contains(l, "助詞") then Particles
    else if Contains(l, "help") then Help
    else NoMatch
  }

  /** Reference definition: the first category of `cs` that matches, else
      `NoMatch` (which itself never matches: it has no keywords). */
  function FirstMatch(lowerInput: string, cs: seq<Category>): Category
  {
    if cs == [] then NoMatch
    else if Matches(lowerInput, cs[0]) then cs[0]
    else FirstMatch(lowerInput, cs[1..])
  }

  lemma ContainsAnyOfThree(s: string, a: string, b: string, c: string)
    ensures ContainsAny(s, [a, b, c]) == (Contains(s, a) || Contains(s, b) || Contains(s, c))
  {
    assert [a, b, c][1..] == [b, c];
    assert [b, c][1..] == [c];
    assert [c][1..] == [];
    assert ContainsAny(s, [c]) == Contains(s, c);
    assert ContainsAny(s, [b, c]) == (Contains(s, b) || ContainsAny(s, [c]));
  }

  lemma ContainsAnyOfTwo(s: string, a: string, b: string)
    ensures ContainsAny(s, [a, b]) == (Contains(s, a) || Contains(s, b))
  {
    assert [a, b][1..] == [b];
    assert [b][1..] == [];
    assert ContainsAny(s, [b]) == Contains(s, b);
  }

  /** The question category needs both of its keywords. */
  lemma QuestionKeywords(l: string)
    ensures Matches(l, Question) == (Contains(l, "how") && Contains(l, "say"))
  {
    assert ["how", "say"][1..] == ["say"];
    assert ["say"][1..] == [];
    assert ContainsAll(l, ["say"]) == Contains(l, "say");
  }

  /** The keyword table read category by category. */
  lemma MatchesTable(l: string)
    ensures Matches(l, Greeting) == (Contains(l, "hello") || Contains(l, "こんにちは") || Contains(l, "konnichiwa"))
    ensures Matches(l, Thanks) == (Contains(l, "thank") || Contains(l, "ありがとう") || Contains(l, "arigato"))
    ensures Matches(l, Grammar) == (Contains(l, "grammar") || Contains(l, "grammer") || Contains(l, "文法"))
    ensures Matches(l, Vocabulary) == (Contains(l, "vocabulary") || Contains(l, "vocab") || Contains(l, "単語"))
    ensures Matches(l, Question) == (Contains(l, "how") && Contains(l, "say"))
    ensures Matches(l, Counting) == (Contains(l, "counting") || Contains(l, "numbers") || Contains(l, "数"))
    ensures Matches(l, Polite) == (Contains(l, "polite") || Contains(l, "masu") || Contains(l, "formal"))
    ensures Matches(l, Particles) == (Contains(l, "particles") || Contains(l, "助詞"))
    ensures Matches(l, Help) == Contains(l, "help")
    ensures !Matches(l, NoMatch)
  {
    ContainsAnyOfThree(l, "hello", "こんにちは", "konnichiwa");
    ContainsAnyOfThree(l, "thank", "ありがとう", "arigato");
    ContainsAnyOfThree(l, "grammar", "grammer", "文法");
    ContainsAnyOfThree(l, "vocabulary", "vocab", "単語");
    QuestionKeywords(l);
    ContainsAnyOfThree(l, "counting", "numbers", "数");
    ContainsAnyOfThree(l, "polite", "masu", "formal");
    ContainsAnyOfTwo(l, "particles", "助詞");
    assert ["help"][1..] == [];
    assert ContainsAny(l, ["help"]) == Contains(l, "help");
  }

  lemma FirstMatchCons(l: string, c: Category, cs: seq<Category>)
    ensures FirstMatch(l, [c] + cs) == if Matches(l, c) then c else FirstMatch(l, cs)
  {
    assert ([c] + cs)[1..] == cs;
  }

  /** The first match over the last five categories of the priority list. */
  lemma FirstMatchUnrolledTail(l: string, tail: seq<Category>)
    requires tail == [Question, Counting, Polite, Particles, Help]
    ensures FirstMatch(l, tail) ==
      if Matches(l, Question) then Question
      else if Matches(l, Counting) then Counting
      else if Matches(l, Polite) then Polite
      else if Matches(l, Particles) then Particles
      else if Matches(l, Help) then Help
      else NoMatch
  {
    var p8 := [Help];
    var p7 := [Particles] + p8;
    var p6 := [Polite] + p7;
    var p5 := [Counting] + p6;
    assert tail == [Question] + p5;
    FirstMatchCons(l, Help, []);
    FirstMatchCons(l, Particles, p8);
    FirstMatchCons(l, Polite, p7);
    FirstMatchCons(l, Counting, p6);
    FirstMatchCons(l, Question, p5);
  }

  /** The first match over the priority list, written out as a chain. */
  lemma FirstMatchUnrolled(l: string)
    ensures FirstMatch(l, Priority) ==
      if Matches(l, Greeting) then Greeting
      else if Matches(l, Thanks) then Thanks
      else if Matches(l, Grammar) then Grammar
      else if Matches(l, Vocabulary) then Vocabulary
      else if Matches(l, Question) then Question
      else if Matches(l, Counting) then Counting
      else if Matches(l, Polite) then Polite
      else if Matches(l, Particles) then Particles
      else if Matches(l, Help) then Help
      else NoMatch
  {
    var p4 := [Question, Counting, Polite, Particles, Help];
    FirstMatchUnrolledTail(l, p4);
    var p3 := [Vocabulary] + p4;
    var p2 := [Grammar] + p3;
    var p1 := [Thanks] + p2;
    assert Priority == [Greeting] + p1;
    FirstMatchCons(l, Vocabulary, p4);
    FirstMatchCons(l, Grammar, p3);
    FirstMatchCons(l, Thanks, p2);
    FirstMatchCons(l, Greeting, p1);
  }

  /** The if/else-if chain is exactly "the first category in priority order
      whose keywords occur". */
  lemma ClassifyIsFirstMatch(lowerInput: string)
    ensures Classify(lowerInput) == FirstMatch(lowerInput, Priority)
  {
    MatchesTable(lowerInput);
    FirstMatchUnrolled(lowerInput);
  }

  /** In a list of distinct categories, the first match is the entry at `i`
      exactly when that entry matches and no earlier entry does. */
  lemma {:induction false} FirstMatchAt(lowerInput: string, cs: seq<Category>, i: nat)
    requires i < |cs|
    requires forall a, b :: 0 <= a < b < |cs| ==> cs[a] != cs[b]
    requires forall a :: 0 <= a < |cs| ==> cs[a] != NoMatch
    ensures FirstMatch(lowerInput, cs) == cs[i] <==>
      Matches(lowerInput, cs[i]) && forall j :: 0 <= j < i ==> !Matches(lowerInput, cs[j])
  {
    if i == 0 {
      if !Matches(lowerInput, cs[0]) {
        FirstMatchNotIn(lowerInput, cs[1..], cs[0]);
      }
    } else if Matches(lowerInput, cs[0]) {
      assert cs[0] != cs[i];
    } else {
      var rest := cs[1..];
      FirstMatchAt(lowerInput, rest, i - 1);
      assert rest[i - 1] == cs[i];
      assert forall j :: 0 <= j < i - 1 ==> rest[j] == cs[j + 1];
    }
  }

  /** The first match of `cs` is never a category absent from `cs`, other
      than `NoMatch`. */
  lemma {:induction false} FirstMatchNotIn(lowerInput: string, cs: seq<Category>, c: Category)
    requires c != NoMatch && c !in cs
    ensures FirstMatch(lowerInput, cs) != c
  {
    if cs != [] && !Matches(lowerInput, cs[0]) {
      FirstMatchNotIn(lowerInput, cs[1..], c);
    }
  }

  /** Category `Priority[i]` is chosen exactly when it matches and no
      category before it in priority order matches. */
  lemma ClassifyPriority(lowerInput: string, i: nat)
    requires i < |Priority|
    ensures Classify(lowerInput) == Priority[i] <==>
      Matches(lowerInput, Priority[i]) && forall j :: 0 <= j < i ==> !Matches(lowerInput, Priority[j])
  {
    ClassifyIsFirstMatch(lowerInput);
    FirstMatchAt(lowerInput, Priority, i);
  }

  const GreetingReply := "Kon'nichiwa! こんにちは！ How can I help you with your Japanese studies today?"
  const ThanksReply := "Dou itashimashite! どういたしまして！ You're welcome! Remember, 'arigatou gozaimasu' is more polite than 'arigatou'."
  const GrammarReply := "Let me explain a common grammar point: The particle 'wa' (は) marks the topic of the sentence. For example: 'Watashi wa gakusei desu' (私は学生です) means 'As for me, I am a student.'"
  const VocabularyReply := "Here's a useful vocabulary tip: The word 'kurasu' (クラス) means 'class' as in classroom. But be careful - in some contexts it can sound like 'class' in English. The Japanese word for 'class' (lesson) is 'jugyou' (授業)."
  const QuestionReply := "To form questions in Japanese, simply add 'ka' at the end of a statement. For example: 'Nihonjin desu' (You are Japanese) becomes 'Nihonjin desu ka?' (Are you Japanese?). The pitch usually rises at the end when asking."
  const CountingReply := "In Japanese, counting depends on the objects being counted. For general objects, use: 1=ichi, 2=ni, 3=san, 4=yon, 5=go, 6=roku, 7=nana, 8=hachi, 9=kyuu, 10=juu. Note that 4 can be 'shi' but 'yon' is preferred to avoid association with death ('shi')."
  const PoliteReply := "The '-masu' form is the polite non-past form. For example: 'tabemasu' (eat), 'nomimasu' (drink), 'ikimasu' (go). To make it past tense, use '-mashita': 'tabemashita' (ate), 'ikimashita' (went)."
  const ParticlesReply := "Particles are crucial in Japanese grammar. 'wa' (は) marks the topic, 'ga' (が) marks the subject, 'wo' (を) marks the direct object, 'ni' (に) indicates direction/time, and 'de' (で) indicates location of action. Example: 'Watashi wa gakkou de hon wo yomimasu' (I read books at school)."
  const HelpReply := "I'm here to help you learn Japanese! You can ask me about grammar, vocabulary, pronunciation, or practice conversations. Try asking about particles, counters, or how to say something specific in Japanese."

  /** The five generic remarks used when no category matches. */
  const DefaultReplies: seq<string> := [
    "That's a great question about Japanese! The particle 'wa' (は) is often used to mark the topic of discussion. For example: 'Nihon wa utsukushii desu' (Japan is beautiful).",
    "Interesting! In Japanese, context is very important. Sometimes you don't need to state the subject because it's understood from context. This is different from English.",
    "Great question! Remember that Japanese has different levels of politeness. The '-masu' form is polite, while the dictionary form is casual. Choose appropriately based on your relationship with the listener.",
    "Excellent! Japanese verbs conjugate differently than English verbs. The basic form doesn't change for person (I/you/he), unlike English. For example: 'iku' (to go) is the same regardless of who goes.",
    "Very good! Japanese has two types of adjectives: '-i' adjectives (like 'atsui' - hot) and '-na' adjectives (like 'shizuka na' - quiet). They conjugate differently."
  ]

  /** The canned explanation of a matching category. */
  function CannedReply(c: Category): string
    requires c != NoMatch
  {
    match c
    case Greeting => GreetingReply
    case Thanks => ThanksReply
    case Grammar => GrammarReply
    case Vocabulary => VocabularyReply
    case Question => QuestionReply
    case Counting => CountingReply
    case Polite => PoliteReply
    case Particles => ParticlesReply
    case Help => HelpReply
  }

  /** No canned explanation is one of the generic remarks. */
  lemma CannedIsNotDefault(c: Category)
    requires c != NoMatch
    ensures CannedReply(c) !in DefaultReplies
  {
    var r := CannedReply(c);
    forall k | 0 <= k < |DefaultReplies| ensures r != DefaultReplies[k] {
      assert r[..3] != DefaultReplies[k][..3] || |r| != |DefaultReplies[k]|;
    }
  }

  /** `generateMockResponse(userInput)` where `Math.floor(Math.random() * 5)`
      came out as `roll`: the canned reply of the first matching category of
      the lower-cased input, else the generic remark number `roll`. A generic
      remark is returned exactly when no category matches. */
  function GenerateMockResponse(userInput: string, roll: nat): (r: string)
    requires roll < |DefaultReplies|
    ensures r in DefaultReplies <==> Classify(Lower(userInput)) == NoMatch
    ensures Classify(Lower(userInput)) != NoMatch ==> r == CannedReply(Classify(Lower(userInput)))
  {
    var c := Classify(Lower(userInput));
    if c != NoMatch then
      CannedIsNotDefault(c);
      CannedReply(c)
    else
      DefaultReplies[roll]
  }

  /** The reply of category `Priority[i]` is given exactly when that category
      matches the lower-cased input and no earlier category does; e.g. an
      input containing both "hello" and "grammar" gets the greeting. */
  lemma MockResponsePriority(userInput: string, roll: nat, i: nat)
    requires roll < |DefaultReplies| && i < |Priority|
    ensures GenerateMockResponse(userInput, roll) == CannedReply(Priority[i]) <==>
      Matches(Lower(userInput), Priority[i]) &&
      forall j :: 0 <= j < i ==> !Matches(Lower(userInput), Priority[j])
  {
    var l := Lower(userInput);
    var c := Classify(l);
    ClassifyPriority(l, i);
    CannedIsNotDefault(Priority[i]);
  }

  /** The question reply needs both "how" and "say": either one alone does
      not produce it. */
  lemma QuestionNeedsHowAndSay(userInput: string, roll: nat)
    requires roll < |DefaultReplies|
    ensures GenerateMockResponse(userInput, roll) == QuestionReply ==>
      Contains(Lower(userInput), "how") && Contains(Lower(userInput), "say")
  {
    MockResponsePriority(userInput, roll, 4);
    QuestionKeywords(Lower(userInput));
  }

  /** With no category matching, the reply is one of the five generic remarks,
      the one `roll` selects. */
  lemma NoMatchGivesDefault(userInput: string, roll: nat)
    requires roll < |DefaultReplies|
    requires forall j :: 0 <= j < |Priority| ==> !Matches(Lower(userInput), Priority[j])
    ensures GenerateMockResponse(userInput, roll) == DefaultReplies[roll]
  {
    var l := Lower(userInput);
    ClassifyIsFirstMatch(l);
    FirstMatchUnrolled(l);
    assert !Matches(l, Priority[0]) && !Matches(l, Priority[1]) && !Matches(l, Priority[2]);
    assert !Matches(l, Priority[3]) && !Matches(l, Priority[4]) && !Matches(l, Priority[5]);
    assert !Matches(l, Priority[6]) && !Matches(l, Priority[7]) && !Matches(l, Priority[8]);
  }

  /** Matching is on the lower-cased input: the reply to an input is the
      reply to its lower-cased form, so inputs differing only in the case of
      ASCII letters get the same reply. */
  lemma MockResponseIgnoresCase(a: string, b: string, roll: nat)
    requires roll < |DefaultReplies|
    requires Lower(a) == Lower(b)
    ensures GenerateMockResponse(a, roll) == GenerateMockResponse(Lower(a), roll)
    ensures GenerateMockResponse(a, roll) == GenerateMockResponse(b, roll)
  {
    LowerIdempotent(a);
  }

  /** "Hello there" is a greeting. */
  lemma HelloThereIsGreeting(input: string, roll: nat)
    requires input == "Hello there" && roll < |DefaultReplies|
    ensures GenerateMockResponse(input, roll) == GreetingReply
  {
    var l := Lower(input);
    assert l[..5] == "hello" by {
      assert l[0] == 'h' && l[1] == 'e' && l[2] == 'l' && l[3] == 'l' && l[4] == 'o';
    }
    assert Contains(l, "hello");
  }

  /** Any input whose lower-cased form contains a greeting keyword gets the
      greeting, whatever else it contains. */
  lemma GreetingWins(input: string, roll: nat)
    requires roll < |DefaultReplies| && Matches(Lower(input), Greeting)
    ensures GenerateMockResponse(input, roll) == GreetingReply
  {
    ClassifyPriority(Lower(input), 0);
  }

  /** "HELLO" and "hello" get the same reply, the greeting. */
  lemma ShoutedHelloIsGreeting(shout: string, plain: string, roll: nat)
    requires shout == "HELLO" && plain == "hello" && roll < |DefaultReplies|
    ensures GenerateMockResponse(shout, roll) == GenerateMockResponse(plain, roll) == GreetingReply
  {
    var ls, lp := Lower(shout), Lower(plain);
    assert ls == "hello" && lp == "hello" by {
      assert ls[0] == 'h' && ls[1] == 'e' && ls[2] == 'l' && ls[3] == 'l' && ls[4] == 'o';
      assert lp[0] == 'h' && lp[1] == 'e' && lp[2] == 'l' && lp[3] == 'l' && lp[4] == 'o';
    }
    assert Contains(lp, "hello");
  }

  // ---------------------------------------------------------------------
  // Remote completion

  /** The fixed tutor persona that opens every request; the caller's
      context is appended to it. */
  const Persona := "You are an expert Japanese language tutor called Sensei. Help users learn Japanese by providing accurate translations, \n          grammar explanations, and cultural context. Be encouraging and patient. Focus on helping users improve their Japanese skills. \n          "

  datatype Role = System | Assistant | User

  datatype ChatMessage = ChatMessage(role: Role, content: string)

  /** One entry of `choices`; `message` is `None` when the entry has no
      message object (reading its content then throws). */
  datatype Choice = Choice(message: Option<string>)

  /** What the POST produced: a thrown error (network failure, timeout,
      non-2xx status), or a response body whose `choices` may be missing. */
  datatype RemoteOutcome = RequestFailed | Responded(choices: Option<seq<Choice>>)

  /** The history re-tagged for the API: entries the AI sent become
      `assistant` entries, everything else `user` entries; order and text kept. */
  function Retag(history: seq<Message>): (r: seq<ChatMessage>)
    ensures |r| == |history|
    ensures forall i :: 0 <= i < |history| ==>
      r[i].content == history[i].text && (r[i].role == Assistant <==> history[i].sender == "ai") &&
      r[i].role != System
  {
    if history == [] then []
    else
      var m := history[0];
      [ChatMessage(if m.sender == "ai" then Assistant else User, m.text)] + Retag(history[1..])
  }

  /** The message list posted to the completion endpoint: the persona with
      the context, the re-tagged history, then the new input. */
  function BuildMessages(userInput: string, context: string, history: seq<Message>): (r: seq<ChatMessage>)
    ensures |r| == |history| + 2
    ensures r[0] == ChatMessage(System, Persona + context)
    ensures forall i :: 0 <= i < |history| ==>
      r[i + 1].content == history[i].text && (r[i + 1].role == Assistant <==> history[i].sender == "ai") &&
      r[i + 1].role != System
    ensures r[|r| - 1] == ChatMessage(User, userInput)
  {
    var middle := Retag(history);
    var r := [ChatMessage(System, Persona + context)] + middle + [ChatMessage(User, userInput)];
    assert forall i :: 0 <= i < |history| ==> r[i + 1] == middle[i];
    r
  }

  /** `choices[0].message.content` when `choices` is present and non-empty
      and its first entry has a message; `None` for every way that read fails. */
  function FirstChoice(outcome: RemoteOutcome): (r: Option<string>)
    ensures r.Some? <==>
      outcome.Responded? && outcome.choices.Some? && |outcome.choices.value| > 0 &&
      outcome.choices.value[0].message.Some?
    ensures r.Some? ==> r.value == outcome.choices.value[0].message.value
  {
    match outcome
    case RequestFailed => None
    case Responded(None) => None
    case Responded(Some(cs)) => if |cs| > 0 then cs[0].message else None
  }

  /** `isConfigured()`: a key is configured when it is non-empty. */
  function IsConfigured(apiKey: string): (r: bool)
    ensures r <==> |apiKey| > 0
  {
    apiKey != ""
  }

  /** `generateResponse(userInput, context, conversationHistory)`: without a
      key, the fallback tutor and no remote call; with a key, the remote call
      on the built message list, its first choice if there is one, and the
      fallback tutor otherwise. It always yields a string. */
  function GenerateResponse(apiKey: string, userInput: string, context: string, history: seq<Message>,
                            remote: seq<ChatMessage> -> RemoteOutcome, roll: nat): (r: string)
    requires roll < |DefaultReplies|
    ensures !IsConfigured(apiKey) ==> r == GenerateMockResponse(userInput, roll)
    ensures r == GenerateMockResponse(userInput, roll) ||
      (IsConfigured(apiKey) && FirstChoice(remote(BuildMessages(userInput, context, history))) == Some(r))
  {
    if !IsConfigured(apiKey) then
      GenerateMockResponse(userInput, roll)
    else
      match FirstChoice(remote(BuildMessages(userInput, context, history)))
      case Some(content) => content
      case None => GenerateMockResponse(userInput, roll)
  }

  /** Without a key the remote service is never consulted: any two remote
      behaviours give the same reply, the fallback tutor's. */
  lemma UnconfiguredMakesNoCall(userInput: string, context: string, history: seq<Message>,
                                remote1: seq<ChatMessage> -> RemoteOutcome,
                                remote2: seq<ChatMessage> -> RemoteOutcome, roll: nat)
    requires roll < |DefaultReplies|
    ensures GenerateResponse("", userInput, context, history, remote1, roll) ==
            GenerateResponse("", userInput, context, history, remote2, roll)
  {
  }

  /** With a key, the reply is the first choice of the answer to exactly the
      built message list when there is one, and the fallback tutor's reply
      when the call failed, `choices` is missing or empty, or its first entry
      has no message. */
  lemma ConfiguredReply(apiKey: string, userInput: string, context: string, history: seq<Message>,
                        remote: seq<ChatMessage> -> RemoteOutcome, roll: nat)
    requires roll < |DefaultReplies| && IsConfigured(apiKey)
    ensures var outcome := remote(BuildMessages(userInput, context, history));
      GenerateResponse(apiKey, userInput, context, history, remote, roll) ==
        if FirstChoice(outcome).Some? then FirstChoice(outcome).value
        else GenerateMockResponse(userInput, roll)
  {
  }
}
