/** The entry point (src/index.ts): authentication, handle resolution, and the endless cycle of
    sleeping, fetching three corpora, generating a tweet and posting it, in which every error is
    caught so that the loop goes on. Effects are recorded as a trace of calls to the outside. */
module Agent {
  import opened Wrappers
  import opened Strings
  import Common
  import Auth
  import OpenAI
  import opened XService

  // ---------------------------------------------------------------------------------------------
  // Configuration values
  // ---------------------------------------------------------------------------------------------

  /** `handle.replace("@", "")`: a string pattern replaces its first occurrence only. */
  function NormalizeHandle(handle: string): (r: string)
    ensures '@' !in handle ==> r == handle
    ensures '@' in handle ==> |r| == |handle| - 1 && multiset(r) == multiset(handle) - multiset{'@'}
  {
    match IndexOf(handle, '@')
    case None => handle
    case Some(i) =>
      assert handle == handle[..i] + [handle[i]] + handle[i + 1..];
      handle[..i] + handle[i + 1..]
  }

  /** Exactly the first `@` is removed, wherever it stands. */
  lemma RemovesFirstMention(x: string, y: string)
    requires '@' !in x
    ensures NormalizeHandle(x + "@" + y) == x + y
  {
    var h := x + "@" + y;
    assert h[|x|] == '@';
    var i := IndexOf(h, '@').value;
    assert h[..i] == x && h[i + 1..] == y;
  }

  /** `@foo` and `foo` name the same account, while `@@foo` keeps one `@`. */
  lemma MentionExamples(name: string)
    requires '@' !in name
    ensures NormalizeHandle("@" + name) == name == NormalizeHandle(name)
    ensures NormalizeHandle("@@" + name) == "@" + name
  {
    RemovesFirstMention([], name);
    assert [] + "@" + name == "@" + name;
    RemovesFirstMention([], "@" + name);
    assert [] + "@" + ("@" + name) == "@@" + name;
  }

  const DefaultDelayMinutes: nat := 30

  /** `minutesDelay(Config.MINUTE_DELAY_BETWEEN_TWEETS ?? 30)`, in milliseconds: `??` replaces
      only an unset value. */
  function CycleDelay(configured: Option<nat>): (ms: nat)
    ensures ms % Common.MillisPerMinute == 0
    ensures configured.Some? ==> ms / Common.MillisPerMinute == configured.value
    ensures configured.None? ==> ms == 1_800_000
  {
    Common.MinutesToMillis(match configured case Some(m) => m case None => DefaultDelayMinutes)
  }

  // ---------------------------------------------------------------------------------------------
  // One cycle
  // ---------------------------------------------------------------------------------------------

  /** `existingTweets`: the bot's own recent tweets and those of the style and content targets. */
  datatype Corpora = Corpora(account: seq<string>, style: seq<string>, content: seq<string>)

  /** A call to the outside world, in the order the program makes it. */
  datatype Effect =
    | FetchProfile
    | ResolveUser(screenName: string)
    | Sleep(ms: nat)
    | FetchTweets(userId: UserId, count: int)
    | Generate(persona: string, corpora: Corpora)
    | Post(text: string)

  /** How the outside world answers during one cycle: the scraper's timelines, the tweet
      generator and the scraper's sendTweet. */
  datatype CycleWorld = CycleWorld(
    timeline: (UserId, int) -> Result<seq<Tweet>, Error>,
    generate: (string, Corpora) -> Result<Option<string>, Error>,
    send: string -> Result<SendResponse, Error>)

  /** The ids resolved at startup: the bot's own (possibly undefined) and the two targets'. */
  datatype Targets = Targets(own: UserId, style: string, content: string)

  /** The effects of one cycle and whether its body threw. */
  datatype CycleRun = CycleRun(effects: seq<Effect>, outcome: Result<(), Error>)

  /** The three fetches of a cycle, in order: own account (5), style target (15), content
      target (15). */
  function Fetches(targets: Targets): seq<Effect>
  {
    [FetchTweets(targets.own, 5), FetchTweets(Some(targets.style), 15), FetchTweets(Some(targets.content), 15)]
  }

  /** `if (tweet)`: a string is truthy unless it is empty; `undefined` is falsy. */
  predicate Truthy(tweet: Option<string>): (truthy: bool)
    ensures tweet.None? ==> !truthy
    ensures tweet.Some? ==> (truthy <==> |tweet.value| > 0)
  {
    tweet.Some? && tweet.value != ""
  }

  /** Generation and posting, once the three corpora are in. */
  function GenerateAndPost(persona: string, corpora: Corpora, w: CycleWorld, before: seq<Effect>): CycleRun
  {
    var effects := before + [Generate(persona, corpora)];
    match w.generate(persona, corpora)
    case Failure(e) => CycleRun(effects, Failure(e))
    case Success(tweet) =>
      if Truthy(tweet) then
        match PostTweet(w.send, tweet.value)
        case Failure(e) => CycleRun(effects + [Post(tweet.value)], Failure(e))
        case Success(_) => CycleRun(effects + [Post(tweet.value)], Success(()))
      else CycleRun(effects, Success(()))
  }

  /** The body of the `try` block at lines 54-78: each awaited call in turn; the first one that
      throws ends the cycle with its error. The fetches come first, in their fixed order; the
      generator gets the three corpora; a tweet is posted only when the generator returned a
      non-empty string, and then whatever status the post gets, the cycle succeeds. */
  function RunCycle(targets: Targets, persona: string, w: CycleWorld): (r: CycleRun)
    ensures 1 <= |r.effects| <= 5
    ensures forall k :: 0 <= k < |r.effects| && k < 3 ==> r.effects[k] == Fetches(targets)[k]
    ensures forall k :: 0 <= k < |r.effects| && r.effects[k].Post? ==>
      && k == 4 && r.effects[3].Generate?
      && w.generate(persona, r.effects[3].corpora) == Success(Some(r.effects[k].text))
      && r.effects[k].text != ""
    ensures |r.effects| >= 4 ==>
      && r.effects[3].Generate? && r.effects[3].persona == persona
      && (|r.effects| == 5 <==> w.generate(persona, r.effects[3].corpora).Success?
                                && Truthy(w.generate(persona, r.effects[3].corpora).value))
    ensures var a, s, c := LatestTweets(w.timeline, targets.own, 5), LatestTweets(w.timeline, Some(targets.style), 15),
                           LatestTweets(w.timeline, Some(targets.content), 15);
      && (a.Failure? ==> |r.effects| == 1 && r.outcome == Failure(a.error))
      && (a.Success? && s.Failure? ==> |r.effects| == 2 && r.outcome == Failure(s.error))
      && (a.Success? && s.Success? && c.Failure? ==> |r.effects| == 3 && r.outcome == Failure(c.error))
      && (a.Success? && s.Success? && c.Success? ==>
            |r.effects| >= 4 && r.effects[3].corpora == Corpora(a.value, s.value, c.value))
    ensures |r.effects| == 4 ==> r.outcome == (match w.generate(persona, r.effects[3].corpora)
                                               case Failure(e) => Failure(e)
                                               case Success(_) => Success(()))
    ensures |r.effects| == 5 ==> r.effects[4].Post? && (r.outcome.Success? <==> w.send(r.effects[4].text).Success?)
    ensures |r.effects| == 5 && r.outcome.Failure? ==> r.outcome.error == w.send(r.effects[4].text).error
    ensures |r.effects| < 4 ==> r.outcome.Failure?
  {
    match LatestTweets(w.timeline, targets.own, 5)
    case Failure(e) => CycleRun(Fetches(targets)[..1], Failure(e))
    case Success(account) =>
      match LatestTweets(w.timeline, Some(targets.style), 15)
      case Failure(e) => CycleRun(Fetches(targets)[..2], Failure(e))
      case Success(style) =>
        match LatestTweets(w.timeline, Some(targets.content), 15)
        case Failure(e) => CycleRun(Fetches(targets), Failure(e))
        case Success(content) =>
          GenerateAndPost(persona, Corpora(account, style, content), w, Fetches(targets))
  }

  /** The cycle as the loop runs it: statement by statement, leaving the `try` at the first
      error. */
  method Cycle(targets: Targets, persona: string, w: CycleWorld) returns (effects: seq<Effect>, outcome: Result<(), Error>)
    ensures CycleRun(effects, outcome) == RunCycle(targets, persona, w)
  {
    effects := [FetchTweets(targets.own, 5)];
    var account := GetLatestTweets(w.timeline, targets.own, 5);
    if account.Failure? {
      return effects, Failure(account.error);
    }
    effects := effects + [FetchTweets(Some(targets.style), 15)];
    var style := GetLatestTweets(w.timeline, Some(targets.style), 15);
    if style.Failure? {
      return effects, Failure(style.error);
    }
    effects := effects + [FetchTweets(Some(targets.content), 15)];
    var content := GetLatestTweets(w.timeline, Some(targets.content), 15);
    if content.Failure? {
      return effects, Failure(content.error);
    }
    var existingTweets := Corpora(account.value, style.value, content.value);
    effects := effects + [Generate(persona, existingTweets)];
    var tweet := w.generate(persona, existingTweets);
    if tweet.Failure? {
      return effects, Failure(tweet.error);
    }
    if Truthy(tweet.value) {
      effects := effects + [Post(tweet.value.value)];
      var posted := PostTweet(w.send, tweet.value.value);
      if posted.Failure? {
        return effects, Failure(posted.error);
      }
    }
    outcome := Success(());
  }

  /** A generated non-empty tweet is posted, and the cycle then fails only if sending throws;
      a `false` from postTweet is not an error. */
  lemma GeneratedTweetIsPosted(targets: Targets, persona: string, w: CycleWorld, tweet: string)
    requires LatestTweets(w.timeline, targets.own, 5).Success?
    requires LatestTweets(w.timeline, Some(targets.style), 15).Success?
    requires LatestTweets(w.timeline, Some(targets.content), 15).Success?
    requires var corpora := Corpora(LatestTweets(w.timeline, targets.own, 5).value,
                                    LatestTweets(w.timeline, Some(targets.style), 15).value,
                                    LatestTweets(w.timeline, Some(targets.content), 15).value);
      w.generate(persona, corpora) == Success(Some(tweet))
    requires tweet != ""
    ensures var r := RunCycle(targets, persona, w);
      && |r.effects| == 5 && r.effects[4] == Post(tweet)
      && (r.outcome.Success? <==> w.send(tweet).Success?)
  {
  }

  // ---------------------------------------------------------------------------------------------
  // The loop
  // ---------------------------------------------------------------------------------------------

  /** The effects of the loop over the given cycles: each cycle sleeps first, then runs its body,
      whatever the previous cycles' outcomes were. */
  function LoopEffects(ms: nat, targets: Targets, persona: string, cycles: seq<CycleWorld>): seq<Effect>
  {
    if cycles == [] then []
    else LoopEffects(ms, targets, persona, cycles[..|cycles| - 1])
         + [Sleep(ms)] + RunCycle(targets, persona, cycles[|cycles| - 1]).effects
  }

  /** The `while (true)` loop, run for the cycles that happen before the process is stopped from
      outside: sleep, run the body, catch whatever it throws, go on. */
  method RunScheduler(configuredDelay: Option<nat>, targets: Targets, persona: string, cycles: seq<CycleWorld>)
    returns (effects: seq<Effect>, outcomes: seq<Result<(), Error>>)
    ensures effects == LoopEffects(CycleDelay(configuredDelay), targets, persona, cycles)
    ensures |outcomes| == |cycles|
    ensures forall i :: 0 <= i < |cycles| ==> outcomes[i] == RunCycle(targets, persona, cycles[i]).outcome
  {
    effects, outcomes := [], [];
    var i := 0;
    while i < |cycles|
      invariant 0 <= i <= |cycles|
      invariant effects == LoopEffects(CycleDelay(configuredDelay), targets, persona, cycles[..i])
      invariant |outcomes| == i
      invariant forall k :: 0 <= k < i ==> outcomes[k] == RunCycle(targets, persona, cycles[k]).outcome
    {
      effects := effects + [Sleep(CycleDelay(configuredDelay))];
      var cycleEffects, outcome := Cycle(targets, persona, cycles[i]);
      effects := effects + cycleEffects;
      // A failed cycle is logged and swallowed: the loop carries on either way.
      outcomes := outcomes + [outcome];
      assert cycles[..i + 1][..i] == cycles[..i];
      i := i + 1;
    }
    assert cycles[..i] == cycles;
  }

  /** The loop's effects are those of its cycles one after the other: what a cycle does never
      depends on whether an earlier cycle threw. */
  lemma {:induction false} LoopEffectsAppend(ms: nat, targets: Targets, persona: string, a: seq<CycleWorld>, b: seq<CycleWorld>)
    ensures LoopEffects(ms, targets, persona, a + b)
            == LoopEffects(ms, targets, persona, a) + LoopEffects(ms, targets, persona, b)
    decreases |b|
  {
    if b == [] {
      assert a + b == a;
    } else {
      var b' := b[..|b| - 1];
      assert (a + b)[..|a + b| - 1] == a + b';
      assert (a + b)[|a + b| - 1] == b[|b| - 1];
      LoopEffectsAppend(ms, targets, persona, a, b');
    }
  }

  function CountSleeps(effects: seq<Effect>): nat
  {
    if effects == [] then 0
    else (if effects[0].Sleep? then 1 else 0) + CountSleeps(effects[1..])
  }

  lemma {:induction false} CountSleepsAppend(a: seq<Effect>, b: seq<Effect>)
    ensures CountSleeps(a + b) == CountSleeps(a) + CountSleeps(b)
    decreases |a|
  {
    if a == [] {
      assert a + b == b;
    } else {
      assert (a + b)[1..] == a[1..] + b;
      CountSleepsAppend(a[1..], b);
    }
  }

  lemma {:induction false} CycleNeverSleeps(targets: Targets, persona: string, w: CycleWorld)
    ensures CountSleeps(RunCycle(targets, persona, w).effects) == 0
  {
    var e := RunCycle(targets, persona, w).effects;
    assert forall k :: 0 <= k < |e| ==> !e[k].Sleep?;
    NoSleeps(e);
  }

  lemma {:induction false} NoSleeps(e: seq<Effect>)
    requires forall k :: 0 <= k < |e| ==> !e[k].Sleep?
    ensures CountSleeps(e) == 0
    decreases |e|
  {
    if e != [] {
      NoSleeps(e[1..]);
    }
  }

  /** Every cycle, failed or not, is preceded by exactly one sleep of the configured delay: the
      loop runs one body per sleep and never stops by itself. */
  lemma {:induction false} OneSleepPerCycle(ms: nat, targets: Targets, persona: string, cycles: seq<CycleWorld>)
    ensures CountSleeps(LoopEffects(ms, targets, persona, cycles)) == |cycles|
    decreases |cycles|
  {
    if cycles != [] {
      var last := cycles[|cycles| - 1];
      OneSleepPerCycle(ms, targets, persona, cycles[..|cycles| - 1]);
      CycleNeverSleeps(targets, persona, last);
      CountSleepsAppend(LoopEffects(ms, targets, persona, cycles[..|cycles| - 1]) + [Sleep(ms)],
                        RunCycle(targets, persona, last).effects);
      CountSleepsAppend(LoopEffects(ms, targets, persona, cycles[..|cycles| - 1]), [Sleep(ms)]);
    }
  }

  /** The first cycle, like every other, waits before doing any work. */
  lemma {:induction false} FirstEffectIsSleep(ms: nat, targets: Targets, persona: string, cycles: seq<CycleWorld>)
    requires cycles != []
    ensures LoopEffects(ms, targets, persona, cycles)[0] == Sleep(ms)
  {
    LoopEffectsAppend(ms, targets, persona, cycles[..1], cycles[1..]);
    assert cycles[..1] + cycles[1..] == cycles;
    assert cycles[..1][..0] == [];
  }

  // ---------------------------------------------------------------------------------------------
  // Startup
  // ---------------------------------------------------------------------------------------------

  /** The configuration the entry point reads. */
  datatype Config = Config(
    credentials: Auth.Credentials,
    styleTargetUsername: string,
    contentTargetUsername: string,
    personaPrompt: string,
    minuteDelay: Option<nat>)

  /** How the outside world answers at startup: the file system and scraper during
      authentication, `me()` (the user id of the profile, `None` when either is undefined), and
      `getUserIdByScreenName`. */
  datatype StartupWorld = StartupWorld(
    auth: Auth.Outcomes,
    profile: Result<UserId, Error>,
    resolve: string -> Result<string, Error>)

  /** Why `main` rejects before the loop starts (the rejection is only logged). */
  datatype StartupError = AuthenticationFailed(cause: Auth.AuthError) | StartupFailed(error: Error)

  /** `main`: authenticate, then look up the profile, then resolve both normalised handles (the
      screen names are forwarded as they are), then loop. Nothing happens before authentication
      has succeeded, and a startup failure ends the program before any cycle. */
  method RunAgent(config: Config, auth: Auth.AuthState, startup: StartupWorld, cycles: seq<CycleWorld>)
    returns (authAfter: Auth.AuthState, effects: seq<Effect>, aborted: Option<StartupError>)
    ensures authAfter == Auth.Authenticate(auth, config.credentials, startup.auth).0
    ensures Auth.Authenticate(auth, config.credentials, startup.auth).1.Failure? ==>
      effects == [] && aborted == Some(AuthenticationFailed(Auth.Authenticate(auth, config.credentials, startup.auth).1.error))
    ensures Auth.Authenticate(auth, config.credentials, startup.auth).1.Success? ==>
      && 1 <= |effects| && effects[0] == FetchProfile
      && (startup.profile.Success? ==>
            (&& |effects| >= 3
             && effects[1] == ResolveUser(NormalizeHandle(config.styleTargetUsername))
             && effects[2] == ResolveUser(NormalizeHandle(config.contentTargetUsername))))
    ensures aborted.None? <==>
      && Auth.Authenticate(auth, config.credentials, startup.auth).1.Success?
      && startup.profile.Success?
      && startup.resolve(NormalizeHandle(config.styleTargetUsername)).Success?
      && startup.resolve(NormalizeHandle(config.contentTargetUsername)).Success?
    ensures aborted.None? ==>
      effects[3..] == LoopEffects(CycleDelay(config.minuteDelay),
                                  Targets(startup.profile.value,
                                          startup.resolve(NormalizeHandle(config.styleTargetUsername)).value,
                                          startup.resolve(NormalizeHandle(config.contentTargetUsername)).value),
                                  config.personaPrompt, cycles)
    ensures aborted.Some? ==> |effects| <= 3
    // A failed `me()` ends `main` with its own error before either handle is looked up.
    ensures Auth.Authenticate(auth, config.credentials, startup.auth).1.Success? && startup.profile.Failure? ==>
      effects == [FetchProfile] && aborted == Some(StartupFailed(startup.profile.error))
    // `Promise.all` rejects with the style lookup's error when it fails, otherwise with the content lookup's.
    ensures Auth.Authenticate(auth, config.credentials, startup.auth).1.Success? && startup.profile.Success?
            && startup.resolve(NormalizeHandle(config.styleTargetUsername)).Failure? ==>
      |effects| == 3 && aborted == Some(StartupFailed(startup.resolve(NormalizeHandle(config.styleTargetUsername)).error))
    ensures Auth.Authenticate(auth, config.credentials, startup.auth).1.Success? && startup.profile.Success?
            && startup.resolve(NormalizeHandle(config.styleTargetUsername)).Success?
            && startup.resolve(NormalizeHandle(config.contentTargetUsername)).Failure? ==>
      |effects| == 3 && aborted == Some(StartupFailed(startup.resolve(NormalizeHandle(config.contentTargetUsername)).error))
  {
    var authenticated := Auth.Authenticate(auth, config.credentials, startup.auth);
    authAfter := authenticated.0;
    if authenticated.1.Failure? {
      return authAfter, [], Some(AuthenticationFailed(authenticated.1.error));
    }
    effects := [FetchProfile];
    if startup.profile.Failure? {
      return authAfter, effects, Some(StartupFailed(startup.profile.error));
    }
    var styleTarget := NormalizeHandle(config.styleTargetUsername);
    var contentTarget := NormalizeHandle(config.contentTargetUsername);
    // Promise.all starts both lookups before either can fail.
    effects := effects + [ResolveUser(styleTarget), ResolveUser(contentTarget)];
    var styleLikeness := startup.resolve(styleTarget);
    var contentLikeness := startup.resolve(contentTarget);
    if styleLikeness.Failure? {
      return authAfter, effects, Some(StartupFailed(styleLikeness.error));
    }
    if contentLikeness.Failure? {
      return authAfter, effects, Some(StartupFailed(contentLikeness.error));
    }
    var targets := Targets(startup.profile.value, styleLikeness.value, contentLikeness.value);
    var loopEffects, _ := RunScheduler(config.minuteDelay, targets, config.personaPrompt, cycles);
    effects := effects + loopEffects;
    aborted := None;
  }

  // ---------------------------------------------------------------------------------------------
  // The generator the loop actually calls
  // ---------------------------------------------------------------------------------------------

  /** `aiService.generateTweet(Config.AGENT_PERSONA_PROMPT, existingTweets)` as written at lines
      65-68: two arguments where four are declared, the persona prompt in the username's place,
      the corpora object in the pre-prompt's, and both tweet lists `undefined`. */
  function AsCalledGenerator(model: string, complete: OpenAI.CompletionRequest -> Result<OpenAI.Completion, Error>)
    : (g: (string, Corpora) -> Result<Option<string>, Error>)
    // The fetched tweets never reach the template: the corpora object is interpolated as text.
    ensures forall persona, c1, c2 :: g(persona, c1) == g(persona, c2)
  {
    (persona: string, existingTweets: Corpora) =>
      OpenAI.GenerateTweetCall(model, complete, [OpenAI.Text(persona), OpenAI.PlainObject])
  }

  /** As written, generation throws a TypeError on every cycle, before any request is sent. */
  lemma AsCalledGenerationThrows(model: string, complete: OpenAI.CompletionRequest -> Result<OpenAI.Completion, Error>,
                                 persona: string, existingTweets: Corpora)
    ensures AsCalledGenerator(model, complete)(persona, existingTweets).Failure?
    ensures AsCalledGenerator(model, complete)(persona, existingTweets).error.TypeError?
  {
  }

  /** As written, no cycle ever posts: every cycle ends in an error that the loop swallows. */
  lemma AsCalledCycleNeverPosts(targets: Targets, persona: string, w: CycleWorld,
                                model: string, complete: OpenAI.CompletionRequest -> Result<OpenAI.Completion, Error>)
    ensures var r := RunCycle(targets, persona, w.(generate := AsCalledGenerator(model, complete)));
      && r.outcome.Failure?
      && forall k :: 0 <= k < |r.effects| ==> !r.effects[k].Post?
  {
    var w' := w.(generate := AsCalledGenerator(model, complete));
    var r := RunCycle(targets, persona, w');
    if |r.effects| >= 4 {
      AsCalledGenerationThrows(model, complete, persona, r.effects[3].corpora);
    }
  }
}
