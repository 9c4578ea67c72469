# Gestalt agent, modelled in Dafny

Gestalt is a bot that posts to X/Twitter in the voice of other accounts. It starts by
restoring a saved cookie session, or by logging in and saving the cookies. It then resolves the
bot's own profile and two target accounts, one for style and one for content. After that it
loops forever. Each cycle sleeps for the configured number of minutes and fetches the bot's own
recent tweets and both targets' recent tweets. It asks an OpenAI-compatible chat completion
service for a new tweet and posts the answer if there is one. Any error inside a cycle is logged
and the loop goes on.

The model has one module per source file:

- `Auth` (`src/utils/auth.ts`)
  - The cookie-record serialiser.
  - The authentication state machine, as spec functions (`Login`, `Restore`, `Authenticate`).
  - A class `AuthManager` whose methods are proved against those spec functions.
- `OpenAI` (`src/services/openai.ts`)
  - The prompt template: its fixed text as a `Layout` value, the template `generateTweet` writes
    out as the constant `Template`, and the request. The placement lemmas hold for every layout;
    `BuildPrompt` states them for `Template`.
  - The post-processing of the answer.
  - `generateTweet` as JavaScript evaluates it for any list of arguments, each `undefined`, a string,
    an array of strings or a plain object.
- `XService` (`src/services/x.ts`): fetching tweet texts, with the collection loop as a method, and posting.
- `Common` (`src/utils/common.ts`): converting minutes to milliseconds.
- `Agent` (`src/index.ts`)
  - Handle normalisation and the delay default.
  - One cycle as a function and as a method.
  - The endless loop as a method over the cycles that happen.
  - Startup.
- `Strings` and `Wrappers`: helpers for JavaScript's `indexOf`, `join` and `split`, and `Option`/`Result`.

External services are never called. They are parameters:

- the scraper's timeline, `sendTweet`, `me` and user lookup;
- the completion endpoint;
- the outcome of the file system and of login.

From the end of authentication on, the agent's behaviour is recorded as a trace of `Effect`s,
one per call to the outside, in program order. Authentication's own calls (`fs.access`, login,
getCookies, `writeFile`, `readFile`, setCookies) are not in the trace: their effect is the new
`Auth.AuthState` (the cookies file, the session and the log of login calls).

## Model

| member | source | states |
|---|---|---|
| Common.MinutesToMillis | src/utils/common.ts:6-8 | The delay is a whole number of minutes in milliseconds: divisible by 60000, and dividing by 60000 gives back the minutes. |
| Common.ZeroAndPositive | src/utils/common.ts:7 | Zero minutes gives no delay; any positive number of minutes gives at least 60000 ms. |
| Common.Monotone | src/utils/common.ts:7 | The conversion preserves order and equality, both directions. |
| Common.DefaultIsHalfAnHour | src/index.ts:52 | The default of 30 minutes is 1,800,000 ms. |
| Auth.CookieString | src/utils/auth.ts:90-96 | The string starts with `key=value; Domain=…; Path=…; `. Secure, HttpOnly and the effective SameSite value parse back from what follows. |
| Auth.FlagTokens | src/utils/auth.ts:93-95 | `Secure` follows the prefix iff the record is secure, and `HttpOnly` follows the next `; ` iff it is http-only. A clear flag leaves an empty `; ` segment. The string ends with `SameSite=` and the effective value. |
| Auth.SameSiteFallback | src/utils/auth.ts:95 | The SameSite value written is never empty. It is the record's own value when that is non-empty, and "Lax" when it is missing or empty. |
| Auth.TailRoundTrip | src/utils/auth.ts:93-95 | The attribute part of a cookie string parses back to the flags and SameSite value it was built from. |
| Auth.CookieStrings | src/utils/auth.ts:90-96 | One cookie string per stored record, same length, same order. |
| Auth.Login | src/utils/auth.ts:62-77 | The login is always attempted and logged with the credentials. It succeeds iff login and the file write both succeed. The session is the scraper's jar; on success the file stores exactly that jar. A failed login or a failed write is rethrown, and a failed write leaves the file unchanged. |
| Auth.Restore | src/utils/auth.ts:85-104 | Never logs in and never writes. Succeeds iff the file is readable and parsable and the scraper accepts the cookie strings. The session then holds exactly the cookie strings of the stored records. Any failure leaves the state unchanged; a parse failure and a rejection by setCookies are each reported as such. |
| Auth.CookiesExist | src/utils/auth.ts:40-45 | The cookies file counts as existing iff it is there, whether it parses or not. |
| Auth.Authenticate | src/utils/auth.ts:26-45 | If the cookies file exists (parsable or not), it restores without logging in and leaves the file unchanged; otherwise it logs in exactly once. It succeeds iff a stored file is read and its cookies accepted, or no file exists and login and write succeed. After a successful restore the session is exactly the stored records' cookie strings; after a successful login it is the scraper's jar, and the file stores that jar. A failed restore leaves the state unchanged. |
| Auth.LoginAtMostOnce | src/utils/auth.ts:26-33 | After one successful authentication, the next performs no login: at most one login over two calls. |
| Auth.SavedSessionIsRestored | src/utils/auth.ts:62-104 | The cookies saved by a fresh login are the ones the next run restores, as their cookie strings in order. |
| Auth.ErrorsAreRethrown | src/utils/auth.ts:73-76 | Each failure (login, write, read, parse, setCookies) comes out of ensureAuthenticated as its own error. |
| Auth.AuthManager.constructor | src/utils/auth.ts:18 | A new manager starts with no session and no logins, and with the file as found on disk. |
| Auth.AuthManager.LoginAndSaveCookies | src/utils/auth.ts:62-77 | The new state and result of the method are those of `Login` on the old state. |
| Auth.AuthManager.LoadCookies | src/utils/auth.ts:85-104 | The new state and result of the method are those of `Restore` on the old state. |
| Auth.AuthManager.EnsureAuthenticated | src/utils/auth.ts:26-33 | The new state and result of the method are those of `Authenticate` on the old state. |
| OpenAI.BuildPrompt | src/services/openai.ts:40-73 | In the prompt for any username, pre-prompt and tweet lists: the titles occur in the order directive, Voice DNA, Blocklist, output rule. The newline-joined likeness tweets stand whole between the Voice DNA and Blocklist titles, and the joined account tweets between the Blocklist title and the output rule. The directive rules are followed directly by `.@`, the username, the pre-prompt label and the pre-prompt. |
| OpenAI.TemplateSections | src/services/openai.ts:40-73 | For the fixed text `generateTweet` writes out, whatever the interpolated strings: the four titles in order, none overlapping the next, with each corpus between its two titles. |
| OpenAI.TemplateDirective | src/services/openai.ts:44-51 | For the fixed text `generateTweet` writes out: the rules, `.@`, the username, the pre-prompt label and the pre-prompt stand one right after the other. |
| OpenAI.SectionsInOrder | src/services/openai.ts:40-73 | For any layout of fixed text, the four titles occur in their order, each ending before the next starts. |
| OpenAI.DirectiveFields | src/services/openai.ts:44-51 | For any layout, the directive rules, the mention mark, the username, the label and the pre-prompt occur as one contiguous run. |
| OpenAI.CorporaInSections | src/services/openai.ts:55-67 | For any layout, the likeness corpus lies whole between the Voice DNA and Blocklist titles, and the account corpus between the Blocklist title and the output rule. |
| OpenAI.CorporaRecoverable | src/services/openai.ts:57-67 | When both lists are non-empty and free of newlines, splitting each corpus block of the filled template at newlines gives back the tweet lists in order. |
| OpenAI.ReadBack | src/services/openai.ts:57 | A newline-joined list of newline-free tweets found in a text is read back whole and in order by splitting that slice at newlines. |
| OpenAI.TweetRequest | src/services/openai.ts:75-84 | The request names the configured model and a 4096-token limit, and carries exactly one message, role "user", holding the whole prompt. |
| OpenAI.StripQuotes | src/services/openai.ts:85 | The result has no `"`, is no longer than the input, and keeps every other character with its multiplicity. |
| OpenAI.StripQuotesKeepsOrder | src/services/openai.ts:85 | The remaining characters are a subsequence of the input. |
| OpenAI.StripQuotesNoQuotes | src/services/openai.ts:85 | Text without quotes is returned unchanged. |
| OpenAI.StripQuotesIdempotent | src/services/openai.ts:85 | Stripping twice equals stripping once. |
| OpenAI.TweetFromCompletion | src/services/openai.ts:85 | Zero choices give a TypeError, both directions. Null content gives undefined, both directions. Otherwise the result is the first choice's text without quotes, in order. |
| OpenAI.GenerateTweet | src/services/openai.ts:32-86 | A provider failure propagates unchanged. A provider answer to the request for the built prompt is post-processed as in TweetFromCompletion. A returned tweet never contains `"`. |
| OpenAI.GenerateTweetCall | src/services/openai.ts:32-85 | Called with fewer than four arguments, `generateTweet` throws a TypeError, before any request is made. |
| OpenAI.DeclaredCallIsGenerateTweet | src/services/openai.ts:32-86 | Called with its four declared arguments, the run-time evaluation is exactly GenerateTweet. |
| XService.Texts | src/services/x.ts:28-30 | Never longer than the fetched tweets. Every text is the text of some fetched tweet. When all tweets have text, nothing is dropped. |
| XService.TextsAppend | src/services/x.ts:28-30 | Filtering distributes over concatenation, so the fetch order is kept. |
| XService.TextsOfOne | src/services/x.ts:29-30 | A tweet contributes its text if it has one, otherwise nothing. |
| XService.EmptyTextIsKept | src/services/x.ts:29 | Only `undefined` texts are dropped; an empty text survives. |
| XService.TextsAllDefined | src/services/x.ts:28-30 | When every tweet has text, the result is those texts one for one, in order. |
| XService.LatestTweets | src/services/x.ts:22-31 | Fails iff the scraper fails, with its error. On success the result is exactly `Texts` of the fetched tweets (the defined texts, in fetch order), so never more texts than tweets. |
| XService.GetLatestTweets | src/services/x.ts:22-31 | The collecting loop returns exactly LatestTweets of the same timeline, user id and count. |
| XService.PostTweet | src/services/x.ts:39-42 | Fails iff sending fails, with its error. Otherwise it returns true iff the status is 200. |
| Agent.NormalizeHandle | src/index.ts:34-37 | A handle without `@` is unchanged. Otherwise exactly one `@` is removed and every other character is kept. |
| Agent.RemovesFirstMention | src/index.ts:35-36 | It is the first `@` that is removed: x + "@" + y becomes x + y when x has no `@`. |
| Agent.MentionExamples | src/index.ts:35-36 | `@foo` and `foo` give the same handle, but `@@foo` keeps one `@`. |
| Agent.CycleDelay | src/index.ts:52 | The configured minutes are used when set (0 included), and 30 minutes when unset, in milliseconds. |
| Agent.RunCycle | src/index.ts:54-82 | Fetches come first: own id 5, style id 15, content id 15. The first fetch that throws ends the cycle with its error. When all three succeed, the generator is called with exactly the three fetched text lists. A generator error ends the cycle with that error; an empty or undefined answer ends it successfully after four effects. A post happens only as the fifth effect, only of the generator's non-empty answer, and always when there is one. The cycle then succeeds iff sending does not throw, whatever the status; if it throws, that error is the outcome. Every run with fewer than four effects is a failure. |
| Agent.Cycle | src/index.ts:54-82 | The statement-by-statement cycle yields exactly the effects and outcome of RunCycle. |
| Agent.GeneratedTweetIsPosted | src/index.ts:76-78 | When all fetches succeed and the generator returns a non-empty tweet, that tweet is posted, and a false return from postTweet is not an error. |
| Agent.RunScheduler | src/index.ts:50-83 | The loop's trace is LoopEffects of the delay, with one outcome per cycle equal to that cycle's outcome. Caught errors never stop it. |
| Agent.LoopEffectsAppend | src/index.ts:50-83 | The trace of a run is the concatenation of its cycles' traces: a cycle's effects never depend on earlier cycles' failures. |
| Agent.CycleNeverSleeps | src/index.ts:54-82 | A cycle body itself never sleeps. |
| Agent.OneSleepPerCycle | src/index.ts:50-52 | The loop sleeps exactly once per cycle. |
| Agent.FirstEffectIsSleep | src/index.ts:52 | The first cycle also waits the delay before fetching. |
| Agent.RunAgent | src/index.ts:20-47 | Authentication comes first; if it fails, nothing else happens and its error is reported. Then the profile is looked up; if `me()` rejects, `main` ends with that error after this one call and no handle is looked up. Otherwise both normalised screen names are forwarded for resolution, and a failed lookup ends `main` after these three calls with the style lookup's error, or else the content lookup's. The loop runs iff all of these succeed, and the trace after startup is then exactly the loop's trace. |
| Agent.Truthy | src/index.ts:76 | `undefined` is falsy, and a string is truthy iff it is non-empty. |
| Agent.AsCalledGenerator | src/index.ts:65-68 | The generator as the loop calls it: the persona prompt and the corpora object as the only two arguments. Its answer never depends on the fetched tweets, since the object is interpolated as text. |
| Agent.AsCalledGenerationThrows | src/index.ts:65-68 | The two-argument call as written throws a TypeError for every persona and corpora. |
| Agent.AsCalledCycleNeverPosts | src/index.ts:65-68 | With the call as written, every cycle fails and none posts. |

## Left out

- File I/O and JSON.
  - The cookies file is a value: missing, holding records, or unparsable.
  - The JSON round trip of `JSON.stringify`/`JSON.parse` is not modelled: records are stored as they are.
  - The path resolution of `cookiesPath` is left out.
- Auth.Login: a failed `writeFile` is assumed to leave the old file (there is none on this path) untouched. A partial write is not modelled.
- Auth.Login: after a failed login the session is left as it was. Whatever partial state the scraper keeps is not modelled.
- Auth.Restore: when setCookies rejects, the session is left as it was. Any cookies the scraper applied before rejecting are not modelled.
- Network calls are parameters, not modelled behaviour:
  - the scraper's login, getCookies and setCookies, as the `Auth.Outcomes` record of how they answer;
  - the scraper's timeline, sendTweet, me and getUserIdByScreenName, as function parameters;
  - the completion endpoint.
  - getUserIdByScreenName only forwards its argument, so the model passes the normalised screen name to the lookup parameter directly.
- Creating the scraper, the OpenAI client (base URL, API key) and the services is not modelled.
- Reading the environment (`src/config/env.ts`) is not modelled; the values arrive in `Agent.Config`. Logging is not modelled either.
- `setTimeout` sleeping is modelled as a `Sleep(ms)` effect; no clock is modelled.
- Agent.FirstEffectIsSleep: `Sleep(ms)` records the delay the program passes to `setTimeout`, not the time Node actually waits. Node replaces a delay above 2^31-1 ms with 1 ms. A configured delay of 35,792 minutes or more reaches that, and the environment sets no upper bound. So this lemma, `Agent.OneSleepPerCycle` and `Agent.RunScheduler` describe the requested wait, not that clamp.
- Agent.RunCycle: the timeline of a cycle is one function of (user id, count). If the style and content targets are the same account, the model makes both fetches return the same answer. The real scraper may answer the two calls differently.
- Agent.RunAgent: `Promise.all` of the two lookups is modelled as both lookups being issued and then checked in order. When both reject, `main` really rejects with whichever settles first; the model reports the style lookup's error.
  - If both fail, the model reports the style lookup's error.
  - JavaScript reports whichever rejects first.
- RunScheduler: the `while (true)` loop never ends. The model runs it over the finite sequence of cycles that happen before the process is stopped from outside. It does not model the process running forever.
- Common.MinutesToMillis: JavaScript numbers are floating point. The model uses natural numbers, so fractional or negative minute values are not modelled.
- Values that are typed strings but could be `undefined` at run time are not modelled, except where an error path depends on them:
  - the cookie record fields;
  - the persona and the target usernames;
  - `me?.userId!`, which is modelled as `UserId = Option<string>`.
- OpenAI.CorporaRecoverable: recoverability is proved only for non-empty tweet lists without newlines. An empty list joins to an empty block, and a tweet containing a newline splits into several lines.

## Findings

| source | as written | input that shows it | evidently intended | confidence | as-written member | corrected member |
|---|---|---|---|---|---|---|
| src/index.ts:65-68 | `generateTweet` is called with two arguments (persona prompt, corpora object), but it declares four (username, pre-prompt, account tweets, likeness tweets). The template joins `likenessTweets` first, and it is `undefined`. | Any cycle whose three fetches succeed: `generateTweet(persona, {account, style, content})` throws a TypeError at `likenessTweets.join`, the loop catches it, and nothing is ever posted. This holds for a build that runs the file without type checking (tsx, or ts-node in transpile-only mode); `tsc` rejects the call (TS2554: expected 4 arguments, got 2), so the agent never starts. Either way nothing is posted. | The generator receives the target's username, the persona prompt and the fetched corpora. A non-empty generated tweet is then posted. | not executed | Agent.AsCalledCycleNeverPosts | Agent.GeneratedTweetIsPosted |

The corrected model keeps the generator abstract (`CycleWorld.generate`). The declared four-argument behaviour is `OpenAI.GenerateTweet`, and `OpenAI.DeclaredCallIsGenerateTweet` proves that the two coincide when four well-typed arguments are passed.

The doc comment of `generateTweet` says the result is undefined when generation fails. An answer with no choices does not give undefined: reading `choices[0].message` throws a TypeError. The model follows the code (`OpenAI.TweetFromCompletion`).
