/** Tweet generation (src/services/openai.ts): the prompt template, the completion request and
    the post-processing of the provider's answer. The HTTP call itself is a parameter. */
module OpenAI {
  import opened Wrappers
  import opened Strings

  // ---------------------------------------------------------------------------------------------
  // The prompt template
  // ---------------------------------------------------------------------------------------------

  const DirectiveTitle := "Your directive"
  const VoiceDnaTitle := "Voice DNA (Steal These)(tone, capitalizations, structure, jokes, themes, etc.)"
  const BlocklistTitle := "Blocklist (Avoid These)"
  const OutputTitle := "Only return the tweet text. Do not include any other text."

  /** The rules of the directive section, up to the `.@` before the username. */
  const DirectiveRules :=
    "1. STEAL THE VOICE: Mirror slang, jokes, and chaos DIRECTLY from the user's existing content.  \n"
    + "      2. AVOID REPETITION: Treat account history as a BLOCKLIST. Never reuse:  \n"
    + "        - Starting words/phrases (e.g., \"[First 3 words of any prior post]\")  \n"
    + "        - Topics/themes (e.g., \"[TopicX]\", \"[ThemeY]\")  \n"
    + "        - Unique phrases (e.g., \"[Signature line]\")  \n"
    + "      3. Vary output length drastically. No emojis, quotes, or markdown.  \n"
    + "      4. Start with "

  /** The rules of the blocklist section, before the account's own tweets. */
  const BlocklistRules :=
    "Scan prior content. DO NOT REPEAT:  \n"
    + "      - First 3 words of any post (e.g., \"[Topic]...\")  \n"
    + "      - Unique phrases (e.g., \"[Phrase]...\")  \n"
    + "      - Overused themes (e.g., \"[Theme]...\")  \n"
    + "      "

  /** What stands before each section title (the end of the previous section and a `====`
      banner), and what follows it up to the next interpolated value or block of rules. */
  const DirectiveBanner := "\n      ====  \n      "
  const DirectiveHeading := "  \n      ----  \n      "
  const VoiceDnaBanner := "\n      ====  \n\n      ====  \n      "
  const VoiceDnaHeading := "\n      ----  \n      "
  const BlocklistBanner := "  \n      ====  \n\n      ====  \n      "
  const BlocklistHeading := "  \n      ----  \n      "
  const OutputBanner := "  \n      ====  \n\n      ====\n      "
  const OutputTrailer := "\n      ====\n    "

  /** The text between the username and the pre-prompt. */
  const PrePromptLabel := "  \n      5. Reference this pre-prompt: "

  /** The fixed text of a prompt template, piece by piece: for each section the banner before its
      title, the title and what follows the title, plus the directive's rules, the `.@` before the
      username and the label before the pre-prompt. */
  datatype Layout = Layout(
    directiveBanner: string, directiveTitle: string, directiveHeading: string, directiveRules: string,
    mention: string, prePromptLabel: string,
    voiceDnaBanner: string, voiceDnaTitle: string, voiceDnaHeading: string,
    blocklistBanner: string, blocklistTitle: string, blocklistHeading: string, blocklistRules: string,
    outputBanner: string, outputTitle: string, outputTrailer: string)

  /** The template `generateTweet` writes out. */
  const Template := Layout(
    DirectiveBanner, DirectiveTitle, DirectiveHeading, DirectiveRules, ".@", PrePromptLabel,
    VoiceDnaBanner, VoiceDnaTitle, VoiceDnaHeading,
    BlocklistBanner, BlocklistTitle, BlocklistHeading, BlocklistRules,
    OutputBanner, OutputTitle, OutputTrailer)

  /** A template as the sequence of its pieces, with the four interpolated strings in place:
      the username at index 5, the pre-prompt at 7, the likeness corpus at 11 and the account
      corpus at 16; the section titles are at 1, 9, 13 and 18. */
  function Pieces(t: Layout, username: string, prePrompt: string, account: string, likeness: string): seq<string>
  {
    [t.directiveBanner, t.directiveTitle, t.directiveHeading, t.directiveRules, t.mention, username,
     t.prePromptLabel, prePrompt,
     t.voiceDnaBanner, t.voiceDnaTitle, t.voiceDnaHeading, likeness,
     t.blocklistBanner, t.blocklistTitle, t.blocklistHeading, t.blocklistRules, account,
     t.outputBanner, t.outputTitle, t.outputTrailer]
  }

  /** The pieces written one after the other. */
  function Concat(pieces: seq<string>): string
  {
    if pieces == [] then [] else pieces[0] + Concat(pieces[1..])
  }

  /** A template with its four holes filled by already rendered strings. */
  function Fill(t: Layout, username: string, prePrompt: string, account: string, likeness: string): string
  {
    Concat(Pieces(t, username, prePrompt, account, likeness))
  }

  /** Where the piece at index `k` starts in the filled template. */
  function PiecePos(t: Layout, username: string, prePrompt: string, account: string, likeness: string, k: nat): nat
    requires k <= 20
  {
    |Concat(Pieces(t, username, prePrompt, account, likeness)[..k])|
  }

  /** `s` begins with `t`. */
  predicate StartsWith(s: string, t: string)
    decreases |t|
  {
    |t| <= |s| && (t == [] || (s[0] == t[0] && StartsWith(s[1..], t[1..])))
  }

  /** `t` occurs in `s` starting at position `i`. */
  predicate Occurs(s: string, t: string, i: nat)
  {
    i <= |s| && StartsWith(s[i..], t)
  }

  lemma {:induction false} StartsWithPrefix(t: string, y: string)
    ensures StartsWith(t + y, t)
    decreases |t|
  {
    if t != [] {
      assert (t + y)[1..] == t[1..] + y;
      StartsWithPrefix(t[1..], y);
    }
  }

  lemma {:induction false} StartsWithSlice(s: string, t: string)
    requires StartsWith(s, t)
    ensures |t| <= |s| && s[..|t|] == t
    decreases |t|
  {
    if t != [] {
      StartsWithSlice(s[1..], t[1..]);
      assert s[..|t|] == [s[0]] + s[1..][..|t| - 1];
      assert t == [t[0]] + t[1..];
    }
  }

  /** An occurrence is the slice of `s` at its position. */
  lemma OccursSlice(s: string, t: string, i: nat)
    requires Occurs(s, t, i)
    ensures i + |t| <= |s| && s[i..i + |t|] == t
  {
    StartsWithSlice(s[i..], t);
    assert s[i..][..|t|] == s[i..i + |t|];
  }

  lemma OccursBetween(x: string, t: string, y: string)
    ensures Occurs(x + t + y, t, |x|)
  {
    assert (x + t + y)[|x|..] == t + y;
    StartsWithPrefix(t, y);
  }

  lemma {:induction false} ConcatAppend(a: seq<string>, b: seq<string>)
    ensures Concat(a + b) == Concat(a) + Concat(b)
    decreases |a|
  {
    if a == [] {
      assert a + b == b;
    } else {
      assert (a + b)[1..] == a[1..] + b;
      ConcatAppend(a[1..], b);
    }
  }

  lemma ConcatOne(pieces: seq<string>)
    requires |pieces| == 1
    ensures Concat(pieces) == pieces[0]
  {
    assert pieces[1..] == [];
  }

  lemma ConcatTwo(x: string, y: string, rest: seq<string>)
    ensures Concat([x, y] + rest) == x + (y + Concat(rest))
  {
    var s := [x, y] + rest;
    assert s[1..] == [y] + rest && s[1..][1..] == rest;
  }

  /** The pieces from `k` up to `m` stand together in the concatenation where the pieces before
      them end. */
  lemma RunOccurs(pieces: seq<string>, k: nat, m: nat)
    requires k <= m <= |pieces|
    ensures Occurs(Concat(pieces), Concat(pieces[k..m]), |Concat(pieces[..k])|)
  {
    assert pieces == pieces[..k] + pieces[k..m] + pieces[m..];
    ConcatAppend(pieces[..k] + pieces[k..m], pieces[m..]);
    ConcatAppend(pieces[..k], pieces[k..m]);
    OccursBetween(Concat(pieces[..k]), Concat(pieces[k..m]), Concat(pieces[m..]));
  }

  /** Every piece stands in the concatenation where the pieces before it end. */
  lemma PieceOccurs(pieces: seq<string>, k: nat)
    requires k < |pieces|
    ensures Occurs(Concat(pieces), pieces[k], |Concat(pieces[..k])|)
  {
    RunOccurs(pieces, k, k + 1);
    ConcatOne(pieces[k..k + 1]);
  }

  /** A later piece starts at least the length of an earlier one after it. */
  lemma PositionGrows(pieces: seq<string>, j: nat, k: nat)
    requires j < k <= |pieces|
    ensures |Concat(pieces[..j])| + |pieces[j]| <= |Concat(pieces[..k])|
  {
    assert pieces[..k] == pieces[..j] + pieces[j..k];
    ConcatAppend(pieces[..j], pieces[j..k]);
    assert pieces[j..k] == [pieces[j]] + pieces[j + 1..k];
  }

  /** In any filled template the four section titles stand in the order directive, Voice DNA,
      Blocklist, output rule, none overlapping the next. */
  lemma SectionsInOrder(t: Layout, username: string, prePrompt: string, account: string, likeness: string)
    ensures var p := Fill(t, username, prePrompt, account, likeness);
      var d, v := PiecePos(t, username, prePrompt, account, likeness, 1), PiecePos(t, username, prePrompt, account, likeness, 9);
      var b, o := PiecePos(t, username, prePrompt, account, likeness, 13), PiecePos(t, username, prePrompt, account, likeness, 18);
      && d + |t.directiveTitle| <= v && v + |t.voiceDnaTitle| <= b && b + |t.blocklistTitle| <= o
      && Occurs(p, t.directiveTitle, d) && Occurs(p, t.voiceDnaTitle, v)
      && Occurs(p, t.blocklistTitle, b) && Occurs(p, t.outputTitle, o)
  {
    var ps := Pieces(t, username, prePrompt, account, likeness);
    PieceOccurs(ps, 1);
    PieceOccurs(ps, 9);
    PieceOccurs(ps, 13);
    PieceOccurs(ps, 18);
    PositionGrows(ps, 1, 9);
    PositionGrows(ps, 9, 13);
    PositionGrows(ps, 13, 18);
  }

  /** In any filled template the directive's rules are followed directly by the mention mark,
      the username, the pre-prompt label and the pre-prompt. */
  lemma DirectiveFields(t: Layout, username: string, prePrompt: string, account: string, likeness: string)
    ensures Occurs(Fill(t, username, prePrompt, account, likeness),
                   t.directiveRules + (t.mention + (username + (t.prePromptLabel + prePrompt))),
                   PiecePos(t, username, prePrompt, account, likeness, 3))
  {
    var ps := Pieces(t, username, prePrompt, account, likeness);
    RunOccurs(ps, 3, 8);
    var tail := [username, t.prePromptLabel, prePrompt];
    assert ps[3..8] == [t.directiveRules, t.mention] + tail;
    ConcatTwo(t.directiveRules, t.mention, tail);
    ConcatTwo(username, t.prePromptLabel, [prePrompt]);
    ConcatOne([prePrompt]);
  }

  /** In any filled template the likeness corpus stands between the Voice DNA and Blocklist
      titles and the account corpus between the Blocklist title and the output rule, each whole. */
  lemma CorporaInSections(t: Layout, username: string, prePrompt: string, account: string, likeness: string)
    ensures var p := Fill(t, username, prePrompt, account, likeness);
      var v, l := PiecePos(t, username, prePrompt, account, likeness, 9), PiecePos(t, username, prePrompt, account, likeness, 11);
      var b, a := PiecePos(t, username, prePrompt, account, likeness, 13), PiecePos(t, username, prePrompt, account, likeness, 16);
      var o := PiecePos(t, username, prePrompt, account, likeness, 18);
      && v + |t.voiceDnaTitle| <= l && l + |likeness| <= b
      && b + |t.blocklistTitle| <= a && a + |account| <= o
      && Occurs(p, likeness, l) && Occurs(p, account, a)
  {
    var ps := Pieces(t, username, prePrompt, account, likeness);
    PieceOccurs(ps, 11);
    PieceOccurs(ps, 16);
    PositionGrows(ps, 9, 11);
    PositionGrows(ps, 11, 13);
    PositionGrows(ps, 13, 16);
    PositionGrows(ps, 16, 18);
  }

  /** The four section titles of the template `generateTweet` writes out stand in the order
      directive, Voice DNA, Blocklist, output rule, with the likeness corpus between the Voice DNA
      and Blocklist titles and the account corpus between the Blocklist title and the output
      rule. */
  lemma TemplateSections(username: string, prePrompt: string, account: string, likeness: string)
    ensures var p := Fill(Template, username, prePrompt, account, likeness);
      exists d: nat, v: nat, l: nat, b: nat, a: nat, o: nat ::
        (&& d + |DirectiveTitle| <= v && v + |VoiceDnaTitle| <= l && l + |likeness| <= b
         && b + |BlocklistTitle| <= a && a + |account| <= o
         && Occurs(p, DirectiveTitle, d) && Occurs(p, VoiceDnaTitle, v)
         && Occurs(p, likeness, l) && Occurs(p, BlocklistTitle, b)
         && Occurs(p, account, a) && Occurs(p, OutputTitle, o))
  {
    SectionsInOrder(Template, username, prePrompt, account, likeness);
    CorporaInSections(Template, username, prePrompt, account, likeness);
  }

  /** In the template `generateTweet` writes out, the directive's rules end in `.@` and the
      username, followed by the pre-prompt's label and the pre-prompt. */
  lemma TemplateDirective(username: string, prePrompt: string, account: string, likeness: string)
    ensures exists r: nat :: Occurs(Fill(Template, username, prePrompt, account, likeness),
                                    DirectiveRules + (".@" + (username + (PrePromptLabel + prePrompt))), r)
  {
    DirectiveFields(Template, username, prePrompt, account, likeness);
  }

  /** The prompt `generateTweet` sends: the template with the username, the pre-prompt and the
      two corpora, each list of tweets joined by newlines. */
  function BuildPrompt(likenessUsername: string, likenessPrePrompt: string,
                       accountTweets: seq<string>, likenessTweets: seq<string>): (prompt: string)
    ensures exists d: nat, v: nat, l: nat, b: nat, a: nat, o: nat ::
      (&& d + |DirectiveTitle| <= v && v + |VoiceDnaTitle| <= l && l + |Join(likenessTweets, '\n')| <= b
       && b + |BlocklistTitle| <= a && a + |Join(accountTweets, '\n')| <= o
       && Occurs(prompt, DirectiveTitle, d) && Occurs(prompt, VoiceDnaTitle, v)
       && Occurs(prompt, Join(likenessTweets, '\n'), l) && Occurs(prompt, BlocklistTitle, b)
       && Occurs(prompt, Join(accountTweets, '\n'), a) && Occurs(prompt, OutputTitle, o))
    ensures exists r: nat ::
      Occurs(prompt, DirectiveRules + (".@" + (likenessUsername + (PrePromptLabel + likenessPrePrompt))), r)
  {
    TemplateSections(likenessUsername, likenessPrePrompt, Join(accountTweets, '\n'), Join(likenessTweets, '\n'));
    TemplateDirective(likenessUsername, likenessPrePrompt, Join(accountTweets, '\n'), Join(likenessTweets, '\n'));
    Fill(Template, likenessUsername, likenessPrePrompt, Join(accountTweets, '\n'), Join(likenessTweets, '\n'))
  }

  /** Each corpus can be read back from any filled template, tweet by tweet and in the given
      order, when none of its tweets contains a newline: the likeness corpus at its place between
      the Voice DNA and Blocklist titles, the account corpus at its place between the Blocklist
      title and the output rule (CorporaInSections). */
  lemma CorporaRecoverable(t: Layout, username: string, prePrompt: string,
                           accountTweets: seq<string>, likenessTweets: seq<string>)
    requires accountTweets != [] && forall i :: 0 <= i < |accountTweets| ==> '\n' !in accountTweets[i]
    requires likenessTweets != [] && forall i :: 0 <= i < |likenessTweets| ==> '\n' !in likenessTweets[i]
    ensures var account, likeness := Join(accountTweets, '\n'), Join(likenessTweets, '\n');
      var p := Fill(t, username, prePrompt, account, likeness);
      var l, a := PiecePos(t, username, prePrompt, account, likeness, 11), PiecePos(t, username, prePrompt, account, likeness, 16);
      && l + |likeness| <= a && a + |account| <= |p|
      && Split(p[l..l + |likeness|], '\n') == likenessTweets
      && Split(p[a..a + |account|], '\n') == accountTweets
  {
    var account, likeness := Join(accountTweets, '\n'), Join(likenessTweets, '\n');
    var p := Fill(t, username, prePrompt, account, likeness);
    CorporaInSections(t, username, prePrompt, account, likeness);
    ReadBack(p, likenessTweets, PiecePos(t, username, prePrompt, account, likeness, 11));
    ReadBack(p, accountTweets, PiecePos(t, username, prePrompt, account, likeness, 16));
  }

  /** A list of newline-free tweets joined by newlines and standing in `s` is read back, whole
      and in order, by splitting the text at its position. */
  lemma ReadBack(s: string, tweets: seq<string>, i: nat)
    requires tweets != [] && forall k :: 0 <= k < |tweets| ==> '\n' !in tweets[k]
    requires Occurs(s, Join(tweets, '\n'), i)
    ensures i + |Join(tweets, '\n')| <= |s| && Split(s[i..i + |Join(tweets, '\n')|], '\n') == tweets
  {
    OccursSlice(s, Join(tweets, '\n'), i);
    SplitJoin(tweets, '\n');
  }

  // ---------------------------------------------------------------------------------------------
  // The request and the response
  // ---------------------------------------------------------------------------------------------

  datatype ChatMessage = ChatMessage(role: string, content: string)

  /** The argument of `client.chat.completions.create`. */
  datatype CompletionRequest = CompletionRequest(model: string, maxTokens: nat, messages: seq<ChatMessage>)

  /** One choice of the provider's answer; `content` is `None` when the message content is null. */
  datatype Choice = Choice(content: Option<string>)

  datatype Completion = Completion(choices: seq<Choice>)

  const MaxTokens: nat := 4096

  /** The request: the configured model, at most 4096 tokens, and one user message whose content
      is the whole prompt. */
  function TweetRequest(model: string, prompt: string): (r: CompletionRequest)
    ensures r.model == model && r.maxTokens == 4096
    ensures |r.messages| == 1 && r.messages[0] == ChatMessage("user", prompt)
  {
    CompletionRequest(model, MaxTokens, [ChatMessage("user", prompt)])
  }

  /** `replace(/"/g, "")`: every double quote removed, every other character kept. */
  function StripQuotes(s: string): (r: string)
    ensures '"' !in r
    ensures |r| <= |s|
    ensures forall c :: c != '"' ==> multiset(r)[c] == multiset(s)[c]
  {
    if s == [] then []
    else
      assert s == [s[0]] + s[1..];
      (if s[0] == '"' then [] else [s[0]]) + StripQuotes(s[1..])
  }

  /** `r` is obtained from `s` by deleting characters, the rest keeping their order. */
  predicate IsSubsequence(r: string, s: string)
    decreases |s|
  {
    if r == [] then true
    else if s == [] then false
    else if r[0] == s[0] then IsSubsequence(r[1..], s[1..])
    else IsSubsequence(r, s[1..])
  }

  /** The characters that remain keep their original order. */
  lemma {:induction false} StripQuotesKeepsOrder(s: string)
    ensures IsSubsequence(StripQuotes(s), s)
    decreases |s|
  {
    if s != [] {
      StripQuotesKeepsOrder(s[1..]);
      var rest := StripQuotes(s[1..]);
      if s[0] == '"' {
        assert StripQuotes(s) == [] + rest == rest;
        SubsequenceOfTail(rest, s);
      } else {
        assert StripQuotes(s) == [s[0]] + rest;
        assert (([s[0]] + rest)[1..]) == rest;
      }
    }
  }

  /** A subsequence of the tail is a subsequence of the whole. */
  lemma {:induction false} SubsequenceOfTail(r: string, s: string)
    requires s != [] && IsSubsequence(r, s[1..])
    ensures IsSubsequence(r, s)
    decreases |s|, 1
  {
    if r != [] && r[0] == s[0] {
      SubsequenceDropHead(r, s[1..]);
    }
  }

  /** Dropping the first character of a subsequence leaves a subsequence. */
  lemma {:induction false} SubsequenceDropHead(r: string, s: string)
    requires r != [] && IsSubsequence(r, s)
    ensures IsSubsequence(r[1..], s)
    decreases |s|, 2
  {
    if r[0] != s[0] {
      SubsequenceDropHead(r, s[1..]);
    }
    if r[1..] != [] {
      SubsequenceOfTail(r[1..], s);
    }
  }

  /** A string without quotes is left unchanged. */
  lemma {:induction false} StripQuotesNoQuotes(s: string)
    requires '"' !in s
    ensures StripQuotes(s) == s
    decreases |s|
  {
    if s != [] {
      assert '"' !in s[1..];
      StripQuotesNoQuotes(s[1..]);
      assert [s[0]] + s[1..] == s;
    }
  }

  /** Stripping twice is stripping once. */
  lemma StripQuotesIdempotent(s: string)
    ensures StripQuotes(StripQuotes(s)) == StripQuotes(s)
  {
    StripQuotesNoQuotes(StripQuotes(s));
  }

  /** `msg.choices[0].message.content?.replace(/"/g, "")`: with no choice at all, reading
      `.message` of `undefined` raises a TypeError; a null content gives `undefined`; otherwise the
      first choice's text with its quotes stripped. */
  function TweetFromCompletion(msg: Completion): (r: Result<Option<string>, Error>)
    ensures r.Failure? <==> msg.choices == []
    ensures r.Failure? ==> r.error.TypeError?
    ensures r.Success? ==> (r.value.None? <==> msg.choices[0].content.None?)
    ensures r.Success? && r.value.Some? ==>
      && '"' !in r.value.value
      && IsSubsequence(r.value.value, msg.choices[0].content.value)
      && forall c :: c != '"' ==> multiset(r.value.value)[c] == multiset(msg.choices[0].content.value)[c]
  {
    if msg.choices == [] then Failure(TypeError("Cannot read properties of undefined (reading 'message')"))
    else
      match msg.choices[0].content
      case None => Success(None)
      case Some(text) =>
        StripQuotesKeepsOrder(text);
        Success(Some(StripQuotes(text)))
  }

  /** `generateTweet`: build the prompt, send the request through `complete` (the provider's
      HTTP call, whose failures propagate), post-process the answer. */
  function GenerateTweet(model: string, complete: CompletionRequest -> Result<Completion, Error>,
                         likenessUsername: string, likenessPrePrompt: string,
                         accountTweets: seq<string>, likenessTweets: seq<string>): (r: Result<Option<string>, Error>)
    ensures var request := TweetRequest(model, BuildPrompt(likenessUsername, likenessPrePrompt, accountTweets, likenessTweets));
      && (complete(request).Failure? ==> r == Failure(complete(request).error))
      && (complete(request).Success? ==> r == TweetFromCompletion(complete(request).value))
    ensures r.Success? && r.value.Some? ==> '"' !in r.value.value
  {
    Respond(model, complete, BuildPrompt(likenessUsername, likenessPrePrompt, accountTweets, likenessTweets))
  }

  /** Send the request for a built prompt and post-process the answer. */
  function Respond(model: string, complete: CompletionRequest -> Result<Completion, Error>, prompt: string)
    : Result<Option<string>, Error>
  {
    match complete(TweetRequest(model, prompt))
    case Failure(e) => Failure(e)
    case Success(msg) => TweetFromCompletion(msg)
  }

  // ---------------------------------------------------------------------------------------------
  // The call as JavaScript evaluates it, whatever arguments it is given
  // ---------------------------------------------------------------------------------------------

  /** An argument of `generateTweet` as JavaScript receives it at run time: missing arguments are
      `undefined`, and a caller may pass an object where a string or an array is declared. */
  datatype Argument = Undefined | Text(text: string) | StringArray(items: seq<string>) | PlainObject

  function ArgumentAt(args: seq<Argument>, i: nat): Argument
  {
    if i < |args| then args[i] else Undefined
  }

  /** `${arg}`: JavaScript's string conversion of an interpolated value. */
  function Interpolated(a: Argument): string
  {
    match a
    case Undefined => "undefined"
    case Text(t) => t
    case StringArray(items) => Join(items, ',')
    case PlainObject => "[object Object]"
  }

  /** `arg.join("\n")`: only an array has `join`; reading it from `undefined` throws. */
  function JoinedLines(a: Argument): Result<string, Error>
  {
    match a
    case StringArray(items) => Success(Join(items, '\n'))
    case Undefined => Failure(TypeError("Cannot read properties of undefined (reading 'join')"))
    case _ => Failure(TypeError("join is not a function"))
  }

  /** `generateTweet(...args)` as evaluated at run time. The template's holes are evaluated left
      to right, so the likeness corpus is joined before the account corpus, and the provider is
      called only once the prompt is built. With its four declared arguments it is exactly
      GenerateTweet; with fewer than four, the missing likeness corpus makes it throw a TypeError
      before any request is sent. */
  function GenerateTweetCall(model: string, complete: CompletionRequest -> Result<Completion, Error>,
                             args: seq<Argument>): (r: Result<Option<string>, Error>)
    ensures |args| < 4 ==> r.Failure? && r.error.TypeError?
  {
    match JoinedLines(ArgumentAt(args, 3))
    case Failure(e) => Failure(e)
    case Success(likeness) =>
      match JoinedLines(ArgumentAt(args, 2))
      case Failure(e) => Failure(e)
      case Success(account) =>
        Respond(model, complete, Fill(Template, Interpolated(ArgumentAt(args, 0)), Interpolated(ArgumentAt(args, 1)), account, likeness))
  }

  /** Called with its four declared arguments, `generateTweet` is exactly GenerateTweet. */
  lemma DeclaredCallIsGenerateTweet(model: string, complete: CompletionRequest -> Result<Completion, Error>,
                                    likenessUsername: string, likenessPrePrompt: string,
                                    accountTweets: seq<string>, likenessTweets: seq<string>)
    ensures GenerateTweetCall(model, complete, [Text(likenessUsername), Text(likenessPrePrompt),
                                                StringArray(accountTweets), StringArray(likenessTweets)])
            == GenerateTweet(model, complete, likenessUsername, likenessPrePrompt, accountTweets, likenessTweets)
  {
    var args := [Text(likenessUsername), Text(likenessPrePrompt), StringArray(accountTweets), StringArray(likenessTweets)];
    var account, likeness := Join(accountTweets, '\n'), Join(likenessTweets, '\n');
    assert JoinedLines(ArgumentAt(args, 3)) == Success(likeness);
    assert JoinedLines(ArgumentAt(args, 2)) == Success(account);
    assert Interpolated(ArgumentAt(args, 0)) == likenessUsername;
    assert Interpolated(ArgumentAt(args, 1)) == likenessPrePrompt;
    var prompt := Fill(Template, likenessUsername, likenessPrePrompt, account, likeness);
    assert GenerateTweetCall(model, complete, args) == Respond(model, complete, prompt);
    assert BuildPrompt(likenessUsername, likenessPrePrompt, accountTweets, likenessTweets) == prompt;
  }
}
