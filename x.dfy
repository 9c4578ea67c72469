/** The X/Twitter service (src/services/x.ts): reading a user's latest tweets and posting one.
    The scraper's network calls are parameters. */
module XService {
  import opened Wrappers

  /** A fetched tweet, reduced to its optional text. */
  datatype Tweet = Tweet(text: Option<string>)

  /** The scraper's answer to `sendTweet`. */
  datatype SendResponse = SendResponse(status: int)

  /** A user id as the scraper receives it; `None` is the `undefined` that `me?.userId!` lets
      through when no profile is available. */
  type UserId = Option<string>

  /** `.filter((tweet) => tweet.text !== undefined).map((tweet) => tweet.text!)`. */
  function Texts(tweets: seq<Tweet>): (texts: seq<string>)
    ensures |texts| <= |tweets|
    ensures forall k :: 0 <= k < |texts| ==> exists i :: 0 <= i < |tweets| && tweets[i].text == Some(texts[k])
    ensures (forall i :: 0 <= i < |tweets| ==> tweets[i].text.Some?) ==> |texts| == |tweets|
  {
    if tweets == [] then []
    else
      var rest := Texts(tweets[1..]);
      assert forall k :: 0 <= k < |rest| ==> exists i :: 1 <= i < |tweets| && tweets[i].text == Some(rest[k]) by {
        forall k | 0 <= k < |rest| ensures exists i :: 1 <= i < |tweets| && tweets[i].text == Some(rest[k]) {
          var j :| 0 <= j < |tweets[1..]| && tweets[1..][j].text == Some(rest[k]);
          assert tweets[j + 1].text == Some(rest[k]);
        }
      }
      match tweets[0].text
      case Some(t) => [t] + rest
      case None => rest
  }

  /** Filtering distributes over concatenation: the texts keep the fetch order. */
  lemma {:induction false} TextsAppend(a: seq<Tweet>, b: seq<Tweet>)
    ensures Texts(a + b) == Texts(a) + Texts(b)
    decreases |a|
  {
    if a != [] {
      assert (a + b)[1..] == a[1..] + b;
      TextsAppend(a[1..], b);
    } else {
      assert a + b == b;
    }
  }

  /** A tweet with text contributes exactly that text; a tweet without text contributes nothing.
      With TextsAppend this determines Texts completely. */
  lemma TextsOfOne(t: Tweet)
    ensures Texts([t]) == (if t.text.Some? then [t.text.value] else [])
  {
    assert [t][1..] == [];
  }

  /** Only `undefined` is dropped: a tweet whose text is the empty string is kept. */
  lemma {:induction false} EmptyTextIsKept(tweets: seq<Tweet>, i: nat)
    requires i < |tweets| && tweets[i].text == Some("")
    ensures "" in Texts(tweets)
  {
    assert tweets == tweets[..i] + [tweets[i]] + tweets[i + 1..];
    TextsAppend(tweets[..i] + [tweets[i]], tweets[i + 1..]);
    TextsAppend(tweets[..i], [tweets[i]]);
    TextsOfOne(tweets[i]);
  }

  /** When every fetched tweet has text, the result is the texts one for one, in order. */
  lemma {:induction false} TextsAllDefined(tweets: seq<Tweet>)
    requires forall i :: 0 <= i < |tweets| ==> tweets[i].text.Some?
    ensures |Texts(tweets)| == |tweets|
    ensures forall i :: 0 <= i < |tweets| ==> Texts(tweets)[i] == tweets[i].text.value
    decreases |tweets|
  {
    if tweets != [] {
      TextsAllDefined(tweets[1..]);
    }
  }

  /** What `getLatestTweets` returns: the texts of what the scraper yields for `userID` and
      `count`, both passed on unchanged and unchecked; a failure of the scraper propagates. */
  function LatestTweets(timeline: (UserId, int) -> Result<seq<Tweet>, Error>, userID: UserId, count: int)
    : (r: Result<seq<string>, Error>)
    ensures r.Failure? <==> timeline(userID, count).Failure?
    ensures r.Failure? ==> r.error == timeline(userID, count).error
    ensures r.Success? ==> r.value == Texts(timeline(userID, count).value)
    ensures r.Success? ==> |r.value| <= |timeline(userID, count).value|
  {
    match timeline(userID, count)
    case Failure(e) => Failure(e)
    case Success(tweets) => Success(Texts(tweets))
  }

  /** `getLatestTweets`: ask the scraper, collect everything it yields into an array, keep the
      texts. */
  method GetLatestTweets(timeline: (UserId, int) -> Result<seq<Tweet>, Error>, userID: UserId, count: int)
    returns (r: Result<seq<string>, Error>)
    ensures r == LatestTweets(timeline, userID, count)
  {
    var tweets := timeline(userID, count);
    if tweets.Failure? {
      return Failure(tweets.error);
    }
    var tweetArray: seq<Tweet> := [];
    var i := 0;
    while i < |tweets.value|
      invariant 0 <= i <= |tweets.value|
      invariant tweetArray == tweets.value[..i]
    {
      tweetArray := tweetArray + [tweets.value[i]];
      i := i + 1;
    }
    assert tweetArray == tweets.value;
    return Success(Texts(tweetArray));
  }

  /** `postTweet`: send the text verbatim; true exactly when the status is 200. A failure of the
      scraper propagates. */
  function PostTweet(send: string -> Result<SendResponse, Error>, tweet: string): (r: Result<bool, Error>)
    ensures r.Failure? <==> send(tweet).Failure?
    ensures r.Failure? ==> r.error == send(tweet).error
    ensures r.Success? ==> (r.value <==> send(tweet).value.status == 200)
  {
    match send(tweet)
    case Failure(e) => Failure(e)
    case Success(response) => Success(response.status == 200)
  }
}
