/** Session persistence (src/utils/auth.ts): the cookie-record serialiser and the AuthManager
    that restores a saved session or logs in and saves a fresh one. */
module Auth {
  import opened Wrappers

  // ---------------------------------------------------------------------------------------------
  // Cookie records and their Set-Cookie style strings
  // ---------------------------------------------------------------------------------------------

  /** One element of the array stored in the cookies file, reduced to the fields the serialiser
      reads. `sameSite` is `None` when the field is missing from the record. */
  datatype CookieRecord = CookieRecord(
    key: string,
    value: string,
    domain: string,
    path: string,
    secure: bool,
    httpOnly: bool,
    sameSite: Option<string>)

  /** `cookie.sameSite || "Lax"`: a missing or empty value falls back to "Lax". */
  function SameSiteOrLax(sameSite: Option<string>): string
  {
    match sameSite
    case Some(v) => if v != "" then v else "Lax"
    case None => "Lax"
  }

  /** The leading part of every cookie string: `key=value; Domain=<domain>; Path=<path>; `. */
  function CookiePrefix(c: CookieRecord): string
  {
    c.key + "=" + c.value + "; Domain=" + c.domain + "; Path=" + c.path + "; "
  }

  /** The attribute values that can be read back from the tail of a cookie string. */
  datatype Attributes = Attributes(secure: bool, httpOnly: bool, sameSite: string)

  /** The separator between attributes, and the label of the SameSite attribute. */
  const Sep := "; "
  const SameSiteLabel := "SameSite="

  /** Reads `<token>; ` (the flag is set) or an empty segment `; ` (the flag is clear). */
  function ReadFlag(t: string, token: string): Option<(bool, string)>
  {
    if |token| + 2 <= |t| && t[..|token| + 2] == token + Sep then Some((true, t[|token| + 2..]))
    else if 2 <= |t| && t[..2] == Sep then Some((false, t[2..]))
    else None
  }

  /** Parses the tail that follows the prefix: `[Secure]; [HttpOnly]; SameSite=<value>`. */
  function ParseAttributes(t: string): Option<Attributes>
  {
    match ReadFlag(t, "Secure")
    case None => None
    case Some((secure, t1)) =>
      match ReadFlag(t1, "HttpOnly")
      case None => None
      case Some((httpOnly, t2)) =>
        if 9 <= |t2| && t2[..9] == SameSiteLabel then Some(Attributes(secure, httpOnly, t2[9..]))
        else None
  }

  /** The string built for one record by the `map` callback in `loadCookies`. Every field is
      inserted verbatim; a clear flag leaves an empty segment behind. The contract says that the
      string starts with the record's prefix and that the flags and the effective SameSite value
      can be read back from what follows it. */
  function CookieString(c: CookieRecord): (s: string)
    ensures |CookiePrefix(c)| <= |s| && s[..|CookiePrefix(c)|] == CookiePrefix(c)
    ensures ParseAttributes(s[|CookiePrefix(c)|..])
            == Some(Attributes(c.secure, c.httpOnly, SameSiteOrLax(c.sameSite)))
  {
    var prefix, tail := CookiePrefix(c), Tail(c.secure, c.httpOnly, SameSiteOrLax(c.sameSite));
    TailRoundTrip(c.secure, c.httpOnly, SameSiteOrLax(c.sameSite));
    assert (prefix + tail)[|prefix|..] == tail;
    prefix + tail
  }

  /** The part of a cookie string after its prefix. */
  function Tail(secure: bool, httpOnly: bool, sameSite: string): string
  {
    Flag(secure, "Secure") + Sep + (Flag(httpOnly, "HttpOnly") + Sep + (SameSiteLabel + sameSite))
  }

  /** The segment a flag contributes: its token when set, nothing when clear. */
  function Flag(on: bool, token: string): string
  {
    if on then token else ""
  }

  /** A flag segment followed by `; ` reads back as the flag. */
  lemma ReadFlagRoundTrip(on: bool, token: string, rest: string)
    requires token != [] && token[0] != ';'
    ensures ReadFlag(Flag(on, token) + Sep + rest, token) == Some((on, rest))
  {
    var t := Flag(on, token) + Sep + rest;
    if on {
      assert t[..|token| + 2] == token + Sep;
      assert t[|token| + 2..] == rest;
    } else {
      assert t == Sep + rest;
      if |token| + 2 <= |t| {
        assert t[..|token| + 2][0] == ';';
      }
      assert t[..2] == Sep;
      assert t[2..] == rest;
    }
  }

  lemma SameSiteSegment(sameSite: string)
    ensures var t := SameSiteLabel + sameSite; 9 <= |t| && t[..9] == SameSiteLabel && t[9..] == sameSite
  {
  }

  /** The tail of a cookie string parses back to the attributes it was built from. */
  lemma TailRoundTrip(secure: bool, httpOnly: bool, sameSite: string)
    ensures ParseAttributes(Tail(secure, httpOnly, sameSite)) == Some(Attributes(secure, httpOnly, sameSite))
  {
    var t2 := SameSiteLabel + sameSite;
    SameSiteSegment(sameSite);
    var t1 := Flag(httpOnly, "HttpOnly") + Sep + t2;
    ReadFlagRoundTrip(httpOnly, "HttpOnly", t2);
    ReadFlagRoundTrip(secure, "Secure", t1);
  }

  /** Positions of the flag segments within a tail. */
  lemma TailTokens(secure: bool, httpOnly: bool, sameSite: string)
    ensures var t := Tail(secure, httpOnly, sameSite);
      var q := |Flag(secure, "Secure")| + 2;
      var h := q + |Flag(httpOnly, "HttpOnly")| + 2;
      && h <= |t|
      && (secure <==> t[0] == 'S')
      && t[..q] == Flag(secure, "Secure") + Sep
      && (httpOnly <==> t[q] == 'H')
      && t[q..h] == Flag(httpOnly, "HttpOnly") + Sep
      && t[h..] == SameSiteLabel + sameSite
  {
    var f1, f2 := Flag(secure, "Secure"), Flag(httpOnly, "HttpOnly");
    var t2 := SameSiteLabel + sameSite;
    var t1 := f2 + Sep + t2;
    var t := f1 + Sep + t1;
    var q, h := |f1| + 2, |f1| + 2 + |f2| + 2;
    SplitAt(f1 + Sep, t1);
    SplitAt(f2 + Sep, t2);
    assert t[q..h] == t1[..|f2| + 2] by {
      SliceAfter(f1 + Sep, t1, 0, |f2| + 2);
    }
    assert t[h..] == t1[|f2| + 2..] by {
      SliceAfter(f1 + Sep, t1, |f2| + 2, |t1|);
    }
  }

  /** Both halves of a concatenation can be cut back out of it. */
  lemma SplitAt(a: string, b: string)
    ensures (a + b)[..|a|] == a && (a + b)[|a|..] == b
  {
  }

  /** `Secure` stands right after the prefix iff the record is secure, and `HttpOnly` right after
      the following separator iff the record is http-only; a clear flag leaves an empty segment
      `; ` in its place. The string always ends with `SameSite=` and the effective SameSite value. */
  lemma FlagTokens(c: CookieRecord)
    ensures var s, p := CookieString(c), |CookiePrefix(c)|;
      var q := p + |Flag(c.secure, "Secure")| + 2;
      var h := q + |Flag(c.httpOnly, "HttpOnly")| + 2;
      && h <= |s|
      && (c.secure <==> s[p] == 'S')
      && s[p..q] == Flag(c.secure, "Secure") + Sep
      && (c.httpOnly <==> s[q] == 'H')
      && s[q..h] == Flag(c.httpOnly, "HttpOnly") + Sep
      && s[h..] == SameSiteLabel + SameSiteOrLax(c.sameSite)
  {
    TokensAfter(CookiePrefix(c), c.secure, c.httpOnly, SameSiteOrLax(c.sameSite));
  }

  /** The positions of TailTokens, shifted by whatever precedes the tail. */
  lemma TokensAfter(prefix: string, secure: bool, httpOnly: bool, sameSite: string)
    ensures var s, p := prefix + Tail(secure, httpOnly, sameSite), |prefix|;
      var q := p + |Flag(secure, "Secure")| + 2;
      var h := q + |Flag(httpOnly, "HttpOnly")| + 2;
      && h <= |s|
      && (secure <==> s[p] == 'S')
      && s[p..q] == Flag(secure, "Secure") + Sep
      && (httpOnly <==> s[q] == 'H')
      && s[q..h] == Flag(httpOnly, "HttpOnly") + Sep
      && s[h..] == SameSiteLabel + sameSite
  {
    TailTokens(secure, httpOnly, sameSite);
    var q := |Flag(secure, "Secure")| + 2;
    ShiftSegments(prefix, Tail(secure, httpOnly, sameSite), q, q + |Flag(httpOnly, "HttpOnly")| + 2);
  }

  /** Cutting a string after `q` and `h` gives the same pieces whatever precedes it. */
  lemma ShiftSegments(prefix: string, t: string, q: nat, h: nat)
    requires 0 < q < h <= |t|
    ensures var s, p := prefix + t, |prefix|;
      && p + h <= |s| && s[p] == t[0] && s[p + q] == t[q]
      && s[p..p + q] == t[..q] && s[p + q..p + h] == t[q..h] && s[p + h..] == t[h..]
  {
    SliceAfter(prefix, t, 0, q);
    SliceAfter(prefix, t, q, h);
    SliceAfter(prefix, t, h, |t|);
  }

  /** A slice of the part after `x` is the same slice shifted by `|x|`. */
  lemma SliceAfter(x: string, t: string, i: nat, j: nat)
    requires i <= j <= |t|
    ensures (x + t)[|x| + i..|x| + j] == t[i..j]
    ensures i < |t| ==> (x + t)[|x| + i] == t[i]
    ensures j == |t| ==> (x + t)[|x| + i..] == t[i..]
  {
  }

  /** The SameSite value written out is never empty: the record's own value, else "Lax". */
  lemma SameSiteFallback(sameSite: Option<string>)
    ensures SameSiteOrLax(sameSite) != ""
    ensures sameSite.Some? && sameSite.value != "" ==> SameSiteOrLax(sameSite) == sameSite.value
    ensures sameSite.None? || sameSite.value == "" ==> SameSiteOrLax(sameSite) == "Lax"
  {
  }

  /** `cookiesArray.map(...)`: one string per record, in the order of the file's array. */
  function CookieStrings(records: seq<CookieRecord>): (strs: seq<string>)
    ensures |strs| == |records|
    ensures forall i :: 0 <= i < |records| ==> strs[i] == CookieString(records[i])
  {
    if records == [] then [] else [CookieString(records[0])] + CookieStrings(records[1..])
  }

  // ---------------------------------------------------------------------------------------------
  // The authentication state machine
  // ---------------------------------------------------------------------------------------------

  /** TWITTER_USERNAME, TWITTER_PASSWORD and the optional TWITTER_EMAIL. */
  datatype Credentials = Credentials(username: string, password: string, email: Option<string>)

  /** The cookies file: missing, holding a parsable record array, or present but not parsable. */
  datatype CookieFile = Absent | Stored(records: seq<CookieRecord>) | Unparsable

  /** What the scraper is authenticated with: nothing yet, the jar a fresh login produced, or the
      cookie strings restored from the file. */
  datatype Session = Anonymous | LoggedIn(jar: seq<CookieRecord>) | Restored(cookies: seq<string>)

  /** The errors `loginAndSaveCookies` and `loadCookies` rethrow. */
  datatype AuthError = LoginFailed | WriteFailed | ReadFailed | ParseFailed | SetCookiesFailed

  /** What the outside world answers on this run: the cookies the scraper holds after a login
      (`None` when login or getCookies throws), whether writing and reading the file succeed, and
      whether the scraper accepts the restored cookie strings (`setCookies` does not throw). */
  datatype Outcomes = Outcomes(login: Option<seq<CookieRecord>>, writeSucceeds: bool, readSucceeds: bool,
                               setCookiesSucceeds: bool)

  /** The file, the scraper session and the log of login calls with their arguments. */
  datatype AuthState = AuthState(file: CookieFile, session: Session, logins: seq<Credentials>)

  /** `cookiesExist`: `fs.access` succeeds on any file that is there, parsable or not. */
  predicate CookiesExist(s: AuthState): (present: bool)
    ensures present <==> s.file.Stored? || s.file.Unparsable?
  {
    s.file != Absent
  }

  /** `loginAndSaveCookies`: log in, take the scraper's cookies, write them to the file; any
      failure is rethrown. */
  function Login(s: AuthState, creds: Credentials, ext: Outcomes): (r: (AuthState, Result<(), AuthError>))
    ensures r.0.logins == s.logins + [creds]
    ensures r.1.Success? <==> ext.login.Some? && ext.writeSucceeds
    ensures ext.login.None? ==> r == (s.(logins := r.0.logins), Failure(LoginFailed))
    ensures ext.login.Some? ==> r.0.session == LoggedIn(ext.login.value)
    ensures ext.login.Some? && !ext.writeSucceeds ==> r.0.file == s.file && r.1 == Failure(WriteFailed)
    ensures r.1.Success? ==> r.0.file == Stored(ext.login.value)
  {
    var attempted := s.(logins := s.logins + [creds]);
    match ext.login
    case None => (attempted, Failure(LoginFailed))
    case Some(jar) =>
      var loggedIn := attempted.(session := LoggedIn(jar));
      if ext.writeSucceeds then (loggedIn.(file := Stored(jar)), Success(()))
      else (loggedIn, Failure(WriteFailed))
  }

  /** `loadCookies`: read and parse the file and hand the scraper one cookie string per record;
      any failure, including the scraper rejecting the cookies, is rethrown. Never logs in and
      never writes the file. */
  function Restore(s: AuthState, ext: Outcomes): (r: (AuthState, Result<(), AuthError>))
    ensures r.0.logins == s.logins && r.0.file == s.file
    ensures r.1.Success? <==> ext.readSucceeds && s.file.Stored? && ext.setCookiesSucceeds
    ensures r.1.Success? ==> r.0.session == Restored(CookieStrings(s.file.records))
    ensures r.1.Failure? ==> r.0 == s
    ensures ext.readSucceeds && s.file == Unparsable ==> r.1 == Failure(ParseFailed)
    ensures ext.readSucceeds && s.file.Stored? && !ext.setCookiesSucceeds ==> r.1 == Failure(SetCookiesFailed)
  {
    if !ext.readSucceeds then (s, Failure(ReadFailed))
    else
      match s.file
      case Stored(records) =>
        if ext.setCookiesSucceeds then (s.(session := Restored(CookieStrings(records))), Success(()))
        else (s, Failure(SetCookiesFailed))
      case Unparsable => (s, Failure(ParseFailed))
      case Absent => (s, Failure(ReadFailed))
  }

  /** `ensureAuthenticated`: restore when the file exists, otherwise log in and save. */
  function Authenticate(s: AuthState, creds: Credentials, ext: Outcomes): (r: (AuthState, Result<(), AuthError>))
    ensures CookiesExist(s) ==> r.0.logins == s.logins && r.0.file == s.file
    ensures !CookiesExist(s) ==> r.0.logins == s.logins + [creds]
    ensures r.1.Success? <==> (s.file.Stored? && ext.readSucceeds && ext.setCookiesSucceeds)
                              || (s.file == Absent && ext.login.Some? && ext.writeSucceeds)
    ensures r.1.Success? ==> r.0.file.Stored?
    ensures r.1.Success? && s.file.Stored? ==> r.0.session == Restored(CookieStrings(s.file.records))
    ensures r.1.Success? && s.file == Absent ==>
      r.0.session == LoggedIn(ext.login.value) && r.0.file == Stored(ext.login.value)
    ensures r.1.Failure? && CookiesExist(s) ==> r.0 == s
  {
    if CookiesExist(s) then Restore(s, ext) else Login(s, creds, ext)
  }

  /** After a successful call, a second call with the same file performs no login: at most one
      login over the two calls. */
  lemma LoginAtMostOnce(s: AuthState, creds: Credentials, ext1: Outcomes, ext2: Outcomes)
    ensures var (s1, r1) := Authenticate(s, creds, ext1);
      var (s2, r2) := Authenticate(s1, creds, ext2);
      r1.Success? ==> s2.logins == s1.logins && |s2.logins| <= |s.logins| + 1
  {
  }

  /** Persist, then load: the cookies saved by a login are the ones the next call restores,
      as one cookie string per record in the same order. */
  lemma SavedSessionIsRestored(s: AuthState, creds: Credentials, ext1: Outcomes, ext2: Outcomes)
    requires s.file == Absent && ext1.login.Some? && ext1.writeSucceeds
    requires ext2.readSucceeds && ext2.setCookiesSucceeds
    ensures var (s1, r1) := Authenticate(s, creds, ext1);
      var (s2, r2) := Authenticate(s1, creds, ext2);
      && r1.Success? && r2.Success?
      && s2.logins == s.logins + [creds]
      && s2.session == Restored(CookieStrings(ext1.login.value))
  {
  }

  /** Errors are rethrown, each with its own cause: a failed login, a failed write, a failed read,
      a file that cannot be parsed, and cookies the scraper rejects. */
  lemma ErrorsAreRethrown(s: AuthState, creds: Credentials, ext: Outcomes)
    ensures var r := Authenticate(s, creds, ext).1;
      && (s.file == Absent && ext.login.None? ==> r == Failure(LoginFailed))
      && (s.file == Absent && ext.login.Some? && !ext.writeSucceeds ==> r == Failure(WriteFailed))
      && (s.file != Absent && !ext.readSucceeds ==> r == Failure(ReadFailed))
      && (s.file == Unparsable && ext.readSucceeds ==> r == Failure(ParseFailed))
      && (s.file.Stored? && ext.readSucceeds && !ext.setCookiesSucceeds ==> r == Failure(SetCookiesFailed))
  {
  }

  /** The AuthManager: the scraper session and the cookies file are its state. */
  class AuthManager {
    const credentials: Credentials
    var file: CookieFile
    var session: Session
    var logins: seq<Credentials>

    function State(): AuthState
      reads this
    {
      AuthState(file, session, logins)
    }

    constructor (credentials: Credentials, file: CookieFile)
      ensures this.credentials == credentials
      ensures State() == AuthState(file, Anonymous, [])
    {
      this.credentials := credentials;
      this.file := file;
      session := Anonymous;
      logins := [];
    }

    method LoginAndSaveCookies(ext: Outcomes) returns (r: Result<(), AuthError>)
      modifies this
      ensures (State(), r) == Login(old(State()), credentials, ext)
    {
      logins := logins + [credentials];
      match ext.login {
        case None =>
          r := Failure(LoginFailed);
        case Some(jar) =>
          session := LoggedIn(jar);
          if ext.writeSucceeds {
            file := Stored(jar);
            r := Success(());
          } else {
            r := Failure(WriteFailed);
          }
      }
    }

    method LoadCookies(ext: Outcomes) returns (r: Result<(), AuthError>)
      modifies this
      ensures (State(), r) == Restore(old(State()), ext)
    {
      if !ext.readSucceeds {
        r := Failure(ReadFailed);
        return;
      }
      match file {
        case Stored(records) =>
          if ext.setCookiesSucceeds {
            session := Restored(CookieStrings(records));
            r := Success(());
          } else {
            r := Failure(SetCookiesFailed);
          }
        case Unparsable =>
          r := Failure(ParseFailed);
        case Absent =>
          r := Failure(ReadFailed);
      }
    }

    method EnsureAuthenticated(ext: Outcomes) returns (r: Result<(), AuthError>)
      modifies this
      ensures (State(), r) == Authenticate(old(State()), credentials, ext)
    {
      if file != Absent {
        r := LoadCookies(ext);
      } else {
        r := LoginAndSaveCookies(ext);
      }
    }
  }
}
