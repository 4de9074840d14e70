/** The session provider of mis-react-web/src/context/useAuth.tsx: the token and
    user held in state, mirrored in the "token" and "lastActivity" cookies, and
    restored from them on mount when the last activity is under an hour old.
    The cookie jar is a plain map; the clock reading is a parameter. */
module Session {
  import opened Wrappers
  import opened Text

  type Cookies = map<string, string>

  datatype UserProfile = UserProfile(id: int, firstName: string, lastName: string, email: string, role: int)

  datatype Session = Session(token: Option<string>, user: Option<UserProfile>, isReady: bool, cookies: Cookies)

  /** `tokenExpirationInMs`: one hour. */
  const ExpirationMs: int := 60 * 60 * 1000

  /** The provider's state before its mount effect runs. */
  function Mounted(cookies: Cookies): Session {
    Session(None, None, false, cookies)
  }

  /** `Cookies.get(key)` is truthy: present and not empty. */
  predicate CookieSet(c: Cookies, key: string) {
    key in c && c[key] != ""
  }

  /** `logout`: clears user and token and removes the "token" cookie. It removes
      "lastActivty", so a "lastActivity" cookie is left as it was. */
  function Logout(s: Session): (r: Session)
    ensures r.user.None? && r.token == Some("")
    ensures "token" !in r.cookies
    ensures "lastActivity" in s.cookies ==>
              "lastActivity" in r.cookies && r.cookies["lastActivity"] == s.cookies["lastActivity"]
    ensures r.cookies.Keys <= s.cookies.Keys && r.isReady == s.isReady
  {
    s.(cookies := s.cookies - {"token", "lastActivty"}, user := None, token := Some(""))
  }

  /** `isLoggedIn`: `!!token`. */
  predicate IsLoggedIn(s: Session) {
    s.token.Some? && s.token.value != ""
  }

  /** The mount effect at clock reading `now`. With both cookies set, a last
      activity under an hour ago adopts the token and rewrites "lastActivity"
      to now; an older one (the hour itself included) or an unreadable one logs
      out. With either cookie missing the session is left alone. The provider
      is ready afterwards on every path. */
  function Restore(s: Session, now: nat): (r: Session)
    ensures r.isReady
    ensures !(CookieSet(s.cookies, "token") && CookieSet(s.cookies, "lastActivity")) ==> r == s.(isReady := true)
    ensures CookieSet(s.cookies, "token") && CookieSet(s.cookies, "lastActivity") ==>
              var last := ParseNat(s.cookies["lastActivity"]);
              if last.Some? && now - last.value < ExpirationMs then
                && r.token == Some(s.cookies["token"])
                && r.cookies == s.cookies["lastActivity" := ShowNat(now)]
                && r.user == s.user
              else
                r == Logout(s).(isReady := true)
  {
    if CookieSet(s.cookies, "token") && CookieSet(s.cookies, "lastActivity") then
      var stored := s.cookies["token"];
      // `Number(lastActivity)`; NaN compares false, so it logs out
      var last := ParseNat(s.cookies["lastActivity"]);
      if last.Some? && now - last.value < ExpirationMs then
        s.(token := Some(stored), cookies := s.cookies["lastActivity" := ShowNat(now)], isReady := true)
      else
        Logout(s).(isReady := true)
    else
      s.(isReady := true)
  }

  /** What `mockLoginAPI` answered, or that the call threw. */
  datatype LoginAnswer = Rejected(error: string) | Accepted(token: string, user: UserProfile) | Threw

  /** `loginUser` at clock reading `now`: a rejection changes nothing (it only
      shows a toast); an acceptance writes both cookies and the token and user;
      a throw only marks the provider ready. */
  function LoginUser(s: Session, answer: LoginAnswer, now: nat): (r: Session)
    ensures answer.Rejected? ==> r == s
    ensures answer.Threw? ==> r == s.(isReady := true)
    ensures answer.Accepted? ==>
              && r.token == Some(answer.token) && r.user == Some(answer.user)
              && r.cookies == s.cookies["token" := answer.token]["lastActivity" := ShowNat(now)]
              && r.isReady == s.isReady
  {
    match answer
    case Rejected(_) => s
    case Threw => s.(isReady := true)
    case Accepted(token, user) =>
      s.(cookies := s.cookies["token" := token]["lastActivity" := ShowNat(now)],
         token := Some(token), user := Some(user))
  }

  /** `fetchUserDetails` finishing: a returned profile replaces the user; the
      provider is ready either way. */
  function UserDetailsLoaded(s: Session, data: Option<UserProfile>): (r: Session)
    ensures r.isReady && r.token == s.token && r.cookies == s.cookies
    ensures r.user == if data.Some? then data else s.user
  {
    s.(user := if data.Some? then data else s.user, isReady := true)
  }

  /** The provider renders its children only once it is ready. */
  predicate RendersChildren(s: Session) {
    s.isReady
  }

  /** `isLoggedIn` is false for a null token and for an empty one. */
  lemma LoggedOutTokens(s: Session)
    ensures IsLoggedIn(s.(token := None)) == false
    ensures IsLoggedIn(s.(token := Some(""))) == false
    ensures IsLoggedIn(Logout(s)) == false
  {
  }

  /** A reload within the hour after a login restores the same token: the
      remounted provider starts with no token and no user, and reads the token
      back from the cookie, because the timestamp written beside it reads back
      unchanged. */
  lemma {:induction false} ReloadWithinHourKeepsLogin(s: Session, token: string, user: UserProfile, loginAt: nat, now: nat)
    requires token != ""
    requires loginAt <= now < loginAt + ExpirationMs
    ensures var r := Restore(Mounted(LoginUser(s, Accepted(token, user), loginAt).cookies), now);
            IsLoggedIn(r) && r.token == Some(token)
  {
    var t := LoginUser(s, Accepted(token, user), loginAt);
    ParseShowNat(loginAt);
    assert t.cookies["lastActivity"] == ShowNat(loginAt);
    assert ShowNat(loginAt) != "";
  }

  /** A reload an hour or more after the login logs out: the remounted
      provider finds the stale timestamp and removes the token cookie. */
  lemma {:induction false} ReloadAfterHourLogsOut(s: Session, token: string, user: UserProfile, loginAt: nat, now: nat)
    requires token != ""
    requires now >= loginAt + ExpirationMs
    ensures var r := Restore(Mounted(LoginUser(s, Accepted(token, user), loginAt).cookies), now);
            !IsLoggedIn(r) && r.user.None? && "token" !in r.cookies
  {
    var t := LoginUser(s, Accepted(token, user), loginAt);
    ParseShowNat(loginAt);
    assert t.cookies["lastActivity"] == ShowNat(loginAt);
    assert ShowNat(loginAt) != "";
  }

  /** After a logout the remounted provider finds no token cookie and stays
      logged out. */
  lemma LogoutSurvivesReload(s: Session, now: nat)
    ensures !IsLoggedIn(Restore(Mounted(Logout(s).cookies), now))
  {
  }
}
