/**
 * The decision rules around the browser login: the TLS-verification policy,
 * which browser cookies are copied into the HTTP session, how a probe of the
 * system's front page is classified, the login-at-most-twice rule, the
 * credential store shared by the asynchronous clients, and the browser
 * command line. The browser, the HTTP libraries and the threads are not
 * modelled; their results are parameters.
 */
module AuthEdge {
  import opened Wrappers
  import opened Text

  const SystemUrl: string := "https://system.company.net"

  // ---------------------------------------------------------------------------
  // `_verify`, `_new_system_session`
  // ---------------------------------------------------------------------------

  /** The Python values a verification setting can take: `False`, `True`, a string, `None`. */
  datatype PyVerify = PyFalse | PyTrue | PyStr(s: string) | PyNone

  /** `_verify()`, given what `combined_ca_bundle()` returned. */
  function Verify(policy: PyVerify): (r: PyVerify)
    ensures r != PyTrue
    ensures r == PyFalse <==> policy == PyFalse
    ensures r.PyStr? <==> policy.PyStr? && policy.s != ""
    ensures r.PyStr? ==> r == policy
    ensures r == PyNone <==> policy == PyTrue || policy == PyNone || policy == PyStr("")
  {
    match policy
    case PyFalse => PyFalse
    case PyStr(s) => if s != "" then PyStr(s) else PyNone
    case _ => PyNone
  }

  /** `requests.Session().verify` after `_new_system_session`: left at `True` when `_verify` gives `None`. */
  function SessionVerify(policy: PyVerify): PyVerify {
    var v := Verify(policy);
    if v == PyNone then PyTrue else v
  }

  /** The session verifies certificates unless the policy is `False`, and uses a
      custom bundle exactly when the policy names a non-empty path. */
  lemma SessionVerifyCases(policy: PyVerify)
    ensures SessionVerify(policy) == PyFalse <==> policy == PyFalse
    ensures SessionVerify(policy).PyStr? <==> policy.PyStr? && policy.s != ""
    ensures policy != PyFalse && !(policy.PyStr? && policy.s != "") ==> SessionVerify(policy) == PyTrue
  {
  }

  // ---------------------------------------------------------------------------
  // The cookie filter in `login_sharepoint_then_system`
  // ---------------------------------------------------------------------------

  /** A cookie as the browser reports it; a missing domain reads as "". */
  datatype BrowserCookie = BrowserCookie(name: string, value: string, domain: string)

  /** A session cookie jar, keyed by (domain, name). */
  type Jar = map<(string, string), string>

  predicate KeepCookie(domain: string) {
    Contains(domain, "system.company.net") || Contains(domain, ".company.net")
  }

  /** The first test is subsumed by the second: a cookie is kept exactly when its domain contains ".company.net". */
  lemma KeepCookieByDomain(domain: string)
    ensures KeepCookie(domain) <==> Contains(domain, ".company.net")
  {
    if Contains(domain, "system.company.net") {
      assert "system.company.net" == "system" + ".company.net";
      ContainsSuffixPart(domain, "system", ".company.net");
    }
  }

  /** The jar after setting each kept cookie in turn. */
  function JarOf(cookies: seq<BrowserCookie>): Jar {
    if cookies == [] then map[]
    else
      var jar := JarOf(cookies[..|cookies| - 1]);
      var c := cookies[|cookies| - 1];
      if KeepCookie(c.domain) then jar[(c.domain, c.name) := c.value] else jar
  }

  /** The loop that copies the browser's cookies into the new session. */
  method CopySystemCookies(cookies: seq<BrowserCookie>) returns (jar: Jar)
    ensures jar == JarOf(cookies)
  {
    jar := map[];
    for i := 0 to |cookies|
      invariant jar == JarOf(cookies[..i])
    {
      assert cookies[..i + 1][..i] == cookies[..i];
      var c := cookies[i];
      if Contains(c.domain, "system.company.net") || Contains(c.domain, ".company.net") {
        jar := jar[(c.domain, c.name) := c.value];
      }
    }
    assert cookies[..|cookies|] == cookies;
  }

  /**
   * The jar holds exactly the kept cookies: every entry comes from a browser
   * cookie whose domain contains ".company.net", and every such cookie has
   * an entry under its domain and name.
   */
  lemma {:induction false} JarOfContents(cookies: seq<BrowserCookie>)
    ensures forall key :: key in JarOf(cookies) ==>
      Contains(key.0, ".company.net") &&
      exists i :: 0 <= i < |cookies| && (cookies[i].domain, cookies[i].name) == key
    ensures forall i :: 0 <= i < |cookies| && Contains(cookies[i].domain, ".company.net") ==>
      (cookies[i].domain, cookies[i].name) in JarOf(cookies)
  {
    if cookies != [] {
      var init := cookies[..|cookies| - 1];
      var c := cookies[|cookies| - 1];
      JarOfContents(init);
      KeepCookieByDomain(c.domain);
      forall key | key in JarOf(cookies)
        ensures Contains(key.0, ".company.net")
        ensures exists i :: 0 <= i < |cookies| && (cookies[i].domain, cookies[i].name) == key
      {
        if key in JarOf(init) && !(KeepCookie(c.domain) && key == (c.domain, c.name)) {
          var i :| 0 <= i < |init| && (init[i].domain, init[i].name) == key;
          assert cookies[i] == init[i];
        } else {
          assert (cookies[|cookies| - 1].domain, cookies[|cookies| - 1].name) == key;
        }
      }
      forall i | 0 <= i < |cookies| && Contains(cookies[i].domain, ".company.net")
        ensures (cookies[i].domain, cookies[i].name) in JarOf(cookies)
      {
        if i < |init| {
          assert cookies[i] == init[i];
        }
      }
    }
  }

  /** Where two kept cookies share a domain and name, the jar holds the value of the later one. */
  lemma {:induction false} JarOfLastKeptWins(cookies: seq<BrowserCookie>, i: nat)
    requires i < |cookies| && Contains(cookies[i].domain, ".company.net")
    requires forall j :: i < j < |cookies| && Contains(cookies[j].domain, ".company.net") ==>
      (cookies[j].domain, cookies[j].name) != (cookies[i].domain, cookies[i].name)
    ensures (cookies[i].domain, cookies[i].name) in JarOf(cookies)
    ensures JarOf(cookies)[(cookies[i].domain, cookies[i].name)] == cookies[i].value
  {
    var init := cookies[..|cookies| - 1];
    var c := cookies[|cookies| - 1];
    KeepCookieByDomain(c.domain);
    if i < |init| {
      assert init[i] == cookies[i];
      forall j | i < j < |init| && Contains(init[j].domain, ".company.net")
        ensures (init[j].domain, init[j].name) != (init[i].domain, init[i].name)
      {
        assert init[j] == cookies[j];
      }
      JarOfLastKeptWins(init, i);
    }
  }

  // ---------------------------------------------------------------------------
  // `is_system_authenticated`, `get_system_session`
  // ---------------------------------------------------------------------------

  /** The outcome of `GET SYSTEM_URL/` without following redirects. */
  datatype Probe = Responded(status: int, location: Option<string>) | Raised

  const RedirectStatuses: set<int> := {301, 302, 303, 307, 308}
  const LoginMarkers: seq<string> := ["login", "adfs", "sharepoint"]

  /** `(r.headers.get("Location") or "").lower()`. */
  function LocationLower(p: Probe): string
    requires p.Responded?
  {
    match p.location
    case Some(loc) => Lower(loc)
    case None => ""
  }

  predicate IsSystemAuthenticated(p: Probe) {
    match p
    case Raised => false
    case Responded(status, _) =>
      if status == 200 then true
      else if status in RedirectStatuses then
        var loc := LocationLower(p);
        !(Contains(loc, "login") || Contains(loc, "adfs") || Contains(loc, "sharepoint"))
      else false
  }

  /**
   * Authenticated exactly on 200, or on a redirect whose lower-cased target
   * mentions none of the login markers; an exception or any other status is
   * not authenticated.
   */
  lemma AuthenticatedIff(p: Probe)
    ensures IsSystemAuthenticated(p) <==>
      && p.Responded?
      && (|| p.status == 200
          || (p.status in RedirectStatuses && forall k :: 0 <= k < |LoginMarkers| ==> !Contains(LocationLower(p), LoginMarkers[k])))
  {
    if p.Responded? {
      var loc := LocationLower(p);
      assert LoginMarkers[0] == "login" && LoginMarkers[1] == "adfs" && LoginMarkers[2] == "sharepoint";
      assert (forall k :: 0 <= k < |LoginMarkers| ==> !Contains(loc, LoginMarkers[k]))
        <==> !(Contains(loc, "login") || Contains(loc, "adfs") || Contains(loc, "sharepoint"));
    }
  }

  /** `OccursAt` survives lower-casing. */
  lemma LowerOccurs(s: string, sub: string, i: int)
    requires OccursAt(s, sub, i)
    ensures OccursAt(Lower(s), Lower(sub), i)
  {
    assert Lower(s)[i..i + |sub|] == Lower(sub);
  }

  /** A redirect to a login page is rejected whatever the case of its target. */
  lemma LoginRedirectRejected(status: int, loc: string, marker: string)
    requires status in RedirectStatuses
    requires marker == "LOGIN" || marker == "login" || marker == "Login"
    requires Contains(loc, marker)
    ensures !IsSystemAuthenticated(Responded(status, Some(loc)))
  {
    var i :| 0 <= i <= |loc| - |marker| && OccursAt(loc, marker, i);
    LowerOccurs(loc, marker, i);
    assert Lower(marker) == "login";
    assert status != 200;
  }

  datatype AuthError = LoginFailed(reason: string)

  /** A logged-in session: its cookie jar and its default headers. */
  datatype Session = Session(jar: Jar, headers: map<string, string>)

  /**
   * `get_system_session`: `login(k)` is the outcome of the `k`-th call of
   * `login_sharepoint_then_system`, `probe(s)` that of probing session `s`.
   * The result comes with the number of logins performed.
   */
  function GetSystemSession(login: nat -> Result<Session, AuthError>, probe: Session -> Probe): (r: (Result<Session, AuthError>, nat))
    ensures 1 <= r.1 <= 2
    ensures r.1 == 2 <==> login(0).Success? && !IsSystemAuthenticated(probe(login(0).value))
    ensures r.1 == 1 ==> r.0 == login(0)
    ensures r.1 == 2 ==> r.0 == login(1)
  {
    match login(0)
    case Failure(e) => (Failure(e), 1)
    case Success(s) =>
      if !IsSystemAuthenticated(probe(s)) then (login(1), 2) else (Success(s), 1)
  }

  /** A first session that passes the probe is returned as is; nothing is ever
      retried after a failed login. */
  lemma GetSystemSessionFirstWins(login: nat -> Result<Session, AuthError>, probe: Session -> Probe)
    requires login(0).Failure? || IsSystemAuthenticated(probe(login(0).value))
    ensures GetSystemSession(login, probe) == (login(0), 1)
  {
  }

  // ---------------------------------------------------------------------------
  // `AsyncAuth`
  // ---------------------------------------------------------------------------

  /** What `new_client` hands to `httpx.AsyncClient`. */
  datatype ClientConfig = ClientConfig(
    headers: map<string, string>,
    cookies: map<string, string>,
    verify: PyVerify,
    followRedirects: bool,
    http2: bool,
    timeout: int,
    readTimeout: int)

  /** `x or {}`. */
  function OrEmpty(m: Option<map<string, string>>): map<string, string> {
    match m
    case Some(v) => v
    case None => map[]
  }

  /** The client configuration built from what is stored and the CA policy. */
  function ClientOf(cookies: Option<map<string, string>>, headers: Option<map<string, string>>, policy: PyVerify): (c: ClientConfig)
    ensures cookies.None? ==> c.cookies == map[]
    ensures headers.None? ==> c.headers == map[]
    ensures cookies.Some? ==> c.cookies == cookies.value
    ensures headers.Some? ==> c.headers == headers.value
    ensures c.verify == Verify(policy) && c.followRedirects && !c.http2
  {
    ClientConfig(OrEmpty(headers), OrEmpty(cookies), Verify(policy), true, false, 30, 300)
  }

  /** The stored pair after a refresh whose login produced `login`: both replaced, or neither. */
  function AfterRefresh(
    stored: (Option<map<string, string>>, Option<map<string, string>>),
    login: Result<(map<string, string>, map<string, string>), AuthError>): (r: (Option<map<string, string>>, Option<map<string, string>>))
  {
    match login
    case Success(pair) => (Some(pair.0), Some(pair.1))
    case Failure(_) => stored
  }

  /**
   * A refresh never mixes credentials: afterwards cookies and headers are
   * either both the new login's or both what was stored before; a client
   * made right after a successful refresh carries exactly that login's.
   */
  lemma RefreshAtomic(
    stored: (Option<map<string, string>>, Option<map<string, string>>),
    login: Result<(map<string, string>, map<string, string>), AuthError>,
    policy: PyVerify)
    ensures var r := AfterRefresh(stored, login);
      || (login.Success? && r.0 == Some(login.value.0) && r.1 == Some(login.value.1))
      || (login.Failure? && r == stored)
    ensures login.Success? ==>
      var r := AfterRefresh(stored, login);
      ClientOf(r.0, r.1, policy).cookies == login.value.0 && ClientOf(r.0, r.1, policy).headers == login.value.1
  {
  }

  class AsyncAuth {
    var cookies: Option<map<string, string>>
    var headers: Option<map<string, string>>

    /** `AsyncAuth()`: nothing stored yet. */
    constructor()
      ensures cookies.None? && headers.None?
    {
      cookies := None;
      headers := None;
    }

    /**
     * `refresh()`: `login` is what the login thread returned, the session's
     * cookie dictionary and headers, or the error it raised (which then
     * propagates with nothing stored).
     */
    method Refresh(login: Result<(map<string, string>, map<string, string>), AuthError>) returns (r: Result<(), AuthError>)
      modifies this
      ensures (cookies, headers) == AfterRefresh((old(cookies), old(headers)), login)
      ensures r.Failure? <==> login.Failure?
      ensures login.Failure? ==> r == Failure(login.error)
    {
      if login.Failure? {
        return Failure(login.error);
      }
      cookies, headers := Some(login.value.0), Some(login.value.1);
      return Success(());
    }

    /** `new_client()`. */
    method NewClient(policy: PyVerify) returns (c: ClientConfig)
      ensures c == ClientOf(cookies, headers, policy)
    {
      var h := if headers.Some? then headers.value else map[];
      var k := if cookies.Some? then cookies.value else map[];
      c := ClientConfig(h, k, Verify(policy), true, false, 30, 300);
    }
  }
}

/**
 * `_build_opts` in the same source file: the command line the browser is
 * started with. Each argument is a constructor, rendered to the string
 * Selenium passes on.
 */
module EdgeOptions {
  import opened Wrappers

  datatype EdgeArg =
    | UserDataDir(path: string)
    | ProfileDirectory(name: string)
    | NoFirstRun
    | NoDefaultBrowserCheck
    | RemoteAllowOrigins
    | StartMinimized
    | WindowPosition
    | WindowSize

  /** The command-line form of an argument. */
  function Render(a: EdgeArg): string {
    match a
    case UserDataDir(path) => "--user-data-dir=" + path
    case ProfileDirectory(name) => "--profile-directory=" + name
    case NoFirstRun => "--no-first-run"
    case NoDefaultBrowserCheck => "--no-default-browser-check"
    case RemoteAllowOrigins => "--remote-allow-origins=*"
    case StartMinimized => "--start-minimized"
    case WindowPosition => "--window-position=-32000,-32000"
    case WindowSize => "--window-size=1200,800"
  }

  function RenderAll(args: seq<EdgeArg>): (r: seq<string>)
    ensures |r| == |args| && forall k :: 0 <= k < |args| ==> r[k] == Render(args[k])
  {
    seq(|args|, k requires 0 <= k < |args| => Render(args[k]))
  }

  const FixedFlags: seq<EdgeArg> := [NoFirstRun, NoDefaultBrowserCheck, RemoteAllowOrigins]
  const WindowFlags: seq<EdgeArg> := [StartMinimized, WindowPosition, WindowSize]

  /** `if x:` on an optional string. */
  predicate Given(x: Option<string>) {
    x.Some? && x.value != ""
  }

  /** What `opts.add_argument` and `opts.add_experimental_option` collect. */
  datatype Options = Options(arguments: seq<string>, experimental: map<string, seq<string>>)

  /** The arguments `_build_opts` passes, in order. */
  function OptsArgs(userDataDir: Option<string>, profileDir: Option<string>, silent: bool): seq<EdgeArg> {
    (if Given(userDataDir) then [UserDataDir(userDataDir.value)] else [])
    + (if Given(profileDir) then [ProfileDirectory(profileDir.value)] else [])
    + FixedFlags
    + (if silent then WindowFlags else [])
  }

  /** `_build_opts(user_data_dir, profile_dir, silent)`, appending one argument at a time. */
  method BuildOpts(userDataDir: Option<string>, profileDir: Option<string>, silent: bool) returns (opts: Options)
    ensures opts.arguments == RenderAll(OptsArgs(userDataDir, profileDir, silent))
    ensures opts.experimental == if silent then map["excludeSwitches" := ["enable-logging"]] else map[]
  {
    var args: seq<string> := [];
    ghost var parts: seq<EdgeArg> := [];
    var experimental: map<string, seq<string>> := map[];
    if userDataDir.Some? && userDataDir.value != "" {
      args, parts := Append(args, parts, UserDataDir(userDataDir.value));
    }
    if profileDir.Some? && profileDir.value != "" {
      args, parts := Append(args, parts, ProfileDirectory(profileDir.value));
    }
    ghost var dirs := parts;
    assert dirs == (if Given(userDataDir) then [UserDataDir(userDataDir.value)] else [])
      + (if Given(profileDir) then [ProfileDirectory(profileDir.value)] else []);
    args, parts := Append(args, parts, NoFirstRun);
    args, parts := Append(args, parts, NoDefaultBrowserCheck);
    args, parts := Append(args, parts, RemoteAllowOrigins);
    assert parts == dirs + FixedFlags;
    if silent {
      args, parts := Append(args, parts, StartMinimized);
      args, parts := Append(args, parts, WindowPosition);
      args, parts := Append(args, parts, WindowSize);
      assert parts == dirs + FixedFlags + WindowFlags;
      experimental := experimental["excludeSwitches" := ["enable-logging"]];
    } else {
      assert parts == dirs + FixedFlags + [];
    }
    opts := Options(args, experimental);
  }

  /** `opts.add_argument(Render(a))`, recording which argument it was. */
  method Append(args: seq<string>, ghost parts: seq<EdgeArg>, a: EdgeArg) returns (args': seq<string>, ghost parts': seq<EdgeArg>)
    requires args == RenderAll(parts)
    ensures parts' == parts + [a] && args' == args + [Render(a)]
    ensures args' == RenderAll(parts')
  {
    args', parts' := args + [Render(a)], parts + [a];
  }

  /**
   * The three fixed flags are always passed and the window flags exactly when
   * running silently; a user-data directory or profile argument is passed
   * exactly when one was given, and it carries the given value.
   */
  lemma OptsArgsFlags(userDataDir: Option<string>, profileDir: Option<string>, silent: bool)
    ensures var args := OptsArgs(userDataDir, profileDir, silent);
      && (forall a :: a in FixedFlags ==> a in args)
      && (forall a :: a in WindowFlags ==> (a in args <==> silent))
      && ((exists a :: a in args && a.UserDataDir?) <==> Given(userDataDir))
      && ((exists a :: a in args && a.ProfileDirectory?) <==> Given(profileDir))
      && (forall a :: a in args && a.UserDataDir? ==> userDataDir == Some(a.path))
      && (forall a :: a in args && a.ProfileDirectory? ==> profileDir == Some(a.name))
  {
    var u := if Given(userDataDir) then [UserDataDir(userDataDir.value)] else [];
    var d := if Given(profileDir) then [ProfileDirectory(profileDir.value)] else [];
    var rest := FixedFlags + (if silent then WindowFlags else []);
    assert OptsArgs(userDataDir, profileDir, silent) == u + d + rest;
    FlagsAfterDirs(u, d, rest, silent);
    DirsBeforeFlags(userDataDir, profileDir, u, d, rest);
  }

  /** The flag part of the command line follows the directory part and holds no directory argument. */
  lemma FlagsAfterDirs(u: seq<EdgeArg>, d: seq<EdgeArg>, rest: seq<EdgeArg>, silent: bool)
    requires forall a :: a in u + d ==> a.UserDataDir? || a.ProfileDirectory?
    requires rest == FixedFlags + (if silent then WindowFlags else [])
    ensures forall a :: a in FixedFlags ==> a in u + d + rest
    ensures forall a :: a in WindowFlags ==> (a in u + d + rest <==> silent)
  {
    assert forall a :: a in u + d + rest <==> a in u + d || a in rest;
  }

  /** The directory arguments come only from the given directory and profile. */
  lemma DirsBeforeFlags(userDataDir: Option<string>, profileDir: Option<string>, u: seq<EdgeArg>, d: seq<EdgeArg>, rest: seq<EdgeArg>)
    requires u == if Given(userDataDir) then [UserDataDir(userDataDir.value)] else []
    requires d == if Given(profileDir) then [ProfileDirectory(profileDir.value)] else []
    requires forall a :: a in rest ==> !a.UserDataDir? && !a.ProfileDirectory?
    ensures (exists a :: a in u + d + rest && a.UserDataDir?) <==> Given(userDataDir)
    ensures (exists a :: a in u + d + rest && a.ProfileDirectory?) <==> Given(profileDir)
    ensures forall a :: a in u + d + rest && a.UserDataDir? ==> userDataDir == Some(a.path)
    ensures forall a :: a in u + d + rest && a.ProfileDirectory? ==> profileDir == Some(a.name)
  {
    assert forall a :: a in u + d + rest <==> a in u || a in d || a in rest;
    if Given(userDataDir) {
      assert u[0] in u + d + rest;
    }
    if Given(profileDir) {
      assert d[0] in u + d + rest;
    }
  }

  /** Silent mode only appends: the non-silent command line is a prefix of the silent one. */
  lemma SilentExtends(userDataDir: Option<string>, profileDir: Option<string>)
    ensures OptsArgs(userDataDir, profileDir, true) == OptsArgs(userDataDir, profileDir, false) + WindowFlags
  {
  }
}
