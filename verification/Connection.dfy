/** How a connection reacts to a request that fails: automatic fallbacks between HTTP and HTTPS, with the
    login each fallback may start. */
module Connection {
  import opened Text

  const DEFAULT_PORT_HTTP := 80
  const DEFAULT_PORT_HTTPS := 8443

  datatype ConnectionFallback = HTTP | HTTPS | HTTPS_UNSAFE

  datatype Config = Config(useSsl: bool, port: int, strictSsl: bool, verifySsl: bool, allowFallback: bool,
                           allowUpgrade: bool, allowMultiple: bool)

  /** The part of a connection the fallbacks decide on and change. */
  datatype Net = Net(config: Config, used: set<ConnectionFallback>)

  /** How one request ended on the wire. `token` is what the answer holds under `asus_token`, empty if
      nothing, and None if the answer is no JSON. */
  datatype Outcome = Answered(token: Option<string>) | ConnectorError | CertificateError | OtherError

  datatype Error =
    FallbackLoop | FallbackForbidden | FallbackFailed | BadCertificate | CannotConnect | Access | NoJson | Unexpected

  datatype Reply = Reply(token: Option<string>) | Raised(error: Error)

  function Unmoved(c: Config): Net {
    Net(c, {})
  }

  // ---- the reaction to one outcome ------------------------------------------------------------

  function DefaultPort(useSsl: bool): int {
    if useSsl then DEFAULT_PORT_HTTPS else DEFAULT_PORT_HTTP
  }

  /** Nothing to fall back from here except by upgrading. */
  predicate AtTheBottom(c: Config) {
    !c.useSsl && c.port == DEFAULT_PORT_HTTP
  }

  /** The fallback an outcome leads to, if any. */
  function Chosen(n: Net, o: Outcome): Option<ConnectionFallback> {
    var c := n.config;
    if !c.allowFallback || o.Answered? || o.OtherError? then None
    else if o.CertificateError? then if c.strictSsl then None else Some(HTTP)
    else
      var target := if c.useSsl == (c.port != DefaultPort(c.useSsl)) then HTTPS else HTTP;
      if target in n.used then None
      else if c.useSsl && target == HTTP && c.strictSsl then None
      else if AtTheBottom(c) && !c.allowUpgrade then None
      else Some(target)
  }

  /** Trying to upgrade turns certificate verification on, even when the upgrade is then refused. */
  predicate ForcesVerification(n: Net, o: Outcome) {
    o.ConnectorError? && n.config.allowFallback && AtTheBottom(n.config) && n.config.allowUpgrade
  }

  function Moved(c: Config, f: ConnectionFallback): Config {
    match f
    case HTTP => c.(useSsl := false, port := DEFAULT_PORT_HTTP)
    case HTTPS => c.(useSsl := true, port := DEFAULT_PORT_HTTPS)
    case HTTPS_UNSAFE => c.(useSsl := true, port := DEFAULT_PORT_HTTPS, verifySsl := false)
  }

  function Step(n: Net, o: Outcome): Net {
    var c := if ForcesVerification(n, o) then n.config.(verifySsl := true) else n.config;
    match Chosen(n, o)
    case Some(f) => Net(Moved(c, f), n.used + {f})
    case None => Net(c, if o.Answered? && c.allowMultiple then {} else n.used)
  }

  /** Why a request that finds nobody to connect to is given up with fallbacks allowed. */
  function WhyNone(c: Config): Error {
    if c.useSsl && c.port == DEFAULT_PORT_HTTPS && c.strictSsl then FallbackForbidden
    else if !c.useSsl && c.port == DEFAULT_PORT_HTTP && !c.allowUpgrade then FallbackFailed
    else FallbackLoop
  }

  /** The error an exchange leads to that leads to no fallback. A refused certificate is an access error to a login. */
  predicate Blamed(n: Net, o: Outcome, e: Error) {
    Chosen(n, o).None? &&
    match o
    case Answered(token) => token.None? && e == NoJson
    case CertificateError => e == BadCertificate || e == Access
    case ConnectorError => e == if n.config.allowFallback then WhyNone(n.config) else CannotConnect
    case OtherError => e == Unexpected
  }

  /** What one outcome does, settings by settings: an answer at most clears the tracker; a refused certificate leads to
      plain HTTP unless that is forbidden; a refused connection to the default port of its scheme, from there to the
      other scheme, which needs leave either way, and to nothing that was tried before. */
  lemma StepCases(n: Net)
    ensures var c, refused := n.config, Step(n, ConnectorError);
            && (forall token :: Step(n, Answered(token)) == Net(c, if c.allowMultiple then {} else n.used))
            && Step(n, OtherError) == n
            && Step(n, CertificateError) ==
               (if c.allowFallback && !c.strictSsl then Net(c.(useSsl := false, port := 80), n.used + {HTTP}) else n)
            && (!c.allowFallback ==> refused == n)
            && (c.allowFallback && c.useSsl && c.port != 8443 ==>
                  refused == if HTTPS in n.used then n else Net(c.(port := 8443), n.used + {HTTPS}))
            && (c.allowFallback && c.useSsl && c.port == 8443 ==>
                  refused == if c.strictSsl || HTTP in n.used then n else Net(c.(useSsl := false, port := 80), n.used + {HTTP}))
            && (c.allowFallback && !c.useSsl && c.port != 80 ==>
                  refused == if HTTP in n.used then n else Net(c.(port := 80), n.used + {HTTP}))
            && (c.allowFallback && !c.useSsl && c.port == 80 ==>
                  refused == if !c.allowUpgrade then n
                             else if HTTPS in n.used then Net(c.(verifySsl := true), n.used)
                             else Net(c.(useSsl := true, port := 8443, verifySsl := true), n.used + {HTTPS}))
  {
  }

  // ---- runs ------------------------------------------------------------------------------------

  function After(n: Net, run: seq<Outcome>): (r: Net)
    decreases |run|
  {
    if run == [] then n else After(Step(n, run[0]), run[1..])
  }

  function Fallbacks(n: Net, run: seq<Outcome>): nat
    decreases |run|
  {
    if run == [] then 0 else (if Chosen(n, run[0]).Some? then 1 else 0) + Fallbacks(Step(n, run[0]), run[1..])
  }

  /** A certificate is refused only while TLS is in use, as when one request is over before the next. */
  predicate InTurn(n: Net, run: seq<Outcome>)
    decreases |run|
  {
    run != [] ==> (run[0].CertificateError? ==> n.config.useSsl) && InTurn(Step(n, run[0]), run[1..])
  }

  lemma {:induction false} OneMore(n: Net, run: seq<Outcome>, o: Outcome)
    ensures After(n, run + [o]) == Step(After(n, run), o)
    ensures InTurn(n, run + [o]) <==> InTurn(n, run) && (o.CertificateError? ==> After(n, run).config.useSsl)
    decreases |run|
  {
    if run == [] {
      assert run + [o] == [o];
    } else {
      assert (run + [o])[1..] == run[1..] + [o];
      OneMore(Step(n, run[0]), run[1..], o);
    }
  }

  /** The settings under which fallbacks come to an end by themselves: the tracker is kept, or there is no
      way round in a circle. */
  predicate Settles(c: Config) {
    !(c.allowMultiple && c.allowFallback && c.allowUpgrade && !c.strictSsl)
  }

  /** The longest chain of fallbacks that can still come where an answer may clear the tracker at any time. */
  function Room(c: Config): nat {
    if !c.allowFallback then 0
    else (if c.port != DefaultPort(c.useSsl) then 1 else 0)
         + if c.useSsl then if c.strictSsl then 0 else 1 else if c.allowUpgrade then 1 else 0
  }

  /** The longest chain of fallbacks that can still come. */
  function Most(n: Net): nat {
    var c, unused := n.config, HTTPS !in n.used;
    if c.allowMultiple then Room(c)
    else if !c.allowFallback then 0
    else if c.useSsl then
      var custom := c.port != DEFAULT_PORT_HTTPS;
      if c.strictSsl then if custom && unused then 1 else 0
      else if unused && c.allowUpgrade then 3
      else if unused && custom then 2
      else 1
    else
      var upgrades := if !(c.allowUpgrade && unused) then 0 else if c.strictSsl then 1 else 2;
      if AtTheBottom(c) then upgrades else if HTTP in n.used then 0 else 1 + upgrades
  }

  /** Twice the fallback types not used yet, and one more while TLS is in use. */
  function Measure(n: Net): nat {
    (if HTTP in n.used then 0 else 2) + (if HTTPS in n.used then 0 else 2) + if n.config.useSsl then 1 else 0
  }

  /** Certificate errors never lead to a fallback. */
  predicate IgnoresCertificates(c: Config) {
    !c.allowFallback || c.strictSsl
  }

  lemma StepLowers(n: Net, o: Outcome)
    requires Settles(n.config) && (o.CertificateError? ==> n.config.useSsl || IgnoresCertificates(n.config))
    ensures if Chosen(n, o).Some? then Most(Step(n, o)) < Most(n) else Most(Step(n, o)) == Most(n)
    ensures !n.config.allowMultiple ==>
              if Chosen(n, o).Some? then Measure(Step(n, o)) < Measure(n) else Measure(Step(n, o)) == Measure(n)
  {
  }

  /** Whichever requests and logins its outcomes belong to, a run falls back no more often than the
      settings leave room for, and that is never more than three times. Where certificate errors lead to no
      fallback, requests may overlap. */
  lemma {:induction false} AtMostThree(n: Net, run: seq<Outcome>)
    requires Settles(n.config) && (InTurn(n, run) || IgnoresCertificates(n.config))
    ensures Fallbacks(n, run) + Most(After(n, run)) <= Most(n) <= 3
    ensures IgnoresCertificates(n.config) ==> Most(n) <= 2
    decreases |run|
  {
    if run != [] {
      StepLowers(n, run[0]);
      AtMostThree(Step(n, run[0]), run[1..]);
    }
  }

  function Worst(n: Net): Outcome {
    var c, unused := n.config, HTTPS !in n.used;
    if !c.allowMultiple && c.useSsl && !c.strictSsl && (!unused || c.allowUpgrade || c.port == DEFAULT_PORT_HTTPS)
    then CertificateError
    else ConnectorError
  }

  const NO_TOKEN := Answered(Some(""))

  /** The state after the tracker has been cleared, where answers do that. */
  function Cleared(n: Net): Net {
    Step(n, NO_TOKEN)
  }

  /** One answer and one failure in front of a run. */
  lemma TwoMore(n: Net, o: Outcome, rest: seq<Outcome>)
    requires o.CertificateError? ==> n.config.useSsl
    ensures var m := Step(Cleared(n), o);
            var run := [NO_TOKEN, o] + rest;
            && (InTurn(n, run) <==> InTurn(m, rest))
            && Fallbacks(n, run) == (if Chosen(Cleared(n), o).Some? then 1 else 0) + Fallbacks(m, rest)
  {
    var run, tail := [NO_TOKEN, o] + rest, [o] + rest;
    assert run[0] == NO_TOKEN && run[1..] == tail && tail[0] == o && tail[1..] == rest;
    assert Fallbacks(n, run) == Fallbacks(Cleared(n), tail);
  }

  /** The bound is exact: some run uses all of it. */
  lemma {:induction false} BoundIsReached(n: Net)
    requires Settles(n.config)
    ensures exists run :: InTurn(n, run) && Fallbacks(n, run) == Most(n)
    decreases Most(n)
  {
    if Most(n) == 0 {
      assert InTurn(n, []) && Fallbacks(n, []) == 0;
    } else {
      var o := Worst(n);
      var m := Step(Cleared(n), o);
      BoundIsReached(m);
      var rest :| InTurn(m, rest) && Fallbacks(m, rest) == Most(m);
      TwoMore(n, o, rest);
      assert InTurn(n, [NO_TOKEN, o] + rest) && Fallbacks(n, [NO_TOKEN, o] + rest) == Most(n);
    }
  }

  /** An answer that clears the tracker takes the bound away where nothing else does: from any port and any
      tracker the connection can go round HTTP and HTTPS for ever. */
  lemma {:induction false} NoBoundWithMultiple(n: Net, k: nat)
    requires !Settles(n.config)
    ensures exists run :: InTurn(n, run) && Fallbacks(n, run) == k
    decreases k
  {
    if k == 0 {
      assert InTurn(n, []) && Fallbacks(n, []) == 0;
    } else {
      var m := Step(Cleared(n), ConnectorError);
      NoBoundWithMultiple(m, k - 1);
      var rest :| InTurn(m, rest) && Fallbacks(m, rest) == k - 1;
      TwoMore(n, ConnectorError, rest);
      assert InTurn(n, [NO_TOKEN, ConnectorError] + rest) && Fallbacks(n, [NO_TOKEN, ConnectorError] + rest) == k;
    }
  }

  /** With overlapping requests, a certificate error that arrives after another request has moved to HTTP
      counts as one more fallback. */
  lemma {:induction false} NoBoundWhenOverlapping(n: Net, k: nat)
    requires !IgnoresCertificates(n.config)
    ensures exists run :: Fallbacks(n, run) == k
    decreases k
  {
    if k == 0 {
      assert Fallbacks(n, []) == 0;
    } else {
      NoBoundWhenOverlapping(Step(n, CertificateError), k - 1);
      var rest :| Fallbacks(Step(n, CertificateError), rest) == k - 1;
      assert ([CertificateError] + rest)[1..] == rest;
      assert Fallbacks(n, [CertificateError] + rest) == k;
    }
  }

  ghost predicate InTurnWithin(n: Net, bound: nat) {
    forall run :: InTurn(n, run) ==> Fallbacks(n, run) <= bound
  }

  ghost predicate Within(n: Net, bound: nat) {
    forall run :: Fallbacks(n, run) <= bound
  }

  /** One request at a time, from any port and tracker: the fallbacks are bounded exactly under settings that
      settle, and then by three. */
  lemma BoundIff(n: Net)
    ensures (exists bound: nat :: InTurnWithin(n, bound)) <==> Settles(n.config)
    ensures Settles(n.config) ==> InTurnWithin(n, 3)
  {
    if Settles(n.config) {
      forall run | InTurn(n, run) ensures Fallbacks(n, run) <= 3 {
        AtMostThree(n, run);
      }
      assert InTurnWithin(n, 3);
    } else if bound: nat :| InTurnWithin(n, bound) {
      NoBoundWithMultiple(n, bound + 1);
    }
  }

  /** Requests overlapping at will: the fallbacks are bounded exactly where certificate errors lead to none,
      and then by two. */
  lemma OverlappingBoundIff(n: Net)
    ensures (exists bound: nat :: Within(n, bound)) <==> IgnoresCertificates(n.config)
    ensures IgnoresCertificates(n.config) ==> Within(n, 2)
  {
    if IgnoresCertificates(n.config) {
      forall run ensures Fallbacks(n, run) <= 2 {
        AtMostThree(n, run);
      }
      assert Within(n, 2);
    } else if bound: nat :| Within(n, bound) {
      NoBoundWhenOverlapping(n, bound + 1);
    }
  }

  /** Only scheme, port and verification ever change, verification only to on, and whoever has fallen
      back is on the default port of its scheme. */
  lemma {:induction false} WhatChanges(n: Net, run: seq<Outcome>)
    ensures var c := After(n, run).config;
            && c == n.config.(useSsl := c.useSsl, port := c.port, verifySsl := c.verifySsl)
            && (n.config.verifySsl ==> c.verifySsl)
            && (Fallbacks(n, run) == 0 ==> c.useSsl == n.config.useSsl && c.port == n.config.port)
            && (Fallbacks(n, run) > 0 || n.config.port == DefaultPort(n.config.useSsl) ==> c.port == DefaultPort(c.useSsl))
    decreases |run|
  {
    if run != [] {
      WhatChanges(Step(n, run[0]), run[1..]);
    }
  }

  /** Also with requests overlapping: under strict SSL, HTTPS is never left. */
  lemma {:induction false} StrictStaysSecure(n: Net, run: seq<Outcome>)
    requires n.config.strictSsl && n.config.useSsl
    ensures After(n, run).config.useSsl
    decreases |run|
  {
    if run != [] {
      StrictStaysSecure(Step(n, run[0]), run[1..]);
    }
  }

  /** Some run leaves HTTPS exactly when fallbacks are allowed and SSL is not strict. */
  lemma {:induction false} LeavesHttpsIff(n: Net)
    requires n.config.useSsl
    ensures (exists run :: !After(n, run).config.useSsl) <==> n.config.allowFallback && !n.config.strictSsl
  {
    var run := [CertificateError];
    assert After(n, run) == Step(n, CertificateError) by {
      assert run[1..] == [];
    }
    if other :| !After(n, other).config.useSsl {
      if n.config.strictSsl {
        StrictStaysSecure(n, other);
      } else if !n.config.allowFallback {
        NoFallbackStays(n, other);
      }
    }
  }

  lemma {:induction false} NoFallbackStays(n: Net, run: seq<Outcome>)
    requires !n.config.allowFallback
    ensures After(n, run).config == n.config
    decreases |run|
  {
    if run != [] {
      NoFallbackStays(Step(n, run[0]), run[1..]);
    }
  }

  /** A connection that began on HTTP and is on HTTPS now verifies certificates. */
  lemma {:induction false} UpgradeVerifies(n: Net, run: seq<Outcome>)
    requires n.config.useSsl ==> n.config.verifySsl
    ensures After(n, run).config.useSsl ==> After(n, run).config.verifySsl
    decreases |run|
  {
    if run != [] {
      UpgradeVerifies(Step(n, run[0]), run[1..]);
    }
  }

  // ---- the connection object -------------------------------------------------------------------

  datatype Header = Header(cookie: string)

  function CookieOf(token: string): Header {
    Header("asus_token=" + token)
  }

  class Connection {
    var config: Config
    var used: set<ConnectionFallback>
    var connected: bool
    var token: Option<string>
    var header: Option<Header>
    /** What it started from, every outcome since, and the scheme and port the session was opened on. */
    ghost const origin: Net
    ghost var run: seq<Outcome>
    ghost var openedOn: (bool, int)
    /** How many more fallbacks the network will cause under settings that put no bound on them. */
    var patience: nat

    constructor (port: Option<int>, useSsl: bool, config: Config, patience: nat)
      ensures Valid() && run == [] && !connected
      ensures origin == Unmoved(config.(useSsl := useSsl,
                                      port := if port.Some? && port.value != 0 then port.value else DefaultPort(useSsl)))
    {
      var p := if port.Some? && port.value != 0 then port.value
               else if useSsl then DEFAULT_PORT_HTTPS else DEFAULT_PORT_HTTP;
      this.config := config.(useSsl := useSsl, port := p);
      used := {};
      connected, token, header := false, None, None;
      origin := Unmoved(config.(useSsl := useSsl, port := p));
      run := [];
      this.patience := patience;
    }

    ghost function State(): Net
      reads this
    {
      Net(config, used)
    }

    /** The connection is where the outcomes so far lead, and a session belongs to the current scheme and
        port, with the header built from its token. */
    ghost predicate Valid()
      reads this
    {
      && State() == After(origin, run) && InTurn(origin, run)
      && (if connected then token.Some? && header == Some(CookieOf(token.value)) && openedOn == (config.useSsl, config.port)
          else token.None? && header.None?)
    }

    /** An upper bound on the fallbacks to come; every fallback lowers it. */
    ghost function Rank(n: Net): nat
      reads this`patience
    {
      if Settles(n.config) then Most(n) else patience
    }

    method ResetConnection()
      modifies this`connected, this`token, this`header
      ensures !connected
      ensures if old(connected) then token == None && header == None else token == old(token) && header == old(header)
    {
      if !connected {
        return;
      }
      connected, token, header := false, None, None;
    }

    /** One exchange with the router; what comes of it is not under the client's control. */
    method MakeRequest() returns (o: Outcome)
      ensures o.CertificateError? ==> config.useSsl
      ensures o.CertificateError? || o.ConnectorError? ==> Settles(config) || patience > 0
    {
      o := *;
      if !config.useSsl && o.CertificateError? {
        o := OtherError;
      }
      if !Settles(config) && patience == 0 && !o.Answered? {
        o := OtherError;
      }
    }

    method Apply(fallback: ConnectionFallback)
      modifies this`config, this`used
      ensures config == Moved(old(config), fallback) && used == old(used) + {fallback}
      ensures config.useSsl == (fallback != HTTP) && config.port == (if fallback == HTTP then 80 else 8443)
      ensures config.verifySsl == (fallback != HTTPS_UNSAFE && old(config.verifySsl))
      ensures config == old(config).(useSsl := config.useSsl, port := config.port, verifySsl := config.verifySsl)
    {
      used := used + {fallback};
      match fallback
      case HTTP =>
        config := config.(useSsl := false, port := DEFAULT_PORT_HTTP);
      case HTTPS =>
        config := config.(useSsl := true, port := DEFAULT_PORT_HTTPS);
      case HTTPS_UNSAFE =>
        config := config.(useSsl := true, port := DEFAULT_PORT_HTTPS, verifySsl := false);
    }

    /** An accepted request forgets the fallbacks used, where several are allowed. */
    method ForgetFallbacks()
      modifies this`used
      ensures used == if config.allowMultiple then {} else old(used)
    {
      if config.allowMultiple {
        used := {};
      }
    }

    /** The rank after the fallback that `o` causes. */
    ghost function Coming(o: Outcome): int
      reads this
    {
      if Settles(config) then Most(Step(After(origin, run), o)) else patience - 1
    }

    /** The configuration change; a session opened before it is gone. */
    method Move(fallback: ConnectionFallback, ghost o: Outcome)
      requires InTurn(origin, run + [o]) && Chosen(After(origin, run), o) == Some(fallback)
      requires used == After(origin, run).used
      requires Moved(config, fallback) == Step(After(origin, run), o).config
      requires Settles(config) || patience > 0
      requires connected || (token.None? && header.None?)
      modifies this
      ensures Valid() && Settles(config) == old(Settles(config))
      ensures Rank(State()) == old(Coming(o))
      ensures run == old(run) + [o] && !connected
    {
      OneMore(origin, run, o);
      Apply(fallback);
      if !Settles(config) {
        patience := patience - 1;
      }
      run := run + [o];
      ResetConnection();
    }

    /** After the change, except inside a login, a fresh login. */
    method Fallback(fallback: ConnectionFallback, login: bool, ghost o: Outcome) returns (raised: Option<Error>)
      requires InTurn(origin, run + [o]) && Chosen(After(origin, run), o) == Some(fallback)
      requires used == After(origin, run).used
      requires Moved(config, fallback) == Step(After(origin, run), o).config
      requires Settles(config) || patience > 0
      requires connected || (token.None? && header.None?)
      modifies this
      ensures Valid() && Settles(config) == old(Settles(config))
      ensures Rank(State()) <= old(Coming(o))
      ensures old(run) + [o] <= run
      ensures if login then run == old(run) + [o] && !connected && raised.None? else |run| > |old(run)| + 1
      ensures raised.Some? ==> Blames(raised.value) && !connected
      decreases Coming(o), 4
    {
      Move(fallback, o);
      raised := None;
      if !login {
        raised := Connect();
      }
    }

    /** The fallback matrix: which fallback helps a request that found nobody to connect to, or why none. */
    method ChooseFallback() returns (fallback: Option<ConnectionFallback>, error: Error)
      requires config.allowFallback
      modifies this`config
      ensures fallback == Chosen(old(State()), ConnectorError)
      ensures config == old(config).(verifySsl := config.verifySsl)
      ensures var next := Step(old(State()), ConnectorError).config;
              next == if fallback.Some? then Moved(config, fallback.value) else config
      ensures fallback.None? ==> error == WhyNone(old(config))
      ensures fallback.None? ==>
                error == if config.useSsl && config.port == 8443 && config.strictSsl then FallbackForbidden
                         else if !config.useSsl && config.port == 80 && !config.allowUpgrade then FallbackFailed
                         else FallbackLoop
    {
      if config.useSsl {
        if config.port != DEFAULT_PORT_HTTPS {
          return if HTTPS in used then None else Some(HTTPS), FallbackLoop;
        }
        if config.strictSsl {
          return None, FallbackForbidden;
        }
        return if HTTP in used then None else Some(HTTP), FallbackLoop;
      }
      if config.port != DEFAULT_PORT_HTTP {
        return if HTTP in used then None else Some(HTTP), FallbackLoop;
      }
      if config.allowUpgrade {
        config := config.(verifySsl := true);
        return if HTTPS in used then None else Some(HTTPS), FallbackLoop;
      }
      return None, FallbackFailed;
    }

    method HandleFallback(login: bool) returns (r: Reply)
      requires Valid() && config.allowFallback && !(login && connected)
      requires Settles(config) || patience > 0
      modifies this
      ensures Valid() && Rank(State()) <= old(Rank(State())) && Settles(config) == old(Settles(config))
      ensures old(run) + [ConnectorError] <= run && Ends(r) && (r == Raised(CannotConnect) ==> !connected)
      ensures |run| == |old(run)| + 1 ==> connected == old(connected) && token == old(token) && r != Raised(CannotConnect)
      ensures login ==> !connected
      decreases Rank(State()), 1
    {
      ghost var o := ConnectorError;
      OneMore(origin, run, o);
      if Settles(config) {
        StepLowers(State(), o);
      }
      var fallback, error := ChooseFallback();
      if fallback.None? {
        run := run + [o];
        return Raised(error);
      }
      var raised := Fallback(fallback.value, login, o);
      if raised.Some? {
        return Raised(raised.value);
      }
      r := SendRequest(login);
    }

    /** The error is the one the last exchange calls for. */
    ghost predicate Blames(e: Error)
      reads this
    {
      run != [] && Blamed(After(origin, run[..|run| - 1]), run[|run| - 1], e)
    }

    /** A reply is the answer to the last exchange, an error is what that exchange calls for. */
    ghost predicate Ends(r: Reply)
      reads this
    {
      run != [] && match r
                   case Reply(token) => run[|run| - 1] == Answered(token)
                   case Raised(e) => Blames(e)
    }

    method SendRequest(login: bool) returns (r: Reply)
      requires Valid() && !(login && connected)
      modifies this
      ensures Valid() && Rank(State()) <= old(Rank(State())) && Settles(config) == old(Settles(config))
      ensures old(run) < run && Ends(r) && (r == Raised(CannotConnect) ==> !connected)
      ensures |run| == |old(run)| + 1 && r != Raised(CannotConnect) ==> connected == old(connected) && token == old(token)
      ensures login ==> !connected
      decreases Rank(State()), 2
    {
      var o := MakeRequest();
      OneMore(origin, run, o);
      if Settles(config) {
        StepLowers(State(), o);
      }
      match o
      case Answered(token) =>
        ForgetFallbacks();
        run := run + [o];
        r := Reply(token);
      case CertificateError =>
        if !config.strictSsl && config.allowFallback {
          var raised := Fallback(HTTP, login, o);
          if raised.Some? {
            return Raised(raised.value);
          }
          r := SendRequest(login);
        } else {
          run := run + [o];
          r := Raised(BadCertificate);
        }
      case ConnectorError =>
        if config.allowFallback {
          r := HandleFallback(login);
        } else {
          run := run + [o];
          ResetConnection();
          r := Raised(CannotConnect);
        }
      case OtherError =>
        run := run + [o];
        r := Raised(Unexpected);
    }

    /** The login task: ask for a token and store it. */
    method ConnectWithLock() returns (raised: Option<Error>)
      requires Valid()
      modifies this
      ensures Valid() && Rank(State()) <= old(Rank(State())) && Settles(config) == old(Settles(config))
      ensures old(run) <= run && (old(connected) <==> run == old(run)) && (old(connected) ==> connected)
      ensures raised.Some? ==> Blames(raised.value) && raised.value != BadCertificate && !connected
      ensures !old(connected) && connected ==> run[|run| - 1] == Answered(token) && token != Some("")
      ensures !old(connected) && !connected && raised.None? ==> run[|run| - 1] == Answered(Some(""))
      decreases Rank(State()), 3, 0
    {
      if connected {
        return None;
      }
      var r := SendRequest(true);
      match r
      case Raised(error) =>
        raised := Some(if error == BadCertificate then Access else error);
      case Reply(answer) =>
        if answer.None? {
          return Some(NoJson);
        }
        raised := None;
        if answer == Some("") || connected {
          return;
        }
        token := answer;
        header := Some(CookieOf(answer.value));
        connected := true;
        openedOn := (config.useSsl, config.port);
    }

    method Connect() returns (raised: Option<Error>)
      requires Valid()
      modifies this
      ensures Valid() && Rank(State()) <= old(Rank(State())) && Settles(config) == old(Settles(config))
      ensures old(run) <= run && (old(connected) <==> run == old(run)) && (old(connected) ==> connected)
      ensures raised.Some? ==> Blames(raised.value) && raised.value != BadCertificate && !connected
      ensures !old(connected) && connected ==> run[|run| - 1] == Answered(token) && token != Some("")
      decreases Rank(State()), 3, 1
    {
      if connected {
        return None;
      }
      raised := ConnectWithLock();
    }

    method Query() returns (r: Option<Reply>)
      requires Valid()
      modifies this
      ensures Valid() && Rank(State()) <= old(Rank(State())) && Settles(config) == old(Settles(config))
      ensures old(run) < run
      ensures r.Some? ==> Ends(r.value)
      ensures r.None? ==> !connected
    {
      if !connected {
        var raised := Connect();
        if raised.Some? {
          return Some(Raised(raised.value));
        }
      }
      if !connected {
        return None;
      }
      var reply := SendRequest(false);
      r := Some(reply);
    }

    /** However many requests and logins it has made, in whatever nesting. */
    lemma WholeLife()
      requires Valid()
      ensures Settles(origin.config) ==> Fallbacks(origin, run) <= Most(origin) <= 3
      ensures IgnoresCertificates(origin.config) ==> Fallbacks(origin, run) <= 2
      ensures origin.config.strictSsl && origin.config.useSsl ==> config.useSsl
      ensures !origin.config.useSsl && config.useSsl ==> config.verifySsl
      ensures Fallbacks(origin, run) == 0 ==> config.useSsl == origin.config.useSsl && config.port == origin.config.port
    {
      WhatChanges(origin, run);
      if Settles(origin.config) {
        AtMostThree(origin, run);
      }
      if origin.config.strictSsl && origin.config.useSsl {
        StrictStaysSecure(origin, run);
      }
      if !origin.config.useSsl {
        UpgradeVerifies(origin, run);
      }
    }
  }
}
