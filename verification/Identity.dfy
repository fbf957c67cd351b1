/** Which record an id stands for. The daemon authenticates, deauthenticates and times out by id, and
    an import can make ids repeat; what holds in every run all the same, and what does not. */
module Identity {
  import opened Iptables
  import opened Configuration
  import opened Session
  import opened Mirror
  import opened StateFile
  import opened Runs
  import opened Sweeps

  // ---------------------------------------------------------------- authenticated records come first

  lemma {:induction false} FirstUpdate(cfg: Config, cs: seq<Client>, k: nat, d: Client)
    requires k < |cs| && AuthFirst(cfg, cs) && d.id == cs[k].id
    requires d.state == cfg.authMark ==> cs[k].state == cfg.authMark || First(cs, ById(cs[k].id)) == k
    ensures AuthFirst(cfg, cs[k := d])
  {
    var ds := cs[k := d];
    forall i, j | 0 <= i < j < |ds| && ds[j].state == cfg.authMark ensures ds[i].id != ds[j].id {
      assert ds[i].id == cs[i].id && ds[j].id == cs[j].id;
      if j == k && cs[k].state != cfg.authMark {
        assert !ById(cs[k].id)(cs[i]);
      }
    }
  }

  lemma {:induction false} FirstRemove(cfg: Config, cs: seq<Client>, k: nat)
    requires k < |cs| && AuthFirst(cfg, cs)
    ensures AuthFirst(cfg, RemoveAt(cs, k))
  {
    var ds := RemoveAt(cs, k);
    assert forall i :: 0 <= i < |ds| ==> ds[i] == cs[if i < k then i else i + 1];
  }

  lemma {:induction false} FirstAppend(cfg: Config, cs: seq<Client>, c: Client)
    requires AuthFirst(cfg, cs) && (c.state == cfg.authMark ==> First(cs, ById(c.id)) == |cs|)
    ensures AuthFirst(cfg, cs + [c])
  {
    var ds := cs + [c];
    forall i, j | 0 <= i < j < |ds| && ds[j].state == cfg.authMark ensures ds[i].id != ds[j].id {
      if j == |cs| { assert !ById(c.id)(cs[i]); }
    }
  }

  lemma {:induction false} ChangeStateFirst(cfg: Config, s: State, k: nat, to: Mark, now: int, token: string)
    requires ValidMarks(cfg) && k < |s.clients| && AuthFirst(cfg, s.clients)
    requires to == cfg.authMark ==> First(s.clients, ById(s.clients[k].id)) == k
    ensures AuthFirst(cfg, ChangeState(cfg, s, k, to, now, token).0.clients)
  {
    hide AuthFirst, First, FwAuthenticate, FwDeauthenticate, AddMac;
    var c := s.clients[k];
    if c.state == PREAUTHENTICATED && to == cfg.authMark {
      FirstUpdate(cfg, s.clients, k, c.(state := to));
    } else if c.state == cfg.authMark && to == PREAUTHENTICATED {
      FirstUpdate(cfg, s.clients, k, ResetClient(c, now, token).(state := to));
    } else if c.state == cfg.authMark && to == cfg.blockedMark {
      FirstRemove(cfg, s.clients, k);
    }
  }

  lemma {:induction false} AuthByIdFirst(cfg: Config, s: State, id: nat, now: int)
    requires ValidMarks(cfg) && AuthFirst(cfg, s.clients)
    ensures AuthFirst(cfg, AuthById(cfg, s, id, now).0.clients)
  {
    var k := First(s.clients, ById(id));
    hide AuthFirst, ChangeState;
    if k < |s.clients| {
      assert s.clients[k].id == id;
      ChangeStateFirst(cfg, s, k, cfg.authMark, now, "");
    }
  }

  lemma {:induction false} DeauthByIdFirst(cfg: Config, s: State, id: nat, now: int, token: string)
    requires ValidMarks(cfg) && AuthFirst(cfg, s.clients)
    ensures AuthFirst(cfg, DeauthById(cfg, s, id, now, token).0.clients)
  {
    hide AuthFirst, ChangeState;
    var k := First(s.clients, ById(id));
    if k < |s.clients| { ChangeStateFirst(cfg, s, k, PREAUTHENTICATED, now, token); }
  }

  lemma {:induction false} HttpAuthFirst(cfg: Config, s: State, mac: string, ip: string, token: string,
                                         seconds: nat, upload: nat, download: nat, now: int)
    requires ValidMarks(cfg) && AuthFirst(cfg, s.clients)
    ensures AuthFirst(cfg, HttpAuth(cfg, s, mac, ip, token, seconds, upload, download, now).clients)
  {
    hide AuthFirst, AuthById, First;
    var k := First(s.clients, ByPair(mac, ip));
    if k < |s.clients| {
      AuthByIdFirst(cfg, s, s.clients[k].id, now);
      var t := AuthById(cfg, s, s.clients[k].id, now).0;
      FirstUpdate(cfg, t.clients, k, t.clients[k].(downloadLimit := download, uploadLimit := upload,
        sessionStart := now, sessionEnd := if seconds > 0 then now + seconds else 0));
    }
  }

  lemma {:induction false} CountersFirst(cfg: Config, cs: seq<Client>, out: seq<(string, nat)>, inc: seq<(string, nat)>, now: int)
    requires AuthFirst(cfg, cs)
    ensures AuthFirst(cfg, Counters(cs, out, inc, now))
    decreases |out| + |inc|
  {
    hide AuthFirst, First;
    if out != [] {
      var k := First(cs, ByIp(out[0].0));
      if k < |cs| { FirstUpdate(cfg, cs, k, cs[k].(outgoing := out[0].1, lastUpdated := now)); }
      CountersFirst(cfg, CountOutgoing(cs, out[0].0, out[0].1, now), out[1..], inc, now);
    } else if inc != [] {
      var k := First(cs, ByIp(inc[0].0));
      if k < |cs| { FirstUpdate(cfg, cs, k, cs[k].(incoming := inc[0].1)); }
      CountersFirst(cfg, CountIncoming(cs, inc[0].0, inc[0].1), [], inc[1..], now);
    }
  }

  lemma {:induction false} SweepAtFirst(cfg: Config, s: State, k: nat, now: int, token: string)
    requires ValidMarks(cfg) && k < |s.clients| && AuthFirst(cfg, s.clients)
    ensures AuthFirst(cfg, SweepAt(cfg, s, k, now, token).clients)
  {
    hide AuthFirst, ChangeState;
    match Decide(cfg, s.clients[k], now)
    case Keep =>
    case Discard => FirstRemove(cfg, s.clients, k);
    case ToState(to) => ChangeStateFirst(cfg, s, k, to, now, token);
  }

  lemma {:induction false} SweepFirst(cfg: Config, s: State, i: nat, now: int, rnd: nat -> string, visit: nat)
    requires ValidMarks(cfg) && i <= |s.clients| && AuthFirst(cfg, s.clients)
    ensures AuthFirst(cfg, Sweep(cfg, s, i, now, rnd, visit).clients)
    decreases |s.clients| - i
  {
    if i < |s.clients| {
      hide AuthFirst, SweepAt, First, Sweep;
      SweepStep(cfg, s, i, now, rnd, visit);
      var k := First(s.clients, ById(s.clients[i].id));
      var t := SweepAt(cfg, s, k, now, rnd(visit));
      SweepAtFirst(cfg, s, k, now, rnd(visit));
      SweepFirst(cfg, t, if |t.clients| < |s.clients| then i else i + 1, now, rnd, visit + 1);
    }
  }

  lemma {:induction false} DeauthAllFirst(cfg: Config, s: State, i: nat, now: int, rnd: nat -> string)
    requires ValidMarks(cfg) && i <= |s.clients| && AuthFirst(cfg, s.clients)
    ensures AuthFirst(cfg, DeauthAll(cfg, s, i, now, rnd).clients)
    decreases |s.clients| - i
  {
    hide AuthFirst, ChangeState;
    if i < |s.clients| {
      var k := First(s.clients, ById(s.clients[i].id));
      ChangeStateFirst(cfg, s, k, PREAUTHENTICATED, now, rnd(i));
      DeauthAllFirst(cfg, ChangeState(cfg, s, k, PREAUTHENTICATED, now, rnd(i)).0, i + 1, now, rnd);
    }
  }

  lemma {:induction false} AddClientFirst(cfg: Config, s: State, mac: string, ip: string, now: int, token: string)
    requires ValidMarks(cfg) && AuthFirst(cfg, s.clients)
    ensures AuthFirst(cfg, AddClient(cfg, s, mac, ip, now, token).0.clients)
  {
    hide AuthFirst, AddClient, NewClient, First;
    AddClientCases(cfg, s, mac, ip, now, token);
    if AddClient(cfg, s, mac, ip, now, token).0 != s {
      FirstAppend(cfg, s.clients, NewClient(cfg, s, mac, ip, now, token));
    }
  }

  /** An imported record has an id that no other record has when it authenticates; one whose import
      stops half-way is not authenticated. */
  lemma {:induction false} ImportClientFirst(cfg: Config, s: State, j: Json, now: int, token: string)
    requires ValidMarks(cfg) && AuthFirst(cfg, s.clients)
    ensures AuthFirst(cfg, ImportClient(cfg, s, j, now, token).0.clients)
  {
    hide AuthFirst, AddClient, NewClient, First, Fill, ChangeState, GetString, GetInt, Wrap32, Uint64, StartState;
    var mac, ip, id := GetString(j, KMac), GetString(j, KIp), GetInt(j, KId);
    if mac.Some? && ip.Some? && id.Some? && First(s.clients, ByPair(mac.value, ip.value)) == |s.clients|
       && First(s.clients, ById(Wrap32(Uint64(id.value)))) == |s.clients| {
      AddClientFirst(cfg, s, mac.value, ip.value, now, token);
      AddedAtTheEnd(cfg, s, mac.value, ip.value, now, token);
      var (t, k) := AddClient(cfg, s, mac.value, ip.value, now, token);
      if k.Some? {
        var (c, state) := Fill(t.clients[k.value], j);
        var u := t.(clients := t.clients[k.value := c]);
        NewClientState(cfg, s, mac.value, ip.value, now, token);
        NeverStartsAuthenticated(cfg, s, mac.value);
        FilledIdentity(t.clients[k.value], j);
        FirstAppend(cfg, s.clients, c);
        assert u.clients == s.clients + [c];
        if state.Some? {
          FirstOfNew(s.clients, c);
          ChangeStateFirst(cfg, u, k.value, state.value, now, token);
        }
      }
    }
  }

  lemma {:induction false} NewClientState(cfg: Config, s: State, mac: string, ip: string, now: int, token: string)
    ensures NewClient(cfg, s, mac, ip, now, token).state == StartState(cfg, s, mac)
  {
  }

  /** The fields are read in order, so a record with a state has the id of the file. */
  lemma {:induction false} FilledIdentity(c: Client, j: Json)
    requires GetInt(j, KId).Some?
    ensures var (d, state) := Fill(c, j);
            d.state == c.state && (state.Some? ==> d.id == Wrap32(Uint64(GetInt(j, KId).value)))
  {
    hide GetString, Wrap32, Uint64;
  }

  lemma {:induction false} FirstOfNew(cs: seq<Client>, c: Client)
    requires First(cs, ById(c.id)) == |cs|
    ensures First(cs + [c], ById(c.id)) == |cs|
  {
    assert forall i :: 0 <= i < |cs| ==> !ById(c.id)(cs[i]);
    FirstIs(cs + [c], ById(c.id), |cs|);
  }

  lemma {:induction false} ImportAllFirst(cfg: Config, s: State, elems: seq<Json>, rc: int, now: int, rnd: nat -> string, i: nat)
    requires ValidMarks(cfg) && AuthFirst(cfg, s.clients)
    ensures AuthFirst(cfg, ImportAll(cfg, s, elems, rc, now, rnd, i).0.clients)
    decreases |elems|
  {
    hide AuthFirst, ImportClient;
    if elems != [] && elems[0].JsonObject? {
      ImportClientFirst(cfg, s, elems[0], now, rnd(i));
      ImportAllFirst(cfg, ImportClient(cfg, s, elems[0], now, rnd(i)).0, elems[1..], 0, now, rnd, i + 1);
    }
  }

  lemma {:induction false} StartupFirst(cfg: Config, s: State, f: File, now: int, rnd: nat -> string)
    requires ValidMarks(cfg) && AuthFirst(cfg, s.clients)
    ensures AuthFirst(cfg, Startup(cfg, s, f, now, rnd).clients)
  {
    hide ImportAll;
    if f.Parsed? && f.top.JsonObject? && KClients in f.top.fields && f.top.fields[KClients].JsonArray? {
      ImportAllFirst(cfg, s, f.top.fields[KClients].elems, -EINVAL, now, rnd, 0);
    }
  }

  lemma {:induction false} StepFirst(cfg: Config, s: State, step: Step)
    requires ValidMarks(cfg) && AuthFirst(cfg, s.clients)
    ensures AuthFirst(cfg, Runs.Next(cfg, s, step).clients)
  {
    hide AuthFirst, AddClient, HttpAuth, AuthById, DeauthById, AddMac, RemoveMac, Counters, Sweep, DeauthAll, Startup;
    match step
    case Add(mac, ip, now, token) => AddClientFirst(cfg, s, mac, ip, now, token);
    case Http(mac, ip, token, seconds, upload, download, now) =>
      HttpAuthFirst(cfg, s, mac, ip, token, seconds, upload, download, now);
    case Auth(id, now) => AuthByIdFirst(cfg, s, id, now);
    case Deauth(id, now, token) => DeauthByIdFirst(cfg, s, id, now, token);
    case MacOn(l, mac) => MacFrameClients(cfg, s, l, mac);
    case MacOff(l, mac) => MacFrameClients(cfg, s, l, mac);
    case Count(out, inc, now) => CountersFirst(cfg, s.clients, out, inc, now);
    case Refresh(now, rnd) => SweepFirst(cfg, s, 0, now, rnd, 0);
    case DeauthEveryone(now, rnd) => DeauthAllFirst(cfg, s, 0, now, rnd);
    case Load(file, now, rnd) => StartupFirst(cfg, s, file, now, rnd);
  }

  /** In every run, imports included, an authenticated record is the one its id finds. */
  lemma {:induction false} RunFirst(cfg: Config, s: State, steps: seq<Step>)
    requires ValidMarks(cfg) && AuthFirst(cfg, s.clients)
    ensures AuthFirst(cfg, Run(cfg, s, steps).clients)
    decreases |steps|
  {
    hide AuthFirst, Runs.Next;
    if steps != [] {
      StepFirst(cfg, s, steps[0]);
      RunFirst(cfg, Runs.Next(cfg, s, steps[0]), steps[1..]);
    }
  }

  lemma {:induction false} EveryRunFirst(cfg: Config, fw0: Tables, trusted: seq<string>, blocked: seq<string>,
                                         allowed: seq<string>, steps: seq<Step>)
    requires ValidMarks(cfg)
    ensures AuthFirst(cfg, Run(cfg, Initial(fw0, trusted, blocked, allowed), steps).clients)
  {
    hide Run;
    RunFirst(cfg, Initial(fw0, trusted, blocked, allowed), steps);
  }

  /** After any run, imports included, the timeout check leaves no authenticated client past the end
      of its session. */
  lemma {:induction false} NoExpiredInEveryRun(cfg: Config, fw0: Tables, trusted: seq<string>, blocked: seq<string>,
                                               allowed: seq<string>, steps: seq<Step>, now: int, rnd: nat -> string)
    requires ValidMarks(cfg)
    ensures var s := Run(cfg, Initial(fw0, trusted, blocked, allowed), steps);
            NoneExpired(cfg, Runs.Next(cfg, s, Refresh(now, rnd)).clients, now)
  {
    hide Run, AuthFirst, NoneExpired, Sweep;
    var s := Run(cfg, Initial(fw0, trusted, blocked, allowed), steps);
    EveryRunFirst(cfg, fw0, trusted, blocked, allowed, steps);
    NoExpiredSurvivorExactly(cfg, s, now, rnd);
  }

  /** After any run, imports included, the shutdown leaves no client authenticated and both access
      chains empty. */
  lemma {:induction false} ShutdownClearsInEveryRun(cfg: Config, fw0: Tables, trusted: seq<string>, blocked: seq<string>,
                                                    allowed: seq<string>, steps: seq<Step>, now: int, rnd: nat -> string)
    requires ValidMarks(cfg) && Initialised(cfg, fw0, trusted, blocked, allowed)
    ensures var t := Runs.Next(cfg, Run(cfg, Initial(fw0, trusted, blocked, allowed), steps), DeauthEveryone(now, rnd));
            NoneAuthenticated(cfg, t.clients) && OUT in t.fw && INC in t.fw && t.fw[OUT] == [] && t.fw[INC] == []
  {
    hide Run, AuthFirst, NoneAuthenticated, DeauthAll, Inv, Initialised, ValidMarks;
    var s := Run(cfg, Initial(fw0, trusted, blocked, allowed), steps);
    EveryRunFirst(cfg, fw0, trusted, blocked, allowed, steps);
    EveryRunAgrees(cfg, fw0, trusted, blocked, allowed, steps);
    DeauthAllClears(cfg, fw0, s, now, rnd);
  }

  // ---------------------------------------------------------------- who is authenticated

  /** Record `k` was not authenticated, and is now. */
  predicate Becomes(cfg: Config, cs: seq<Client>, ds: seq<Client>, k: nat) {
    k < |cs| && k < |ds| && cs[k].state != cfg.authMark && ds[k].state == cfg.authMark
  }

  /** Authentication by id changes the state of the first record with the id, if that one is
      preauthenticated, and nothing else on the list. */
  lemma {:induction false} AuthByIdExactly(cfg: Config, s: State, id: nat, now: int)
    requires ValidMarks(cfg)
    ensures var (t, rc) := AuthById(cfg, s, id, now);
            var j := First(s.clients, ById(id));
            if j < |s.clients| && s.clients[j].state == PREAUTHENTICATED
            then rc == 0 && t.clients == s.clients[j := s.clients[j].(state := cfg.authMark)]
            else rc != 0 && t.clients == s.clients
  {
    hide First, FwAuthenticate, FwDeauthenticate, AddMac;
  }

  lemma {:induction false} BecomesExactly(cfg: Config, s: State, id: nat, now: int)
    requires ValidMarks(cfg)
    ensures var t := AuthById(cfg, s, id, now).0;
            forall i: nat :: Becomes(cfg, s.clients, t.clients, i) <==>
              i < |s.clients| && i == First(s.clients, ById(id)) && s.clients[i].state == PREAUTHENTICATED
  {
    hide First, AuthById;
    AuthByIdExactly(cfg, s, id, now);
  }

  /** The request for the authentication page authenticates the first record with the id of the
      pair's record. That is the pair's record, with the right token, exactly when no earlier record
      has its id; always so while ids are distinct. */
  lemma {:induction false} HttpAuthExactly(cfg: Config, s: State, mac: string, ip: string, token: string,
                                           seconds: nat, upload: nat, download: nat, now: int)
    requires ValidMarks(cfg) && First(s.clients, ByPair(mac, ip)) < |s.clients|
    ensures var t := HttpAuth(cfg, s, mac, ip, token, seconds, upload, download, now);
            var k := First(s.clients, ByPair(mac, ip));
            var j := First(s.clients, ById(s.clients[k].id));
            && |t.clients| == |s.clients|
            && (forall i: nat :: Becomes(cfg, s.clients, t.clients, i) <==>
                 i < |s.clients| && i == j && s.clients[j].state == PREAUTHENTICATED && Admitted(cfg, s.clients[k], token))
            && (Becomes(cfg, s.clients, t.clients, k) <==>
                 s.clients[k].state == PREAUTHENTICATED && s.clients[k].token == token && j == k)
            && (DistinctIds(s.clients) ==>
                 (Becomes(cfg, s.clients, t.clients, k) <==>
                   s.clients[k].state == PREAUTHENTICATED && s.clients[k].token == token))
  {
    hide First, AuthById, DistinctIds, HttpAuth;
    var k := First(s.clients, ByPair(mac, ip));
    HttpAuthStates(cfg, s, mac, ip, token, seconds, upload, download, now);
    if DistinctIds(s.clients) { DistinctFirst(s.clients, k); }
    BecomesExactly(cfg, s, s.clients[k].id, now);
  }

  /** The request admits the client to the authentication by id. */
  predicate Admitted(cfg: Config, c: Client, token: string) {
    c.state != cfg.authMark && c.state != cfg.trustedMark && c.token == token
  }

  lemma {:induction false} HttpAuthStates(cfg: Config, s: State, mac: string, ip: string, token: string,
                                          seconds: nat, upload: nat, download: nat, now: int)
    requires First(s.clients, ByPair(mac, ip)) < |s.clients|
    ensures var t := HttpAuth(cfg, s, mac, ip, token, seconds, upload, download, now);
            var c := s.clients[First(s.clients, ByPair(mac, ip))];
            var u := if Admitted(cfg, c, token) then AuthById(cfg, s, c.id, now).0 else s;
            |t.clients| == |s.clients| == |u.clients|
            && forall i :: 0 <= i < |s.clients| ==> t.clients[i].state == u.clients[i].state
  {
    hide First, AuthById;
  }

  lemma {:induction false} DistinctFirst(cs: seq<Client>, k: nat)
    requires DistinctIds(cs) && k < |cs|
    ensures First(cs, ById(cs[k].id)) == k
  {
    FirstUpTo(cs, k);
  }

  /** The control command authenticates the record it finds exactly when that is preauthenticated,
      its id is not 0, and no earlier record has the id; and it authenticates no other then. */
  lemma {:induction false} NdsctlAuthExactly(cfg: Config, s: State, arg: string, now: int)
    requires ValidMarks(cfg) && ByAny(s.clients, arg) < |s.clients|
    ensures var t := NdsctlAuth(cfg, s, arg, now).0;
            var k := ByAny(s.clients, arg);
            var j := First(s.clients, ById(s.clients[k].id));
            && (forall i: nat :: Becomes(cfg, s.clients, t.clients, i) <==>
                 i < |s.clients| && i == j && s.clients[j].state == PREAUTHENTICATED && s.clients[k].id != 0)
            && (Becomes(cfg, s.clients, t.clients, k) <==>
                 s.clients[k].state == PREAUTHENTICATED && s.clients[k].id != 0 && j == k)
  {
    hide First, AuthById, ByAny;
    BecomesExactly(cfg, s, s.clients[ByAny(s.clients, arg)].id, now);
  }

  /** Deauthentication by the id of an authenticated record finds that record, also when ids repeat. */
  lemma {:induction false} DeauthFindsTheRecord(cfg: Config, s: State, k: nat, now: int, token: string)
    requires ValidMarks(cfg) && AuthFirst(cfg, s.clients) && k < |s.clients| && s.clients[k].state == cfg.authMark
    ensures DeauthById(cfg, s, s.clients[k].id, now, token) == ChangeState(cfg, s, k, PREAUTHENTICATED, now, token)
    ensures DeauthById(cfg, s, s.clients[k].id, now, token).1 == 0
  {
    FirstUpTo(s.clients, k);
    hide First, FwAuthenticate, FwDeauthenticate, AddMac;
  }

  /** Record `k` was authenticated, and is no more. */
  predicate Ceases(cfg: Config, cs: seq<Client>, ds: seq<Client>, k: nat) {
    k < |cs| && k < |ds| && cs[k].state == cfg.authMark && ds[k].state != cfg.authMark
  }

  lemma {:induction false} DeauthByIdExactly(cfg: Config, s: State, id: nat, now: int, token: string)
    requires ValidMarks(cfg)
    ensures var (t, rc) := DeauthById(cfg, s, id, now, token);
            var j := First(s.clients, ById(id));
            && |t.clients| == |s.clients|
            && (rc == 0 <==> j < |s.clients| && s.clients[j].state == cfg.authMark)
            && forall i: nat :: Ceases(cfg, s.clients, t.clients, i) <==>
                 i < |s.clients| && i == j && s.clients[j].state == cfg.authMark
  {
    hide First, FwAuthenticate, FwDeauthenticate, AddMac;
  }

  /** Where authenticated records come first, as in every run, and nothing comes between lookup and
      action: the control command deauthenticates the record it finds exactly when that is authenticated
      and its id is not 0. When it is not authenticated and another record with its id is, the
      command deauthenticates that one, and reports success. */
  lemma {:induction false} NdsctlDeauthExactly(cfg: Config, s: State, arg: string, now: int, token: string)
    requires ValidMarks(cfg) && AuthFirst(cfg, s.clients) && ByAny(s.clients, arg) < |s.clients|
    ensures var (t, rc) := NdsctlDeauth(cfg, s, s, arg, now, token);
            var k := ByAny(s.clients, arg);
            var j := First(s.clients, ById(s.clients[k].id));
            && (forall i: nat :: Ceases(cfg, s.clients, t.clients, i) <==>
                 i < |s.clients| && i == j && s.clients[j].state == cfg.authMark && s.clients[k].id != 0)
            && (Ceases(cfg, s.clients, t.clients, k) <==> s.clients[k].state == cfg.authMark && s.clients[k].id != 0)
            && (rc == 0 <==> s.clients[j].state == cfg.authMark && s.clients[k].id != 0)
  {
    var k := ByAny(s.clients, arg);
    FirstUpTo(s.clients, k);
    assert s.clients[k].state == cfg.authMark ==> First(s.clients, ById(s.clients[k].id)) == k;
    hide First, DeauthById, ByAny, AuthFirst;
    DeauthByIdExactly(cfg, s, s.clients[k].id, now, token);
  }

  /** An imported authenticated record and a new client with its id: the command for the address of the
      new client ends the session of the other one. */
  lemma {:induction false} WrongDeauthExample(cfg: Config, s: State, c: Client, mac: string, ip: string, token: string,
                                              now: int, rnd: nat -> string)
    requires ValidMarks(cfg) && s.clients == [] && cfg.maxClients >= 2
    requires OUT in s.fw && INC in s.fw && Agrees(cfg, s, c) && c.id == s.nextId + 1 && c.state == cfg.authMark
    requires cfg.validMac(mac) && cfg.validIp(ip) && ip != c.ip && ip != c.token && ip != token
    requires StartState(cfg, s, mac) == PREAUTHENTICATED
    ensures var u := Run(cfg, s, [Load(Parsed(Export([c])), now, rnd), Add(mac, ip, now, token)]);
            var (t, rc) := NdsctlDeauth(cfg, u, u, ip, now, token);
            && |u.clients| == 2 && u.clients[1].ip == ip && ByAny(u.clients, ip) == 1
            && rc == 0 && Ceases(cfg, u.clients, t.clients, 0) && u.clients[1].state == PREAUTHENTICATED
  {
    var u := Run(cfg, s, [Load(Parsed(Export([c])), now, rnd), Add(mac, ip, now, token)]);
    ImportThenAdd(cfg, s, c, mac, ip, now, token, rnd);
    hide Run, Agrees, StartState, Export;
    FirstIs(u.clients, ByToken(ip), 2);
    FirstIs(u.clients, ByIp(ip), 1);
    FirstIs(u.clients, ById(c.id), 0);
    hide First, DeauthById;
    DeauthByIdExactly(cfg, u, c.id, now, token);
  }

  /** A state file with one preauthenticated record whose id the counter reaches next: the client that
      comes in and presents its token stays out, and the imported record is authenticated. */
  lemma {:induction false} WrongRecordExample(cfg: Config, s: State, c: Client, mac: string, ip: string, token: string,
                                              now: int, rnd: nat -> string)
    requires ValidMarks(cfg) && s.clients == [] && cfg.maxClients >= 2
    requires OUT in s.fw && INC in s.fw && Agrees(cfg, s, c) && c.id == s.nextId + 1 && c.state == PREAUTHENTICATED
    requires cfg.validMac(mac) && cfg.validIp(ip) && (mac != c.mac || ip != c.ip)
    requires StartState(cfg, s, mac) == PREAUTHENTICATED
    ensures var steps := [Load(Parsed(Export([c])), now, rnd), Add(mac, ip, now, token), Http(mac, ip, token, 0, 0, 0, now)];
            var t := Run(cfg, s, steps);
            && |t.clients| == 2 && t.clients[0] == c.(state := cfg.authMark)
            && t.clients[1].mac == mac && t.clients[1].ip == ip && t.clients[1].state == PREAUTHENTICATED
  {
    var load, add, http := Load(Parsed(Export([c])), now, rnd), Add(mac, ip, now, token), Http(mac, ip, token, 0, 0, 0, now);
    var u := Run(cfg, s, [load, add]);
    ImportThenAdd(cfg, s, c, mac, ip, now, token, rnd);
    RunSnoc(cfg, s, [load, add], http);
    assert [load, add] + [http] == [load, add, http];
    hide Run, Agrees, StartState, Export;
    var d := u.clients[1];
    FirstIs(u.clients, ByPair(mac, ip), 1);
    FirstIs(u.clients, ById(d.id), 0);
    hide First, AuthById;
    AuthByIdExactly(cfg, u, d.id, now);
  }

  // ---------------------------------------------------------------- ids after a startup import

  /** A new client gets the id of a listed record. */
  predicate Clashes(cfg: Config, s: State, step: Step) {
    step.Add? && Runs.Next(cfg, s, step) != s && First(s.clients, ById(s.nextId)) < |s.clients|
  }

  /** No id that the counter hands out during the run is that of a record listed at that moment. */
  predicate ClashFree(cfg: Config, s: State, steps: seq<Step>)
    decreases |steps|
  {
    steps == [] || (!Clashes(cfg, s, steps[0]) && ClashFree(cfg, Runs.Next(cfg, s, steps[0]), steps[1..]))
  }

  /** Ids are distinct in every state of the run. */
  predicate AlwaysDistinct(cfg: Config, s: State, steps: seq<Step>)
    decreases |steps|
  {
    DistinctIds(s.clients) && (steps == [] || AlwaysDistinct(cfg, Runs.Next(cfg, s, steps[0]), steps[1..]))
  }

  lemma {:induction false} StepDistinctExactly(cfg: Config, s: State, step: Step)
    requires ValidMarks(cfg) && DistinctIds(s.clients) && !step.Load?
    ensures DistinctIds(Runs.Next(cfg, s, step).clients) <==> !Clashes(cfg, s, step)
  {
    hide DistinctIds, AddClient, First;
    if step.Add? {
      if Runs.Next(cfg, s, step) != s {
        AddKeepsIdsExactly(cfg, s, step.mac, step.ip, step.now, step.token);
      }
    } else {
      StepEvolves(cfg, s, step);
      hide Runs.Next;
    }
  }

  lemma {:induction false} RunDistinctExactly(cfg: Config, s: State, steps: seq<Step>)
    requires ValidMarks(cfg) && DistinctIds(s.clients) && forall i :: 0 <= i < |steps| ==> !steps[i].Load?
    ensures AlwaysDistinct(cfg, s, steps) <==> ClashFree(cfg, s, steps)
    decreases |steps|
  {
    hide DistinctIds, Runs.Next, Clashes;
    if steps != [] {
      var t := Runs.Next(cfg, s, steps[0]);
      StepDistinctExactly(cfg, s, steps[0]);
      if DistinctIds(t.clients) {
        RunDistinctExactly(cfg, t, steps[1..]);
      } else {
        NotDistinct(cfg, t, steps[1..]);
      }
    }
  }

  lemma {:induction false} NotDistinct(cfg: Config, s: State, steps: seq<Step>)
    requires !DistinctIds(s.clients)
    ensures !AlwaysDistinct(cfg, s, steps)
  {
    hide DistinctIds, Runs.Next;
  }

  lemma {:induction false} ImportClientDistinct(cfg: Config, s: State, j: Json, now: int, token: string)
    requires ValidMarks(cfg) && DistinctIds(s.clients) && ImportClient(cfg, s, j, now, token).1 == 0
    ensures DistinctIds(ImportClient(cfg, s, j, now, token).0.clients)
  {
    hide DistinctIds, AddClient, NewClient, First, Fill, ChangeState, GetString, GetInt, Wrap32, Uint64, StartState, Evolves;
    var mac, ip, id := GetString(j, KMac), GetString(j, KIp), GetInt(j, KId);
    AddedAtTheEnd(cfg, s, mac.value, ip.value, now, token);
    var (t, k) := AddClient(cfg, s, mac.value, ip.value, now, token);
    var (c, state) := Fill(t.clients[k.value], j);
    var u := t.(clients := t.clients[k.value := c]);
    FilledIdentity(t.clients[k.value], j);
    assert u.clients == s.clients + [c];
    DistinctAppend(s.clients, c);
    ChangeStateEvolves(cfg, u, k.value, state.value, now, token);
    assert DistinctIds(ChangeState(cfg, u, k.value, state.value, now, token).0.clients) by {
      EvolvesDistinct(cfg, u.clients, ChangeState(cfg, u, k.value, state.value, now, token).0.clients);
    }
  }

  lemma {:induction false} EvolvesDistinct(cfg: Config, cs: seq<Client>, ds: seq<Client>)
    requires Evolves(cfg, cs, ds) && DistinctIds(cs)
    ensures DistinctIds(ds)
  {
    hide DistinctIds;
  }

  lemma {:induction false} DistinctAppend(cs: seq<Client>, c: Client)
    requires DistinctIds(cs) && First(cs, ById(c.id)) == |cs|
    ensures DistinctIds(cs + [c])
  {
    assert forall i :: 0 <= i < |cs| ==> !ById(c.id)(cs[i]);
  }

  lemma {:induction false} ImportAllDistinct(cfg: Config, s: State, elems: seq<Json>, rc: int, now: int, rnd: nat -> string, i: nat)
    requires ValidMarks(cfg) && DistinctIds(s.clients)
    ensures var (t, r) := ImportAll(cfg, s, elems, rc, now, rnd, i); r >= 0 ==> DistinctIds(t.clients)
    decreases |elems|
  {
    hide DistinctIds, ImportClient;
    if elems != [] && elems[0].JsonObject? {
      var (t, r) := ImportClient(cfg, s, elems[0], now, rnd(i));
      if r == 0 {
        ImportClientDistinct(cfg, s, elems[0], now, rnd(i));
        ImportAllDistinct(cfg, t, elems[1..], 0, now, rnd, i + 1);
      }
    }
  }

  lemma {:induction false} StartupDistinct(cfg: Config, s: State, f: File, now: int, rnd: nat -> string)
    requires ValidMarks(cfg) && DistinctIds(s.clients)
    ensures DistinctIds(Startup(cfg, s, f, now, rnd).clients)
  {
    hide ImportAll;
    if f.Parsed? && f.top.JsonObject? && KClients in f.top.fields && f.top.fields[KClients].JsonArray? {
      ImportAllDistinct(cfg, s, f.top.fields[KClients].elems, -EINVAL, now, rnd, 0);
    }
  }

  /** Whatever file is loaded at startup: ids are distinct in every state of the run that follows if
      and only if the counter never hands out the id of a record listed at that moment. */
  lemma {:induction false} IdsAfterStartup(cfg: Config, s: State, f: File, now: int, rnd: nat -> string, steps: seq<Step>)
    requires ValidMarks(cfg) && s.clients == [] && forall i :: 0 <= i < |steps| ==> !steps[i].Load?
    ensures var t := Runs.Next(cfg, s, Load(f, now, rnd));
            AlwaysDistinct(cfg, t, steps) <==> ClashFree(cfg, t, steps)
  {
    hide AlwaysDistinct, ClashFree, Startup;
    StartupDistinct(cfg, s, f, now, rnd);
    RunDistinctExactly(cfg, Startup(cfg, s, f, now, rnd), steps);
  }

  function Adds(steps: seq<Step>): (n: nat) {
    if steps == [] then 0 else (if steps[0].Add? then 1 else 0) + Adds(steps[1..])
  }

  /** Every listed id has been handed out, or is beyond the next `n`. */
  predicate OutOfReach(s: State, n: nat) {
    forall i :: 0 <= i < |s.clients| ==> s.clients[i].id < s.nextId || s.nextId + n <= s.clients[i].id
  }

  /** That is so, for one, when every listed id has been handed out or lies beyond all that the run can
      hand out. */
  lemma {:induction false} FarIdsNeverClash(cfg: Config, s: State, steps: seq<Step>)
    requires ValidMarks(cfg) && OutOfReach(s, Adds(steps)) && forall i :: 0 <= i < |steps| ==> !steps[i].Load?
    ensures ClashFree(cfg, s, steps)
    decreases |steps|
  {
    hide Runs.Next, Clashes;
    if steps != [] {
      var n := Adds(steps[1..]);
      StepOutOfReach(cfg, s, steps[0], n);
      FarIdsNeverClash(cfg, Runs.Next(cfg, s, steps[0]), steps[1..]);
    }
  }

  lemma {:induction false} StepOutOfReach(cfg: Config, s: State, step: Step, n: nat)
    requires ValidMarks(cfg) && !step.Load? && OutOfReach(s, n + if step.Add? then 1 else 0)
    ensures !Clashes(cfg, s, step) && OutOfReach(Runs.Next(cfg, s, step), n)
  {
    if step.Add? {
      hide AddClient, NewClient;
      assert First(s.clients, ById(s.nextId)) == |s.clients| by { FirstIs(s.clients, ById(s.nextId), |s.clients|); }
      hide First;
      AddClientCases(cfg, s, step.mac, step.ip, step.now, step.token);
      NewClientId(cfg, s, step.mac, step.ip, step.now, step.token);
    } else {
      var t := Runs.Next(cfg, s, step);
      assert t.nextId == s.nextId by {
        if step.MacOff? {
          RemoveMacCounter(cfg, s, step.list, step.mac);
          hide RemoveMac;
        } else {
          StepFramed(cfg, s, step);
        }
      }
      hide Runs.Next, Final;
      StepEvolves(cfg, s, step);
      forall j | 0 <= j < |t.clients| ensures t.clients[j].id < t.nextId || t.nextId + n <= t.clients[j].id {
        assert HasEarlier(cfg, s.clients, t.clients[j]);
      }
    }
  }

  lemma {:induction false} NewClientId(cfg: Config, s: State, mac: string, ip: string, now: int, token: string)
    ensures NewClient(cfg, s, mac, ip, now, token).id == s.nextId
  {
  }

  lemma {:induction false} FewerAdds(s: State, n: nat)
    requires forall i :: 0 <= i < |s.clients| ==> s.clients[i].id < s.nextId
    ensures OutOfReach(s, n)
  {
  }

  /** If all listed ids are below the counter, ids stay distinct in every run. */
  lemma {:induction false} LowIdsNeverClash(cfg: Config, s: State, steps: seq<Step>)
    requires ValidMarks(cfg) && DistinctIds(s.clients) && forall i :: 0 <= i < |s.clients| ==> s.clients[i].id < s.nextId
    requires forall i :: 0 <= i < |steps| ==> !steps[i].Load?
    ensures AlwaysDistinct(cfg, s, steps)
  {
    hide AlwaysDistinct, ClashFree, OutOfReach, DistinctIds;
    FewerAdds(s, Adds(steps));
    FarIdsNeverClash(cfg, s, steps);
    RunDistinctExactly(cfg, s, steps);
  }

  function AddSteps(pairs: seq<(string, string)>, now: int, token: string): (r: seq<Step>) {
    if pairs == [] then [] else [Add(pairs[0].0, pairs[0].1, now, token)] + AddSteps(pairs[1..], now, token)
  }

  /** Clients that can come in: valid, new, and of different pairs. */
  predicate Newcomers(cfg: Config, cs: seq<Client>, pairs: seq<(string, string)>) {
    && (forall i :: 0 <= i < |pairs| ==> cfg.validMac(pairs[i].0) && cfg.validIp(pairs[i].1))
    && (forall i, j :: 0 <= i < j < |pairs| ==> pairs[i] != pairs[j])
    && (forall i, j :: 0 <= i < |pairs| && 0 <= j < |cs| ==> pairs[i] != (cs[j].mac, cs[j].ip))
  }

  /** Otherwise, with as many newcomers as the counter is short of some listed id, and room for them,
      there is a run in which ids repeat: they all come in. */
  lemma {:induction false} HighIdClashes(cfg: Config, s: State, k: nat, pairs: seq<(string, string)>, now: int, token: string)
    requires ValidMarks(cfg) && k < |s.clients| && s.nextId <= s.clients[k].id
    requires |pairs| == s.clients[k].id - s.nextId + 1 && |s.clients| + |pairs| <= cfg.maxClients
    requires Newcomers(cfg, s.clients, pairs)
    ensures !AlwaysDistinct(cfg, s, AddSteps(pairs, now, token))
    decreases |pairs|
  {
    hide AddClient, DistinctIds;
    var step, steps := Add(pairs[0].0, pairs[0].1, now, token), AddSteps(pairs, now, token);
    var t := Runs.Next(cfg, s, step);
    assert steps[0] == step && steps[1..] == AddSteps(pairs[1..], now, token);
    NewcomerIn(cfg, s, pairs, now, token);
    if s.clients[k].id == s.nextId {
      TwoAlike(t.clients, k, |s.clients|);
    } else {
      HighIdClashes(cfg, t, k, pairs[1..], now, token);
    }
  }

  lemma {:induction false} TwoAlike(cs: seq<Client>, i: nat, j: nat)
    requires i < j < |cs| && cs[i].id == cs[j].id
    ensures !DistinctIds(cs)
  {
  }

  lemma {:induction false} NewcomerIn(cfg: Config, s: State, pairs: seq<(string, string)>, now: int, token: string)
    requires pairs != [] && Newcomers(cfg, s.clients, pairs) && |s.clients| < cfg.maxClients
    ensures var t := AddClient(cfg, s, pairs[0].0, pairs[0].1, now, token).0;
            && |t.clients| == |s.clients| + 1 && s.clients <= t.clients && t.clients[|s.clients|].id == s.nextId
            && t.nextId == s.nextId + 1 && Newcomers(cfg, t.clients, pairs[1..])
  {
    hide StartState;
    var (mac, ip) := pairs[0];
    FirstIs(s.clients, ByPair(mac, ip), |s.clients|);
    hide First;
  }
}
