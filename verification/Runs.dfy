/** Whole runs of the daemon: any sequence of the steps that its HTTP, timeout and control threads
    take, each of them atomic, and what holds in every state they reach. */
module Runs {
  import opened Iptables
  import opened Configuration
  import opened Session
  import opened Mirror
  import opened StateFile

  datatype Step =
    | Add(mac: string, ip: string, now: int, token: string)
    | Http(mac: string, ip: string, token: string, seconds: nat, upload: nat, download: nat, now: int)
    | Auth(id: nat, now: int)
    | Deauth(id: nat, now: int, token: string)
    | MacOn(list: MacList, mac: string)
    | MacOff(list: MacList, mac: string)
    | Count(out: seq<(string, nat)>, inc: seq<(string, nat)>, now: int)
    | Refresh(now: int, rnd: nat -> string)
    | DeauthEveryone(now: int, rnd: nat -> string)
    | Load(file: File, now: int, rnd: nat -> string)

  function Next(cfg: Config, s: State, step: Step): (t: State) {
    match step
    case Add(mac, ip, now, token) => AddClient(cfg, s, mac, ip, now, token).0
    case Http(mac, ip, token, seconds, upload, download, now) =>
      HttpAuth(cfg, s, mac, ip, token, seconds, upload, download, now)
    case Auth(id, now) => AuthById(cfg, s, id, now).0
    case Deauth(id, now, token) => DeauthById(cfg, s, id, now, token).0
    case MacOn(l, mac) => AddMac(cfg, s, l, mac).0
    case MacOff(l, mac) => RemoveMac(cfg, s, l, mac).0
    case Count(out, inc, now) => s.(clients := Counters(s.clients, out, inc, now))
    case Refresh(now, rnd) => Sweep(cfg, s, 0, now, rnd, 0)
    case DeauthEveryone(now, rnd) => DeauthAll(cfg, s, 0, now, rnd)
    case Load(file, now, rnd) => Startup(cfg, s, file, now, rnd)
  }

  function Run(cfg: Config, s: State, steps: seq<Step>): (t: State)
    decreases |steps|
  {
    if steps == [] then s else Run(cfg, Next(cfg, s, steps[0]), steps[1..])
  }

  // ---------------------------------------------------------------- agreement

  /** The state after initialisation, over the tables the initialisation leaves. */
  function Initial(fw0: Tables, trusted: seq<string>, blocked: seq<string>, allowed: seq<string>): (s: State) {
    State([], 1, trusted, blocked, allowed, fw0, 0)
  }

  predicate Initialised(cfg: Config, fw0: Tables, trusted: seq<string>, blocked: seq<string>, allowed: seq<string>) {
    && OUT in fw0 && INC in fw0 && TRU in fw0 && BLK in fw0
    && fw0[OUT] == [] && fw0[INC] == []
    && fw0[TRU] == InitialTru(cfg, trusted)
    && fw0[BLK] == InitialBlk(cfg, blocked, allowed)
    && NoDuplicates(trusted) && NoDuplicates(blocked) && NoDuplicates(allowed)
  }

  lemma {:induction false} InitialAgrees(cfg: Config, fw0: Tables, trusted: seq<string>, blocked: seq<string>, allowed: seq<string>)
    requires Initialised(cfg, fw0, trusted, blocked, allowed)
    ensures Inv(cfg, fw0, Initial(fw0, trusted, blocked, allowed))
  {
    hide MacRules, Reversed, CatchAll, NoDuplicates;
    var rev := Reversed(MacRules(cfg, AllowedList, allowed));
    ReversedBag(MacRules(cfg, AllowedList, allowed));
    assert (rev + [CatchAll(cfg)])[..|rev|] == rev;
  }

  lemma {:induction false} StepAgrees(cfg: Config, fw0: Tables, s: State, step: Step)
    requires Inv(cfg, fw0, s) && ValidMarks(cfg)
    ensures Inv(cfg, fw0, Next(cfg, s, step))
  {
    hide Inv, AddClient, HttpAuth, AuthById, DeauthById, AddMac, RemoveMac, Counters, Sweep, DeauthAll, Startup;
    match step
    case Add(mac, ip, now, token) => AddClientKeeps(cfg, fw0, s, mac, ip, now, token);
    case Http(mac, ip, token, seconds, upload, download, now) =>
      HttpAuthKeeps(cfg, fw0, s, mac, ip, token, seconds, upload, download, now);
    case Auth(id, now) => AuthByIdKeeps(cfg, fw0, s, id, now);
    case Deauth(id, now, token) => DeauthByIdKeeps(cfg, fw0, s, id, now, token);
    case MacOn(l, mac) => AddMacKeeps(cfg, fw0, s, l, mac);
    case MacOff(l, mac) => RemoveMacKeeps(cfg, fw0, s, l, mac);
    case Count(out, inc, now) => CountersKeep(cfg, fw0, s, out, inc, now);
    case Refresh(now, rnd) => SweepKeeps(cfg, fw0, s, 0, now, rnd, 0);
    case DeauthEveryone(now, rnd) => DeauthAllKeeps(cfg, fw0, s, 0, now, rnd);
    case Load(file, now, rnd) => StartupKeeps(cfg, fw0, s, file, now, rnd);
  }

  /** In every state of every run the access rules are exactly those of the authenticated clients and
      the marking rules exactly those of the MAC lists, no pair repeats, and the list stays within
      its capacity. */
  lemma {:induction false} RunAgrees(cfg: Config, fw0: Tables, s: State, steps: seq<Step>)
    requires Inv(cfg, fw0, s) && ValidMarks(cfg)
    ensures Inv(cfg, fw0, Run(cfg, s, steps))
    decreases |steps|
  {
    hide Inv, Next;
    if steps != [] {
      StepAgrees(cfg, fw0, s, steps[0]);
      RunAgrees(cfg, fw0, Next(cfg, s, steps[0]), steps[1..]);
    }
  }

  lemma {:induction false} EveryRunAgrees(cfg: Config, fw0: Tables, trusted: seq<string>, blocked: seq<string>, allowed: seq<string>,
                       steps: seq<Step>)
    requires Initialised(cfg, fw0, trusted, blocked, allowed) && ValidMarks(cfg)
    ensures Inv(cfg, fw0, Run(cfg, Initial(fw0, trusted, blocked, allowed), steps))
  {
    hide Inv, Run, Initialised;
    InitialAgrees(cfg, fw0, trusted, blocked, allowed);
    RunAgrees(cfg, fw0, Initial(fw0, trusted, blocked, allowed), steps);
  }

  // ---------------------------------------------------------------- how records evolve

  /** States that no transition leaves. */
  predicate Final(cfg: Config, m: Mark) {
    m == cfg.blockedMark || m == cfg.trustedMark
  }

  /** `d` is `c` at a later time. */
  predicate Later(cfg: Config, c: Client, d: Client) {
    && d.id == c.id && d.mac == c.mac && d.ip == c.ip
    && (Final(cfg, c.state) ==> d.state == c.state)
  }

  predicate HasEarlier(cfg: Config, cs: seq<Client>, d: Client) {
    exists i :: 0 <= i < |cs| && Later(cfg, cs[i], d)
  }

  predicate HasLater(cfg: Config, c: Client, ds: seq<Client>) {
    exists j :: 0 <= j < |ds| && Later(cfg, c, ds[j])
  }

  /** No record is new, no final record is lost, and ids stay distinct if they were. */
  predicate Evolves(cfg: Config, cs: seq<Client>, ds: seq<Client>) {
    && (forall j :: 0 <= j < |ds| ==> HasEarlier(cfg, cs, ds[j]))
    && (forall i :: 0 <= i < |cs| && Final(cfg, cs[i].state) ==> HasLater(cfg, cs[i], ds))
    && (DistinctIds(cs) ==> DistinctIds(ds))
  }

  lemma {:induction false} EvolvesSame(cfg: Config, cs: seq<Client>)
    ensures Evolves(cfg, cs, cs)
  {
    forall i | 0 <= i < |cs| ensures HasEarlier(cfg, cs, cs[i]) && HasLater(cfg, cs[i], cs) {
      assert Later(cfg, cs[i], cs[i]);
    }
  }

  lemma {:induction false} EvolvesTrans(cfg: Config, a: seq<Client>, b: seq<Client>, c: seq<Client>)
    requires Evolves(cfg, a, b) && Evolves(cfg, b, c)
    ensures Evolves(cfg, a, c)
  {
    hide DistinctIds;
    forall j | 0 <= j < |c| ensures HasEarlier(cfg, a, c[j]) {
      assert HasEarlier(cfg, b, c[j]);
      var k :| 0 <= k < |b| && Later(cfg, b[k], c[j]);
      assert HasEarlier(cfg, a, b[k]);
      var i :| 0 <= i < |a| && Later(cfg, a[i], b[k]);
      assert Later(cfg, a[i], c[j]);
    }
    forall i | 0 <= i < |a| && Final(cfg, a[i].state) ensures HasLater(cfg, a[i], c) {
      assert HasLater(cfg, a[i], b);
      var k :| 0 <= k < |b| && Later(cfg, a[i], b[k]);
      assert HasLater(cfg, b[k], c);
      var j :| 0 <= j < |c| && Later(cfg, b[k], c[j]);
      assert Later(cfg, a[i], c[j]);
    }
  }

  lemma {:induction false} EvolvesUpdate(cfg: Config, cs: seq<Client>, k: nat, d: Client)
    requires k < |cs| && Later(cfg, cs[k], d)
    ensures Evolves(cfg, cs, cs[k := d])
  {
    var ds := cs[k := d];
    assert DistinctIds(cs) ==> DistinctIds(ds) by {
      assert forall i :: 0 <= i < |cs| ==> ds[i].id == cs[i].id;
    }
    hide DistinctIds;
    forall i | 0 <= i < |cs| ensures HasEarlier(cfg, cs, ds[i]) && HasLater(cfg, cs[i], ds) {
      assert Later(cfg, cs[i], ds[i]);
    }
  }

  lemma {:induction false} EvolvesRemove(cfg: Config, cs: seq<Client>, k: nat)
    requires k < |cs| && !Final(cfg, cs[k].state)
    ensures Evolves(cfg, cs, RemoveAt(cs, k))
  {
    var ds := RemoveAt(cs, k);
    forall j | 0 <= j < |ds| ensures HasEarlier(cfg, cs, ds[j]) {
      assert Later(cfg, cs[if j < k then j else j + 1], ds[j]);
    }
    forall i | 0 <= i < |cs| && Final(cfg, cs[i].state) ensures HasLater(cfg, cs[i], ds) {
      assert Later(cfg, cs[i], ds[if i < k then i else i - 1]);
    }
  }

  lemma {:induction false} ChangeStateEvolves(cfg: Config, s: State, k: nat, to: Mark, now: int, token: string)
    requires ValidMarks(cfg) && k < |s.clients|
    ensures Evolves(cfg, s.clients, ChangeState(cfg, s, k, to, now, token).0.clients)
  {
    EvolvesSame(cfg, s.clients);
    hide Evolves, FwAuthenticate, FwDeauthenticate, AddMac;
    var c := s.clients[k];
    if c.state == PREAUTHENTICATED && to == cfg.authMark {
      EvolvesUpdate(cfg, s.clients, k, c.(state := to));
    } else if c.state == cfg.authMark && to == PREAUTHENTICATED {
      EvolvesUpdate(cfg, s.clients, k, ResetClient(c, now, token).(state := to));
    } else if c.state == cfg.authMark && to == cfg.blockedMark {
      EvolvesRemove(cfg, s.clients, k);
    }
  }

  lemma {:induction false} AuthByIdEvolves(cfg: Config, s: State, id: nat, now: int)
    requires ValidMarks(cfg)
    ensures Evolves(cfg, s.clients, AuthById(cfg, s, id, now).0.clients)
  {
    EvolvesSame(cfg, s.clients);
    hide Evolves, ChangeState;
    var k := First(s.clients, ById(id));
    if k < |s.clients| { ChangeStateEvolves(cfg, s, k, cfg.authMark, now, ""); }
  }

  lemma {:induction false} DeauthByIdEvolves(cfg: Config, s: State, id: nat, now: int, token: string)
    requires ValidMarks(cfg)
    ensures Evolves(cfg, s.clients, DeauthById(cfg, s, id, now, token).0.clients)
  {
    EvolvesSame(cfg, s.clients);
    hide Evolves, ChangeState;
    var k := First(s.clients, ById(id));
    if k < |s.clients| { ChangeStateEvolves(cfg, s, k, PREAUTHENTICATED, now, token); }
  }

  lemma {:induction false} HttpAuthEvolves(cfg: Config, s: State, mac: string, ip: string, token: string,
                        seconds: nat, upload: nat, download: nat, now: int)
    requires ValidMarks(cfg)
    ensures Evolves(cfg, s.clients, HttpAuth(cfg, s, mac, ip, token, seconds, upload, download, now).clients)
  {
    EvolvesSame(cfg, s.clients);
    hide Evolves, AuthById;
    var k := First(s.clients, ByPair(mac, ip));
    if k < |s.clients| {
      AuthByIdEvolves(cfg, s, s.clients[k].id, now);
      var t := AuthById(cfg, s, s.clients[k].id, now).0;
      var d := t.clients[k].(downloadLimit := download, uploadLimit := upload, sessionStart := now,
        sessionEnd := if seconds > 0 then now + seconds else 0);
      EvolvesUpdate(cfg, t.clients, k, d);
      EvolvesTrans(cfg, s.clients, t.clients, t.clients[k := d]);
    }
  }

  lemma {:induction false} CountersEvolve(cfg: Config, cs: seq<Client>, out: seq<(string, nat)>, inc: seq<(string, nat)>, now: int)
    ensures Evolves(cfg, cs, Counters(cs, out, inc, now))
    decreases |out| + |inc|
  {
    EvolvesSame(cfg, cs);
    hide Evolves;
    if out != [] {
      var k := First(cs, ByIp(out[0].0));
      var ds := CountOutgoing(cs, out[0].0, out[0].1, now);
      if ds != cs { EvolvesUpdate(cfg, cs, k, cs[k].(outgoing := out[0].1, lastUpdated := now)); }
      CountersEvolve(cfg, ds, out[1..], inc, now);
      EvolvesTrans(cfg, cs, ds, Counters(ds, out[1..], inc, now));
    } else if inc != [] {
      var k := First(cs, ByIp(inc[0].0));
      var ds := CountIncoming(cs, inc[0].0, inc[0].1);
      if ds != cs { EvolvesUpdate(cfg, cs, k, cs[k].(incoming := inc[0].1)); }
      CountersEvolve(cfg, ds, [], inc[1..], now);
      EvolvesTrans(cfg, cs, ds, Counters(ds, [], inc[1..], now));
    }
  }

  lemma {:induction false} SweepEvolves(cfg: Config, s: State, i: nat, now: int, rnd: nat -> string, visit: nat)
    requires ValidMarks(cfg) && i <= |s.clients|
    ensures Evolves(cfg, s.clients, Sweep(cfg, s, i, now, rnd, visit).clients)
    decreases |s.clients| - i
  {
    EvolvesSame(cfg, s.clients);
    hide Evolves, SweepAt;
    if i < |s.clients| {
      var k := First(s.clients, ById(s.clients[i].id));
      var t := SweepAt(cfg, s, k, now, rnd(visit));
      SweepLength(cfg, s, k, now, rnd(visit));
      SweepAtEvolves(cfg, s, k, now, rnd(visit));
      var i' := if |t.clients| < |s.clients| then i else i + 1;
      SweepEvolves(cfg, t, i', now, rnd, visit + 1);
      EvolvesTrans(cfg, s.clients, t.clients, Sweep(cfg, t, i', now, rnd, visit + 1).clients);
    }
  }

  lemma {:induction false} SweepAtEvolves(cfg: Config, s: State, k: nat, now: int, token: string)
    requires ValidMarks(cfg) && k < |s.clients|
    ensures Evolves(cfg, s.clients, SweepAt(cfg, s, k, now, token).clients)
  {
    EvolvesSame(cfg, s.clients);
    hide Evolves, ChangeState;
    match Decide(cfg, s.clients[k], now)
    case Keep =>
    case Discard => EvolvesRemove(cfg, s.clients, k);
    case ToState(to) => ChangeStateEvolves(cfg, s, k, to, now, token);
  }

  lemma {:induction false} DeauthAllEvolves(cfg: Config, s: State, i: nat, now: int, rnd: nat -> string)
    requires ValidMarks(cfg) && i <= |s.clients|
    ensures Evolves(cfg, s.clients, DeauthAll(cfg, s, i, now, rnd).clients)
    decreases |s.clients| - i
  {
    EvolvesSame(cfg, s.clients);
    hide Evolves, ChangeState;
    if i < |s.clients| {
      var k := First(s.clients, ById(s.clients[i].id));
      var t := ChangeState(cfg, s, k, PREAUTHENTICATED, now, rnd(i)).0;
      ChangeStateEvolves(cfg, s, k, PREAUTHENTICATED, now, rnd(i));
      DeauthAllEvolves(cfg, t, i + 1, now, rnd);
      EvolvesTrans(cfg, s.clients, t.clients, DeauthAll(cfg, t, i + 1, now, rnd).clients);
    }
  }

  lemma {:induction false} MacFrameClients(cfg: Config, s: State, l: MacList, mac: string)
    ensures AddMac(cfg, s, l, mac).0.clients == s.clients
    ensures RemoveMac(cfg, s, l, mac).0.clients == s.clients
  {
    hide Exec, Accepted, FirstMac;
  }

  /** Every step but adding a client and loading the state file only lets records evolve. */
  lemma {:induction false} StepEvolves(cfg: Config, s: State, step: Step)
    requires ValidMarks(cfg) && !step.Add? && !step.Load?
    ensures Evolves(cfg, s.clients, Next(cfg, s, step).clients)
  {
    EvolvesSame(cfg, s.clients);
    hide Evolves, HttpAuth, AuthById, DeauthById, AddMac, RemoveMac, Counters, Sweep, DeauthAll;
    match step
    case Http(mac, ip, token, seconds, upload, download, now) =>
      HttpAuthEvolves(cfg, s, mac, ip, token, seconds, upload, download, now);
    case Auth(id, now) => AuthByIdEvolves(cfg, s, id, now);
    case Deauth(id, now, token) => DeauthByIdEvolves(cfg, s, id, now, token);
    case MacOn(l, mac) => MacFrameClients(cfg, s, l, mac);
    case MacOff(l, mac) => MacFrameClients(cfg, s, l, mac);
    case Count(out, inc, now) => CountersEvolve(cfg, s.clients, out, inc, now);
    case Refresh(now, rnd) => SweepEvolves(cfg, s, 0, now, rnd, 0);
    case DeauthEveryone(now, rnd) => DeauthAllEvolves(cfg, s, 0, now, rnd);
  }

  // ---------------------------------------------------------------- ids

  /** Ids are distinct, nonzero and below the counter. */
  predicate IdsSound(s: State) {
    && DistinctIds(s.clients) && 0 < s.nextId
    && forall i :: 0 <= i < |s.clients| ==> 0 < s.clients[i].id < s.nextId
  }

  /** Every later record with an id that had been given out is the record that had it. */
  predicate NeverReused(cfg: Config, s: State, t: State) {
    && s.nextId <= t.nextId
    && forall j :: 0 <= j < |t.clients| && t.clients[j].id < s.nextId ==> HasEarlier(cfg, s.clients, t.clients[j])
  }

  /** The id counter stays, and a MAC address on the blocked list stays there. */
  predicate Framed(s: State, t: State) {
    && t.nextId == s.nextId
    && forall mac :: mac in s.blocked ==> mac in t.blocked
  }

  lemma {:induction false} ChangeStateFramed(cfg: Config, s: State, k: nat, to: Mark, now: int, token: string)
    requires k < |s.clients|
    ensures Framed(s, ChangeState(cfg, s, k, to, now, token).0)
  {
    hide Exec, Accepted, FwAuthenticate, FwDeauthenticate, FirstMac;
  }

  lemma {:induction false} AuthByIdFramed(cfg: Config, s: State, id: nat, now: int)
    ensures Framed(s, AuthById(cfg, s, id, now).0)
  {
    hide ChangeState;
    var k := First(s.clients, ById(id));
    if k < |s.clients| { ChangeStateFramed(cfg, s, k, cfg.authMark, now, ""); }
  }

  lemma {:induction false} DeauthByIdFramed(cfg: Config, s: State, id: nat, now: int, token: string)
    ensures Framed(s, DeauthById(cfg, s, id, now, token).0)
  {
    hide ChangeState;
    var k := First(s.clients, ById(id));
    if k < |s.clients| { ChangeStateFramed(cfg, s, k, PREAUTHENTICATED, now, token); }
  }

  lemma {:induction false} HttpAuthFramed(cfg: Config, s: State, mac: string, ip: string, token: string,
                       seconds: nat, upload: nat, download: nat, now: int)
    ensures Framed(s, HttpAuth(cfg, s, mac, ip, token, seconds, upload, download, now))
  {
    hide AuthById;
    var k := First(s.clients, ByPair(mac, ip));
    if k < |s.clients| { AuthByIdFramed(cfg, s, s.clients[k].id, now); }
  }

  lemma {:induction false} SweepAtFramed(cfg: Config, s: State, k: nat, now: int, token: string)
    requires k < |s.clients|
    ensures Framed(s, SweepAt(cfg, s, k, now, token))
  {
    hide ChangeState;
    var d := Decide(cfg, s.clients[k], now);
    if d.ToState? { ChangeStateFramed(cfg, s, k, d.to, now, token); }
  }

  lemma {:induction false} SweepFramed(cfg: Config, s: State, i: nat, now: int, rnd: nat -> string, visit: nat)
    requires i <= |s.clients|
    ensures Framed(s, Sweep(cfg, s, i, now, rnd, visit))
    decreases |s.clients| - i
  {
    hide SweepAt;
    if i < |s.clients| {
      var k := First(s.clients, ById(s.clients[i].id));
      var t := SweepAt(cfg, s, k, now, rnd(visit));
      SweepLength(cfg, s, k, now, rnd(visit));
      SweepAtFramed(cfg, s, k, now, rnd(visit));
      SweepFramed(cfg, t, if |t.clients| < |s.clients| then i else i + 1, now, rnd, visit + 1);
    }
  }

  lemma {:induction false} DeauthAllFramed(cfg: Config, s: State, i: nat, now: int, rnd: nat -> string)
    requires i <= |s.clients|
    ensures Framed(s, DeauthAll(cfg, s, i, now, rnd))
    decreases |s.clients| - i
  {
    hide ChangeState;
    if i < |s.clients| {
      var k := First(s.clients, ById(s.clients[i].id));
      ChangeStateFramed(cfg, s, k, PREAUTHENTICATED, now, rnd(i));
      DeauthAllFramed(cfg, ChangeState(cfg, s, k, PREAUTHENTICATED, now, rnd(i)).0, i + 1, now, rnd);
    }
  }

  lemma {:induction false} AddMacFramed(cfg: Config, s: State, l: MacList, mac: string)
    ensures Framed(s, AddMac(cfg, s, l, mac).0)
  {
    hide Exec, Accepted, FirstMac;
  }

  /** Only adding a client and loading the state file move the id counter, and only unblocking takes a
      MAC address off the blocked list. */
  lemma {:induction false} StepFramed(cfg: Config, s: State, step: Step)
    requires !step.Add? && !step.Load? && !step.MacOff?
    ensures Framed(s, Next(cfg, s, step))
  {
    hide HttpAuth, AuthById, DeauthById, AddMac, Counters, Sweep, DeauthAll;
    match step
    case Http(mac, ip, token, seconds, upload, download, now) =>
      HttpAuthFramed(cfg, s, mac, ip, token, seconds, upload, download, now);
    case Auth(id, now) => AuthByIdFramed(cfg, s, id, now);
    case Deauth(id, now, token) => DeauthByIdFramed(cfg, s, id, now, token);
    case MacOn(l, mac) => AddMacFramed(cfg, s, l, mac);
    case Count(out, inc, now) =>
    case Refresh(now, rnd) => SweepFramed(cfg, s, 0, now, rnd, 0);
    case DeauthEveryone(now, rnd) => DeauthAllFramed(cfg, s, 0, now, rnd);
  }

  lemma {:induction false} RemoveMacCounter(cfg: Config, s: State, l: MacList, mac: string)
    ensures RemoveMac(cfg, s, l, mac).0.nextId == s.nextId
  {
    hide Exec, Accepted, FirstMac;
  }

  lemma {:induction false} AddIds(cfg: Config, s: State, mac: string, ip: string, now: int, token: string)
    requires IdsSound(s)
    ensures var t := AddClient(cfg, s, mac, ip, now, token).0; IdsSound(t) && NeverReused(cfg, s, t)
  {
    var t := AddClient(cfg, s, mac, ip, now, token).0;
    EvolvesSame(cfg, s.clients);
    if t != s {
      AppendIds(cfg, s, t, NewClient(cfg, s, mac, ip, now, token));
    } else {
      hide AddClient;
      EvolvesIds(cfg, s, s);
    }
  }

  lemma {:induction false} AppendIds(cfg: Config, s: State, t: State, c: Client)
    requires IdsSound(s) && t.clients == s.clients + [c] && c.id == s.nextId && t.nextId == s.nextId + 1
    ensures IdsSound(t) && NeverReused(cfg, s, t)
  {
    hide Final;
    forall j | 0 <= j < |s.clients| ensures t.clients[j] == s.clients[j] && HasEarlier(cfg, s.clients, t.clients[j]) {
      assert Later(cfg, s.clients[j], t.clients[j]);
    }
  }

  lemma {:induction false} EvolvesIds(cfg: Config, s: State, t: State)
    requires IdsSound(s) && Evolves(cfg, s.clients, t.clients) && t.nextId == s.nextId
    ensures IdsSound(t) && NeverReused(cfg, s, t)
  {
    hide DistinctIds, Final;
    forall j | 0 <= j < |t.clients| ensures 0 < t.clients[j].id < t.nextId {
      assert HasEarlier(cfg, s.clients, t.clients[j]);
    }
  }

  lemma {:induction false} StepIds(cfg: Config, s: State, step: Step)
    requires ValidMarks(cfg) && IdsSound(s) && !step.Load?
    ensures IdsSound(Next(cfg, s, step)) && NeverReused(cfg, s, Next(cfg, s, step))
  {
    hide IdsSound, NeverReused, AddClient, Evolves;
    if step.Add? {
      AddIds(cfg, s, step.mac, step.ip, step.now, step.token);
    } else {
      StepEvolves(cfg, s, step);
      if step.MacOff? {
        RemoveMacCounter(cfg, s, step.list, step.mac);
        hide RemoveMac;
      } else {
        StepFramed(cfg, s, step);
        hide Next;
      }
      EvolvesIds(cfg, s, Next(cfg, s, step));
    }
  }

  lemma {:induction false} NeverReusedTrans(cfg: Config, a: State, b: State, c: State)
    requires NeverReused(cfg, a, b) && NeverReused(cfg, b, c)
    ensures NeverReused(cfg, a, c)
  {
    forall j | 0 <= j < |c.clients| && c.clients[j].id < a.nextId ensures HasEarlier(cfg, a.clients, c.clients[j]) {
      assert HasEarlier(cfg, b.clients, c.clients[j]);
      var k :| 0 <= k < |b.clients| && Later(cfg, b.clients[k], c.clients[j]);
      assert HasEarlier(cfg, a.clients, b.clients[k]);
      var i :| 0 <= i < |a.clients| && Later(cfg, a.clients[i], b.clients[k]);
      assert Later(cfg, a.clients[i], c.clients[j]);
    }
  }

  /** In every run without an import, ids stay distinct, nonzero and below the counter, and an id
      never comes to stand for another record. */
  lemma {:induction false} RunIds(cfg: Config, s: State, steps: seq<Step>)
    requires ValidMarks(cfg) && IdsSound(s)
    requires forall i :: 0 <= i < |steps| ==> !steps[i].Load?
    ensures IdsSound(Run(cfg, s, steps)) && NeverReused(cfg, s, Run(cfg, s, steps))
    decreases |steps|
  {
    EvolvesSame(cfg, s.clients);
    if steps != [] {
      hide Next, IdsSound, Final;
      var t := Next(cfg, s, steps[0]);
      StepIds(cfg, s, steps[0]);
      RunIds(cfg, t, steps[1..]);
      NeverReusedTrans(cfg, s, t, Run(cfg, t, steps[1..]));
    }
  }

  /** `ndsctl deauth` looks the client up under the lock, gives the lock up, and deauthenticates by
      id. Whatever happens in between, it fails or acts on the record it looked up. */
  lemma {:induction false} DeauthHitsTheClient(cfg: Config, s: State, k: nat, steps: seq<Step>, now: int, token: string)
    requires ValidMarks(cfg) && IdsSound(s) && k < |s.clients|
    requires forall i :: 0 <= i < |steps| ==> !steps[i].Load?
    ensures var t, id := Run(cfg, s, steps), s.clients[k].id;
            var j := First(t.clients, ById(id));
            if j == |t.clients| then DeauthById(cfg, t, id, now, token) == (t, -1)
            else t.clients[j].mac == s.clients[k].mac && t.clients[j].ip == s.clients[k].ip
                 && DeauthById(cfg, t, id, now, token) == ChangeState(cfg, t, j, PREAUTHENTICATED, now, token)
  {
    RunIds(cfg, s, steps);
    hide Run, ChangeState, Final;
    var t, id := Run(cfg, s, steps), s.clients[k].id;
    var j := First(t.clients, ById(id));
    if j < |t.clients| {
      assert HasEarlier(cfg, s.clients, t.clients[j]);
      var i :| 0 <= i < |s.clients| && Later(cfg, s.clients[i], t.clients[j]);
      assert i == k;
    }
  }

  /** After an import the counter no longer bounds the ids: adding a client keeps them distinct exactly
      when the counter is not among them. */
  lemma {:induction false} AddKeepsIdsExactly(cfg: Config, s: State, mac: string, ip: string, now: int, token: string)
    requires DistinctIds(s.clients) && AddClient(cfg, s, mac, ip, now, token).0 != s
    ensures DistinctIds(AddClient(cfg, s, mac, ip, now, token).0.clients)
            <==> First(s.clients, ById(s.nextId)) == |s.clients|
  {
    hide StartState;
    var t := AddClient(cfg, s, mac, ip, now, token).0;
    var n, k := |s.clients|, First(s.clients, ById(s.nextId));
    assert t.clients[n].id == s.nextId;
    assert forall j :: 0 <= j < n ==> t.clients[j] == s.clients[j];
    if k < n {
      assert t.clients[k].id == t.clients[n].id;
    } else {
      assert forall j :: 0 <= j < n ==> !ById(s.nextId)(s.clients[j]);
    }
  }

  lemma {:induction false} RunSnoc(cfg: Config, s: State, steps: seq<Step>, step: Step)
    ensures Run(cfg, s, steps + [step]) == Next(cfg, Run(cfg, s, steps), step)
    decreases |steps|
  {
    hide Next;
    var all := steps + [step];
    if steps == [] {
      assert all == [step] && all[1..] == [];
    } else {
      assert all[0] == steps[0] && all[1..] == steps[1..] + [step];
      RunSnoc(cfg, Next(cfg, s, steps[0]), steps[1..], step);
    }
  }

  /** An import of one record, then a new client. */
  lemma {:induction false} ImportThenAdd(cfg: Config, s: State, c: Client, mac: string, ip: string, now: int, token: string, rnd: nat -> string)
    requires ValidMarks(cfg) && s.clients == [] && cfg.maxClients >= 2
    requires OUT in s.fw && INC in s.fw && Agrees(cfg, s, c)
    requires cfg.validMac(mac) && cfg.validIp(ip) && (mac != c.mac || ip != c.ip)
    ensures var t := Run(cfg, s, [Load(Parsed(Export([c])), now, rnd), Add(mac, ip, now, token)]);
            t.clients == [c, Client(s.nextId + 1, ip, mac, token, StartState(cfg, s, mac), 0, 0, 0, 0, now, 0, 0)]
  {
    hide Import, Export, Agrees, OutRules, IncRules, StartState;
    RoundTrip(cfg, s, [c], now, rnd);
    var load, add := Load(Parsed(Export([c])), now, rnd), Add(mac, ip, now, token);
    var (u, rc) := Import(cfg, s, Parsed(Export([c])), now, rnd);
    assert |[c]| == 1 && rc == 0 && u.nextId == s.nextId + 1 && Next(cfg, s, load) == u;
    RunSnoc(cfg, s, [], load);
    RunSnoc(cfg, s, [load], add);
    assert [] + [load] == [load] && [load] + [add] == [load, add];
    SameStart(cfg, s, u, mac);
    FirstIs([c], ByPair(mac, ip), 1);
    assert Next(cfg, u, add).clients == [c] + [NewClient(cfg, u, mac, ip, now, token)];
  }

  lemma {:induction false} SameStart(cfg: Config, s: State, t: State, mac: string)
    requires t.blocked == s.blocked && t.trusted == s.trusted && t.allowed == s.allowed
    ensures StartState(cfg, t, mac) == StartState(cfg, s, mac)
  {
  }

  /** A record imported with the id after the next one gets a twin with the next client. */
  lemma {:induction false} ImportedIdRepeats(cfg: Config, s: State, c: Client, mac: string, ip: string, now: int, token: string, rnd: nat -> string)
    requires ValidMarks(cfg) && s.clients == [] && cfg.maxClients >= 2
    requires OUT in s.fw && INC in s.fw && Agrees(cfg, s, c) && c.id == s.nextId + 1
    requires cfg.validMac(mac) && cfg.validIp(ip) && (mac != c.mac || ip != c.ip)
    ensures var t := Run(cfg, s, [Load(Parsed(Export([c])), now, rnd), Add(mac, ip, now, token)]);
            |t.clients| == 2 && t.clients[0].id == t.clients[1].id
  {
    ImportThenAdd(cfg, s, c, mac, ip, now, token, rnd);
  }

  // ---------------------------------------------------------------- final states

  /** The state change that ends the import of a record touches that record only, and none that does
      not start preauthenticated. */
  lemma {:induction false} ChangeNewFrame(cfg: Config, s: State, k: nat, to: Mark, now: int, token: string)
    requires ValidMarks(cfg) && k < |s.clients| && s.clients[k].state != cfg.authMark
    ensures var t := ChangeState(cfg, s, k, to, now, token).0;
            |t.clients| == |s.clients| && t.clients == s.clients[k := t.clients[k]] && t.blocked == s.blocked
            && t.clients[k].mac == s.clients[k].mac
            && (s.clients[k].state != PREAUTHENTICATED ==> t.clients[k].state == s.clients[k].state)
  {
    hide FwAuthenticate, FwDeauthenticate, AddMac;
  }

  /** Importing one record leaves the records before it and the MAC lists alone. */
  lemma {:induction false} ImportClientFrame(cfg: Config, s: State, j: Json, now: int, token: string)
    requires ValidMarks(cfg)
    ensures var t := ImportClient(cfg, s, j, now, token).0;
            s.clients <= t.clients && t.blocked == s.blocked
            && forall i :: |s.clients| <= i < |t.clients| && StartState(cfg, s, t.clients[i].mac) == cfg.blockedMark ==>
                 t.clients[i].state == cfg.blockedMark
  {
    hide ChangeState, Fill, GetString, GetInt, First, StartState, Wrap32, Uint64, AddClient;
    var mac, ip, id := GetString(j, KMac), GetString(j, KIp), GetInt(j, KId);
    if mac.Some? && ip.Some? && id.Some? && First(s.clients, ByPair(mac.value, ip.value)) == |s.clients| {
      AddedAtTheEnd(cfg, s, mac.value, ip.value, now, token);
      var (t, k) := AddClient(cfg, s, mac.value, ip.value, now, token);
      if k.Some? {
        var (c, state) := Fill(t.clients[k.value], j);
        var u := t.(clients := t.clients[k.value := c]);
        NeverStartsAuthenticated(cfg, s, mac.value);
        assert u.clients[..|s.clients|] == s.clients;
        if state.Some? { ChangeNewFrame(cfg, u, k.value, state.value, now, token); }
      }
    }
  }

  lemma {:induction false} AddedAtTheEnd(cfg: Config, s: State, mac: string, ip: string, now: int, token: string)
    requires First(s.clients, ByPair(mac, ip)) == |s.clients|
    ensures var (t, k) := AddClient(cfg, s, mac, ip, now, token);
            t.blocked == s.blocked &&
            if k.None? then t == s
            else k.value == |s.clients| && t.clients == s.clients + [NewClient(cfg, s, mac, ip, now, token)]
  {
    hide First, NewClient;
  }

  lemma {:induction false} NeverStartsAuthenticated(cfg: Config, s: State, mac: string)
    requires ValidMarks(cfg)
    ensures StartState(cfg, s, mac) != cfg.authMark
  {
  }

  lemma {:induction false} ImportAllFrame(cfg: Config, s: State, elems: seq<Json>, rc: int, now: int, rnd: nat -> string, i: nat)
    requires ValidMarks(cfg)
    ensures var t := ImportAll(cfg, s, elems, rc, now, rnd, i).0;
            s.clients <= t.clients && t.blocked == s.blocked
    decreases |elems|
  {
    hide ImportClient, StartState;
    if elems != [] && elems[0].JsonObject? {
      ImportClientFrame(cfg, s, elems[0], now, rnd(i));
      var t := ImportClient(cfg, s, elems[0], now, rnd(i)).0;
      ImportAllFrame(cfg, t, elems[1..], 0, now, rnd, i + 1);
    }
  }

  lemma {:induction false} ImportFrame(cfg: Config, s: State, f: File, now: int, rnd: nat -> string)
    requires ValidMarks(cfg)
    ensures var t := Import(cfg, s, f, now, rnd).0; s.clients <= t.clients && t.blocked == s.blocked
  {
    hide ImportAll;
    if f.Parsed? && f.top.JsonObject? && KClients in f.top.fields && f.top.fields[KClients].JsonArray? {
      ImportAllFrame(cfg, s, f.top.fields[KClients].elems, -EINVAL, now, rnd, 0);
    }
  }

  /** The step flushes the client list. */
  predicate Flushes(cfg: Config, s: State, step: Step) {
    step.Load? && Import(cfg, s, step.file, step.now, step.rnd).1 < 0
  }

  predicate FlushFree(cfg: Config, s: State, steps: seq<Step>)
    decreases |steps|
  {
    steps == [] || (!Flushes(cfg, s, steps[0]) && FlushFree(cfg, Next(cfg, s, steps[0]), steps[1..]))
  }

  lemma {:induction false} StepKeepsFinal(cfg: Config, s: State, step: Step, c: Client)
    requires ValidMarks(cfg) && !Flushes(cfg, s, step) && Final(cfg, c.state) && HasLater(cfg, c, s.clients)
    ensures HasLater(cfg, c, Next(cfg, s, step).clients)
  {
    hide Next, Evolves;
    var t := Next(cfg, s, step);
    if step.Add? || step.Load? {
      StepExtends(cfg, s, step);
      var i :| 0 <= i < |s.clients| && Later(cfg, c, s.clients[i]);
      assert Later(cfg, c, t.clients[i]);
    } else {
      StepEvolves(cfg, s, step);
      FinalEvolves(cfg, s.clients, t.clients, c);
    }
  }

  lemma {:induction false} StepExtends(cfg: Config, s: State, step: Step)
    requires ValidMarks(cfg) && (step.Add? || (step.Load? && !Flushes(cfg, s, step)))
    ensures s.clients <= Next(cfg, s, step).clients
  {
    hide AddClient, Import;
    if step.Add? {
      AddLists(cfg, s, step.mac, step.ip, step.now, step.token);
    } else {
      ImportFrame(cfg, s, step.file, step.now, step.rnd);
    }
  }

  lemma {:induction false} FinalEvolves(cfg: Config, cs: seq<Client>, ds: seq<Client>, c: Client)
    requires Evolves(cfg, cs, ds) && Final(cfg, c.state) && HasLater(cfg, c, cs)
    ensures HasLater(cfg, c, ds)
  {
    var i :| 0 <= i < |cs| && Later(cfg, c, cs[i]);
    assert HasLater(cfg, cs[i], ds);
    var j :| 0 <= j < |ds| && Later(cfg, cs[i], ds[j]);
    assert Later(cfg, c, ds[j]);
  }

  /** A blocked or trusted record neither changes its state nor leaves the list, short of a flush. */
  lemma {:induction false} FinalRecordsStay(cfg: Config, s: State, steps: seq<Step>, c: Client)
    requires ValidMarks(cfg) && FlushFree(cfg, s, steps) && Final(cfg, c.state) && HasLater(cfg, c, s.clients)
    ensures HasLater(cfg, c, Run(cfg, s, steps).clients)
    decreases |steps|
  {
    hide HasLater, Next, Flushes;
    if steps != [] {
      StepKeepsFinal(cfg, s, steps[0], c);
      FinalRecordsStay(cfg, Next(cfg, s, steps[0]), steps[1..], c);
    }
  }

  lemma {:induction false} AddLists(cfg: Config, s: State, mac: string, ip: string, now: int, token: string)
    ensures AddClient(cfg, s, mac, ip, now, token).0.blocked == s.blocked
    ensures s.clients <= AddClient(cfg, s, mac, ip, now, token).0.clients
  {
    hide First, NewClient;
  }
}
