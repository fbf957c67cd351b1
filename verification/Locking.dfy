/** The two mutexes of the daemon, which a thread must not take twice: for every state and every
    operation, the locks that the operation takes and releases, and what follows for threads that
    run operations in any interleaving. Signal handlers are not among the operations. */
module Locking {
  import opened Iptables
  import opened Configuration
  import opened Session
  import opened StateFile
  import opened Runs

  datatype Lock = ListLock | ConfigLock
  datatype Action = Acquire(lock: Lock) | Release(lock: Lock)

  // ---------------------------------------------------------------- discipline

  /** The client list is locked only by a thread that holds nothing; the configuration only by one
      that does not hold it; and only a held lock is released. */
  predicate Permitted(held: set<Lock>, a: Action) {
    match a
    case Acquire(ListLock) => held == {}
    case Acquire(ConfigLock) => ConfigLock !in held
    case Release(l) => l in held
  }

  function Perform(held: set<Lock>, a: Action): (r: set<Lock>) {
    if a.Acquire? then held + {a.lock} else held - {a.lock}
  }

  predicate Legal(held: set<Lock>, trace: seq<Action>)
    decreases |trace|
  {
    trace == [] || (Permitted(held, trace[0]) && Legal(Perform(held, trace[0]), trace[1..]))
  }

  function After(held: set<Lock>, trace: seq<Action>): (r: set<Lock>)
    decreases |trace|
  {
    if trace == [] then held else After(Perform(held, trace[0]), trace[1..])
  }

  /** Legal, and back to the same locks at the end. */
  predicate Neutral(held: set<Lock>, trace: seq<Action>) {
    Legal(held, trace) && After(held, trace) == held
  }

  lemma {:induction false} LegalConcat(held: set<Lock>, a: seq<Action>, b: seq<Action>)
    ensures Legal(held, a + b) <==> Legal(held, a) && Legal(After(held, a), b)
    ensures After(held, a + b) == After(After(held, a), b)
    decreases |a|
  {
    hide Permitted, Perform;
    if a == [] {
      assert a + b == b;
    } else {
      assert (a + b)[1..] == a[1..] + b;
      LegalConcat(Perform(held, a[0]), a[1..], b);
    }
  }

  lemma {:induction false} NeutralConcat(held: set<Lock>, a: seq<Action>, b: seq<Action>)
    requires Neutral(held, a) && Neutral(held, b)
    ensures Neutral(held, a + b)
  {
    LegalConcat(held, a, b);
  }

  /** A critical section. */
  function Section(l: Lock, body: seq<Action>): (r: seq<Action>) {
    [Acquire(l)] + body + [Release(l)]
  }

  lemma {:induction false} SectionNeutral(held: set<Lock>, l: Lock, body: seq<Action>)
    requires Permitted(held, Acquire(l)) && Neutral(held + {l}, body)
    ensures Neutral(held, Section(l, body))
  {
    var inner := held + {l};
    assert l !in held;
    LegalConcat(inner, body, [Release(l)]);
    assert Neutral(inner, body);
    assert inner - {l} == held;
    OneAction(inner, Release(l));
    assert Section(l, body)[1..] == body + [Release(l)];
    assert Section(l, body)[0] == Acquire(l);
  }

  lemma {:induction false} OneAction(held: set<Lock>, a: Action)
    ensures Legal(held, [a]) <==> Permitted(held, a)
    ensures After(held, [a]) == Perform(held, a)
  {
    assert [a][1..] == [];
  }

  // ---------------------------------------------------------------- the operations

  /** What `iptables_fw_authenticate`, `iptables_fw_deauthenticate` and the commands on the MAC lists
      do: read or change the configuration under its lock. */
  function Briefly(): (r: seq<Action>) { Section(ConfigLock, []) }

  /** `auth_change_state`: one section for the firewall, and one more for the list of blocked
      addresses when the client is blocked. */
  function ChangeLocks(cfg: Config, c: Client, to: Mark): (r: seq<Action>) {
    if c.state == to then []
    else if c.state == PREAUTHENTICATED && to == cfg.authMark then Briefly()
    else if c.state == cfg.authMark && to == PREAUTHENTICATED then Briefly()
    else if c.state == cfg.authMark && to == cfg.blockedMark then Briefly() + Briefly()
    else []
  }

  function ByIdLocks(cfg: Config, s: State, id: nat, to: Mark): (r: seq<Action>) {
    var k := First(s.clients, ById(id));
    if k == |s.clients| then [] else ChangeLocks(cfg, s.clients[k], to)
  }

  function SweepLocks(cfg: Config, s: State, i: nat, now: int, rnd: nat -> string, visit: nat): (r: seq<Action>)
    requires i <= |s.clients|
    decreases |s.clients| - i
  {
    if i == |s.clients| then []
    else
      var k := First(s.clients, ById(s.clients[i].id));
      SweepStep(cfg, s, i, now, rnd, visit);
      var t := SweepAt(cfg, s, k, now, rnd(visit));
      SweepLength(cfg, s, k, now, rnd(visit));
      var d := Decide(cfg, s.clients[k], now);
      (if d.ToState? then ChangeLocks(cfg, s.clients[k], d.to) else []) +
      SweepLocks(cfg, t, if |t.clients| < |s.clients| then i else i + 1, now, rnd, visit + 1)
  }

  function DeauthAllLocks(cfg: Config, s: State, i: nat, now: int, rnd: nat -> string): (r: seq<Action>)
    requires i <= |s.clients|
    decreases |s.clients| - i
  {
    if i == |s.clients| then []
    else
      var k := First(s.clients, ById(s.clients[i].id));
      var t := ChangeState(cfg, s, k, PREAUTHENTICATED, now, rnd(i)).0;
      ChangeLocks(cfg, s.clients[k], PREAUTHENTICATED) + DeauthAllLocks(cfg, t, i + 1, now, rnd)
  }

  function ImportClientLocks(cfg: Config, s: State, j: Json, now: int, token: string): (r: seq<Action>) {
    var mac, ip, id := GetString(j, KMac), GetString(j, KIp), GetInt(j, KId);
    if mac.None? || ip.None? || id.None? then []
    else if First(s.clients, ByPair(mac.value, ip.value)) < |s.clients| then []
    else if First(s.clients, ById(Wrap32(Uint64(id.value)))) < |s.clients| then []
    else
      var (t, k) := AddClient(cfg, s, mac.value, ip.value, now, token);
      if k.None? then []
      else
        var (c, state) := Fill(t.clients[k.value], j);
        if state.None? then [] else ChangeLocks(cfg, c, state.value)
  }

  function ImportAllLocks(cfg: Config, s: State, elems: seq<Json>, now: int, rnd: nat -> string, i: nat): (r: seq<Action>)
    decreases |elems|
  {
    if elems == [] || !elems[0].JsonObject? then []
    else
      var (t, rc) := ImportClient(cfg, s, elems[0], now, rnd(i));
      ImportClientLocks(cfg, s, elems[0], now, rnd(i)) +
      if rc != 0 then [] else ImportAllLocks(cfg, t, elems[1..], now, rnd, i + 1)
  }

  /** The import, and the renewal of the firewall after an import that fails. */
  function StartupLocks(cfg: Config, s: State, f: File, now: int, rnd: nat -> string): (r: seq<Action>) {
    (if f.Parsed? && GetInt(f.top, KVersion).Some? && Int64(GetInt(f.top, KVersion).value) == VERSION
        && GetString(f.top, KName) == Some(NAME)
        && KClients in f.top.fields && f.top.fields[KClients].JsonArray?
     then Section(ListLock, ImportAllLocks(cfg, s, f.top.fields[KClients].elems, now, rnd, 0)) else [])
    + if Import(cfg, s, f, now, rnd).1 < 0 then Briefly() + Briefly() else []
  }

  /** A step of a run; or the ndsctl command that looks a client up and deauthenticates it later,
      in whatever state `later` the list is by then; printing the clients; the export; setting the
      debug level; and setting up or clearing the firewall. */
  datatype Operation =
    | Do(step: Step)
    | LookUpAndDeauth(found: bool, id: nat, later: State)
    | Print
    | ExportState
    | DebugLevel
    | Firewall

  function Locks(cfg: Config, s: State, op: Operation): (r: seq<Action>) {
    match op
    case Do(step) => StepLocks(cfg, s, step)
    case LookUpAndDeauth(found, id, later) =>
      Section(ListLock, []) +
      if found then Section(ListLock, ByIdLocks(cfg, later, id, PREAUTHENTICATED)) else []
    case Print => Section(ListLock, []) + Section(ListLock, [])
    case ExportState => Section(ListLock, [])
    case DebugLevel => Briefly()
    case Firewall => Briefly()
  }

  function StepLocks(cfg: Config, s: State, step: Step): (r: seq<Action>) {
    match step
    case Add(_, _, _, _) => Section(ListLock, [])
    case Http(mac, ip, token, _, _, _, _) =>
      var k := First(s.clients, ByPair(mac, ip));
      if k == |s.clients| || s.clients[k].state == cfg.authMark || s.clients[k].state == cfg.trustedMark
         || s.clients[k].token != token then []
      else Section(ListLock, ByIdLocks(cfg, s, s.clients[k].id, cfg.authMark))
    case Auth(id, _) => Section(ListLock, ByIdLocks(cfg, s, id, cfg.authMark))
    case Deauth(id, _, _) => Section(ListLock, ByIdLocks(cfg, s, id, PREAUTHENTICATED))
    case MacOn(_, _) => Briefly()
    case MacOff(_, _) => Briefly()
    case Count(_, _, _) => Section(ListLock, [])
    case Refresh(now, rnd) => Section(ListLock, []) + Section(ListLock, SweepLocks(cfg, s, 0, now, rnd, 0))
    case DeauthEveryone(now, rnd) => Section(ListLock, DeauthAllLocks(cfg, s, 0, now, rnd))
    case Load(file, now, rnd) => StartupLocks(cfg, s, file, now, rnd)
  }

  lemma {:induction false} BrieflyNeutral(held: set<Lock>)
    requires ConfigLock !in held
    ensures Neutral(held, Briefly()) && Neutral(held, [])
  {
    SectionNeutral(held, ConfigLock, []);
  }

  lemma {:induction false} ChangeNeutral(cfg: Config, c: Client, to: Mark)
    ensures Neutral({ListLock}, ChangeLocks(cfg, c, to))
  {
    hide Neutral, Briefly;
    BrieflyNeutral({ListLock});
    NeutralConcat({ListLock}, Briefly(), Briefly());
  }

  lemma {:induction false} SweepNeutral(cfg: Config, s: State, i: nat, now: int, rnd: nat -> string, visit: nat)
    requires i <= |s.clients|
    ensures Neutral({ListLock}, SweepLocks(cfg, s, i, now, rnd, visit))
    decreases |s.clients| - i
  {
    hide Neutral, Briefly, ChangeLocks, SweepAt, Decide, First;
    BrieflyNeutral({ListLock});
    if i < |s.clients| {
      var k := First(s.clients, ById(s.clients[i].id));
      SweepStep(cfg, s, i, now, rnd, visit);
      var t := SweepAt(cfg, s, k, now, rnd(visit));
      SweepLength(cfg, s, k, now, rnd(visit));
      var d := Decide(cfg, s.clients[k], now);
      var i' := if |t.clients| < |s.clients| then i else i + 1;
      SweepNeutral(cfg, t, i', now, rnd, visit + 1);
      var here := if d.ToState? then ChangeLocks(cfg, s.clients[k], d.to) else [];
      if d.ToState? { ChangeNeutral(cfg, s.clients[k], d.to); }
      NeutralConcat({ListLock}, here, SweepLocks(cfg, t, i', now, rnd, visit + 1));
    }
  }

  lemma {:induction false} DeauthAllNeutral(cfg: Config, s: State, i: nat, now: int, rnd: nat -> string)
    requires i <= |s.clients|
    ensures Neutral({ListLock}, DeauthAllLocks(cfg, s, i, now, rnd))
    decreases |s.clients| - i
  {
    hide Neutral, Briefly, ChangeLocks, ChangeState, First;
    BrieflyNeutral({ListLock});
    if i < |s.clients| {
      var k := First(s.clients, ById(s.clients[i].id));
      var t := ChangeState(cfg, s, k, PREAUTHENTICATED, now, rnd(i)).0;
      ChangeNeutral(cfg, s.clients[k], PREAUTHENTICATED);
      DeauthAllNeutral(cfg, t, i + 1, now, rnd);
      NeutralConcat({ListLock}, ChangeLocks(cfg, s.clients[k], PREAUTHENTICATED),
                    DeauthAllLocks(cfg, t, i + 1, now, rnd));
    }
  }

  lemma {:induction false} ImportClientNeutral(cfg: Config, s: State, j: Json, now: int, token: string)
    ensures Neutral({ListLock}, ImportClientLocks(cfg, s, j, now, token))
  {
    hide Neutral, Briefly, ChangeLocks, AddClient, First, Fill;
    BrieflyNeutral({ListLock});
    var mac, ip, id := GetString(j, KMac), GetString(j, KIp), GetInt(j, KId);
    if mac.Some? && ip.Some? && id.Some? {
      var (t, k) := AddClient(cfg, s, mac.value, ip.value, now, token);
      if k.Some? {
        var (c, state) := Fill(t.clients[k.value], j);
        if state.Some? { ChangeNeutral(cfg, c, state.value); }
      }
    }
  }

  lemma {:induction false} ImportAllNeutral(cfg: Config, s: State, elems: seq<Json>, now: int, rnd: nat -> string, i: nat)
    ensures Neutral({ListLock}, ImportAllLocks(cfg, s, elems, now, rnd, i))
    decreases |elems|
  {
    hide Neutral, Briefly, ImportClientLocks, ImportClient;
    BrieflyNeutral({ListLock});
    if elems != [] && elems[0].JsonObject? {
      var here := ImportClientLocks(cfg, s, elems[0], now, rnd(i));
      ImportClientNeutral(cfg, s, elems[0], now, rnd(i));
      var (t, rc) := ImportClient(cfg, s, elems[0], now, rnd(i));
      if rc != 0 {
        NeutralConcat({ListLock}, here, []);
      } else {
        ImportAllNeutral(cfg, t, elems[1..], now, rnd, i + 1);
        NeutralConcat({ListLock}, here, ImportAllLocks(cfg, t, elems[1..], now, rnd, i + 1));
      }
    }
  }

  lemma {:induction false} ListSection(body: seq<Action>)
    requires Neutral({ListLock}, body)
    ensures Neutral({}, Section(ListLock, body))
  {
    hide Neutral;
    assert {} + {ListLock} == {ListLock};
    SectionNeutral({}, ListLock, body);
  }

  lemma {:induction false} ByIdNeutral(cfg: Config, s: State, id: nat, to: Mark)
    ensures Neutral({}, Section(ListLock, ByIdLocks(cfg, s, id, to)))
  {
    hide Neutral, Briefly, ChangeLocks, First;
    var k := First(s.clients, ById(id));
    BrieflyNeutral({ListLock});
    if k < |s.clients| { ChangeNeutral(cfg, s.clients[k], to); }
    ListSection(ByIdLocks(cfg, s, id, to));
  }

  lemma {:induction false} StartupNeutral(cfg: Config, s: State, f: File, now: int, rnd: nat -> string)
    ensures Neutral({}, StartupLocks(cfg, s, f, now, rnd))
  {
    hide Neutral, Briefly, ImportAllLocks, Import, Section;
    BrieflyNeutral({});
    NeutralConcat({}, Briefly(), Briefly());
    NeutralConcat({}, [], []);
    NeutralConcat({}, [], Briefly() + Briefly());
    if f.Parsed? && f.top.JsonObject? && KClients in f.top.fields && f.top.fields[KClients].JsonArray? {
      var elems := f.top.fields[KClients].elems;
      ImportAllNeutral(cfg, s, elems, now, rnd, 0);
      var a := Section(ListLock, ImportAllLocks(cfg, s, elems, now, rnd, 0));
      ListSection(ImportAllLocks(cfg, s, elems, now, rnd, 0));
      NeutralConcat({}, a, []);
      NeutralConcat({}, a, Briefly() + Briefly());
    }
  }

  /** Every operation, from every state, keeps the discipline and ends without a lock. */
  lemma {:induction false} OperationsDisciplined(cfg: Config, s: State, op: Operation)
    ensures Neutral({}, Locks(cfg, s, op))
  {
    hide Neutral, Briefly, Section, StepLocks, ByIdLocks;
    BrieflyNeutral({});
    BrieflyNeutral({ListLock});
    ListSection([]);
    var plain := Section(ListLock, []);
    match op
    case Do(step) => StepDisciplined(cfg, s, step);
    case LookUpAndDeauth(found, id, later) =>
      ByIdNeutral(cfg, later, id, PREAUTHENTICATED);
      NeutralConcat({}, plain, Section(ListLock, ByIdLocks(cfg, later, id, PREAUTHENTICATED)));
      NeutralConcat({}, plain, []);
    case Print => NeutralConcat({}, plain, plain);
    case ExportState =>
    case DebugLevel =>
    case Firewall =>
  }

  lemma {:induction false} StepDisciplined(cfg: Config, s: State, step: Step)
    ensures Neutral({}, StepLocks(cfg, s, step))
  {
    hide Neutral, Briefly, Section, ByIdLocks, SweepLocks, DeauthAllLocks, StartupLocks, First;
    BrieflyNeutral({});
    BrieflyNeutral({ListLock});
    ListSection([]);
    match step
    case Add(_, _, _, _) =>
    case Http(mac, ip, _, _, _, _, _) =>
      var k := First(s.clients, ByPair(mac, ip));
      if k < |s.clients| { ByIdNeutral(cfg, s, s.clients[k].id, cfg.authMark); }
    case Auth(id, _) => ByIdNeutral(cfg, s, id, cfg.authMark);
    case Deauth(id, _, _) => ByIdNeutral(cfg, s, id, PREAUTHENTICATED);
    case MacOn(_, _) =>
    case MacOff(_, _) =>
    case Count(_, _, _) =>
    case Refresh(now, rnd) =>
      SweepNeutral(cfg, s, 0, now, rnd, 0);
      ListSection(SweepLocks(cfg, s, 0, now, rnd, 0));
      NeutralConcat({}, Section(ListLock, []), Section(ListLock, SweepLocks(cfg, s, 0, now, rnd, 0)));
    case DeauthEveryone(now, rnd) =>
      DeauthAllNeutral(cfg, s, 0, now, rnd);
      ListSection(DeauthAllLocks(cfg, s, 0, now, rnd));
    case Load(file, now, rnd) => StartupNeutral(cfg, s, file, now, rnd);
  }

  // ---------------------------------------------------------------- what the locks cover

  predicate Takes(trace: seq<Action>, l: Lock) {
    Acquire(l) in trace
  }

  /** The firewall and the MAC lists are the same in both states. */
  predicate SameRules(s: State, t: State) {
    t.fw == s.fw && t.trusted == s.trusted && t.blocked == s.blocked && t.allowed == s.allowed
  }

  /** A change of state locks the configuration exactly when it happens. */
  lemma {:induction false} ChangeLocksExactly(cfg: Config, s: State, k: nat, to: Mark, now: int, token: string)
    requires k < |s.clients|
    ensures Takes(ChangeLocks(cfg, s.clients[k], to), ConfigLock) <==> ChangeState(cfg, s, k, to, now, token).1 == 0
    ensures !Takes(ChangeLocks(cfg, s.clients[k], to), ConfigLock) ==> ChangeState(cfg, s, k, to, now, token).0 == s
  {
    assert Briefly()[0] == Acquire(ConfigLock);
    hide FwAuthenticate, FwDeauthenticate, AddMac, Briefly;
    assert (Briefly() + Briefly())[0] == Briefly()[0];
  }

  lemma {:induction false} ByIdCovered(cfg: Config, s: State, id: nat, now: int, token: string)
    ensures !Takes(ByIdLocks(cfg, s, id, cfg.authMark), ConfigLock) ==> SameRules(s, AuthById(cfg, s, id, now).0)
    ensures !Takes(ByIdLocks(cfg, s, id, PREAUTHENTICATED), ConfigLock) ==> SameRules(s, DeauthById(cfg, s, id, now, token).0)
  {
    hide ChangeState, ChangeLocks, First;
    var k := First(s.clients, ById(id));
    if k < |s.clients| {
      ChangeLocksExactly(cfg, s, k, cfg.authMark, now, "");
      ChangeLocksExactly(cfg, s, k, PREAUTHENTICATED, now, token);
    }
  }

  lemma {:induction false} SweepAtCovered(cfg: Config, s: State, k: nat, now: int, token: string)
    requires k < |s.clients|
    ensures var d := Decide(cfg, s.clients[k], now);
            !Takes(if d.ToState? then ChangeLocks(cfg, s.clients[k], d.to) else [], ConfigLock) ==>
              SameRules(s, SweepAt(cfg, s, k, now, token))
  {
    hide ChangeState, ChangeLocks;
    var d := Decide(cfg, s.clients[k], now);
    if d.ToState? { ChangeLocksExactly(cfg, s, k, d.to, now, token); }
  }

  lemma {:induction false} SweepCovered(cfg: Config, s: State, i: nat, now: int, rnd: nat -> string, visit: nat)
    requires i <= |s.clients|
    ensures !Takes(SweepLocks(cfg, s, i, now, rnd, visit), ConfigLock) ==> SameRules(s, Sweep(cfg, s, i, now, rnd, visit))
    decreases |s.clients| - i
  {
    hide ChangeLocks, SweepAt, Decide, First;
    if i < |s.clients| {
      var k := First(s.clients, ById(s.clients[i].id));
      SweepStep(cfg, s, i, now, rnd, visit);
      var t := SweepAt(cfg, s, k, now, rnd(visit));
      SweepLength(cfg, s, k, now, rnd(visit));
      SweepAtCovered(cfg, s, k, now, rnd(visit));
      SweepCovered(cfg, t, if |t.clients| < |s.clients| then i else i + 1, now, rnd, visit + 1);
    }
  }

  lemma {:induction false} DeauthAllCovered(cfg: Config, s: State, i: nat, now: int, rnd: nat -> string)
    requires i <= |s.clients|
    ensures !Takes(DeauthAllLocks(cfg, s, i, now, rnd), ConfigLock) ==> SameRules(s, DeauthAll(cfg, s, i, now, rnd))
    decreases |s.clients| - i
  {
    hide ChangeLocks, ChangeState, First;
    if i < |s.clients| {
      var k := First(s.clients, ById(s.clients[i].id));
      ChangeLocksExactly(cfg, s, k, PREAUTHENTICATED, now, rnd(i));
      DeauthAllCovered(cfg, ChangeState(cfg, s, k, PREAUTHENTICATED, now, rnd(i)).0, i + 1, now, rnd);
    }
  }

  lemma {:induction false} SectionTakes(l: Lock, body: seq<Action>, m: Lock)
    ensures Takes(Section(l, body), m) <==> m == l || Takes(body, m)
  {
    assert Section(l, body)[0] == Acquire(l);
  }

  lemma {:induction false} BrieflyTakes(m: Lock)
    ensures Takes(Briefly(), m) <==> m == ConfigLock
  {
    SectionTakes(ConfigLock, [], m);
  }

  /** Every step of a run that changes the client list locks the list, and every step that changes a
      rule or a MAC list locks the configuration; except that the startup import, which runs alone,
      flushes the list without a lock. */
  lemma {:induction false} LocksCoverChanges(cfg: Config, s: State, step: Step)
    requires !step.Load?
    ensures Runs.Next(cfg, s, step).clients != s.clients ==> Takes(StepLocks(cfg, s, step), ListLock)
    ensures !SameRules(s, Runs.Next(cfg, s, step)) ==> Takes(StepLocks(cfg, s, step), ConfigLock)
  {
    hide Section, Briefly, ByIdLocks, SweepLocks, DeauthAllLocks, Takes, First,
         AddClient, HttpAuth, AuthById, DeauthById, AddMac, RemoveMac, Counters, Sweep, DeauthAll;
    BrieflyTakes(ConfigLock);
    match step
    case Add(mac, ip, now, token) =>
      SectionTakes(ListLock, [], ListLock);
      AddRules(cfg, s, mac, ip, now, token);
    case Http(mac, ip, token, seconds, upload, download, now) => HttpCovered(cfg, s, mac, ip, token, seconds, upload, download, now);
    case Auth(id, now) =>
      SectionTakes(ListLock, ByIdLocks(cfg, s, id, cfg.authMark), ListLock);
      SectionTakes(ListLock, ByIdLocks(cfg, s, id, cfg.authMark), ConfigLock);
      ByIdCovered(cfg, s, id, now, "");
    case Deauth(id, now, token) =>
      SectionTakes(ListLock, ByIdLocks(cfg, s, id, PREAUTHENTICATED), ListLock);
      SectionTakes(ListLock, ByIdLocks(cfg, s, id, PREAUTHENTICATED), ConfigLock);
      ByIdCovered(cfg, s, id, now, token);
    case MacOn(l, mac) => MacFrameClients(cfg, s, l, mac);
    case MacOff(l, mac) => MacFrameClients(cfg, s, l, mac);
    case Count(_, _, _) => SectionTakes(ListLock, [], ListLock);
    case Refresh(now, rnd) => RefreshCovered(cfg, s, now, rnd);
    case DeauthEveryone(now, rnd) =>
      SectionTakes(ListLock, DeauthAllLocks(cfg, s, 0, now, rnd), ListLock);
      SectionTakes(ListLock, DeauthAllLocks(cfg, s, 0, now, rnd), ConfigLock);
      DeauthAllCovered(cfg, s, 0, now, rnd);
  }

  lemma {:induction false} RefreshCovered(cfg: Config, s: State, now: int, rnd: nat -> string)
    ensures Takes(StepLocks(cfg, s, Refresh(now, rnd)), ListLock)
    ensures !SameRules(s, Sweep(cfg, s, 0, now, rnd, 0)) ==> Takes(StepLocks(cfg, s, Refresh(now, rnd)), ConfigLock)
  {
    hide Section, Sweep, SweepLocks;
    var body := SweepLocks(cfg, s, 0, now, rnd, 0);
    SectionTakes(ListLock, body, ListLock);
    SectionTakes(ListLock, body, ConfigLock);
    SweepCovered(cfg, s, 0, now, rnd, 0);
  }

  lemma {:induction false} AddRules(cfg: Config, s: State, mac: string, ip: string, now: int, token: string)
    ensures SameRules(s, AddClient(cfg, s, mac, ip, now, token).0)
  {
    hide First, NewClient;
  }

  lemma {:induction false} HttpCovered(cfg: Config, s: State, mac: string, ip: string, token: string,
                                       seconds: nat, upload: nat, download: nat, now: int)
    ensures var t, locks := HttpAuth(cfg, s, mac, ip, token, seconds, upload, download, now),
                            StepLocks(cfg, s, Http(mac, ip, token, seconds, upload, download, now));
            (t.clients != s.clients ==> Takes(locks, ListLock)) && (!SameRules(s, t) ==> Takes(locks, ConfigLock))
  {
    hide First, AuthById, ByIdLocks, Section, Takes;
    var k := First(s.clients, ByPair(mac, ip));
    if k < |s.clients| {
      var id := s.clients[k].id;
      SectionTakes(ListLock, ByIdLocks(cfg, s, id, cfg.authMark), ListLock);
      SectionTakes(ListLock, ByIdLocks(cfg, s, id, cfg.authMark), ConfigLock);
      ByIdCovered(cfg, s, id, now, "");
    }
  }

  // ---------------------------------------------------------------- threads

  /** A thread: the locks it holds and what it has yet to do. */
  datatype Thread = Thread(held: set<Lock>, rest: seq<Action>)

  /** A lock can be taken only when no thread has it, the one that asks included. */
  predicate Enabled(sys: seq<Thread>, i: nat) {
    && i < |sys| && sys[i].rest != []
    && (sys[i].rest[0].Acquire? ==>
          forall j :: 0 <= j < |sys| ==> sys[i].rest[0].lock !in sys[j].held)
  }

  function Advance(sys: seq<Thread>, i: nat): (r: seq<Thread>)
    requires i < |sys| && sys[i].rest != []
  {
    sys[i := Thread(Perform(sys[i].held, sys[i].rest[0]), sys[i].rest[1..])]
  }

  /** Whether the threads named in `schedule` can act in that order. */
  predicate Possible(sys: seq<Thread>, schedule: seq<nat>)
    decreases |schedule|
  {
    schedule == [] || (Enabled(sys, schedule[0]) && Possible(Advance(sys, schedule[0]), schedule[1..]))
  }

  function Interleaved(sys: seq<Thread>, schedule: seq<nat>): (r: seq<Thread>)
    requires Possible(sys, schedule)
    decreases |schedule|
  {
    if schedule == [] then sys else Interleaved(Advance(sys, schedule[0]), schedule[1..])
  }

  predicate Finished(sys: seq<Thread>) {
    forall i :: 0 <= i < |sys| ==> sys[i].rest == []
  }

  /** Every thread is within its discipline, and no lock has two holders. */
  predicate Sound(sys: seq<Thread>) {
    && (forall i :: 0 <= i < |sys| ==> Legal(sys[i].held, sys[i].rest) && After(sys[i].held, sys[i].rest) == {})
    && (forall i, j :: 0 <= i < j < |sys| ==> sys[i].held !! sys[j].held)
  }

  lemma {:induction false} AdvanceSound(sys: seq<Thread>, i: nat)
    requires Sound(sys) && Enabled(sys, i)
    ensures Sound(Advance(sys, i))
  {
    var a := sys[i].rest[0];
    assert Legal(Perform(sys[i].held, a), sys[i].rest[1..]);
    assert forall j :: 0 <= j < |sys| && j != i ==> Perform(sys[i].held, a) !! sys[j].held;
  }

  /** Whoever holds the configuration can go on; if nobody does, whoever holds the client list can;
      and if nobody holds anything, everybody who is not finished can. */
  lemma {:induction false} SomebodyCanGoOn(sys: seq<Thread>) returns (i: nat)
    requires Sound(sys) && !Finished(sys)
    ensures Enabled(sys, i)
  {
    if k: nat :| k < |sys| && ConfigLock in sys[k].held {
      i := k;
      assert Permitted(sys[k].held, sys[k].rest[0]);
    } else if k: nat :| k < |sys| && ListLock in sys[k].held {
      i := k;
      assert Permitted(sys[k].held, sys[k].rest[0]);
    } else {
      i :| 0 <= i < |sys| && sys[i].rest != [];
    }
  }

  lemma {:induction false} InterleavedSound(sys: seq<Thread>, schedule: seq<nat>)
    requires Sound(sys) && Possible(sys, schedule)
    ensures Sound(Interleaved(sys, schedule))
    decreases |schedule|
  {
    hide Sound;
    if schedule != [] {
      AdvanceSound(sys, schedule[0]);
      InterleavedSound(Advance(sys, schedule[0]), schedule[1..]);
    }
  }

  /** How much is left to do. */
  function Left(sys: seq<Thread>): (n: nat) {
    if sys == [] then 0 else Left(sys[..|sys| - 1]) + |sys[|sys| - 1].rest|
  }

  lemma {:induction false} AdvanceLeft(sys: seq<Thread>, i: nat)
    requires i < |sys| && sys[i].rest != []
    ensures Left(Advance(sys, i)) == Left(sys) - 1
  {
    var n := |sys| - 1;
    if i == n {
      assert Advance(sys, i)[..n] == sys[..n];
    } else {
      assert Advance(sys, i)[..n] == Advance(sys[..n], i);
      AdvanceLeft(sys[..n], i);
    }
  }

  lemma {:induction false} InterleavedLeft(sys: seq<Thread>, schedule: seq<nat>)
    requires Possible(sys, schedule)
    ensures Left(Interleaved(sys, schedule)) == Left(sys) - |schedule|
    decreases |schedule|
  {
    hide Left;
    if schedule != [] {
      AdvanceLeft(sys, schedule[0]);
      InterleavedLeft(Advance(sys, schedule[0]), schedule[1..]);
    }
  }

  lemma {:induction false} NothingLeft(sys: seq<Thread>)
    ensures Left(sys) == 0 <==> Finished(sys)
  {
    if sys != [] {
      var n := |sys| - 1;
      NothingLeft(sys[..n]);
      assert Finished(sys) <==> Finished(sys[..n]) && sys[n].rest == [];
    }
  }

  // ---------------------------------------------------------------- programs

  /** What a thread does: operations one after the other, each from whatever state it finds. */
  type Program = seq<(State, Operation)>

  function Trace(cfg: Config, p: Program): (r: seq<Action>) {
    if p == [] then [] else Locks(cfg, p[0].0, p[0].1) + Trace(cfg, p[1..])
  }

  function Start(cfg: Config, ps: seq<Program>): (sys: seq<Thread>)
    ensures |sys| == |ps|
  {
    if ps == [] then [] else [Thread({}, Trace(cfg, ps[0]))] + Start(cfg, ps[1..])
  }

  lemma {:induction false} TraceNeutral(cfg: Config, p: Program)
    ensures Neutral({}, Trace(cfg, p))
  {
    if p != [] {
      hide Locks, Neutral;
      OperationsDisciplined(cfg, p[0].0, p[0].1);
      TraceNeutral(cfg, p[1..]);
      NeutralConcat({}, Locks(cfg, p[0].0, p[0].1), Trace(cfg, p[1..]));
    }
  }

  lemma {:induction false} StartSound(cfg: Config, ps: seq<Program>)
    ensures Sound(Start(cfg, ps)) && forall i :: 0 <= i < |ps| ==> Start(cfg, ps)[i].held == {}
  {
    hide Trace;
    if ps != [] {
      TraceNeutral(cfg, ps[0]);
      StartSound(cfg, ps[1..]);
    }
  }

  /** For any number of threads, any operations, any states these find, and any interleaving so
      far: no lock has two holders, and unless every thread is finished some thread can go on. An
      interleaving that nothing can extend has therefore finished every thread, after exactly as
      many actions as there were at the start. */
  lemma {:induction false} NoDeadlock(cfg: Config, ps: seq<Program>, schedule: seq<nat>)
    requires Possible(Start(cfg, ps), schedule)
    ensures var sys := Interleaved(Start(cfg, ps), schedule);
            && (forall i, j :: 0 <= i < j < |sys| ==> sys[i].held !! sys[j].held)
            && (Finished(sys) || exists i: nat :: Enabled(sys, i))
            && (Finished(sys) <==> |schedule| == Left(Start(cfg, ps)))
  {
    hide Start, Left, Finished;
    StartSound(cfg, ps);
    InterleavedSound(Start(cfg, ps), schedule);
    InterleavedLeft(Start(cfg, ps), schedule);
    var sys := Interleaved(Start(cfg, ps), schedule);
    NothingLeft(sys);
    if !Finished(sys) {
      var i := SomebodyCanGoOn(sys);
    }
  }
}
