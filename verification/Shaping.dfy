/** Traffic control over whole runs: which clients each step of a run attaches to and detaches from the
    devices, and that the devices hold the authenticated clients and nothing else. */
module Shaping {
  import Iptables
  import opened Configuration
  import opened Session
  import Mirror
  import opened StateFile
  import opened Runs
  import opened Sweeps
  import opened Identity
  import opened Records
  import Tc = TrafficControl

  // ---------------------------------------------------------------- the events of a step

  function LimitsOf(c: Client): (l: Tc.Limits) {
    Tc.Limits(c.downloadLimit, c.uploadLimit)
  }

  /** What `auth_change_state` does to the devices. */
  function ChangeEvents(cfg: Config, c: Client, to: Iptables.Mark): (r: seq<Tc.Event>) {
    if c.state == to then []
    else if c.state == PREAUTHENTICATED && to == cfg.authMark then [Tc.Arrive(c.id, c.ip, LimitsOf(c))]
    else if c.state == cfg.authMark && (to == PREAUTHENTICATED || to == cfg.blockedMark) then [Tc.Leave(c.id, LimitsOf(c))]
    else []
  }

  function ByIdEvents(cfg: Config, s: State, id: nat, to: Iptables.Mark): (r: seq<Tc.Event>) {
    var k := First(s.clients, ById(id));
    if k == |s.clients| then [] else ChangeEvents(cfg, s.clients[k], to)
  }

  function VisitEvents(cfg: Config, c: Client, now: int): (r: seq<Tc.Event>) {
    var d := Decide(cfg, c, now);
    if d.ToState? then ChangeEvents(cfg, c, d.to) else []
  }

  function SweepEvents(cfg: Config, s: State, i: nat, now: int, rnd: nat -> string, visit: nat): (r: seq<Tc.Event>)
    requires i <= |s.clients|
    decreases |s.clients| - i
  {
    if i == |s.clients| then []
    else
      var k := First(s.clients, ById(s.clients[i].id));
      SweepStep(cfg, s, i, now, rnd, visit);
      var t := SweepAt(cfg, s, k, now, rnd(visit));
      SweepLength(cfg, s, k, now, rnd(visit));
      VisitEvents(cfg, s.clients[k], now) +
      SweepEvents(cfg, t, if |t.clients| < |s.clients| then i else i + 1, now, rnd, visit + 1)
  }

  function DeauthAllEvents(cfg: Config, s: State, i: nat, now: int, rnd: nat -> string): (r: seq<Tc.Event>)
    requires i <= |s.clients|
    decreases |s.clients| - i
  {
    if i == |s.clients| then []
    else
      var k := First(s.clients, ById(s.clients[i].id));
      var t := ChangeState(cfg, s, k, PREAUTHENTICATED, now, rnd(i)).0;
      ChangeEvents(cfg, s.clients[k], PREAUTHENTICATED) + DeauthAllEvents(cfg, t, i + 1, now, rnd)
  }

  function ImportClientEvents(cfg: Config, s: State, j: Json, now: int, token: string): (r: seq<Tc.Event>) {
    var mac, ip, id := GetString(j, KMac), GetString(j, KIp), GetInt(j, KId);
    if mac.None? || ip.None? || id.None? then []
    else if First(s.clients, ByPair(mac.value, ip.value)) < |s.clients| then []
    else if First(s.clients, ById(Wrap32(Uint64(id.value)))) < |s.clients| then []
    else
      var (t, k) := AddClient(cfg, s, mac.value, ip.value, now, token);
      if k.None? then []
      else
        var (c, state) := Fill(t.clients[k.value], j);
        if state.None? then [] else ChangeEvents(cfg, c, state.value)
  }

  function ImportAllEvents(cfg: Config, s: State, elems: seq<Json>, now: int, rnd: nat -> string, i: nat): (r: seq<Tc.Event>)
    decreases |elems|
  {
    if elems == [] || !elems[0].JsonObject? then []
    else
      var (t, rc) := ImportClient(cfg, s, elems[0], now, rnd(i));
      ImportClientEvents(cfg, s, elems[0], now, rnd(i)) +
      if rc != 0 then [] else ImportAllEvents(cfg, t, elems[1..], now, rnd, i + 1)
  }

  /** The events of an import that does not end in a reset. */
  function LoadEvents(cfg: Config, s: State, f: File, now: int, rnd: nat -> string): (r: seq<Tc.Event>) {
    if f.Parsed? && GetInt(f.top, KVersion).Some? && Int64(GetInt(f.top, KVersion).value) == VERSION
       && GetString(f.top, KName) == Some(NAME)
       && KClients in f.top.fields && f.top.fields[KClients].JsonArray?
    then ImportAllEvents(cfg, s, f.top.fields[KClients].elems, now, rnd, 0) else []
  }

  function StepEvents(cfg: Config, s: State, step: Step): (r: seq<Tc.Event>) {
    match step
    case Http(mac, ip, token, _, _, _, _) =>
      var k := First(s.clients, ByPair(mac, ip));
      if k == |s.clients| || s.clients[k].state == cfg.authMark || s.clients[k].state == cfg.trustedMark
         || s.clients[k].token != token then []
      else ByIdEvents(cfg, s, s.clients[k].id, cfg.authMark)
    case Auth(id, _) => ByIdEvents(cfg, s, id, cfg.authMark)
    case Deauth(id, _, _) => ByIdEvents(cfg, s, id, PREAUTHENTICATED)
    case Refresh(now, rnd) => SweepEvents(cfg, s, 0, now, rnd, 0)
    case DeauthEveryone(now, rnd) => DeauthAllEvents(cfg, s, 0, now, rnd)
    case Load(file, now, rnd) => LoadEvents(cfg, s, file, now, rnd)
    case _ => []
  }

  /** The events of a run, in order. */
  function Log(cfg: Config, s: State, steps: seq<Step>): (r: seq<Tc.Event>)
    decreases |steps|
  {
    if steps == [] then [] else StepEvents(cfg, s, steps[0]) + Log(cfg, Next(cfg, s, steps[0]), steps[1..])
  }

  // ---------------------------------------------------------------- attached is authenticated

  /** Id and address of the authenticated records. */
  function Authenticated(cfg: Config, cs: seq<Client>): (r: set<(nat, string)>) {
    set i | 0 <= i < |cs| && cs[i].state == cfg.authMark :: (cs[i].id, cs[i].ip)
  }

  function Attached(slots: seq<Tc.Slot>): (r: set<(nat, string)>) {
    set i | 0 <= i < |slots| :: (slots[i].idx, slots[i].ip)
  }

  /** Only a client that is not attached arrives, and only one that is leaves. */
  predicate Orderly(lim: Tc.Limits, dir: Tc.Direction, es: seq<Tc.Event>) {
    es == [] ||
    var before, e := es[..|es| - 1], es[|es| - 1];
    var slots := Tc.Present(lim, dir, before);
    Orderly(lim, dir, before) && (e.Arrive? <==> Tc.Find(slots, e.idx) == |slots|)
  }

  /** After the events `es`, all in order, exactly the authenticated records are attached. */
  predicate Mirrors(cfg: Config, lim: Tc.Limits, dir: Tc.Direction, es: seq<Tc.Event>, cs: seq<Client>) {
    Orderly(lim, dir, es) && Attached(Tc.Present(lim, dir, es)) == Authenticated(cfg, cs)
  }

  lemma {:induction false} OrderlySnoc(lim: Tc.Limits, dir: Tc.Direction, es: seq<Tc.Event>, e: Tc.Event)
    requires Orderly(lim, dir, es)
    requires var slots := Tc.Present(lim, dir, es); e.Arrive? <==> Tc.Find(slots, e.idx) == |slots|
    ensures Orderly(lim, dir, es + [e])
  {
    hide Tc.Present, Tc.Find;
    assert (es + [e])[..|es|] == es;
  }

  lemma {:induction false} PresentSnoc(lim: Tc.Limits, dir: Tc.Direction, es: seq<Tc.Event>, e: Tc.Event)
    ensures Tc.Present(lim, dir, es + [e]) == Tc.Next(lim, dir, Tc.Present(lim, dir, es), e)
  {
    hide Tc.Next;
    assert (es + [e])[..|es|] == es;
  }

  lemma {:induction false} ArriveAttaches(lim: Tc.Limits, dir: Tc.Direction, slots: seq<Tc.Slot>, e: Tc.Event)
    requires e.Arrive? && Tc.Find(slots, e.idx) == |slots|
    ensures Attached(Tc.Next(lim, dir, slots, e)) == Attached(slots) + {(e.idx, e.ip)}
  {
    hide Tc.Find, Tc.AttachLimit;
    var next := Tc.Next(lim, dir, slots, e);
    assert next[|slots|].idx == e.idx && next[|slots|].ip == e.ip;
    assert forall i :: 0 <= i < |slots| ==> next[i] == slots[i];
    forall x | x in Attached(slots) + {(e.idx, e.ip)} ensures x in Attached(next) {
      if x in Attached(slots) {
        var i :| 0 <= i < |slots| && x == (slots[i].idx, slots[i].ip);
        assert x == (next[i].idx, next[i].ip);
      } else {
        assert x == (next[|slots|].idx, next[|slots|].ip);
      }
    }
  }

  lemma {:induction false} FindIs(slots: seq<Tc.Slot>, m: nat)
    requires Tc.Distinct(slots) && m < |slots|
    ensures Tc.Find(slots, slots[m].idx) == m
  {
  }

  lemma {:induction false} LeaveDetaches(lim: Tc.Limits, dir: Tc.Direction, slots: seq<Tc.Slot>, e: Tc.Event, ip: string)
    requires e.Leave? && Tc.Distinct(slots) && (e.idx, ip) in Attached(slots)
    ensures Attached(Tc.Next(lim, dir, slots, e)) == Attached(slots) - {(e.idx, ip)}
    ensures Tc.Find(slots, e.idx) < |slots|
  {
    var m :| 0 <= m < |slots| && (slots[m].idx, slots[m].ip) == (e.idx, ip);
    FindIs(slots, m);
    hide Tc.Find, Tc.Distinct;
    var k := Tc.Find(slots, e.idx);
    var next := Tc.Next(lim, dir, slots, e);
    assert forall i :: 0 <= i < |next| ==> next[i] == slots[if i < k then i else i + 1];
    forall x | x in Attached(slots) - {(e.idx, ip)} ensures x in Attached(next) {
      var i :| 0 <= i < |slots| && x == (slots[i].idx, slots[i].ip);
      var j := if i < k then i else i - 1;
      assert x == (next[j].idx, next[j].ip);
    }
  }

  /** Id and address of the authenticated records but for the one at `k`. */
  function Others(cfg: Config, cs: seq<Client>, k: nat): (r: set<(nat, string)>) {
    set i | 0 <= i < |cs| && i != k && cs[i].state == cfg.authMark :: (cs[i].id, cs[i].ip)
  }

  function One(cfg: Config, c: Client): (r: set<(nat, string)>) {
    if c.state == cfg.authMark then {(c.id, c.ip)} else {}
  }

  lemma {:induction false} AuthenticatedSplit(cfg: Config, cs: seq<Client>, k: nat)
    requires k < |cs|
    ensures Authenticated(cfg, cs) == Others(cfg, cs, k) + One(cfg, cs[k])
  {
    forall x | x in Authenticated(cfg, cs) ensures x in Others(cfg, cs, k) + One(cfg, cs[k]) {
      var i :| 0 <= i < |cs| && cs[i].state == cfg.authMark && x == (cs[i].id, cs[i].ip);
      if i == k { assert x in One(cfg, cs[k]); }
    }
  }

  lemma {:induction false} OthersUpdate(cfg: Config, cs: seq<Client>, k: nat, d: Client)
    requires k < |cs|
    ensures Others(cfg, cs[k := d], k) == Others(cfg, cs, k)
  {
    var ds := cs[k := d];
    assert forall i :: 0 <= i < |cs| && i != k ==> ds[i] == cs[i];
  }

  lemma {:induction false} AuthenticatedUpdate(cfg: Config, cs: seq<Client>, k: nat, d: Client)
    requires k < |cs|
    ensures Authenticated(cfg, cs[k := d]) == Others(cfg, cs, k) + One(cfg, d)
  {
    hide Authenticated, Others, One;
    OthersUpdate(cfg, cs, k, d);
    AuthenticatedSplit(cfg, cs[k := d], k);
  }

  lemma {:induction false} AuthenticatedRemove(cfg: Config, cs: seq<Client>, k: nat)
    requires k < |cs|
    ensures Authenticated(cfg, Iptables.RemoveAt(cs, k)) == Others(cfg, cs, k)
  {
    var ds := Iptables.RemoveAt(cs, k);
    forall x | x in Others(cfg, cs, k) ensures x in Authenticated(cfg, ds) {
      var i :| 0 <= i < |cs| && i != k && cs[i].state == cfg.authMark && x == (cs[i].id, cs[i].ip);
      var j := if i < k then i else i - 1;
      assert ds[j] == cs[i];
    }
    forall x | x in Authenticated(cfg, ds) ensures x in Others(cfg, cs, k) {
      var j :| 0 <= j < |ds| && ds[j].state == cfg.authMark && x == (ds[j].id, ds[j].ip);
      var i := if j < k then j else j + 1;
      assert cs[i] == ds[j];
    }
  }

  lemma {:induction false} AuthenticatedAppend(cfg: Config, cs: seq<Client>, c: Client)
    ensures Authenticated(cfg, cs + [c]) == Authenticated(cfg, cs) + One(cfg, c)
  {
    var ds := cs + [c];
    AuthenticatedSplit(cfg, ds, |cs|);
    forall x | x in Authenticated(cfg, cs) ensures x in Others(cfg, ds, |cs|) {
      var i :| 0 <= i < |cs| && cs[i].state == cfg.authMark && x == (cs[i].id, cs[i].ip);
      assert ds[i] == cs[i];
    }
    forall x | x in Others(cfg, ds, |cs|) ensures x in Authenticated(cfg, cs) {
      var i :| 0 <= i < |ds| && i != |cs| && ds[i].state == cfg.authMark && x == (ds[i].id, ds[i].ip);
      assert ds[i] == cs[i];
    }
  }

  /** The id of a record that authenticates, or is authenticated, is not that of another
      authenticated record. */
  lemma {:induction false} NotTwice(cfg: Config, cs: seq<Client>, k: nat)
    requires k < |cs| && AuthFirst(cfg, cs) && (cs[k].state == cfg.authMark || First(cs, ById(cs[k].id)) == k)
    ensures forall x :: x in Others(cfg, cs, k) ==> x.0 != cs[k].id
  {
    forall i | 0 <= i < |cs| && i != k && cs[i].state == cfg.authMark ensures cs[i].id != cs[k].id {
      if i < k && cs[k].state != cfg.authMark { assert !ById(cs[k].id)(cs[i]); }
    }
  }

  lemma {:induction false} FindAttached(slots: seq<Tc.Slot>, id: nat)
    requires forall x :: x in Attached(slots) ==> x.0 != id
    ensures Tc.Find(slots, id) == |slots|
  {
    var k := Tc.Find(slots, id);
    assert k < |slots| ==> (slots[k].idx, slots[k].ip) in Attached(slots);
  }

  // ---------------------------------------------------------------- every step keeps it

  lemma {:induction false} ArriveMirrors(cfg: Config, lim: Tc.Limits, dir: Tc.Direction, es: seq<Tc.Event>, cs: seq<Client>, k: nat)
    requires Mirrors(cfg, lim, dir, es, cs) && k < |cs| && AuthFirst(cfg, cs)
    requires cs[k].state != cfg.authMark && First(cs, ById(cs[k].id)) == k
    ensures Mirrors(cfg, lim, dir, es + [Tc.Arrive(cs[k].id, cs[k].ip, LimitsOf(cs[k]))], cs[k := cs[k].(state := cfg.authMark)])
  {
    var c := cs[k];
    var e := Tc.Arrive(c.id, c.ip, LimitsOf(c));
    var slots := Tc.Present(lim, dir, es);
    NotTwice(cfg, cs, k);
    AuthenticatedSplit(cfg, cs, k);
    AuthenticatedUpdate(cfg, cs, k, c.(state := cfg.authMark));
    hide Authenticated, Others, AuthFirst, First, Attached, Tc.Present, Tc.Next, Tc.Find;
    hide Orderly;
    FindAttached(slots, c.id);
    ArriveAttaches(lim, dir, slots, e);
    PresentSnoc(lim, dir, es, e);
    OrderlySnoc(lim, dir, es, e);
  }

  lemma {:induction false} LeaveMirrors(cfg: Config, lim: Tc.Limits, dir: Tc.Direction, es: seq<Tc.Event>, cs: seq<Client>, k: nat,
                                        ds: seq<Client>)
    requires Mirrors(cfg, lim, dir, es, cs) && k < |cs| && AuthFirst(cfg, cs) && cs[k].state == cfg.authMark
    requires Authenticated(cfg, ds) == Others(cfg, cs, k)
    ensures Mirrors(cfg, lim, dir, es + [Tc.Leave(cs[k].id, LimitsOf(cs[k]))], ds)
  {
    var c := cs[k];
    var e := Tc.Leave(c.id, LimitsOf(c));
    var slots := Tc.Present(lim, dir, es);
    NotTwice(cfg, cs, k);
    AuthenticatedSplit(cfg, cs, k);
    hide Authenticated, Others, AuthFirst, Attached, Tc.Present, Tc.Next, Tc.Find;
    Tc.PresentDistinct(lim, dir, es);
    hide Orderly;
    LeaveDetaches(lim, dir, slots, e, c.ip);
    PresentSnoc(lim, dir, es, e);
    OrderlySnoc(lim, dir, es, e);
  }

  lemma {:induction false} ChangeMirrors(cfg: Config, lim: Tc.Limits, dir: Tc.Direction, es: seq<Tc.Event>,
                                         s: State, k: nat, to: Iptables.Mark, now: int, token: string)
    requires ValidMarks(cfg) && k < |s.clients| && AuthFirst(cfg, s.clients) && Mirrors(cfg, lim, dir, es, s.clients)
    requires to == cfg.authMark ==> First(s.clients, ById(s.clients[k].id)) == k
    ensures Mirrors(cfg, lim, dir, es + ChangeEvents(cfg, s.clients[k], to), ChangeState(cfg, s, k, to, now, token).0.clients)
  {
    hide Mirrors, AuthFirst, First, FwAuthenticate, FwDeauthenticate, AddMac, Authenticated, Others;
    var c, cs := s.clients[k], s.clients;
    if c.state == PREAUTHENTICATED && to == cfg.authMark {
      ArriveMirrors(cfg, lim, dir, es, cs, k);
    } else if c.state == cfg.authMark && to == PREAUTHENTICATED {
      var d := ResetClient(c, now, token).(state := to);
      AuthenticatedUpdate(cfg, cs, k, d);
      LeaveMirrors(cfg, lim, dir, es, cs, k, cs[k := d]);
    } else if c.state == cfg.authMark && to == cfg.blockedMark {
      AuthenticatedRemove(cfg, cs, k);
      LeaveMirrors(cfg, lim, dir, es, cs, k, Iptables.RemoveAt(cs, k));
    } else {
      assert es + [] == es;
    }
  }

  lemma {:induction false} ByIdMirrors(cfg: Config, lim: Tc.Limits, dir: Tc.Direction, es: seq<Tc.Event>, s: State, id: nat, now: int, token: string)
    requires ValidMarks(cfg) && AuthFirst(cfg, s.clients) && Mirrors(cfg, lim, dir, es, s.clients)
    ensures Mirrors(cfg, lim, dir, es + ByIdEvents(cfg, s, id, cfg.authMark), AuthById(cfg, s, id, now).0.clients)
    ensures Mirrors(cfg, lim, dir, es + ByIdEvents(cfg, s, id, PREAUTHENTICATED), DeauthById(cfg, s, id, now, token).0.clients)
  {
    var k := First(s.clients, ById(id));
    hide Mirrors, AuthFirst, ChangeState, ChangeEvents;
    if k < |s.clients| {
      assert s.clients[k].id == id;
      ChangeMirrors(cfg, lim, dir, es, s, k, cfg.authMark, now, "");
      ChangeMirrors(cfg, lim, dir, es, s, k, PREAUTHENTICATED, now, token);
    } else {
      assert es + [] == es;
    }
  }

  /** Replacing a record by one with the same id, address and state. */
  lemma {:induction false} SameMirrors(cfg: Config, lim: Tc.Limits, dir: Tc.Direction, es: seq<Tc.Event>, cs: seq<Client>, k: nat, d: Client)
    requires k < |cs| && Mirrors(cfg, lim, dir, es, cs)
    requires d.id == cs[k].id && d.ip == cs[k].ip && d.state == cs[k].state
    ensures Mirrors(cfg, lim, dir, es, cs[k := d])
  {
    hide Authenticated, Others, Attached;
    AuthenticatedSplit(cfg, cs, k);
    AuthenticatedUpdate(cfg, cs, k, d);
  }

  lemma {:induction false} HttpMirrors(cfg: Config, lim: Tc.Limits, dir: Tc.Direction, es: seq<Tc.Event>, s: State,
                                       mac: string, ip: string, token: string, seconds: nat, upload: nat, download: nat, now: int)
    requires ValidMarks(cfg) && AuthFirst(cfg, s.clients) && Mirrors(cfg, lim, dir, es, s.clients)
    ensures Mirrors(cfg, lim, dir, es + StepEvents(cfg, s, Http(mac, ip, token, seconds, upload, download, now)),
                    HttpAuth(cfg, s, mac, ip, token, seconds, upload, download, now).clients)
  {
    hide Mirrors, AuthFirst, First, AuthById, ByIdEvents;
    assert es + [] == es;
    var k := First(s.clients, ByPair(mac, ip));
    if k < |s.clients| {
      var id := s.clients[k].id;
      ByIdMirrors(cfg, lim, dir, es, s, id, now, "");
      var t := AuthById(cfg, s, id, now).0;
      SameMirrors(cfg, lim, dir, es + ByIdEvents(cfg, s, id, cfg.authMark), t.clients, k,
                  t.clients[k].(downloadLimit := download, uploadLimit := upload,
                                sessionStart := now, sessionEnd := if seconds > 0 then now + seconds else 0));
    }
  }

  lemma {:induction false} CountersMirror(cfg: Config, lim: Tc.Limits, dir: Tc.Direction, es: seq<Tc.Event>, cs: seq<Client>,
                                          out: seq<(string, nat)>, inc: seq<(string, nat)>, now: int)
    requires Mirrors(cfg, lim, dir, es, cs)
    ensures Mirrors(cfg, lim, dir, es, Counters(cs, out, inc, now))
    decreases |out| + |inc|
  {
    hide Mirrors, First;
    if out != [] {
      var k := First(cs, ByIp(out[0].0));
      if k < |cs| { SameMirrors(cfg, lim, dir, es, cs, k, cs[k].(outgoing := out[0].1, lastUpdated := now)); }
      CountersMirror(cfg, lim, dir, es, CountOutgoing(cs, out[0].0, out[0].1, now), out[1..], inc, now);
    } else if inc != [] {
      var k := First(cs, ByIp(inc[0].0));
      if k < |cs| { SameMirrors(cfg, lim, dir, es, cs, k, cs[k].(incoming := inc[0].1)); }
      CountersMirror(cfg, lim, dir, es, CountIncoming(cs, inc[0].0, inc[0].1), [], inc[1..], now);
    }
  }

  /** Discarding a record that is not authenticated. */
  lemma {:induction false} DiscardMirrors(cfg: Config, lim: Tc.Limits, dir: Tc.Direction, es: seq<Tc.Event>, cs: seq<Client>, k: nat)
    requires k < |cs| && cs[k].state != cfg.authMark && Mirrors(cfg, lim, dir, es, cs)
    ensures Mirrors(cfg, lim, dir, es, Iptables.RemoveAt(cs, k))
  {
    hide Authenticated, Others, Attached;
    AuthenticatedSplit(cfg, cs, k);
    AuthenticatedRemove(cfg, cs, k);
  }

  lemma {:induction false} VisitMirrors(cfg: Config, lim: Tc.Limits, dir: Tc.Direction, es: seq<Tc.Event>, s: State, k: nat, now: int, token: string)
    requires ValidMarks(cfg) && k < |s.clients| && AuthFirst(cfg, s.clients) && Mirrors(cfg, lim, dir, es, s.clients)
    ensures Mirrors(cfg, lim, dir, es + VisitEvents(cfg, s.clients[k], now), SweepAt(cfg, s, k, now, token).clients)
  {
    hide Mirrors, AuthFirst, ChangeState, ChangeEvents;
    assert es + [] == es;
    match Decide(cfg, s.clients[k], now)
    case Keep =>
    case Discard => DiscardMirrors(cfg, lim, dir, es, s.clients, k);
    case ToState(to) => ChangeMirrors(cfg, lim, dir, es, s, k, to, now, token);
  }

  lemma {:induction false} SweepMirrors(cfg: Config, lim: Tc.Limits, dir: Tc.Direction, es: seq<Tc.Event>,
                                        s: State, i: nat, now: int, rnd: nat -> string, visit: nat)
    requires ValidMarks(cfg) && i <= |s.clients| && AuthFirst(cfg, s.clients) && Mirrors(cfg, lim, dir, es, s.clients)
    ensures Mirrors(cfg, lim, dir, es + SweepEvents(cfg, s, i, now, rnd, visit), Sweep(cfg, s, i, now, rnd, visit).clients)
    decreases |s.clients| - i
  {
    hide Mirrors, AuthFirst, SweepAt, First, VisitEvents;
    if i < |s.clients| {
      SweepStep(cfg, s, i, now, rnd, visit);
      hide Sweep;
      var k := First(s.clients, ById(s.clients[i].id));
      var t := SweepAt(cfg, s, k, now, rnd(visit));
      SweepLength(cfg, s, k, now, rnd(visit));
      var i' := if |t.clients| < |s.clients| then i else i + 1;
      var here := VisitEvents(cfg, s.clients[k], now);
      VisitMirrors(cfg, lim, dir, es, s, k, now, rnd(visit));
      SweepAtFirst(cfg, s, k, now, rnd(visit));
      SweepMirrors(cfg, lim, dir, es + here, t, i', now, rnd, visit + 1);
      assert es + (here + SweepEvents(cfg, t, i', now, rnd, visit + 1)) == es + here + SweepEvents(cfg, t, i', now, rnd, visit + 1);
    } else {
      assert es + [] == es;
    }
  }

  lemma {:induction false} DeauthAllMirrors(cfg: Config, lim: Tc.Limits, dir: Tc.Direction, es: seq<Tc.Event>,
                                            s: State, i: nat, now: int, rnd: nat -> string)
    requires ValidMarks(cfg) && i <= |s.clients| && AuthFirst(cfg, s.clients) && Mirrors(cfg, lim, dir, es, s.clients)
    ensures Mirrors(cfg, lim, dir, es + DeauthAllEvents(cfg, s, i, now, rnd), DeauthAll(cfg, s, i, now, rnd).clients)
    decreases |s.clients| - i
  {
    hide Mirrors, AuthFirst, ChangeState, First, ChangeEvents;
    if i < |s.clients| {
      var k := First(s.clients, ById(s.clients[i].id));
      var t := ChangeState(cfg, s, k, PREAUTHENTICATED, now, rnd(i)).0;
      var here, rest := ChangeEvents(cfg, s.clients[k], PREAUTHENTICATED), DeauthAllEvents(cfg, t, i + 1, now, rnd);
      ChangeMirrors(cfg, lim, dir, es, s, k, PREAUTHENTICATED, now, rnd(i));
      ChangeStateFirst(cfg, s, k, PREAUTHENTICATED, now, rnd(i));
      DeauthAllMirrors(cfg, lim, dir, es + here, t, i + 1, now, rnd);
      assert es + (here + rest) == es + here + rest;
    } else {
      assert es + [] == es;
    }
  }

  lemma {:induction false} AddMirrors(cfg: Config, lim: Tc.Limits, dir: Tc.Direction, es: seq<Tc.Event>, cs: seq<Client>, c: Client)
    requires Mirrors(cfg, lim, dir, es, cs) && c.state != cfg.authMark
    ensures Mirrors(cfg, lim, dir, es, cs + [c])
  {
    hide Authenticated, Attached;
    AuthenticatedAppend(cfg, cs, c);
  }

  lemma {:induction false} ImportClientMirrors(cfg: Config, lim: Tc.Limits, dir: Tc.Direction, es: seq<Tc.Event>,
                                               s: State, j: Json, now: int, token: string)
    requires ValidMarks(cfg) && AuthFirst(cfg, s.clients) && Mirrors(cfg, lim, dir, es, s.clients)
    ensures Mirrors(cfg, lim, dir, es + ImportClientEvents(cfg, s, j, now, token), ImportClient(cfg, s, j, now, token).0.clients)
  {
    hide Mirrors, AuthFirst, AddClient, NewClient, First, Fill, ChangeState, ChangeEvents, GetString, GetInt, Wrap32, Uint64, StartState;
    assert es + [] == es;
    var mac, ip, id := GetString(j, KMac), GetString(j, KIp), GetInt(j, KId);
    if mac.Some? && ip.Some? && id.Some? && First(s.clients, ByPair(mac.value, ip.value)) == |s.clients|
       && First(s.clients, ById(Wrap32(Uint64(id.value)))) == |s.clients| {
      AddedAtTheEnd(cfg, s, mac.value, ip.value, now, token);
      var (t, k) := AddClient(cfg, s, mac.value, ip.value, now, token);
      if k.Some? {
        var (c, state) := Fill(t.clients[k.value], j);
        var u := t.(clients := t.clients[k.value := c]);
        NewClientState(cfg, s, mac.value, ip.value, now, token);
        NeverStartsAuthenticated(cfg, s, mac.value);
        FilledIdentity(t.clients[k.value], j);
        AddMirrors(cfg, lim, dir, es, s.clients, c);
        FirstAppend(cfg, s.clients, c);
        assert u.clients == s.clients + [c];
        if state.Some? {
          FirstOfNew(s.clients, c);
          ChangeMirrors(cfg, lim, dir, es, u, k.value, state.value, now, token);
        }
      }
    }
  }

  lemma {:induction false} ImportAllMirrors(cfg: Config, lim: Tc.Limits, dir: Tc.Direction, es: seq<Tc.Event>,
                                            s: State, elems: seq<Json>, rc: int, now: int, rnd: nat -> string, i: nat)
    requires ValidMarks(cfg) && AuthFirst(cfg, s.clients) && Mirrors(cfg, lim, dir, es, s.clients)
    ensures Mirrors(cfg, lim, dir, es + ImportAllEvents(cfg, s, elems, now, rnd, i), ImportAll(cfg, s, elems, rc, now, rnd, i).0.clients)
    decreases |elems|
  {
    hide Mirrors, AuthFirst, ImportClient, ImportClientEvents;
    assert es + [] == es;
    if elems != [] && elems[0].JsonObject? {
      var (t, r) := ImportClient(cfg, s, elems[0], now, rnd(i));
      var here := ImportClientEvents(cfg, s, elems[0], now, rnd(i));
      ImportClientMirrors(cfg, lim, dir, es, s, elems[0], now, rnd(i));
      assert here + [] == here;
      if r == 0 {
        var rest := ImportAllEvents(cfg, t, elems[1..], now, rnd, i + 1);
        ImportClientFirst(cfg, s, elems[0], now, rnd(i));
        ImportAllMirrors(cfg, lim, dir, es + here, t, elems[1..], 0, now, rnd, i + 1);
        assert es + (here + rest) == es + here + rest;
      }
    }
  }

  lemma {:induction false} LoadMirrors(cfg: Config, lim: Tc.Limits, dir: Tc.Direction, es: seq<Tc.Event>,
                                       s: State, f: File, now: int, rnd: nat -> string)
    requires ValidMarks(cfg) && AuthFirst(cfg, s.clients) && Mirrors(cfg, lim, dir, es, s.clients)
    ensures Mirrors(cfg, lim, dir, es + LoadEvents(cfg, s, f, now, rnd), Import(cfg, s, f, now, rnd).0.clients)
  {
    hide Mirrors, AuthFirst, ImportAll, ImportAllEvents;
    assert es + [] == es;
    if f.Parsed? && f.top.JsonObject? && KClients in f.top.fields && f.top.fields[KClients].JsonArray? {
      ImportAllMirrors(cfg, lim, dir, es, s, f.top.fields[KClients].elems, -EINVAL, now, rnd, 0);
    }
  }

  lemma {:induction false} StepMirrors(cfg: Config, lim: Tc.Limits, dir: Tc.Direction, es: seq<Tc.Event>, s: State, step: Step)
    requires ValidMarks(cfg) && AuthFirst(cfg, s.clients) && Mirrors(cfg, lim, dir, es, s.clients) && !Flushes(cfg, s, step)
    ensures Mirrors(cfg, lim, dir, es + StepEvents(cfg, s, step), Next(cfg, s, step).clients)
  {
    hide Mirrors, AuthFirst, AddClient, HttpAuth, AuthById, DeauthById, AddMac, RemoveMac, Counters, Sweep, DeauthAll, Import,
         ByIdEvents, SweepEvents, DeauthAllEvents, LoadEvents, NewClient;
    assert es + [] == es;
    match step
    case Add(mac, ip, now, token) =>
      Mirror.AddClientCases(cfg, s, mac, ip, now, token);
      if Next(cfg, s, step) != s { AddMirrors(cfg, lim, dir, es, s.clients, NewClient(cfg, s, mac, ip, now, token)); }
    case Http(mac, ip, token, seconds, upload, download, now) =>
      HttpMirrors(cfg, lim, dir, es, s, mac, ip, token, seconds, upload, download, now);
    case Auth(id, now) => ByIdMirrors(cfg, lim, dir, es, s, id, now, "");
    case Deauth(id, now, token) => ByIdMirrors(cfg, lim, dir, es, s, id, now, token);
    case MacOn(l, mac) => MacFrameClients(cfg, s, l, mac);
    case MacOff(l, mac) => MacFrameClients(cfg, s, l, mac);
    case Count(out, inc, now) => CountersMirror(cfg, lim, dir, es, s.clients, out, inc, now);
    case Refresh(now, rnd) => SweepMirrors(cfg, lim, dir, es, s, 0, now, rnd, 0);
    case DeauthEveryone(now, rnd) => DeauthAllMirrors(cfg, lim, dir, es, s, 0, now, rnd);
    case Load(file, now, rnd) => LoadMirrors(cfg, lim, dir, es, s, file, now, rnd);
  }

  lemma {:induction false} LogMirrors(cfg: Config, lim: Tc.Limits, dir: Tc.Direction, es: seq<Tc.Event>, s: State, steps: seq<Step>)
    requires ValidMarks(cfg) && AuthFirst(cfg, s.clients) && Mirrors(cfg, lim, dir, es, s.clients) && FlushFree(cfg, s, steps)
    ensures Mirrors(cfg, lim, dir, es + Log(cfg, s, steps), Run(cfg, s, steps).clients)
    decreases |steps|
  {
    hide Mirrors, AuthFirst, Next, StepEvents, Flushes;
    if steps == [] {
      assert es + [] == es;
    } else {
      var t, here := Next(cfg, s, steps[0]), StepEvents(cfg, s, steps[0]);
      StepMirrors(cfg, lim, dir, es, s, steps[0]);
      StepFirst(cfg, s, steps[0]);
      LogMirrors(cfg, lim, dir, es + here, t, steps[1..]);
      assert es + (here + Log(cfg, t, steps[1..])) == es + here + Log(cfg, t, steps[1..]);
    }
  }

  // ---------------------------------------------------------------- the limits

  /** Every attached client has a positive limit, and none above the configured one. */
  lemma {:induction false} PresentLimits(lim: Tc.Limits, dir: Tc.Direction, es: seq<Tc.Event>)
    requires Tc.Pick(lim, dir) > 0
    ensures forall i :: 0 <= i < |Tc.Present(lim, dir, es)| ==> 0 < Tc.Present(lim, dir, es)[i].limit <= Tc.Pick(lim, dir)
  {
    if es != [] {
      hide Tc.AttachLimit, Tc.Find;
      var before, e := es[..|es| - 1], es[|es| - 1];
      PresentLimits(lim, dir, before);
      if e.Arrive? { Tc.ShapedExactly(lim, e.client, e.client, dir); }
    }
  }

  /** The request for the authentication page attaches before it writes its limits: what it does to the
      devices does not depend on them. */
  lemma {:induction false} RequestLimitsComeLate(cfg: Config, s: State, mac: string, ip: string, token: string,
                                                 seconds: nat, up: nat, down: nat, up': nat, down': nat, now: int)
    ensures StepEvents(cfg, s, Http(mac, ip, token, seconds, up, down, now))
         == StepEvents(cfg, s, Http(mac, ip, token, seconds, up', down', now))
    ensures var es := StepEvents(cfg, s, Http(mac, ip, token, seconds, up, down, now));
            es == [] ||
            exists j :: 0 <= j < |s.clients| && es == [Tc.Arrive(s.clients[j].id, s.clients[j].ip, LimitsOf(s.clients[j]))]
  {
    hide First, LimitsOf;
    var k := First(s.clients, ByPair(mac, ip));
    if k < |s.clients| {
      var j := First(s.clients, ById(s.clients[k].id));
      assert j < |s.clients| ==> ChangeEvents(cfg, s.clients[j], cfg.authMark) == []
                                 || ChangeEvents(cfg, s.clients[j], cfg.authMark)
                                    == [Tc.Arrive(s.clients[j].id, s.clients[j].ip, LimitsOf(s.clients[j]))];
    }
  }

  /** A client without limits of its own is attached with the configured ones, whatever the request that
      authenticates it asks for. */
  lemma {:induction false} FirstSessionLimits(lim: Tc.Limits, dir: Tc.Direction, c: Client)
    requires c.downloadLimit == 0 && c.uploadLimit == 0
    ensures Tc.AttachLimit(lim, LimitsOf(c), dir) == Tc.Pick(lim, dir)
  {
  }

  /** The same client with the same limits. */
  predicate SameClient(c: Client, d: Client) {
    d.id == c.id && d.mac == c.mac && d.ip == c.ip && d.downloadLimit == c.downloadLimit && d.uploadLimit == c.uploadLimit
  }

  predicate Stems(cs: seq<Client>, d: Client) {
    exists i :: 0 <= i < |cs| && SameClient(cs[i], d)
  }

  /** Every record of `ds` was in `cs`, with its limits. */
  predicate Keeps(cs: seq<Client>, ds: seq<Client>) {
    forall j :: 0 <= j < |ds| ==> Stems(cs, ds[j])
  }

  lemma {:induction false} KeepsSame(cs: seq<Client>)
    ensures Keeps(cs, cs)
  {
    forall j | 0 <= j < |cs| ensures Stems(cs, cs[j]) { assert SameClient(cs[j], cs[j]); }
  }

  lemma {:induction false} KeepsTrans(a: seq<Client>, b: seq<Client>, c: seq<Client>)
    requires Keeps(a, b) && Keeps(b, c)
    ensures Keeps(a, c)
  {
    forall j | 0 <= j < |c| ensures Stems(a, c[j]) {
      assert Stems(b, c[j]);
      var k :| 0 <= k < |b| && SameClient(b[k], c[j]);
      assert Stems(a, b[k]);
      var i :| 0 <= i < |a| && SameClient(a[i], b[k]);
      assert SameClient(a[i], c[j]);
    }
  }

  lemma {:induction false} KeepsUpdate(cs: seq<Client>, k: nat, d: Client)
    requires k < |cs| && SameClient(cs[k], d)
    ensures Keeps(cs, cs[k := d])
  {
    var ds := cs[k := d];
    forall j | 0 <= j < |ds| ensures Stems(cs, ds[j]) { assert SameClient(cs[j], ds[j]); }
  }

  lemma {:induction false} KeepsRemove(cs: seq<Client>, k: nat)
    requires k < |cs|
    ensures Keeps(cs, Iptables.RemoveAt(cs, k))
  {
    var ds := Iptables.RemoveAt(cs, k);
    forall j | 0 <= j < |ds| ensures Stems(cs, ds[j]) {
      assert SameClient(cs[if j < k then j else j + 1], ds[j]);
    }
  }

  lemma {:induction false} ChangeKeeps(cfg: Config, s: State, k: nat, to: Iptables.Mark, now: int, token: string)
    requires k < |s.clients|
    ensures Keeps(s.clients, ChangeState(cfg, s, k, to, now, token).0.clients)
  {
    KeepsSame(s.clients);
    hide Keeps, FwAuthenticate, FwDeauthenticate, AddMac;
    var c := s.clients[k];
    if c.state == PREAUTHENTICATED && to == cfg.authMark {
      KeepsUpdate(s.clients, k, c.(state := to));
    } else if c.state == cfg.authMark && to == PREAUTHENTICATED {
      KeepsUpdate(s.clients, k, ResetClient(c, now, token).(state := to));
    } else if c.state == cfg.authMark && to == cfg.blockedMark {
      KeepsRemove(s.clients, k);
    }
  }

  lemma {:induction false} ByIdKeeps(cfg: Config, s: State, id: nat, now: int, token: string)
    ensures Keeps(s.clients, AuthById(cfg, s, id, now).0.clients)
    ensures Keeps(s.clients, DeauthById(cfg, s, id, now, token).0.clients)
  {
    KeepsSame(s.clients);
    hide Keeps, ChangeState, First;
    var k := First(s.clients, ById(id));
    if k < |s.clients| {
      ChangeKeeps(cfg, s, k, cfg.authMark, now, "");
      ChangeKeeps(cfg, s, k, PREAUTHENTICATED, now, token);
    }
  }

  lemma {:induction false} CountersKept(cs: seq<Client>, out: seq<(string, nat)>, inc: seq<(string, nat)>, now: int)
    ensures Keeps(cs, Counters(cs, out, inc, now))
  {
    hide First;
    forall j | 0 <= j < |cs| ensures Stems(cs, Counters(cs, out, inc, now)[j]) {
      CountersExactly(cs, out, inc, now, j);
      hide Counters;
      assert SameClient(cs[j], Counters(cs, out, inc, now)[j]);
    }
  }

  lemma {:induction false} SweepAtKept(cfg: Config, s: State, k: nat, now: int, token: string)
    requires k < |s.clients|
    ensures Keeps(s.clients, SweepAt(cfg, s, k, now, token).clients)
  {
    KeepsSame(s.clients);
    hide Keeps, ChangeState;
    match Decide(cfg, s.clients[k], now)
    case Keep =>
    case Discard => KeepsRemove(s.clients, k);
    case ToState(to) => ChangeKeeps(cfg, s, k, to, now, token);
  }

  lemma {:induction false} SweepKept(cfg: Config, s: State, i: nat, now: int, rnd: nat -> string, visit: nat)
    requires i <= |s.clients|
    ensures Keeps(s.clients, Sweep(cfg, s, i, now, rnd, visit).clients)
    decreases |s.clients| - i
  {
    KeepsSame(s.clients);
    if i < |s.clients| {
      hide Keeps, SweepAt, First, Sweep;
      SweepStep(cfg, s, i, now, rnd, visit);
      var k := First(s.clients, ById(s.clients[i].id));
      var t := SweepAt(cfg, s, k, now, rnd(visit));
      var i' := if |t.clients| < |s.clients| then i else i + 1;
      SweepAtKept(cfg, s, k, now, rnd(visit));
      SweepKept(cfg, t, i', now, rnd, visit + 1);
      KeepsTrans(s.clients, t.clients, Sweep(cfg, t, i', now, rnd, visit + 1).clients);
    }
  }

  lemma {:induction false} DeauthAllKept(cfg: Config, s: State, i: nat, now: int, rnd: nat -> string)
    requires i <= |s.clients|
    ensures Keeps(s.clients, DeauthAll(cfg, s, i, now, rnd).clients)
    decreases |s.clients| - i
  {
    KeepsSame(s.clients);
    hide Keeps, ChangeState, First;
    if i < |s.clients| {
      var k := First(s.clients, ById(s.clients[i].id));
      var t := ChangeState(cfg, s, k, PREAUTHENTICATED, now, rnd(i)).0;
      ChangeKeeps(cfg, s, k, PREAUTHENTICATED, now, rnd(i));
      DeauthAllKept(cfg, t, i + 1, now, rnd);
      KeepsTrans(s.clients, t.clients, DeauthAll(cfg, t, i + 1, now, rnd).clients);
    }
  }

  /** Every step but adding a client, a request for the authentication page and an import. */
  lemma {:induction false} StepKept(cfg: Config, s: State, step: Step)
    requires !step.Add? && !step.Http? && !step.Load?
    ensures Keeps(s.clients, Next(cfg, s, step).clients)
  {
    KeepsSame(s.clients);
    hide Keeps, AuthById, DeauthById, AddMac, RemoveMac, Counters, Sweep, DeauthAll;
    match step
    case Auth(id, now) => ByIdKeeps(cfg, s, id, now, "");
    case Deauth(id, now, token) => ByIdKeeps(cfg, s, id, now, token);
    case MacOn(l, mac) => MacFrameClients(cfg, s, l, mac);
    case MacOff(l, mac) => MacFrameClients(cfg, s, l, mac);
    case Count(out, inc, now) => CountersKept(s.clients, out, inc, now);
    case Refresh(now, rnd) => SweepKept(cfg, s, 0, now, rnd, 0);
    case DeauthEveryone(now, rnd) => DeauthAllKept(cfg, s, 0, now, rnd);
  }

  /** Whatever record has the id belongs to the client `c` and has its limits. */
  predicate Belongs(cs: seq<Client>, c: Client) {
    forall i :: 0 <= i < |cs| && cs[i].id == c.id ==> SameClient(c, cs[i])
  }

  lemma {:induction false} KeepsBelongs(cs: seq<Client>, ds: seq<Client>, c: Client)
    requires Keeps(cs, ds) && Belongs(cs, c)
    ensures Belongs(ds, c)
  {
    forall j | 0 <= j < |ds| && ds[j].id == c.id ensures SameClient(c, ds[j]) {
      assert Stems(cs, ds[j]);
      var i :| 0 <= i < |cs| && SameClient(cs[i], ds[j]);
    }
  }

  lemma {:induction false} HttpBelongs(cfg: Config, s: State, mac: string, ip: string, token: string,
                                       seconds: nat, up: nat, down: nat, now: int, c: Client)
    requires Belongs(s.clients, c) && (mac != c.mac || ip != c.ip)
    ensures Belongs(HttpAuth(cfg, s, mac, ip, token, seconds, up, down, now).clients, c)
  {
    var k := First(s.clients, ByPair(mac, ip));
    if k < |s.clients| {
      var id := s.clients[k].id;
      assert s.clients[k].mac == mac && s.clients[k].ip == ip;
      assert id != c.id;
      ByIdKeeps(cfg, s, id, now, "");
      KeepsBelongs(s.clients, AuthById(cfg, s, id, now).0.clients, c);
      AuthIds(cfg, s, id, now);
      hide First, AuthById, Keeps;
    }
  }

  lemma {:induction false} AuthIds(cfg: Config, s: State, id: nat, now: int)
    ensures forall i :: 0 <= i < |s.clients| ==> AuthById(cfg, s, id, now).0.clients[i].id == s.clients[i].id
  {
    hide First, FwAuthenticate, FwDeauthenticate, AddMac;
  }

  /** No request for the authentication page from the client, and no import. */
  predicate NoRequest(steps: seq<Step>, c: Client) {
    forall i :: 0 <= i < |steps| ==> !steps[i].Load? && !(steps[i].Http? && steps[i].mac == c.mac && steps[i].ip == c.ip)
  }

  lemma {:induction false} StepBelongs(cfg: Config, s: State, step: Step, c: Client)
    requires ValidMarks(cfg) && Belongs(s.clients, c) && c.id < s.nextId
    requires !step.Load? && !(step.Http? && step.mac == c.mac && step.ip == c.ip)
    ensures Belongs(Next(cfg, s, step).clients, c)
  {
    hide Keeps, AddClient, HttpAuth, NewClient;
    if step.Add? {
      Mirror.AddClientCases(cfg, s, step.mac, step.ip, step.now, step.token);
      NewClientId(cfg, s, step.mac, step.ip, step.now, step.token);
    } else if step.Http? {
      HttpBelongs(cfg, s, step.mac, step.ip, step.token, step.seconds, step.upload, step.download, step.now, c);
    } else {
      StepKept(cfg, s, step);
      hide Next;
      KeepsBelongs(s.clients, Next(cfg, s, step).clients, c);
    }
  }

  lemma {:induction false} RunBelongs(cfg: Config, s: State, steps: seq<Step>, c: Client)
    requires ValidMarks(cfg) && IdsSound(s) && Belongs(s.clients, c) && c.id < s.nextId && NoRequest(steps, c)
    ensures Belongs(Run(cfg, s, steps).clients, c)
    decreases |steps|
  {
    hide Next, Belongs, IdsSound, Final;
    if steps != [] {
      StepBelongs(cfg, s, steps[0], c);
      StepIds(cfg, s, steps[0]);
      RunBelongs(cfg, Next(cfg, s, steps[0]), steps[1..], c);
    }
  }

  /** The limits that a request brought are those with which the client arrives on the devices the next
      time, after any run without an import and another request of its own: the download limit on the
      download side, the upload limit on the upload side. */
  lemma {:induction false} LimitsOfTheNextSession(cfg: Config, s: State, k: nat, seconds: nat, upload: nat, download: nat, now: int,
                                                  steps: seq<Step>, lim: Tc.Limits)
    requires ValidMarks(cfg) && IdsSound(s) && k < |s.clients| && s.clients[k].state == PREAUTHENTICATED
    requires First(s.clients, ByPair(s.clients[k].mac, s.clients[k].ip)) == k && NoRequest(steps, s.clients[k])
    ensures var c := s.clients[k];
            var u := Run(cfg, HttpAuth(cfg, s, c.mac, c.ip, c.token, seconds, upload, download, now), steps);
            var j := First(u.clients, ById(c.id));
            j < |u.clients| && u.clients[j].state == PREAUTHENTICATED ==>
              ByIdEvents(cfg, u, c.id, cfg.authMark) == [Tc.Arrive(c.id, c.ip, Tc.Limits(download, upload))]
    ensures download > 0 && upload > 0 ==>
              && Tc.AttachLimit(lim, Tc.Limits(download, upload), Tc.Down) == Tc.Min(download, lim.download)
              && Tc.AttachLimit(lim, Tc.Limits(download, upload), Tc.Up) == Tc.Min(upload, lim.upload)
  {
    var c := s.clients[k];
    var step := Http(c.mac, c.ip, c.token, seconds, upload, download, now);
    var t := Next(cfg, s, step);
    assert t == HttpAuth(cfg, s, c.mac, c.ip, c.token, seconds, upload, download, now);
    HttpAuthRecord(cfg, s, k, seconds, upload, download, now);
    var d := t.clients[k];
    StepIds(cfg, s, step);
    assert Belongs(t.clients, d) by { OneOwner(t.clients, k); }
    assert d.id < t.nextId;
    hide HttpAuth, Run, Next, Belongs, IdsSound, Final;
    RunBelongs(cfg, t, steps, d);
    NextArrival(cfg, Run(cfg, t, steps), d);
  }

  lemma {:induction false} OneOwner(cs: seq<Client>, k: nat)
    requires DistinctIds(cs) && k < |cs|
    ensures Belongs(cs, cs[k])
  {
  }

  lemma {:induction false} NextArrival(cfg: Config, u: State, d: Client)
    requires ValidMarks(cfg) && Belongs(u.clients, d)
    ensures var j := First(u.clients, ById(d.id));
            j < |u.clients| && u.clients[j].state == PREAUTHENTICATED ==>
              ByIdEvents(cfg, u, d.id, cfg.authMark) == [Tc.Arrive(d.id, d.ip, Tc.Limits(d.downloadLimit, d.uploadLimit))]
  {
    var j := First(u.clients, ById(d.id));
    assert j < |u.clients| ==> u.clients[j].id == d.id;
    hide First;
  }

  /** In every run, imports included, short of one that fails and sets the devices up anew: a limited
      device holds what it held at first and, for each authenticated record and for nothing else, one
      client's classes, filters and disciplines, with a limit that is positive and not above the
      configured one; no attached client is ever attached again, and no other one detached. */
  lemma {:induction false} ShapedInEveryRun(cfg: Config, lim: Tc.Limits, dir: Tc.Direction, d: Tc.Device,
                                            fw0: Iptables.Tables, trusted: seq<string>, blocked: seq<string>, allowed: seq<string>,
                                            steps: seq<Step>)
    requires ValidMarks(cfg) && Tc.Ready(d) && Tc.Pick(lim, dir) > 0
    requires FlushFree(cfg, Initial(fw0, trusted, blocked, allowed), steps)
    ensures var s0 := Initial(fw0, trusted, blocked, allowed);
            var slots := Tc.Present(lim, dir, Log(cfg, s0, steps));
            && Tc.DeviceRun(lim, dir, d, Log(cfg, s0, steps)) == Tc.Layers(d, slots)
            && Tc.Distinct(slots) && Orderly(lim, dir, Log(cfg, s0, steps))
            && (forall i :: 0 <= i < |slots| ==> 0 < slots[i].limit <= Tc.Pick(lim, dir))
            && Attached(slots) == Authenticated(cfg, Run(cfg, s0, steps).clients)
  {
    var s0 := Initial(fw0, trusted, blocked, allowed);
    assert Mirrors(cfg, lim, dir, [], s0.clients);
    assert [] + Log(cfg, s0, steps) == Log(cfg, s0, steps);
    hide Run, Log, Tc.Ready, FlushFree, Tc.Layers, Tc.DeviceRun, Tc.Present, ValidMarks, Tc.Distinct, Orderly, Tc.Pick;
    LogMirrors(cfg, lim, dir, [], s0, steps);
    Tc.RunMirrors(lim, dir, d, Log(cfg, s0, steps));
    Tc.PresentDistinct(lim, dir, Log(cfg, s0, steps));
    PresentLimits(lim, dir, Log(cfg, s0, steps));
  }
}
