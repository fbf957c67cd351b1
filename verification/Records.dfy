/** What each operation leaves in the records and the MAC lists, read off the request, the record and the
    configuration. */
module Records {
  import Iptables
  import opened Configuration
  import opened Session
  import opened Mirror
  import opened StateFile
  import opened Runs
  import opened Sweeps
  import opened Identity
  import opened Expiry

  // ---------------------------------------------------------------- finding and starting

  /** The lookup finds the first record with the token; if no record has it, the first with the address;
      if none has that either, the first with the MAC address; and none exactly if there is none. */
  lemma {:induction false} ByAnyExactly(cs: seq<Client>, arg: string)
    ensures var k := ByAny(cs, arg);
            var t, i := exists j :: 0 <= j < |cs| && cs[j].token == arg, exists j :: 0 <= j < |cs| && cs[j].ip == arg;
            && (k < |cs| <==> t || i || exists j :: 0 <= j < |cs| && cs[j].mac == arg)
            && (t ==> cs[k].token == arg && forall j :: 0 <= j < k ==> cs[j].token != arg)
            && (!t && i ==> cs[k].ip == arg && forall j :: 0 <= j < k ==> cs[j].ip != arg)
            && (!t && !i && k < |cs| ==> cs[k].mac == arg && forall j :: 0 <= j < k ==> cs[j].mac != arg)
  {
    FirstExactly(cs, ByToken(arg));
    FirstExactly(cs, ByIp(arg));
    FirstExactly(cs, ByMac(arg));
    hide First;
    assert forall j :: 0 <= j < |cs| ==> (ByToken(arg)(cs[j]) <==> cs[j].token == arg);
    assert forall j :: 0 <= j < |cs| ==> (ByIp(arg)(cs[j]) <==> cs[j].ip == arg);
    assert forall j :: 0 <= j < |cs| ==> (ByMac(arg)(cs[j]) <==> cs[j].mac == arg);
  }

  lemma {:induction false} FirstExactly(cs: seq<Client>, p: Client -> bool)
    ensures var k := First(cs, p);
            && k <= |cs| && (k < |cs| ==> p(cs[k])) && (forall j :: 0 <= j < k ==> !p(cs[j]))
            && (k < |cs| <==> exists j :: 0 <= j < |cs| && p(cs[j]))
  {
  }

  /** Under the block mechanism a new record starts blocked if its address is on the blocked list, else
      trusted if it is on the trusted list; under the allow mechanism never blocked, and trusted if it
      is on either of the other lists; and otherwise preauthenticated. */
  lemma {:induction false} StartStateExactly(cfg: Config, s: State, mac: string)
    requires ValidMarks(cfg)
    ensures cfg.mechanism == MacBlock ==>
              && (StartState(cfg, s, mac) == cfg.blockedMark <==> mac in s.blocked)
              && (StartState(cfg, s, mac) == cfg.trustedMark <==> mac !in s.blocked && mac in s.trusted)
    ensures cfg.mechanism == MacAllow ==>
              && StartState(cfg, s, mac) != cfg.blockedMark
              && (StartState(cfg, s, mac) == cfg.trustedMark <==> mac in s.allowed || mac in s.trusted)
    ensures StartState(cfg, s, mac) == cfg.blockedMark || StartState(cfg, s, mac) == cfg.trustedMark
            || StartState(cfg, s, mac) == 0
  {
  }

  /** A client is put at the end of the list exactly if MAC and address are valid, no record has the pair,
      and there is room; then, or if a record has the pair, the result is the record of the pair. */
  lemma {:induction false} AddClientExactly(cfg: Config, s: State, mac: string, ip: string, now: int, token: string)
    ensures var (t, k) := AddClient(cfg, s, mac, ip, now, token);
            var known := exists j :: 0 <= j < |s.clients| && s.clients[j].mac == mac && s.clients[j].ip == ip;
            var valid := cfg.validMac(mac) && cfg.validIp(ip);
            && (t.clients != s.clients <==> valid && !known && |s.clients| < cfg.maxClients)
            && (t.clients != s.clients ==> |t.clients| == |s.clients| + 1 && t.clients[..|s.clients|] == s.clients
                                           && k == Some(|s.clients|) && t.nextId == s.nextId + 1)
            && (t.clients == s.clients ==> t == s)
            && (k.Some? <==> valid && (known || |s.clients| < cfg.maxClients))
            && (k.Some? ==> t.clients[k.value].mac == mac && t.clients[k.value].ip == ip)
  {
    FirstExactly(s.clients, ByPair(mac, ip));
    assert forall j :: 0 <= j < |s.clients| ==> (ByPair(mac, ip)(s.clients[j]) <==> s.clients[j].mac == mac && s.clients[j].ip == ip);
    hide First, StartState;
    var t := AddClient(cfg, s, mac, ip, now, token).0;
    assert t.clients == s.clients <==> |t.clients| == |s.clients|;
  }

  // ---------------------------------------------------------------- sessions

  /** The record of an admitted request, while ids are distinct: it is authenticated, its limits are those
      of the request, its session begins now and lasts the given seconds, or has no end for 0; nothing
      else about it, and no other record, changes. */
  lemma {:induction false} HttpAuthRecord(cfg: Config, s: State, k: nat, seconds: nat, upload: nat, download: nat, now: int)
    requires ValidMarks(cfg) && DistinctIds(s.clients) && k < |s.clients| && s.clients[k].state == PREAUTHENTICATED
    requires First(s.clients, ByPair(s.clients[k].mac, s.clients[k].ip)) == k
    ensures var c := s.clients[k];
            var t := HttpAuth(cfg, s, c.mac, c.ip, c.token, seconds, upload, download, now);
            && |t.clients| == |s.clients| && t.authenticated == s.authenticated + 1
            && (forall i :: 0 <= i < |s.clients| && i != k ==> t.clients[i] == s.clients[i])
            && var d := t.clients[k];
               && d.state == cfg.authMark && d.uploadLimit == upload && d.downloadLimit == download
               && d.sessionStart == now && d.sessionEnd == (if seconds == 0 then 0 else now + seconds)
               && d.id == c.id && d.ip == c.ip && d.mac == c.mac && d.token == c.token
               && d.incoming == c.incoming && d.outgoing == c.outgoing && d.lastUpdated == c.lastUpdated
  {
    DistinctFirst(s.clients, k);
    hide First, AuthById;
    AuthByIdExactly(cfg, s, s.clients[k].id, now);
    AuthCounts(cfg, s, s.clients[k].id, now);
  }

  /** Every successful authentication is counted, and no other. */
  lemma {:induction false} AuthCounts(cfg: Config, s: State, id: nat, now: int)
    ensures var (t, rc) := AuthById(cfg, s, id, now);
            t.authenticated == if rc == 0 then s.authenticated + 1 else s.authenticated
  {
    hide First, FwAuthenticate, FwDeauthenticate, AddMac;
  }

  /** A deauthenticated record has no session, no traffic and a new token; its limits stay, and so does
      everything else, and every other record. */
  lemma {:induction false} DeauthRecord(cfg: Config, s: State, k: nat, now: int, token: string)
    requires ValidMarks(cfg) && AuthFirst(cfg, s.clients) && k < |s.clients| && s.clients[k].state == cfg.authMark
    ensures var c := s.clients[k];
            var t := DeauthById(cfg, s, c.id, now, token).0;
            && |t.clients| == |s.clients|
            && (forall i :: 0 <= i < |s.clients| && i != k ==> t.clients[i] == s.clients[i])
            && var d := t.clients[k];
               && d.state == 0 && d.sessionStart == 0 && d.sessionEnd == 0 && d.incoming == 0 && d.outgoing == 0
               && d.token == token && d.lastUpdated == now
               && d.uploadLimit == c.uploadLimit && d.downloadLimit == c.downloadLimit
               && d.id == c.id && d.ip == c.ip && d.mac == c.mac
  {
    hide AddMac, FwDeauthenticate, FwAuthenticate, First, AuthFirst;
    DeauthFindsTheRecord(cfg, s, k, now, token);
    hide DeauthById;
  }

  // ---------------------------------------------------------------- counters

  /** The largest of `old` and the values of the lines for the address. */
  function Largest(lines: seq<(string, nat)>, ip: string, old_: nat): (n: nat)
    ensures n >= old_
    ensures forall i :: 0 <= i < |lines| && lines[i].0 == ip ==> n >= lines[i].1
    ensures n == old_ || exists i :: 0 <= i < |lines| && lines[i] == (ip, n)
  {
    if lines == [] then old_
    else
      var n := if lines[0].0 == ip && old_ < lines[0].1 then lines[0].1 else old_;
      assert forall i :: 0 < i < |lines| ==> lines[i] == lines[1..][i - 1];
      Largest(lines[1..], ip, n)
  }

  lemma {:induction false} FirstIpUpdate(cs: seq<Client>, k: nat, d: Client, ip: string)
    requires k < |cs| && d.ip == cs[k].ip
    ensures First(cs[k := d], ByIp(ip)) == First(cs, ByIp(ip))
  {
    var n, ds := First(cs, ByIp(ip)), cs[k := d];
    assert forall j :: 0 <= j < n ==> !ByIp(ip)(cs[j]);
    assert forall j :: 0 <= j < n ==> !ByIp(ip)(ds[j]);
    assert n < |cs| ==> ByIp(ip)(ds[n]);
    FirstIs(ds, ByIp(ip), n);
  }

  lemma {:induction false} CountOutOne(cs: seq<Client>, ip: string, n: nat, now: int, k: nat)
    requires k < |cs|
    ensures var ds := CountOutgoing(cs, ip, n, now);
            && (forall x: string :: First(ds, ByIp(x)) == First(cs, ByIp(x)))
            && ds[k].ip == cs[k].ip && ds[k].incoming == cs[k].incoming
            && ds[k] == cs[k].(outgoing := ds[k].outgoing, lastUpdated := ds[k].lastUpdated)
            && (First(cs, ByIp(cs[k].ip)) == k ==>
                 ds[k].outgoing == (if cs[k].ip == ip && cs[k].outgoing < n then n else cs[k].outgoing)
                 && ds[k].lastUpdated == (if cs[k].ip == ip && cs[k].outgoing < n then now else cs[k].lastUpdated))
            && (First(cs, ByIp(cs[k].ip)) != k ==> ds[k] == cs[k])
  {
    var j := First(cs, ByIp(ip));
    if j < |cs| {
      assert cs[j].ip == ip;
      forall x: string ensures First(CountOutgoing(cs, ip, n, now), ByIp(x)) == First(cs, ByIp(x)) {
        FirstIpUpdate(cs, j, cs[j].(outgoing := n, lastUpdated := now), x);
      }
      hide First;
    } else {
      assert forall i :: 0 <= i < |cs| ==> !ByIp(ip)(cs[i]);
      hide First;
    }
  }

  lemma {:induction false} CountIncOne(cs: seq<Client>, ip: string, n: nat, k: nat)
    requires k < |cs|
    ensures var ds := CountIncoming(cs, ip, n);
            && (forall x: string :: First(ds, ByIp(x)) == First(cs, ByIp(x)))
            && ds[k] == cs[k].(incoming := ds[k].incoming)
            && (First(cs, ByIp(cs[k].ip)) == k ==>
                 ds[k].incoming == if cs[k].ip == ip && cs[k].incoming < n then n else cs[k].incoming)
            && (First(cs, ByIp(cs[k].ip)) != k ==> ds[k] == cs[k])
  {
    var j := First(cs, ByIp(ip));
    if j < |cs| {
      assert cs[j].ip == ip;
      forall x: string ensures First(CountIncoming(cs, ip, n), ByIp(x)) == First(cs, ByIp(x)) {
        FirstIpUpdate(cs, j, cs[j].(incoming := n), x);
      }
      hide First;
    } else {
      assert forall i :: 0 <= i < |cs| ==> !ByIp(ip)(cs[i]);
      hide First;
    }
  }

  /** After the counters are read, the first record with an address has, for each direction, the larger of
      its old value and the values listed for the address; it counts as active now if what it sent
      grew; every other record, and everything else, is as before. */
  lemma {:induction false} CountersExactly(cs: seq<Client>, out: seq<(string, nat)>, inc: seq<(string, nat)>, now: int, k: nat)
    requires k < |cs|
    ensures var c, d := cs[k], Counters(cs, out, inc, now)[k];
            && d == c.(incoming := d.incoming, outgoing := d.outgoing, lastUpdated := d.lastUpdated)
            && (First(cs, ByIp(c.ip)) == k ==>
                 && d.outgoing == Largest(out, c.ip, c.outgoing)
                 && d.incoming == Largest(inc, c.ip, c.incoming)
                 && d.lastUpdated == if d.outgoing > c.outgoing then now else c.lastUpdated)
            && (First(cs, ByIp(c.ip)) != k ==> d == c)
    decreases |out| + |inc|
  {
    hide First, CountOutgoing, CountIncoming;
    if out != [] {
      CountOutOne(cs, out[0].0, out[0].1, now, k);
      CountersExactly(CountOutgoing(cs, out[0].0, out[0].1, now), out[1..], inc, now, k);
    } else if inc != [] {
      CountIncOne(cs, inc[0].0, inc[0].1, k);
      CountersExactly(CountIncoming(cs, inc[0].0, inc[0].1), [], inc[1..], now, k);
    }
  }

  // ---------------------------------------------------------------- the timeout check

  /** The session has an end, and it has come. */
  predicate SessionOver(c: Client, now: int) { 0 < c.sessionEnd <= now }

  /** The client received more than the configured limit, in megabytes, allows. */
  predicate VolumeUsed(cfg: Config, c: Client) {
    cfg.sessionLimitBlock > 0 && c.incoming / 1000 > cfg.sessionLimitBlock * 1000
  }

  /** Nothing came from the client for so many minutes. */
  predicate Idle(minutes: int, c: Client, now: int) { minutes > 0 && c.lastUpdated + 60 * minutes <= now }

  /** A record that the check deauthenticated. */
  predicate Ended(c: Client, d: Client, now: int) {
    && d.state == 0 && d.sessionStart == 0 && d.sessionEnd == 0 && d.incoming == 0 && d.outgoing == 0 && d.lastUpdated == now
    && d.id == c.id && d.ip == c.ip && d.mac == c.mac
    && d.uploadLimit == c.uploadLimit && d.downloadLimit == c.downloadLimit
  }

  /** The clients moved to blocked: those whose session is over, if configured, and those whose volume is
      used up before. */
  lemma {:induction false} ExpelledExactly(cfg: Config, c: Client, now: int)
    requires ValidMarks(cfg)
    ensures Expelled(cfg, c, now) <==>
            c.state == cfg.authMark
            && if SessionOver(c, now) then cfg.sessionTimeoutBlock > 0 else VolumeUsed(cfg, c)
  {
  }

  /** What the check makes of one record. */
  predicate Fate(cfg: Config, c: Client, now: int, o: Option<Client>) {
    if c.state == 0 then
      if !SessionOver(c, now) && !VolumeUsed(cfg, c) && Idle(cfg.preauthIdleTimeout, c, now) then o == None else o == Some(c)
    else if c.state == cfg.authMark then
      if SessionOver(c, now) && cfg.sessionTimeoutBlock > 0 then o == None
      else if SessionOver(c, now) then o.Some? && Ended(c, o.value, now)
      else if VolumeUsed(cfg, c) then o == None
      else if Idle(cfg.authIdleTimeout, c, now) then o.Some? && Ended(c, o.value, now)
      else o == Some(c)
    else o == Some(c)
  }

  lemma {:induction false} OutcomeFate(cfg: Config, c: Client, now: int, token: string)
    requires ValidMarks(cfg) && Known(cfg, c.state)
    ensures Fate(cfg, c, now, Outcome(cfg, c, now, token))
  {
    DecideExactly(cfg, c, now);
    hide Decide, SessionOver, VolumeUsed, Idle;
  }

  lemma {:induction false} DecideExactly(cfg: Config, c: Client, now: int)
    ensures Decide(cfg, c, now) ==
            if SessionOver(c, now) then ToState(if cfg.sessionTimeoutBlock > 0 then cfg.blockedMark else 0)
            else if VolumeUsed(cfg, c) then ToState(cfg.blockedMark)
            else if c.state == 0 && Idle(cfg.preauthIdleTimeout, c, now) then Discard
            else if c.state == cfg.authMark && Idle(cfg.authIdleTimeout, c, now) then ToState(0)
            else Keep
  {
  }

  lemma {:induction false} SurvivorIds(cfg: Config, cs: seq<Client>, now: int, rnd: nat -> string, visit: nat, id: nat)
    requires forall i :: 0 <= i < |cs| ==> cs[i].id != id
    ensures First(Survivors(cfg, cs, now, rnd, visit), ById(id)) == |Survivors(cfg, cs, now, rnd, visit)|
    decreases |cs|
  {
    hide Outcome, First;
    if cs == [] {
      FirstIs([], ById(id), 0);
    } else {
      var o, rest := Outcome(cfg, cs[0], now, rnd(visit)), Survivors(cfg, cs[1..], now, rnd, visit + 1);
      SurvivorIds(cfg, cs[1..], now, rnd, visit + 1, id);
      FirstSmall(Kept(o), id);
      FirstConcat(Kept(o), rest, id);
    }
  }

  lemma {:induction false} SurvivorAt(cfg: Config, cs: seq<Client>, now: int, rnd: nat -> string, visit: nat, k: nat)
    requires DistinctIds(cs) && k < |cs|
    ensures var r := Survivors(cfg, cs, now, rnd, visit);
            var o := Outcome(cfg, cs[k], now, rnd(visit + k));
            var j := First(r, ById(cs[k].id));
            if o.None? then j == |r| else j < |r| && r[j] == o.value
    decreases |cs|
  {
    hide Outcome, First, Survivors, Kept;
    var id := cs[k].id;
    var o, rest := Outcome(cfg, cs[0], now, rnd(visit)), Survivors(cfg, cs[1..], now, rnd, visit + 1);
    SurvivorsFirst(cfg, cs, now, rnd, visit);
    KeptSmall(o);
    FirstSmall(Kept(o), id);
    FirstConcat(Kept(o), rest, id);
    if k == 0 {
      SurvivorIds(cfg, cs[1..], now, rnd, visit + 1, id);
      assert visit + 0 == visit;
    } else {
      assert visit + 1 + (k - 1) == visit + k && cs[1..][k - 1] == cs[k] && cs[0].id != id;
      SurvivorAt(cfg, cs[1..], now, rnd, visit + 1, k - 1);
    }
  }

  lemma {:induction false} SurvivorsFirst(cfg: Config, cs: seq<Client>, now: int, rnd: nat -> string, visit: nat)
    requires cs != []
    ensures Survivors(cfg, cs, now, rnd, visit) ==
            Kept(Outcome(cfg, cs[0], now, rnd(visit))) + Survivors(cfg, cs[1..], now, rnd, visit + 1)
  {
    hide Outcome;
  }

  lemma {:induction false} KeptSmall(o: Option<Client>)
    ensures Kept(o) == if o.Some? then [o.value] else []
  {
  }

  /** With distinct ids, what the timeout check leaves of a record, under its id, is its fate: a
      preauthenticated record goes if it was idle for the configured time and neither its session is
      over nor its volume used up; an authenticated one goes to blocked when its session is over, if
      so configured, or else its volume is used up, is deauthenticated when its session is over
      otherwise, or it was idle for the configured time, and stays as it is in all other cases; and so
      does every blocked or trusted record. */
  lemma {:induction false} RefreshExactly(cfg: Config, s: State, now: int, rnd: nat -> string, k: nat)
    requires ValidMarks(cfg) && DistinctIds(s.clients) && k < |s.clients| && Known(cfg, s.clients[k].state)
    ensures var cs := Runs.Next(cfg, s, Refresh(now, rnd)).clients;
            var j := First(cs, ById(s.clients[k].id));
            Fate(cfg, s.clients[k], now, if j < |cs| then Some(cs[j]) else None)
  {
    hide Sweep, Survivors, Outcome, First, Fate, DistinctIds;
    SweepVisitsEachOnce(cfg, s, now, rnd);
    SurvivorAt(cfg, s.clients, now, rnd, 0, k);
    OutcomeFate(cfg, s.clients[k], now, rnd(k));
    assert 0 + k == k;
  }

  /** The session that a request began is over exactly from its end on. */
  lemma {:induction false} SessionEndsOnTime(cfg: Config, s: State, k: nat, seconds: nat, upload: nat, download: nat, now: nat, later: int)
    requires ValidMarks(cfg) && DistinctIds(s.clients) && k < |s.clients| && s.clients[k].state == PREAUTHENTICATED
    requires First(s.clients, ByPair(s.clients[k].mac, s.clients[k].ip)) == k
    ensures var c := s.clients[k];
            var t := HttpAuth(cfg, s, c.mac, c.ip, c.token, seconds, upload, download, now);
            k < |t.clients| && (SessionOver(t.clients[k], later) <==> seconds > 0 && now + seconds <= later)
  {
    hide HttpAuth, First, DistinctIds;
    HttpAuthRecord(cfg, s, k, seconds, upload, download, now);
  }

  // ---------------------------------------------------------------- MAC lists

  /** The blocked and the allowed list are in use under their mechanism only. */
  predicate InUse(cfg: Config, l: MacList) {
    l == TrustedList || (l == BlockedList && cfg.mechanism == MacBlock) || (l == AllowedList && cfg.mechanism == MacAllow)
  }

  /** The command adds its address to its list exactly if it is valid, the list is in use and no spelling
      of it is there; it changes no other list, no other entry and no record. */
  lemma {:induction false} AddMacExactly(cfg: Config, s: State, l: MacList, mac: string, m: string)
    ensures var t := AddMac(cfg, s, l, mac).0;
            && (m in Macs(t, l) <==>
                 m in Macs(s, l) || (m == mac && cfg.validMac(mac) && InUse(cfg, l) && forall x :: x in Macs(s, l) ==> !SameMac(x, mac)))
            && (forall o :: o != l ==> Macs(t, o) == Macs(s, o)) && t.clients == s.clients
  {
    var macs := Macs(s, l);
    assert FirstMac(macs, mac) == |macs| <==> forall x :: x in macs ==> !SameMac(x, mac) by {
      if FirstMac(macs, mac) < |macs| { assert macs[FirstMac(macs, mac)] in macs; }
    }
    hide Iptables.Exec, Iptables.Accepted, FirstMac, MacRule, Fold;
  }

  /** The command takes every spelling of its address off its list, if the list is in use; it changes no
      other list, no other entry and no record. */
  lemma {:induction false} RemoveMacExactly(cfg: Config, s: State, l: MacList, mac: string, m: string)
    requires NoDuplicates(Macs(s, l))
    ensures var t := RemoveMac(cfg, s, l, mac).0;
            && (m in Macs(t, l) <==> m in Macs(s, l) && !(cfg.validMac(mac) && InUse(cfg, l) && SameMac(m, mac)))
            && (forall o :: o != l ==> Macs(t, o) == Macs(s, o)) && t.clients == s.clients
  {
    var macs, i := Macs(s, l), FirstMac(Macs(s, l), mac);
    var t := RemoveMac(cfg, s, l, mac).0;
    hide Iptables.Exec, Iptables.Accepted, FirstMac, MacRule, Fold;
    if cfg.validMac(mac) && Usable(cfg, l) {
      if i < |macs| {
        assert Macs(t, l) == Iptables.RemoveAt(macs, i);
        RemovedOne(macs, i, mac, m);
      } else {
        assert Macs(t, l) == macs;
        NotThere(macs, mac, m);
      }
    }
  }

  lemma {:induction false} NotThere(macs: seq<string>, mac: string, m: string)
    requires FirstMac(macs, mac) == |macs|
    ensures m in macs ==> !SameMac(m, mac)
  {
    hide Fold;
  }

  lemma {:induction false} RemovedOne(macs: seq<string>, i: nat, mac: string, m: string)
    requires NoDuplicates(macs) && i < |macs| && SameMac(macs[i], mac)
    ensures m in Iptables.RemoveAt(macs, i) <==> m in macs && !SameMac(m, mac)
  {
    hide Fold;
    var r := Iptables.RemoveAt(macs, i);
    if m in macs && !SameMac(m, mac) {
      var j :| 0 <= j < |macs| && macs[j] == m;
      assert r[if j < i then j else j - 1] == m;
    }
    if m in r {
      var j :| 0 <= j < |r| && r[j] == m;
      var k := if j < i then j else j + 1;
      assert macs[k] == m && !SameMac(macs[if k < i then k else i], macs[if k < i then i else k]);
    }
  }

  // ---------------------------------------------------------------- the import

  predicate HasInt(j: Json, k: Key) { j.JsonObject? && k in j.fields && j.fields[k].JsonInt? }
  predicate HasString(j: Json, k: Key) { j.JsonObject? && k in j.fields && j.fields[k].JsonString? }

  /** The entry has every member of a client, each of its type. */
  predicate Complete(j: Json) {
    && HasString(j, KMac) && HasString(j, KIp) && HasString(j, KToken)
    && HasInt(j, KId) && HasInt(j, KSessionStart) && HasInt(j, KSessionEnd) && HasInt(j, KDownload) && HasInt(j, KUpload) && HasInt(j, KState)
    && KCounters in j.fields
    && HasInt(j.fields[KCounters], KIncoming) && HasInt(j.fields[KCounters], KOutgoing) && HasInt(j.fields[KCounters], KLastUpdated)
  }

  lemma {:induction false} FillComplete(c: Client, j: Json)
    requires HasString(j, KMac) && HasString(j, KIp)
    ensures Fill(c, j).1.Some? <==> Complete(j)
  {
    hide Wrap32, Uint64, ToTime, Int32, Int64, ToMark;
  }

  /** An entry is imported exactly if it is complete, neither its pair nor its id is on the list, its MAC
      and address are valid, and there is room. */
  lemma {:induction false} ImportClientExactly(cfg: Config, s: State, j: Json, now: int, token: string)
    ensures ImportClient(cfg, s, j, now, token).1 == 0 <==>
            && Complete(j)
            && (forall i :: 0 <= i < |s.clients| ==>
                  !(s.clients[i].mac == j.fields[KMac].s && s.clients[i].ip == j.fields[KIp].s)
                  && s.clients[i].id != Wrap32(Uint64(j.fields[KId].n)))
            && cfg.validMac(j.fields[KMac].s) && cfg.validIp(j.fields[KIp].s) && |s.clients| < cfg.maxClients
  {
    hide First, AddClient, Fill, ChangeState, Wrap32, Uint64;
    if HasString(j, KMac) && HasString(j, KIp) && HasInt(j, KId) {
      var mac, ip, id := j.fields[KMac].s, j.fields[KIp].s, Wrap32(Uint64(j.fields[KId].n));
      NobodyHas(s.clients, mac, ip, id);
      AddClientExactly(cfg, s, mac, ip, now, token);
      var (t, k) := AddClient(cfg, s, mac, ip, now, token);
      if k.Some? { FillComplete(t.clients[k.value], j); }
      hide Complete;
      CompleteHas(j);
    }
  }

  lemma {:induction false} CompleteHas(j: Json)
    ensures Complete(j) ==> HasString(j, KMac) && HasString(j, KIp) && HasInt(j, KId)
  {
  }

  lemma {:induction false} NobodyHas(cs: seq<Client>, mac: string, ip: string, id: nat)
    ensures First(cs, ByPair(mac, ip)) == |cs| && First(cs, ById(id)) == |cs| <==>
            forall i :: 0 <= i < |cs| ==> !(cs[i].mac == mac && cs[i].ip == ip) && cs[i].id != id
    ensures First(cs, ByPair(mac, ip)) == |cs| <==> forall i :: 0 <= i < |cs| ==> !(cs[i].mac == mac && cs[i].ip == ip)
  {
    FirstExactly(cs, ByPair(mac, ip));
    FirstExactly(cs, ById(id));
    hide First;
    assert forall i :: 0 <= i < |cs| ==> (ByPair(mac, ip)(cs[i]) <==> cs[i].mac == mac && cs[i].ip == ip);
    assert forall i :: 0 <= i < |cs| ==> (ById(id)(cs[i]) <==> cs[i].id == id);
  }

  /** The import reads clients exactly from a file that is there, parses, and has the version, the name and
      an array of clients; otherwise nothing changes, and the result says which of these failed. */
  lemma {:induction false} ImportRefuses(cfg: Config, s: State, f: File, now: int, rnd: nat -> string)
    ensures f == Missing ==> Import(cfg, s, f, now, rnd) == (s, 1)
    ensures f == Unreadable ==> Import(cfg, s, f, now, rnd) == (s, 2)
    ensures f == Unparsable ==> Import(cfg, s, f, now, rnd).0 == s && Import(cfg, s, f, now, rnd).1 < 0
    ensures f.Parsed? && (GetInt(f.top, KVersion) == None || Int64(GetInt(f.top, KVersion).value) != VERSION
                          || GetString(f.top, KName) != Some(NAME)) ==>
              Import(cfg, s, f, now, rnd).0 == s && Import(cfg, s, f, now, rnd).1 < 0
    ensures f.Parsed? && f.top.JsonObject? && !(KClients in f.top.fields && f.top.fields[KClients].JsonArray?) ==>
              Import(cfg, s, f, now, rnd).0 == s && Import(cfg, s, f, now, rnd).1 < 0
  {
    hide ImportAll;
  }
}
