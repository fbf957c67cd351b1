/** The daemon's mutable state and the operations of src/auth.c, src/client_list.c, src/conf.c and
    src/state_file.c on it, each proved against the function of the same name on values. */
module Gateway {
  import opened Iptables
  import opened Configuration
  import opened Session
  import opened StateFile
  import opened ClientList

  class Daemon {
    const cfg: Config
    const list: List
    var fw: Tables
    var trusted: seq<string>
    var blocked: seq<string>
    var allowed: seq<string>
    var authenticated: nat

    ghost predicate Valid()
      reads this, list, list.footprint
    {
      list.Valid()
    }

    /** The state as a value. */
    ghost function View(): (s: State)
      reads this, list
    {
      State(list.contents, list.nextId, trusted, blocked, allowed, fw, authenticated)
    }

    constructor (cfg: Config, fw: Tables, trusted: seq<string>, blocked: seq<string>, allowed: seq<string>)
      ensures Valid() && fresh(list) && list.footprint == {} && this.cfg == cfg
      ensures View() == State([], 1, trusted, blocked, allowed, fw, 0)
    {
      this.cfg, this.fw := cfg, fw;
      this.trusted, this.blocked, this.allowed, authenticated := trusted, blocked, allowed, 0;
      list := new List();
    }

    /** `iptables_do_command`. */
    method DoCommand(c: Command) returns (rc: int)
      modifies this`fw
      ensures fw == Exec(old(fw), c) && rc == if Accepted(old(fw), c) then 0 else -1
    {
      rc := if Accepted(fw, c) then 0 else -1;
      fw := Exec(fw, c);
    }

    // -------------------------------------------------------------- MAC lists

    /** `is_blocked_mac`, `is_allowed_mac` and `is_trusted_mac` on one list: strcmp. */
    method Contains(macs: seq<string>, mac: string) returns (found: bool)
      ensures found <==> mac in macs
    {
      var i := 0;
      while i < |macs| && macs[i] != mac
        invariant i <= |macs| && forall j :: 0 <= j < i ==> macs[j] != mac
      {
        i := i + 1;
      }
      found := i < |macs|;
    }

    /** The search of the add and remove functions: strcasecmp. */
    method FindMac(macs: seq<string>, mac: string) returns (i: nat)
      ensures i == FirstMac(macs, mac)
    {
      i := 0;
      assert macs[0..] == macs;
      while i < |macs| && !SameMac(macs[i], mac)
        invariant i <= |macs| && FirstMac(macs, mac) == i + FirstMac(macs[i..], mac)
      {
        assert macs[i..][1..] == macs[i + 1..];
        i := i + 1;
      }
    }

    method SetMacs(l: MacList, macs: seq<string>)
      modifies this`trusted, this`blocked, this`allowed
      ensures View() == WithMacs(old(View()), l, macs)
    {
      match l
      case TrustedList => trusted := macs;
      case BlockedList => blocked := macs;
      case AllowedList => allowed := macs;
    }

    /** `auth_client_trust`, `auth_client_block`, `auth_client_allow`. */
    method AddMac(l: MacList, mac: string) returns (rc: int)
      modifies this`trusted, this`blocked, this`allowed, this`fw
      ensures (View(), rc) == Session.AddMac(cfg, old(View()), l, mac)
    {
      hide Exec, Accepted, FirstMac, MacCommand;
      var macs := match l case TrustedList => trusted case BlockedList => blocked case AllowedList => allowed;
      if !cfg.validMac(mac) || !Usable(cfg, l) {
        return -1;
      }
      var i := FindMac(macs, mac);
      if i < |macs| {
        return -1;
      }
      SetMacs(l, [mac] + macs);
      rc := DoCommand(MacCommand(cfg, l, mac));
    }

    /** `auth_client_untrust`, `auth_client_unblock`, `auth_client_unallow`. */
    method RemoveMac(l: MacList, mac: string) returns (rc: int)
      modifies this`trusted, this`blocked, this`allowed, this`fw
      ensures (View(), rc) == Session.RemoveMac(cfg, old(View()), l, mac)
    {
      hide Exec, Accepted, FirstMac, MacRule, RemoveAt;
      var macs := match l case TrustedList => trusted case BlockedList => blocked case AllowedList => allowed;
      if !cfg.validMac(mac) || !Usable(cfg, l) {
        return -1;
      }
      var i := FindMac(macs, mac);
      if i == |macs| {
        return -1;
      }
      SetMacs(l, RemoveAt(macs, i));
      rc := DoCommand(Delete(MacChain(l), MacRule(cfg, l, mac)));
    }

    // -------------------------------------------------------------- clients

    /** `client_list_add_client` and `_client_list_append`. */
    method AddClient(mac: string, ip: string, now: int, token: string) returns (n: Node?, ghost k: nat)
      requires Valid()
      modifies list, list.footprint
      ensures Valid() && fresh(list.footprint - old(list.footprint))
      ensures var r := Session.AddClient(cfg, old(View()), mac, ip, now, token);
              View() == r.0 && (n == null <==> r.1.None?)
              && (r.1.Some? ==> k == r.1.value && k < |list.nodes| && list.nodes[k] == n)
    {
      hide Session.StartState, First;
      n, k := null, 0;
      if !cfg.validMac(mac) || !cfg.validIp(ip) {
        return;
      }
      n, k := list.Find(ByPair(mac, ip));
      if n != null {
        return;
      }
      if list.count >= cfg.maxClients {
        return;
      }
      var state := StartState(mac);
      k := |list.nodes|;
      n := list.Append(Client(list.nextId, ip, mac, token, state, 0, 0, 0, 0, now, 0, 0));
    }

    method StartState(mac: string) returns (state: Mark)
      ensures state == Session.StartState(cfg, View(), mac)
    {
      var isBlocked := Contains(blocked, mac);
      var isAllowed := Contains(allowed, mac);
      var isTrusted := Contains(trusted, mac);
      state :=
        if cfg.mechanism != MacAllow && isBlocked then cfg.blockedMark
        else if (cfg.mechanism != MacBlock && isAllowed) || isTrusted then cfg.trustedMark
        else PREAUTHENTICATED;
    }

    /** `iptables_fw_authenticate`. */
    method Authenticate(c: Client)
      modifies this`fw
      ensures fw == FwAuthenticate(cfg, old(fw), c)
    {
      hide Exec, Accepted;
      var rc := DoCommand(Append(OUT, OutRule(cfg, c)));
      rc := DoCommand(Append(INC, IncMarkRule(cfg, c)));
      rc := DoCommand(Append(INC, IncCountRule(c)));
    }

    /** `iptables_fw_deauthenticate`. */
    method Deauthenticate(c: Client)
      modifies this`fw
      ensures fw == FwDeauthenticate(cfg, old(fw), c)
    {
      hide Exec, Accepted;
      var rc := DoCommand(Delete(OUT, OutRule(cfg, c)));
      rc := DoCommand(Delete(INC, IncMarkRule(cfg, c)));
      rc := DoCommand(Delete(INC, IncCountRule(c)));
    }

    /** `auth_change_state`. */
    method ChangeState(n: Node, to: Mark, now: int, token: string, ghost k: nat) returns (rc: int)
      requires Valid() && k < |list.nodes| && list.nodes[k] == n
      modifies this, list, list.footprint
      ensures Valid() && list.footprint == old(list.footprint) && (View(), rc) == Session.ChangeState(cfg, old(View()), k, to, now, token)
      ensures list.nodes == if |list.contents| < |old(list.contents)| then RemoveAt(old(list.nodes), k) else old(list.nodes)
    {
      hide FwAuthenticate, FwDeauthenticate, RemoveAt;
      var c := n.client;
      rc := 0;
      if c.state == to {
        rc := -1;
      } else if c.state == PREAUTHENTICATED && to == cfg.authMark {
        Authenticate(c);
        list.Store(n, c.(state := to), k);
      } else if c.state == cfg.authMark && to == PREAUTHENTICATED {
        Deauthenticate(c);
        list.Store(n, ResetClient(c, now, token).(state := to), k);
      } else if c.state == cfg.authMark && to == cfg.blockedMark {
        Deauthenticate(c);
        ghost var s := View();
        var _ := AddMac(BlockedList, c.mac);
        list.Delete(n);
      } else {
        rc := -1;
      }
    }

    /** `auth_client_auth` and `auth_client_auth_nolock`. */
    method AuthById(id: nat, now: int) returns (rc: int)
      requires Valid()
      modifies this, list, list.footprint
      ensures Valid() && list.footprint == old(list.footprint) && list.nodes == old(list.nodes)
      ensures (View(), rc) == Session.AuthById(cfg, old(View()), id, now)
    {
      hide Session.ChangeState;
      var n, k := list.Find(ById(id));
      if n == null {
        return -1;
      }
      rc := ChangeState(n, cfg.authMark, now, "", k);
      if rc == 0 {
        authenticated := authenticated + 1;
      }
    }

    /** `auth_client_deauth`. */
    method DeauthById(id: nat, now: int, token: string) returns (rc: int)
      requires Valid()
      modifies this, list, list.footprint
      ensures Valid() && list.footprint == old(list.footprint) && (View(), rc) == Session.DeauthById(cfg, old(View()), id, now, token)
    {
      hide Session.ChangeState;
      var n, k := list.Find(ById(id));
      if n == null {
        return -1;
      }
      rc := ChangeState(n, PREAUTHENTICATED, now, token, k);
    }

    /** `ndsctl_auth`: lookup and transition under one lock; an id of 0 counts as not found. */
    method NdsctlAuth(arg: string, now: int) returns (rc: int)
      requires Valid()
      modifies this, list, list.footprint
      ensures Valid() && list.footprint == old(list.footprint)
      ensures (View(), rc) == Session.NdsctlAuth(cfg, old(View()), arg, now)
    {
      hide Session.AuthById;
      var n, k := list.FindByAny(arg);
      if n != null && n.client.id != 0 {
        rc := AuthById(n.client.id, now);
      } else {
        rc := -1;
      }
    }

    /** The request for the authentication page. */
    method HttpAuth(mac: string, ip: string, token: string, seconds: nat, upload: nat, download: nat, now: int)
      requires Valid()
      modifies this, list, list.footprint
      ensures Valid() && list.footprint == old(list.footprint) && View() == Session.HttpAuth(cfg, old(View()), mac, ip, token, seconds, upload, download, now)
    {
      hide Session.AuthById;
      var n, k := list.Find(ByPair(mac, ip));
      if n == null || n.client.state == cfg.authMark || n.client.state == cfg.trustedMark || n.client.token != token {
        return;
      }
      var rc := AuthById(n.client.id, now);
      if rc == 0 {
        list.Store(n, n.client.(downloadLimit := download, uploadLimit := upload, sessionStart := now,
                                sessionEnd := if seconds > 0 then now + seconds else 0), k);
      }
    }

    // -------------------------------------------------------------- loops over the list

    /** One line of the ndsOUT listing. */
    method CountOut(ip: string, n: nat, now: int)
      requires Valid()
      modifies list, list.footprint
      ensures Valid() && list.nodes == old(list.nodes) && list.footprint == old(list.footprint)
      ensures View() == old(View()).(clients := CountOutgoing(old(list.contents), ip, n, now))
    {
      hide First;
      var p, k := list.Find(ByIp(ip));
      if p != null && p.client.outgoing < n {
        list.Store(p, p.client.(outgoing := n, lastUpdated := now), k);
      }
    }

    /** One line of the ndsINC listing. */
    method CountInc(ip: string, n: nat)
      requires Valid()
      modifies list, list.footprint
      ensures Valid() && list.nodes == old(list.nodes) && list.footprint == old(list.footprint)
      ensures View() == old(View()).(clients := CountIncoming(old(list.contents), ip, n))
    {
      hide First;
      var p, k := list.Find(ByIp(ip));
      if p != null && p.client.incoming < n {
        list.Store(p, p.client.(incoming := n), k);
      }
    }

    /** `iptables_fw_counters_update` on the lines read from the two listings. */
    method CountersUpdate(out: seq<(string, nat)>, inc: seq<(string, nat)>, now: int)
      requires Valid()
      modifies list, list.footprint
      ensures Valid() && list.nodes == old(list.nodes) && list.footprint == old(list.footprint)
      ensures View() == old(View()).(clients := Counters(old(list.contents), out, inc, now))
    {
      hide CountOutgoing, CountIncoming;
      var i := 0;
      assert out[0..] == out;
      while i < |out|
        invariant i <= |out| && Valid() && list.nodes == old(list.nodes) && list.footprint == old(list.footprint)
        invariant View() == old(View()).(clients := list.contents)
        invariant Counters(list.contents, out[i..], inc, now) == Counters(old(list.contents), out, inc, now)
      {
        assert out[i..][0] == out[i] && out[i..][1..] == out[i + 1..];
        CountOut(out[i].0, out[i].1, now);
        i := i + 1;
      }
      i := 0;
      assert inc[0..] == inc;
      while i < |inc|
        invariant i <= |inc| && Valid() && list.nodes == old(list.nodes) && list.footprint == old(list.footprint)
        invariant View() == old(View()).(clients := list.contents)
        invariant Counters(list.contents, [], inc[i..], now) == Counters(old(list.contents), out, inc, now)
      {
        assert inc[i..][0] == inc[i] && inc[i..][1..] == inc[i + 1..];
        CountInc(inc[i].0, inc[i].1);
        i := i + 1;
      }
    }

    /** The four cases of the timeout check for one record. */
    method RefreshOne(n: Node, now: int, token: string, ghost k: nat)
      requires Valid() && k < |list.nodes| && list.nodes[k] == n
      modifies this, list, list.footprint
      ensures Valid() && list.footprint == old(list.footprint) && View() == SweepAt(cfg, old(View()), k, now, token)
      ensures list.nodes == if |list.contents| < |old(list.contents)| then RemoveAt(old(list.nodes), k) else old(list.nodes)
    {
      hide Session.ChangeState, RemoveAt;
      var c := n.client;
      if c.sessionEnd > 0 && c.sessionEnd <= now {
        var _ := ChangeState(n, if cfg.sessionTimeoutBlock > 0 then cfg.blockedMark else PREAUTHENTICATED, now, token, k);
      } else if cfg.sessionLimitBlock > 0 && c.incoming / 1000 > cfg.sessionLimitBlock * 1000 {
        var _ := ChangeState(n, cfg.blockedMark, now, token, k);
      } else if 60 * cfg.preauthIdleTimeout > 0 && c.state == PREAUTHENTICATED
                && c.lastUpdated + 60 * cfg.preauthIdleTimeout <= now {
        list.Delete(n);
      } else if 60 * cfg.authIdleTimeout > 0 && c.state == cfg.authMark
                && c.lastUpdated + 60 * cfg.authIdleTimeout <= now {
        var _ := ChangeState(n, PREAUTHENTICATED, now, token, k);
      }
    }

    /** The loop of `fw_refresh_client_list`, which deletes from the list it walks. */
    method Refresh(now: int, rnd: nat -> string)
      requires Valid()
      modifies this, list, list.footprint
      ensures Valid() && list.footprint == old(list.footprint) && View() == Sweep(cfg, old(View()), 0, now, rnd, 0)
    {
      hide SweepAt, First, Sweep, RemoveAt;
      ghost var goal := Sweep(cfg, View(), 0, now, rnd, 0);
      var cp1, visit := list.first, 0;
      ghost var i := 0;
      while cp1 != null
        invariant Valid() && i <= |list.nodes| && list.footprint == old(list.footprint)
        invariant cp1 == if i < |list.nodes| then list.nodes[i] else null
        invariant Sweep(cfg, View(), i, now, rnd, visit) == goal
        decreases |list.nodes| - i
      {
        var cp2 := cp1.next;
        ghost var ns := list.nodes;
        SweepStep(cfg, View(), i, now, rnd, visit);
        var n, k := list.Find(ById(cp1.client.id));
        RefreshOne(n, now, rnd(visit), k);
        if |list.nodes| < |ns| {
          NextAfterRemoval(ns, k, i);
        } else {
          i := i + 1;
        }
        cp1, visit := cp2, visit + 1;
      }
      assert Sweep(cfg, View(), i, now, rnd, visit) == View() by { SweepEnd(cfg, View(), now, rnd, visit); }
    }

    /** The loop of `auth_client_deauth_all`. */
    method DeauthAll(now: int, rnd: nat -> string)
      requires Valid()
      modifies this, list, list.footprint
      ensures Valid() && list.footprint == old(list.footprint) && View() == Session.DeauthAll(cfg, old(View()), 0, now, rnd)
    {
      hide Session.ChangeState, First, Session.DeauthAll, RemoveAt;
      ghost var goal := Session.DeauthAll(cfg, View(), 0, now, rnd);
      var cp1, i := list.first, 0;
      while cp1 != null
        invariant Valid() && i <= |list.nodes| && list.nodes == old(list.nodes) && list.footprint == old(list.footprint)
        invariant cp1 == if i < |list.nodes| then list.nodes[i] else null
        invariant Session.DeauthAll(cfg, View(), i, now, rnd) == goal
        decreases |list.nodes| - i
      {
        var cp2 := cp1.next;
        DeauthStep(cfg, View(), i, now, rnd);
        var n, k := list.Find(ById(cp1.client.id));
        var _ := ChangeState(n, PREAUTHENTICATED, now, rnd(i), k);
        cp1, i := cp2, i + 1;
      }
      assert Session.DeauthAll(cfg, View(), i, now, rnd) == View() by { DeauthEnd(cfg, View(), now, rnd); }
    }

    // -------------------------------------------------------------- state file

    /** The loop of `state_file_export`. */
    method ExportClients() returns (r: seq<Json>)
      requires Valid()
      ensures r == ExportAll(list.contents)
    {
      hide ExportClient;
      r := [];
      var ptr := list.first;
      ghost var k := 0;
      while ptr != null
        invariant k <= |list.nodes| && ptr == if k < |list.nodes| then list.nodes[k] else null
        invariant |r| == k && forall j :: 0 <= j < k ==> r[j] == ExportClient(list.contents[j])
        decreases |list.nodes| - k
      {
        r := r + [ExportClient(ptr.client)];
        ptr, k := ptr.next, k + 1;
      }
    }

    /** `state_file_import_client`. */
    method ImportClient(j: Json, now: int, token: string) returns (rc: int)
      requires Valid()
      modifies this, list, list.footprint
      ensures Valid() && (View(), rc) == StateFile.ImportClient(cfg, old(View()), j, now, token)
      ensures fresh(list.footprint - old(list.footprint))
    {
      hide Session.AddClient, Session.ChangeState, Fill, GetInt, GetString, First, Wrap32, Uint64;
      var mac, ip, id := GetString(j, KMac), GetString(j, KIp), GetInt(j, KId);
      if mac.None? || ip.None? || id.None? {
        return -1;
      }
      var duplicate := IsDuplicate(mac.value, ip.value, Wrap32(Uint64(id.value)));
      if duplicate {
        return -1;
      }
      var n, k := AddClient(mac.value, ip.value, now, token);
      if n == null {
        return -1;
      }
      rc := Restore(n, j, now, token, k);
    }

    /** Whether a record has the pair, or the id. */
    method IsDuplicate(mac: string, ip: string, id: nat) returns (duplicate: bool)
      requires Valid()
      ensures duplicate <==> First(View().clients, ByPair(mac, ip)) < |View().clients|
                             || First(View().clients, ById(id)) < |View().clients|
    {
      hide First;
      var n, k := list.Find(ByPair(mac, ip));
      if n != null {
        return true;
      }
      n, k := list.Find(ById(id));
      return n != null;
    }

    /** The rest of `state_file_import_client`: the recorded fields and the recorded state. */
    method Restore(n: Node, j: Json, now: int, token: string, ghost k: nat) returns (rc: int)
      requires Valid() && k < |list.nodes| && list.nodes[k] == n
      modifies this, list, list.footprint
      ensures Valid() && list.footprint == old(list.footprint)
      ensures var s := old(View());
              var (c, state) := Fill(s.clients[k], j);
              var u := s.(clients := s.clients[k := c]);
              (View(), rc) == if state.None? then (u, -1)
                              else (Session.ChangeState(cfg, u, k, state.value, now, token).0, 0)
    {
      hide Session.ChangeState, Fill;
      var r := Fill(n.client, j);
      list.Store(n, r.0, k);
      if r.1.None? {
        return -1;
      }
      var _ := ChangeState(n, r.1.value, now, token, k);
      rc := 0;
    }

    /** `state_file_import`. */
    method ImportFile(f: File, now: int, rnd: nat -> string) returns (rc: int)
      requires Valid()
      modifies this, list, list.footprint
      ensures Valid() && (View(), rc) == StateFile.Import(cfg, old(View()), f, now, rnd)
      ensures fresh(list.footprint - old(list.footprint))
    {
      hide ImportAll;
      match f
      case Missing => rc := 1;
      case Unreadable => rc := 2;
      case Unparsable => rc := -1;
      case Parsed(top) =>
        var version, name := GetInt(top, KVersion), GetString(top, KName);
        if version.None? || Int64(version.value) != VERSION || name != Some(NAME)
           || !(KClients in top.fields && top.fields[KClients].JsonArray?) {
          return -EINVAL;
        }
        rc := ImportClients(top.fields[KClients].elems, -EINVAL, now, rnd);
    }

    /** The import at startup. When it fails the firewall is set up anew, as `Lifecycle.Reinitialised` has
        it, and the list is flushed. */
    method Startup(f: File, now: int, rnd: nat -> string)
      requires Valid()
      modifies this, list, list.footprint
      ensures Valid() && View() == StateFile.Startup(cfg, old(View()), f, now, rnd)
    {
      hide Import;
      var rc := ImportFile(f, now, rnd);
      if rc < 0 {
        fw := Reset(cfg, State([], 0, trusted, blocked, allowed, fw, 0)).fw;
        list.Flush();
      }
    }

    /** The loop of `state_file_import`; `rc0` is the value of `rc` before it. */
    method ImportClients(elems: seq<Json>, rc0: int, now: int, rnd: nat -> string) returns (rc: int)
      requires Valid()
      modifies this, list, list.footprint
      ensures Valid() && (View(), rc) == ImportAll(cfg, old(View()), elems, rc0, now, rnd, 0)
      ensures fresh(list.footprint - old(list.footprint))
    {
      hide StateFile.ImportClient;
      rc := rc0;
      var i := 0;
      assert elems[0..] == elems;
      while i < |elems|
        invariant Valid() && i <= |elems|
        invariant fresh(list.footprint - old(list.footprint))
        invariant ImportAll(cfg, View(), elems[i..], rc, now, rnd, i) == ImportAll(cfg, old(View()), elems, rc0, now, rnd, 0)
      {
        assert elems[i..][0] == elems[i] && elems[i..][1..] == elems[i + 1..];
        if !elems[i].JsonObject? {
          return;
        }
        rc := ImportClient(elems[i], now, rnd(i));
        if rc != 0 {
          rc := -3;
          return;
        }
        i := i + 1;
      }
      rc := 0;
    }
  }

  /** Behind a node that goes, the indices move down by one. */
  lemma {:induction false} NextAfterRemoval(ns: seq<Node>, k: nat, i: nat)
    requires k <= i < |ns|
    ensures var rest := RemoveAt(ns, k); i < |rest| <==> i + 1 < |ns|
    ensures var rest := RemoveAt(ns, k); i + 1 < |ns| ==> rest[i] == ns[i + 1]
  {
  }

  lemma {:induction false} SweepEnd(cfg: Config, s: State, now: int, rnd: nat -> string, visit: nat)
    ensures Sweep(cfg, s, |s.clients|, now, rnd, visit) == s
  {
  }

  lemma {:induction false} DeauthStep(cfg: Config, s: State, i: nat, now: int, rnd: nat -> string)
    requires i < |s.clients|
    ensures var k := First(s.clients, ById(s.clients[i].id));
            k <= i && Session.DeauthAll(cfg, s, i, now, rnd)
            == Session.DeauthAll(cfg, Session.ChangeState(cfg, s, k, PREAUTHENTICATED, now, rnd(i)).0, i + 1, now, rnd)
  {
    FoundBefore(s.clients, i);
    hide Session.ChangeState, First;
  }

  lemma {:induction false} DeauthEnd(cfg: Config, s: State, now: int, rnd: nat -> string)
    ensures Session.DeauthAll(cfg, s, |s.clients|, now, rnd) == s
  {
  }

  /** Looking a listed id up finds its record or one before it. */
  lemma {:induction false} FoundBefore(cs: seq<Client>, i: nat)
    requires i < |cs|
    ensures First(cs, ById(cs[i].id)) <= i
  {
    var k := First(cs, ById(cs[i].id));
    assert ById(cs[i].id)(cs[i]);
    assert forall j :: 0 <= j < k ==> !ById(cs[i].id)(cs[j]);
  }
}
