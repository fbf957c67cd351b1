/** Clients, the MAC lists and the session part of the firewall, as values: the operations of
    src/client_list.c, src/auth.c, src/conf.c and src/fw_iptables.c on one state.

    The classes in ClientList.dfy and Gateway.dfy are proved against these functions; the theorems
    about whole runs are in Runs.dfy. */
module Session {
  import opened Iptables
  import opened Configuration

  /** `t_client`, without the link. */
  datatype Client = Client(
    id: nat, ip: string, mac: string, token: string, state: Mark,
    sessionStart: int, sessionEnd: int,
    incoming: nat, outgoing: nat, lastUpdated: int,
    downloadLimit: int, uploadLimit: int)

  datatype State = State(
    clients: seq<Client>, nextId: nat,
    trusted: seq<string>, blocked: seq<string>, allowed: seq<string>,
    fw: Tables,
    authenticated: nat)           // authenticated_since_start

  const OUT := ChainId(Mangle, NdsOUT)
  const INC := ChainId(Mangle, NdsINC)
  const BLK := ChainId(Mangle, NdsBLK)
  const TRU := ChainId(Mangle, NdsTRU)

  // ---------------------------------------------------------------- finding clients

  /** The first client that satisfies `p`, or |cs|. */
  function First(cs: seq<Client>, p: Client -> bool): (i: nat)
    ensures i <= |cs| && (i < |cs| ==> p(cs[i]))
    ensures forall j :: 0 <= j < i ==> !p(cs[j])
  {
    if cs == [] || p(cs[0]) then 0
    else
      assert forall j :: 0 < j < |cs| ==> cs[j] == cs[1..][j - 1];
      1 + First(cs[1..], p)
  }

  lemma {:induction false} FirstIs(cs: seq<Client>, p: Client -> bool, i: nat)
    requires i <= |cs| && (i < |cs| ==> p(cs[i]))
    requires forall j :: 0 <= j < i ==> !p(cs[j])
    ensures First(cs, p) == i
  {
    if i > 0 {
      assert forall j :: 0 < j < |cs| ==> cs[j] == cs[1..][j - 1];
      FirstIs(cs[1..], p, i - 1);
    }
  }

  function ById(id: nat): (p: Client -> bool) { (c: Client) => c.id == id }
  function ByPair(mac: string, ip: string): (p: Client -> bool) { (c: Client) => c.mac == mac && c.ip == ip }
  function ByIp(ip: string): (p: Client -> bool) { (c: Client) => c.ip == ip }
  function ByMac(mac: string): (p: Client -> bool) { (c: Client) => c.mac == mac }
  function ByToken(token: string): (p: Client -> bool) { (c: Client) => c.token == token }

  /** `client_list_find_by_any` with one argument for all three: token, then IP, then MAC. */
  function ByAny(cs: seq<Client>, arg: string): (i: nat)
    ensures i <= |cs|
  {
    var t := First(cs, ByToken(arg));
    if t < |cs| then t
    else
      var i := First(cs, ByIp(arg));
      if i < |cs| then i else First(cs, ByMac(arg))
  }

  // ---------------------------------------------------------------- MAC lists

  datatype MacList = TrustedList | BlockedList | AllowedList

  function Macs(s: State, l: MacList): (r: seq<string>) {
    match l
    case TrustedList => s.trusted
    case BlockedList => s.blocked
    case AllowedList => s.allowed
  }

  function WithMacs(s: State, l: MacList, macs: seq<string>): (r: State) {
    match l
    case TrustedList => s.(trusted := macs)
    case BlockedList => s.(blocked := macs)
    case AllowedList => s.(allowed := macs)
  }

  /** The blocked and the allowed list can only be used under their own mechanism. */
  predicate Usable(cfg: Config, l: MacList) {
    match l
    case TrustedList => true
    case BlockedList => cfg.mechanism == MacBlock
    case AllowedList => cfg.mechanism == MacAllow
  }

  function MacChain(l: MacList): (id: ChainId) {
    if l.TrustedList? then TRU else BLK
  }

  function MacRule(cfg: Config, l: MacList, mac: string): (r: Rule) {
    Rule([SrcMac(Fold(mac))],
         match l
         case TrustedList => MarkTarget(cfg, cfg.trustedMark)
         case BlockedList => MarkTarget(cfg, cfg.blockedMark)
         case AllowedList => Return)
  }

  /** Trusted and blocked rules are appended, allowed ones are put in front. */
  function MacCommand(cfg: Config, l: MacList, mac: string): (c: Command) {
    if l.AllowedList? then Insert(BLK, 1, MacRule(cfg, l, mac))
    else Append(MacChain(l), MacRule(cfg, l, mac))
  }

  /** The first entry that strcasecmp finds equal, or |macs|. */
  function FirstMac(macs: seq<string>, mac: string): (i: nat)
    ensures i <= |macs| && (i < |macs| ==> SameMac(macs[i], mac))
    ensures forall j :: 0 <= j < i ==> !SameMac(macs[j], mac)
  {
    if macs == [] || SameMac(macs[0], mac) then 0
    else
      assert forall j :: 0 < j < |macs| ==> macs[j] == macs[1..][j - 1];
      1 + FirstMac(macs[1..], mac)
  }

  /** `auth_client_trust`, `auth_client_block` and `auth_client_allow`. */
  function AddMac(cfg: Config, s: State, l: MacList, mac: string): (r: (State, int)) {
    var macs := Macs(s, l);
    if !cfg.validMac(mac) || !Usable(cfg, l) || FirstMac(macs, mac) < |macs| then (s, -1)
    else
      var c := MacCommand(cfg, l, mac);
      (WithMacs(s, l, [mac] + macs).(fw := Exec(s.fw, c)), if Accepted(s.fw, c) then 0 else -1)
  }

  /** `auth_client_untrust`, `auth_client_unblock` and `auth_client_unallow`. */
  function RemoveMac(cfg: Config, s: State, l: MacList, mac: string): (r: (State, int)) {
    var macs := Macs(s, l);
    var i := FirstMac(macs, mac);
    if !cfg.validMac(mac) || !Usable(cfg, l) || i == |macs| then (s, -1)
    else
      var c := Delete(MacChain(l), MacRule(cfg, l, mac));
      (WithMacs(s, l, RemoveAt(macs, i)).(fw := Exec(s.fw, c)), if Accepted(s.fw, c) then 0 else -1)
  }

  // ---------------------------------------------------------------- clients

  /** `client_reset`: the limits stay. */
  function ResetClient(c: Client, now: int, token: string): (r: Client) {
    c.(incoming := 0, outgoing := 0, lastUpdated := now, sessionStart := 0, sessionEnd := 0, token := token)
  }

  /** The state a new record starts in (src/client_list.c:147-155). */
  function StartState(cfg: Config, s: State, mac: string): (m: Mark) {
    if cfg.mechanism != MacAllow && mac in s.blocked then cfg.blockedMark
    else if (cfg.mechanism != MacBlock && mac in s.allowed) || mac in s.trusted then cfg.trustedMark
    else PREAUTHENTICATED
  }

  function NewClient(cfg: Config, s: State, mac: string, ip: string, now: int, token: string): (c: Client) {
    Client(s.nextId, ip, mac, token, StartState(cfg, s, mac), 0, 0, 0, 0, now, 0, 0)
  }

  /** `client_list_add_client`: the state, and the index of the record or None. */
  function AddClient(cfg: Config, s: State, mac: string, ip: string, now: int, token: string): (r: (State, Option<nat>))
    ensures r.1.Some? ==> r.1.value < |r.0.clients|
  {
    var i := First(s.clients, ByPair(mac, ip));
    if !cfg.validMac(mac) || !cfg.validIp(ip) then (s, None)
    else if i < |s.clients| then (s, Some(i))
    else if |s.clients| >= cfg.maxClients then (s, None)
    else (s.(clients := s.clients + [NewClient(cfg, s, mac, ip, now, token)], nextId := s.nextId + 1),
          Some(|s.clients|))
  }

  // ---------------------------------------------------------------- access rules

  /** Marks and counts what the client sends. */
  function OutRule(cfg: Config, c: Client): (r: Rule) {
    Rule([SrcIp(c.ip), SrcMac(Fold(c.mac))], MarkTarget(cfg, cfg.authMark))
  }

  /** Marks what the client receives. */
  function IncMarkRule(cfg: Config, c: Client): (r: Rule) {
    Rule([DstIp(c.ip)], MarkTarget(cfg, cfg.authMark))
  }

  /** Counts what the client receives. */
  function IncCountRule(c: Client): (r: Rule) {
    Rule([DstIp(c.ip)], Accept)
  }

  /** `iptables_fw_authenticate`. */
  function FwAuthenticate(cfg: Config, fw: Tables, c: Client): (r: Tables) {
    Exec(Exec(Exec(fw, Append(OUT, OutRule(cfg, c))),
              Append(INC, IncMarkRule(cfg, c))),
         Append(INC, IncCountRule(c)))
  }

  /** `iptables_fw_deauthenticate`. */
  function FwDeauthenticate(cfg: Config, fw: Tables, c: Client): (r: Tables) {
    Exec(Exec(Exec(fw, Delete(OUT, OutRule(cfg, c))),
              Delete(INC, IncMarkRule(cfg, c))),
         Delete(INC, IncCountRule(c)))
  }

  /** `auth_change_state` for the client at index `k`: only preauthenticated -> authenticated,
      authenticated -> preauthenticated and authenticated -> blocked are possible, and the last one
      takes the record off the list. */
  function ChangeState(cfg: Config, s: State, k: nat, to: Mark, now: int, token: string): (r: (State, int))
    requires k < |s.clients|
    ensures to == cfg.authMark || to == PREAUTHENTICATED ==> |r.0.clients| == |s.clients|
  {
    var c := s.clients[k];
    if c.state == to then (s, -1)
    else if c.state == PREAUTHENTICATED && to == cfg.authMark then
      (s.(fw := FwAuthenticate(cfg, s.fw, c), clients := s.clients[k := c.(state := to)]), 0)
    else if c.state == cfg.authMark && to == PREAUTHENTICATED then
      (s.(fw := FwDeauthenticate(cfg, s.fw, c),
          clients := s.clients[k := ResetClient(c, now, token).(state := to)]), 0)
    else if c.state == cfg.authMark && to == cfg.blockedMark then
      var t := AddMac(cfg, s.(fw := FwDeauthenticate(cfg, s.fw, c)), BlockedList, c.mac).0;
      (t.(clients := RemoveAt(s.clients, k)), 0)
    else (s, -1)
  }

  /** `auth_client_auth` and `auth_client_auth_nolock`. */
  function AuthById(cfg: Config, s: State, id: nat, now: int): (r: (State, int))
    ensures |r.0.clients| == |s.clients|
  {
    var k := First(s.clients, ById(id));
    if k == |s.clients| then (s, -1)
    else
      var (t, rc) := ChangeState(cfg, s, k, cfg.authMark, now, "");
      if rc == 0 then (t.(authenticated := t.authenticated + 1), 0) else (t, rc)
  }

  /** `ndsctl_auth`: looks a record up by any key and authenticates by its id; an id of 0 counts as not
      found. */
  function NdsctlAuth(cfg: Config, s: State, arg: string, now: int): (r: (State, int)) {
    var k := ByAny(s.clients, arg);
    if k < |s.clients| && s.clients[k].id != 0 then AuthById(cfg, s, s.clients[k].id, now) else (s, -1)
  }

  /** `auth_client_deauth`. */
  function DeauthById(cfg: Config, s: State, id: nat, now: int, token: string): (r: (State, int)) {
    var k := First(s.clients, ById(id));
    if k == |s.clients| then (s, -1) else ChangeState(cfg, s, k, PREAUTHENTICATED, now, token)
  }

  /** `ndsctl_deauth`: looks a record up in one state, gives the lock up, and deauthenticates by its id in
      the state that it finds then. */
  function NdsctlDeauth(cfg: Config, s: State, later: State, arg: string, now: int, token: string): (r: (State, int)) {
    var k := ByAny(s.clients, arg);
    if k < |s.clients| && s.clients[k].id != 0 then DeauthById(cfg, later, s.clients[k].id, now, token) else (later, -1)
  }

  /** A request for the authentication page (src/http_microhttpd.c:337-361, 408, 455-475): with the
      token of the pair's record, the first record with that record's id authenticates, and the
      pair's record gets the session and the limits. */
  function HttpAuth(cfg: Config, s: State, mac: string, ip: string, token: string,
                    seconds: nat, upload: nat, download: nat, now: int): (r: State)
  {
    var k := First(s.clients, ByPair(mac, ip));
    if k == |s.clients| || s.clients[k].state == cfg.authMark || s.clients[k].state == cfg.trustedMark
       || s.clients[k].token != token then s
    else
      var (t, rc) := AuthById(cfg, s, s.clients[k].id, now);
      if rc != 0 then t
      else t.(clients := t.clients[k := t.clients[k].(
                downloadLimit := download, uploadLimit := upload, sessionStart := now,
                sessionEnd := if seconds > 0 then now + seconds else 0)])
  }

  // ---------------------------------------------------------------- counters

  /** One line of the ndsOUT listing: the first record with that address gets the larger value. */
  function CountOutgoing(cs: seq<Client>, ip: string, n: nat, now: int): (r: seq<Client>)
    ensures |r| == |cs|
  {
    var k := First(cs, ByIp(ip));
    if k < |cs| && cs[k].outgoing < n then cs[k := cs[k].(outgoing := n, lastUpdated := now)] else cs
  }

  /** One line of the ndsINC listing. */
  function CountIncoming(cs: seq<Client>, ip: string, n: nat): (r: seq<Client>)
    ensures |r| == |cs|
  {
    var k := First(cs, ByIp(ip));
    if k < |cs| && cs[k].incoming < n then cs[k := cs[k].(incoming := n)] else cs
  }

  /** `iptables_fw_counters_update` on the lines read from the two listings. */
  function Counters(cs: seq<Client>, out: seq<(string, nat)>, inc: seq<(string, nat)>, now: int): (r: seq<Client>)
    ensures |r| == |cs|
    decreases |out| + |inc|
  {
    if out != [] then Counters(CountOutgoing(cs, out[0].0, out[0].1, now), out[1..], inc, now)
    else if inc != [] then Counters(CountIncoming(cs, inc[0].0, inc[0].1), [], inc[1..], now)
    else cs
  }

  // ---------------------------------------------------------------- sweeps

  /** What the timeout check decides for one client, in the order of src/auth.c:166-203. */
  datatype Decision = Keep | ToState(to: Mark) | Discard

  function Decide(cfg: Config, c: Client, now: int): (d: Decision) {
    if 0 < c.sessionEnd <= now then
      ToState(if cfg.sessionTimeoutBlock > 0 then cfg.blockedMark else PREAUTHENTICATED)
    else if cfg.sessionLimitBlock > 0 && c.incoming / 1000 > cfg.sessionLimitBlock * 1000 then
      ToState(cfg.blockedMark)
    else if 60 * cfg.preauthIdleTimeout > 0 && c.state == PREAUTHENTICATED
            && c.lastUpdated + 60 * cfg.preauthIdleTimeout <= now then
      Discard
    else if 60 * cfg.authIdleTimeout > 0 && c.state == cfg.authMark
            && c.lastUpdated + 60 * cfg.authIdleTimeout <= now then
      ToState(PREAUTHENTICATED)
    else Keep
  }

  function SweepAt(cfg: Config, s: State, k: nat, now: int, token: string): (r: State)
    requires k < |s.clients|
  {
    match Decide(cfg, s.clients[k], now)
    case Keep => s
    case Discard => s.(clients := RemoveAt(s.clients, k))
    case ToState(to) => ChangeState(cfg, s, k, to, now, token).0
  }

  lemma {:induction false} SweepLength(cfg: Config, s: State, k: nat, now: int, token: string)
    requires k < |s.clients|
    ensures |s.clients| - 1 <= |SweepAt(cfg, s, k, now, token).clients| <= |s.clients|
  {
  }

  /** The loop of `fw_refresh_client_list`, at the client with index `i`. The record acted on is the
      one `client_list_find_by_id` returns; `visit` numbers the iterations and picks the random
      token. A record that goes shifts the next client to the same index. */
  function Sweep(cfg: Config, s: State, i: nat, now: int, rnd: nat -> string, visit: nat): (r: State)
    requires i <= |s.clients|
    decreases |s.clients| - i
  {
    if i == |s.clients| then s
    else
      var k := First(s.clients, ById(s.clients[i].id));
      var t := SweepAt(cfg, s, k, now, rnd(visit));
      SweepLength(cfg, s, k, now, rnd(visit));
      if |t.clients| < |s.clients| then Sweep(cfg, t, i, now, rnd, visit + 1)
      else Sweep(cfg, t, i + 1, now, rnd, visit + 1)
  }

  lemma {:induction false} SweepStep(cfg: Config, s: State, i: nat, now: int, rnd: nat -> string, visit: nat)
    requires i < |s.clients|
    ensures var k := First(s.clients, ById(s.clients[i].id));
            k <= i &&
            var t := SweepAt(cfg, s, k, now, rnd(visit));
            var i' := if |t.clients| < |s.clients| then i else i + 1;
            i' <= |t.clients| <= |s.clients|
            && Sweep(cfg, s, i, now, rnd, visit) == Sweep(cfg, t, i', now, rnd, visit + 1)
  {
    var k := First(s.clients, ById(s.clients[i].id));
    assert forall j :: 0 <= j < k ==> !ById(s.clients[i].id)(s.clients[j]);
    assert ById(s.clients[i].id)(s.clients[i]);
    SweepLength(cfg, s, k, now, rnd(visit));
    hide SweepAt, First;
  }

  /** The loop of `auth_client_deauth_all`. */
  function DeauthAll(cfg: Config, s: State, i: nat, now: int, rnd: nat -> string): (r: State)
    requires i <= |s.clients|
    decreases |s.clients| - i
  {
    if i == |s.clients| then s
    else
      var k := First(s.clients, ById(s.clients[i].id));
      var t := ChangeState(cfg, s, k, PREAUTHENTICATED, now, rnd(i)).0;
      DeauthAll(cfg, t, i + 1, now, rnd)
  }
}
