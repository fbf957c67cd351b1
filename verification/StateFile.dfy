/** The state file of src/state_file.c over an abstract JSON value: export of the client list, and
    the import at startup, with the reset that src/main.c performs when the import fails. */
module StateFile {
  import opened Iptables
  import opened Configuration
  import opened Session
  import opened Mirror

  /** The member names of the file format; any other name is `OtherKey`. */
  datatype Key =
    | KVersion | KName | KClients
    | KIp | KMac | KToken | KState | KSessionStart | KSessionEnd | KDownload | KUpload | KId
    | KCounters | KIncoming | KOutgoing | KLastUpdated
    | OtherKey(name: string)

  datatype Json =
    | JsonNull
    | JsonBool(b: bool)
    | JsonInt(n: int)
    | JsonDouble(text: string)
    | JsonString(s: string)
    | JsonArray(elems: seq<Json>)
    | JsonObject(fields: map<Key, Json>)

  const VERSION := 1
  const NAME := "nodogsplash"
  const EINVAL := 22
  const TWO32 := 0x1_0000_0000
  const TWO63 := 0x8000_0000_0000_0000
  const TWO64 := 0x1_0000_0000_0000_0000

  // ---------------------------------------------------------------- numbers

  /** json_object_get_uint64: out of range values go to the nearest bound. */
  function Uint64(n: int): (r: nat)
    ensures r < TWO64
  {
    if n < 0 then 0 else if n < TWO64 then n else TWO64 - 1
  }

  /** json_object_get_int64. */
  function Int64(n: int): (r: int) {
    if n < -TWO63 then -TWO63 else if n < TWO63 then n else TWO63 - 1
  }

  /** json_object_get_int. */
  function Int32(n: int): (r: int) {
    if n < -0x8000_0000 then -0x8000_0000 else if n < 0x8000_0000 then n else 0x7FFF_FFFF
  }

  /** A 64-bit unsigned value stored in a time_t, and back. */
  function ToTime(n: nat): (r: int) { if n < TWO63 then n else n - TWO64 }
  function OfTime(t: int): (r: int) { if t < 0 then t + TWO64 else t }

  /** A 64-bit value stored in an unsigned int. */
  function Wrap32(n: int): (r: nat)
    ensures r < TWO32
  {
    n % TWO32
  }

  function ToMark(n: int): (m: Mark) { Wrap32(n) as Mark }

  lemma {:induction false} MarkRoundTrip(m: Mark)
    ensures 0 <= m as int < TWO32 && ToMark(Int64(m as int)) == m
  {
    hide Wrap32;
    assert (m as int) as Mark == m;
    assert m as int < TWO32;
    NoWrap(m as int);
  }

  lemma {:induction false} NoWrap(n: int)
    requires 0 <= n < TWO32
    ensures Wrap32(n) == n && Int64(n) == n && Uint64(n) == n
  {
  }

  // ---------------------------------------------------------------- export

  /** `state_file_export_client`. */
  function ExportClient(c: Client): (j: Json) {
    JsonObject(map[
      KIp := JsonString(c.ip),
      KMac := JsonString(c.mac),
      KToken := JsonString(c.token),
      KState := JsonInt(c.state as int),
      KSessionStart := JsonInt(OfTime(c.sessionStart)),
      KSessionEnd := JsonInt(OfTime(c.sessionEnd)),
      KDownload := JsonInt(c.downloadLimit),
      KUpload := JsonInt(c.uploadLimit),
      KId := JsonInt(c.id),
      KCounters := JsonObject(map[
        KIncoming := JsonInt(c.incoming),
        KOutgoing := JsonInt(c.outgoing),
        KLastUpdated := JsonInt(OfTime(c.lastUpdated))])])
  }

  function ExportAll(cs: seq<Client>): (r: seq<Json>)
    ensures |r| == |cs| && forall i :: 0 <= i < |cs| ==> r[i] == ExportClient(cs[i])
  {
    if cs == [] then [] else [ExportClient(cs[0])] + ExportAll(cs[1..])
  }

  /** `state_file_export`. */
  function Export(cs: seq<Client>): (j: Json) {
    JsonObject(map[
      KVersion := JsonInt(VERSION),
      KName := JsonString(NAME),
      KClients := JsonArray(ExportAll(cs))])
  }

  // ---------------------------------------------------------------- import

  function GetInt(j: Json, k: Key): (r: Option<int>) {
    if j.JsonObject? && k in j.fields && j.fields[k].JsonInt? then Some(j.fields[k].n) else None
  }

  function GetString(j: Json, k: Key): (r: Option<string>) {
    if j.JsonObject? && k in j.fields && j.fields[k].JsonString? then Some(j.fields[k].s) else None
  }

  function GetObject(j: Json, k: Key): (r: Option<Json>) {
    if j.JsonObject? && k in j.fields && j.fields[k].JsonObject? then Some(j.fields[k]) else None
  }

  /** The fields of a new record, overwritten one after the other until one is missing
      (src/state_file.c:170-190); with the connection state if all are there. */
  function Fill(c: Client, j: Json): (r: (Client, Option<Mark>))
    ensures r.0.mac == c.mac && r.0.ip == c.ip && r.0.state == c.state
  {
    var token, id := GetString(j, KToken), GetInt(j, KId);
    if token.None? || id.None? then (c, None) else
    var c := c.(token := token.value, id := Wrap32(Uint64(id.value)));
    var start := GetInt(j, KSessionStart);
    if start.None? then (c, None) else
    var c := c.(sessionStart := ToTime(Uint64(start.value)));
    var end := GetInt(j, KSessionEnd);
    if end.None? then (c, None) else
    var c := c.(sessionEnd := ToTime(Uint64(end.value)));
    var download := GetInt(j, KDownload);
    if download.None? then (c, None) else
    var c := c.(downloadLimit := Int32(download.value));
    var upload := GetInt(j, KUpload);
    if upload.None? then (c, None) else
    var c := c.(uploadLimit := Int32(upload.value));
    var counters := GetObject(j, KCounters);
    if counters.None? then (c, None) else
    var incoming := GetInt(counters.value, KIncoming);
    if incoming.None? then (c, None) else
    var c := c.(incoming := Uint64(incoming.value));
    var outgoing := GetInt(counters.value, KOutgoing);
    if outgoing.None? then (c, None) else
    var c := c.(outgoing := Uint64(outgoing.value));
    var updated := GetInt(counters.value, KLastUpdated);
    if updated.None? then (c, None) else
    var c := c.(lastUpdated := ToTime(Uint64(updated.value)));
    var state := GetInt(j, KState);
    if state.None? then (c, None) else (c, Some(ToMark(Int64(state.value))))
  }

  /** `state_file_import_client`. */
  function ImportClient(cfg: Config, s: State, j: Json, now: int, token: string): (r: (State, int)) {
    var mac, ip, id := GetString(j, KMac), GetString(j, KIp), GetInt(j, KId);
    if mac.None? || ip.None? || id.None? then (s, -1)
    else if First(s.clients, ByPair(mac.value, ip.value)) < |s.clients| then (s, -1)
    else if First(s.clients, ById(Wrap32(Uint64(id.value)))) < |s.clients| then (s, -1)
    else
      var (t, k) := AddClient(cfg, s, mac.value, ip.value, now, token);
      if k.None? then (t, -1)
      else
        var (c, state) := Fill(t.clients[k.value], j);
        var u := t.(clients := t.clients[k.value := c]);
        if state.None? then (u, -1)
        else (ChangeState(cfg, u, k.value, state.value, now, token).0, 0)
  }

  /** The loop of `state_file_import`. `rc` is the value the loop starts with: an entry that is not
      an object ends the import with whatever `rc` holds. */
  function ImportAll(cfg: Config, s: State, elems: seq<Json>, rc: int, now: int, rnd: nat -> string, i: nat): (r: (State, int))
    decreases |elems|
  {
    if elems == [] then (s, 0)
    else if !elems[0].JsonObject? then (s, rc)
    else
      var (t, r) := ImportClient(cfg, s, elems[0], now, rnd(i));
      if r != 0 then (t, -3) else ImportAll(cfg, t, elems[1..], 0, now, rnd, i + 1)
  }

  /** What reading the file gives. */
  datatype File = Missing | Unreadable | Unparsable | Parsed(top: Json)

  /** `state_file_import`. */
  function Import(cfg: Config, s: State, f: File, now: int, rnd: nat -> string): (r: (State, int)) {
    match f
    case Missing => (s, 1)
    case Unreadable => (s, 2)
    case Unparsable => (s, -1)
    case Parsed(top) =>
      if GetInt(top, KVersion).None? || Int64(GetInt(top, KVersion).value) != VERSION then (s, -EINVAL)
      else if GetString(top, KName) != Some(NAME) then (s, -EINVAL)
      else if !(KClients in top.fields && top.fields[KClients].JsonArray?) then (s, -EINVAL)
      else ImportAll(cfg, s, top.fields[KClients].elems, -EINVAL, now, rnd, 0)
  }

  // ---------------------------------------------------------------- reset

  /** The rules of a list in list order. */
  function MacRules(cfg: Config, l: MacList, macs: seq<string>): (r: seq<Rule>)
    ensures multiset(r) == Bag(macs, MacOf(cfg, l))
  {
    if macs == [] then []
    else
      AppendBag([MacRule(cfg, l, macs[0])], MacRules(cfg, l, macs[1..]));
      [MacRule(cfg, l, macs[0])] + MacRules(cfg, l, macs[1..])
  }

  function Reversed(rs: seq<Rule>): (r: seq<Rule>)
    ensures |r| == |rs|
  {
    if rs == [] then [] else Reversed(rs[1..]) + [rs[0]]
  }

  lemma {:induction false} ReversedBag(rs: seq<Rule>)
    ensures multiset(Reversed(rs)) == multiset(rs)
  {
    if rs != [] {
      ReversedBag(rs[1..]);
      AppendBag(Reversed(rs[1..]), [rs[0]]);
      AppendBag([rs[0]], rs[1..]);
      assert rs == [rs[0]] + rs[1..];
    }
  }

  /** ndsTRU and ndsBLK as the initialisation leaves them (src/fw_iptables.c:453-475): blocked rules
      in list order, or allowed rules inserted one before the other in front of the catch-all. */
  function InitialTru(cfg: Config, trusted: seq<string>): (r: seq<Rule>) {
    MacRules(cfg, TrustedList, trusted)
  }

  function InitialBlk(cfg: Config, blocked: seq<string>, allowed: seq<string>): (r: seq<Rule>) {
    match cfg.mechanism
    case MacBlock => MacRules(cfg, BlockedList, blocked)
    case MacAllow => Reversed(MacRules(cfg, AllowedList, allowed)) + [CatchAll(cfg)]
  }

  /** Destroying and initialising the firewall and flushing the client list (src/main.c:320-330).
      That the two firewall operations come to this is `Lifecycle.Reinitialised`. */
  function Reset(cfg: Config, s: State): (r: State) {
    s.(fw := s.fw[OUT := []][INC := []]
                 [BLK := InitialBlk(cfg, s.blocked, s.allowed)]
                 [TRU := InitialTru(cfg, s.trusted)],
       clients := [],
       nextId := if s.clients == [] then s.nextId else 1)
  }

  /** The import at startup: a negative result resets clients and firewall. */
  function Startup(cfg: Config, s: State, f: File, now: int, rnd: nat -> string): (r: State) {
    var (t, rc) := Import(cfg, s, f, now, rnd);
    if rc < 0 then Reset(cfg, t) else t
  }

  // ---------------------------------------------------------------- the invariant

  lemma {:induction false} ImportClientKeeps(cfg: Config, fw0: Tables, s: State, j: Json, now: int, token: string)
    requires Inv(cfg, fw0, s) && ValidMarks(cfg)
    ensures Inv(cfg, fw0, ImportClient(cfg, s, j, now, token).0)
  {
    hide Inv, AddClient, ChangeState, Fill;
    var mac, ip, id := GetString(j, KMac), GetString(j, KIp), GetInt(j, KId);
    if mac.Some? && ip.Some? && id.Some? {
      AddClientKeeps(cfg, fw0, s, mac.value, ip.value, now, token);
      var (t, k) := AddClient(cfg, s, mac.value, ip.value, now, token);
      if k.Some? {
        var (c, state) := Fill(t.clients[k.value], j);
        UpdateKeeps(cfg, fw0, t, k.value, c);
        var u := t.(clients := t.clients[k.value := c]);
        if state.Some? {
          ChangeStateKeeps(cfg, fw0, u, k.value, state.value, now, token);
        }
      }
    }
  }

  lemma {:induction false} ImportAllKeeps(cfg: Config, fw0: Tables, s: State, elems: seq<Json>, rc: int,
                                          now: int, rnd: nat -> string, i: nat)
    requires Inv(cfg, fw0, s) && ValidMarks(cfg)
    ensures Inv(cfg, fw0, ImportAll(cfg, s, elems, rc, now, rnd, i).0)
    decreases |elems|
  {
    hide Inv, ImportClient;
    if elems != [] && elems[0].JsonObject? {
      ImportClientKeeps(cfg, fw0, s, elems[0], now, rnd(i));
      ImportAllKeeps(cfg, fw0, ImportClient(cfg, s, elems[0], now, rnd(i)).0, elems[1..], 0, now, rnd, i + 1);
    }
  }

  lemma {:induction false} ResetKeeps(cfg: Config, fw0: Tables, s: State)
    requires Inv(cfg, fw0, s)
    ensures Inv(cfg, fw0, Reset(cfg, s))
  {
    hide Bag, MacRules, Reversed, CatchAll, NoDuplicates;
    var t := Reset(cfg, s);
    assert Bag([], OutOf(cfg)) == multiset{} && Bag([], IncOf(cfg)) == multiset{} by { EmptyBag(OutOf(cfg)); EmptyBag(IncOf(cfg)); }
    var rev := Reversed(MacRules(cfg, AllowedList, s.allowed));
    ReversedBag(MacRules(cfg, AllowedList, s.allowed));
    assert (rev + [CatchAll(cfg)])[..|rev|] == rev;
  }

  lemma {:induction false} EmptyBag<T>(f: T -> multiset<Rule>)
    ensures Bag([], f) == multiset{}
  {
  }

  lemma {:induction false} StartupKeeps(cfg: Config, fw0: Tables, s: State, f: File, now: int, rnd: nat -> string)
    requires Inv(cfg, fw0, s) && ValidMarks(cfg)
    ensures Inv(cfg, fw0, Startup(cfg, s, f, now, rnd))
  {
    hide Inv, ImportAll, Reset;
    if f.Parsed? && f.top.JsonObject? && KClients in f.top.fields && f.top.fields[KClients].JsonArray? {
      ImportAllKeeps(cfg, fw0, s, f.top.fields[KClients].elems, -EINVAL, now, rnd, 0);
    }
    ResetKeeps(cfg, fw0, Import(cfg, s, f, now, rnd).0);
  }

  // ---------------------------------------------------------------- round trip

  /** The fields of the record fit their C types. */
  predicate Representable(c: Client) {
    && c.id < TWO32
    && -TWO63 <= c.sessionStart < TWO63 && -TWO63 <= c.sessionEnd < TWO63 && -TWO63 <= c.lastUpdated < TWO63
    && c.incoming < TWO64 && c.outgoing < TWO64
    && -0x8000_0000 <= c.downloadLimit < 0x8000_0000 && -0x8000_0000 <= c.uploadLimit < 0x8000_0000
  }

  /** Importing what was exported gives the fields back, all but the connection state, which stays
      the one the new record started in. */
  lemma {:induction false} FillRoundTrip(c: Client, d: Client)
    requires Representable(c) && d.mac == c.mac && d.ip == c.ip
    ensures Fill(d, ExportClient(c)) == (c.(state := d.state), Some(c.state))
  {
    MarkRoundTrip(c.state);
    NoWrap(c.id);
    IdentityFields(c);
    SessionFields(c);
    CounterFields(c);
    Numbers(c);
    hide Wrap32, ToMark, ExportClient, GetInt, GetString, GetObject, Uint64, ToTime, OfTime, Int32, Int64;
  }

  lemma {:induction false} IdentityFields(c: Client)
    ensures var j := ExportClient(c);
            j.JsonObject? && GetString(j, KMac) == Some(c.mac) && GetString(j, KIp) == Some(c.ip)
            && GetString(j, KToken) == Some(c.token) && GetInt(j, KId) == Some(c.id)
  {
  }

  lemma {:induction false} SessionFields(c: Client)
    ensures var j := ExportClient(c);
            GetInt(j, KState) == Some(c.state as int)
            && GetInt(j, KSessionStart) == Some(OfTime(c.sessionStart))
            && GetInt(j, KSessionEnd) == Some(OfTime(c.sessionEnd))
            && GetInt(j, KDownload) == Some(c.downloadLimit) && GetInt(j, KUpload) == Some(c.uploadLimit)
  {
    hide OfTime;
  }

  lemma {:induction false} CounterFields(c: Client)
    ensures var j := GetObject(ExportClient(c), KCounters);
            j.Some? && GetInt(j.value, KIncoming) == Some(c.incoming)
            && GetInt(j.value, KOutgoing) == Some(c.outgoing)
            && GetInt(j.value, KLastUpdated) == Some(OfTime(c.lastUpdated))
  {
    hide OfTime;
  }

  lemma {:induction false} Numbers(c: Client)
    requires Representable(c)
    ensures ToTime(Uint64(OfTime(c.sessionStart))) == c.sessionStart
    ensures ToTime(Uint64(OfTime(c.sessionEnd))) == c.sessionEnd
    ensures ToTime(Uint64(OfTime(c.lastUpdated))) == c.lastUpdated
    ensures Uint64(c.incoming) == c.incoming && Uint64(c.outgoing) == c.outgoing
    ensures Int32(c.downloadLimit) == c.downloadLimit && Int32(c.uploadLimit) == c.uploadLimit
  {
  }

  /** The record agrees with the MAC lists: it has the state a new record starts in, or it is
      authenticated where a new record starts preauthenticated. */
  predicate Agrees(cfg: Config, s: State, c: Client) {
    && cfg.validMac(c.mac) && cfg.validIp(c.ip) && Representable(c)
    && var start := StartState(cfg, s, c.mac);
       c.state == start || (start == PREAUTHENTICATED && c.state == cfg.authMark)
  }

  /** A record that the import takes. */
  predicate Importable(cfg: Config, c: Client) {
    cfg.validMac(c.mac) && cfg.validIp(c.ip) && Representable(c)
  }

  /** The record after the import: authenticated if it was and a new record would start
      preauthenticated, and otherwise in the state a new record starts in. */
  function Restored(cfg: Config, s: State, c: Client): (r: Client) {
    var start := StartState(cfg, s, c.mac);
    c.(state := if start == PREAUTHENTICATED && c.state == cfg.authMark then c.state else start)
  }

  function RestoredAll(cfg: Config, s: State, cs: seq<Client>): (r: seq<Client>)
    ensures |r| == |cs|
  {
    if cs == [] then [] else [Restored(cfg, s, cs[0])] + RestoredAll(cfg, s, cs[1..])
  }

  /** The access rules that the records call for, installed in list order. */
  function FwOf(cfg: Config, fw: Tables, cs: seq<Client>): (r: Tables) {
    if cs == [] then fw
    else FwOf(cfg, if cs[0].state == cfg.authMark then FwAuthenticate(cfg, fw, cs[0]) else fw, cs[1..])
  }

  predicate DistinctIds(cs: seq<Client>) {
    forall i, j :: 0 <= i < j < |cs| ==> cs[i].id != cs[j].id
  }

  /** A record that repeats neither id nor pair is added at the end. */
  lemma {:induction false} AddsNew(cfg: Config, s: State, c: Client, now: int, token: string)
    requires Importable(cfg, c) && |s.clients| < cfg.maxClients
    requires DistinctIds(s.clients + [c]) && DistinctPairs(s.clients + [c])
    ensures First(s.clients, ByPair(c.mac, c.ip)) == |s.clients| && First(s.clients, ById(c.id)) == |s.clients|
    ensures AddClient(cfg, s, c.mac, c.ip, now, token)
            == (s.(clients := s.clients + [NewClient(cfg, s, c.mac, c.ip, now, token)], nextId := s.nextId + 1),
                Some(|s.clients|))
  {
    hide Representable, NewClient, StartState;
    var n, all := |s.clients|, s.clients + [c];
    assert all[n] == c && forall i :: 0 <= i < n ==> all[i] == s.clients[i];
    FirstIs(s.clients, ByPair(c.mac, c.ip), n);
    FirstIs(s.clients, ById(c.id), n);
  }

  /** Going to the recorded state, as far as that is possible, installs the rules it calls for. */
  lemma {:induction false} Restores(cfg: Config, s: State, k: nat, c: Client, r: Client, now: int, token: string)
    requires ValidMarks(cfg) && k < |s.clients| && s.clients[k] == c.(state := s.clients[k].state)
    requires s.clients[k].state != cfg.authMark
    requires r == c.(state := if s.clients[k].state == PREAUTHENTICATED && c.state == cfg.authMark then c.state
                              else s.clients[k].state)
    ensures ChangeState(cfg, s, k, c.state, now, token).0
            == s.(clients := s.clients[k := r], fw := FwOf(cfg, s.fw, [r]))
  {
    hide FwAuthenticate, FwDeauthenticate, AddMac;
    FwOfOne(cfg, s.fw, r);
    SameAccess(cfg, s.fw, s.clients[k], r);
    assert r == s.clients[k] ==> s.clients[k := r] == s.clients;
  }

  lemma {:induction false} FwOfOne(cfg: Config, fw: Tables, c: Client)
    ensures FwOf(cfg, fw, [c]) == if c.state == cfg.authMark then FwAuthenticate(cfg, fw, c) else fw
  {
    assert [c][1..] == [];
  }

  lemma {:induction false} ImportOne(cfg: Config, s: State, c: Client, now: int, token: string)
    requires ValidMarks(cfg) && Importable(cfg, c) && |s.clients| < cfg.maxClients
    requires DistinctIds(s.clients + [c]) && DistinctPairs(s.clients + [c])
    ensures var r := Restored(cfg, s, c);
            ImportClient(cfg, s, ExportClient(c), now, token)
            == (s.(clients := s.clients + [r], nextId := s.nextId + 1, fw := FwOf(cfg, s.fw, [r])), 0)
  {
    IdentityFields(c);
    NoWrap(c.id);
    var n, d, r := |s.clients|, NewClient(cfg, s, c.mac, c.ip, now, token), Restored(cfg, s, c);
    AddsNew(cfg, s, c, now, token);
    FillRoundTrip(c, d);
    var u := s.(clients := s.clients + [c.(state := d.state)], nextId := s.nextId + 1);
    Restores(cfg, u, n, c, r, now, token);
    hide Wrap32, Uint64, Fill, FwOf, ExportClient, AddClient, ChangeState, GetInt, GetString, First, DistinctIds, DistinctPairs, Representable, NewClient, Restored;
    assert (s.clients + [d])[n := c.(state := d.state)] == u.clients;
    assert u.clients[n := r] == s.clients + [r];
  }

  lemma {:induction false} SameAccess(cfg: Config, fw: Tables, c: Client, d: Client)
    requires c.mac == d.mac && c.ip == d.ip
    ensures FwAuthenticate(cfg, fw, c) == FwAuthenticate(cfg, fw, d)
  {
    SameRules(cfg, c, d);
    hide Exec, OutRule, IncMarkRule, IncCountRule;
  }

  lemma {:induction false} ImportMany(cfg: Config, s: State, cs: seq<Client>, rc: int, now: int, rnd: nat -> string, i: nat)
    requires ValidMarks(cfg) && |s.clients| + |cs| <= cfg.maxClients
    requires forall k :: 0 <= k < |cs| ==> Importable(cfg, cs[k])
    requires DistinctIds(s.clients + cs) && DistinctPairs(s.clients + cs)
    ensures var rs := RestoredAll(cfg, s, cs);
            ImportAll(cfg, s, ExportAll(cs), rc, now, rnd, i)
            == (s.(clients := s.clients + rs, nextId := s.nextId + |cs|, fw := FwOf(cfg, s.fw, rs)), 0)
    decreases |cs|
  {
    hide ImportClient, ExportClient, Importable, Restored, DistinctIds, DistinctPairs, FwOf;
    if cs == [] {
      assert s.clients + cs == s.clients;
      assert FwOf(cfg, s.fw, []) == s.fw by { NoFw(cfg, s.fw); }
    } else {
      var c, rest := cs[0], cs[1..];
      var r := Restored(cfg, s, c);
      var t := s.(clients := s.clients + [r], nextId := s.nextId + 1, fw := FwOf(cfg, s.fw, [r]));
      Prefixes(s.clients, cs, r) by { SameIdentity(cfg, s, c); }
      ImportOne(cfg, s, c, now, rnd(i));
      IdentityFields(c);
      RestoredFrame(cfg, s, t, rest);
      ImportMany(cfg, t, rest, 0, now, rnd, i + 1);
      var rs := RestoredAll(cfg, s, rest);
      FwOfCons(cfg, s.fw, r, rs);
      assert s.clients + [r] + rs == s.clients + ([r] + rs);
    }
  }

  lemma {:induction false} NoFw(cfg: Config, fw: Tables)
    ensures FwOf(cfg, fw, []) == fw
  {
  }

  lemma {:induction false} FwOfCons(cfg: Config, fw: Tables, r: Client, rs: seq<Client>)
    ensures FwOf(cfg, fw, [r] + rs) == FwOf(cfg, FwOf(cfg, fw, [r]), rs)
  {
    hide FwAuthenticate;
    FwOfOne(cfg, fw, r);
    assert ([r] + rs)[1..] == rs;
  }

  lemma {:induction false} SameIdentity(cfg: Config, s: State, c: Client)
    ensures var r := Restored(cfg, s, c); r.id == c.id && r.mac == c.mac && r.ip == c.ip
  {
    hide StartState;
  }

  lemma {:induction false} Prefixes(a: seq<Client>, cs: seq<Client>, r: Client)
    requires cs != [] && DistinctIds(a + cs) && DistinctPairs(a + cs)
    requires r.id == cs[0].id && r.mac == cs[0].mac && r.ip == cs[0].ip
    ensures DistinctIds(a + [cs[0]]) && DistinctPairs(a + [cs[0]])
    ensures DistinctIds(a + [r] + cs[1..]) && DistinctPairs(a + [r] + cs[1..])
  {
    var all, b, d := a + cs, a + [cs[0]], a + [r] + cs[1..];
    assert forall i :: 0 <= i < |b| ==> b[i] == all[i];
    assert forall i :: 0 <= i < |d| ==> d[i].id == all[i].id && d[i].mac == all[i].mac && d[i].ip == all[i].ip;
  }

  lemma {:induction false} RestoredFrame(cfg: Config, s: State, t: State, cs: seq<Client>)
    requires t.trusted == s.trusted && t.blocked == s.blocked && t.allowed == s.allowed
    ensures RestoredAll(cfg, t, cs) == RestoredAll(cfg, s, cs)
  {
    if cs != [] {
      RestoredFrame(cfg, s, t, cs[1..]);
    }
  }

  /** A record that agrees with the lists comes back as it was. */
  lemma {:induction false} AgreesRestored(cfg: Config, s: State, cs: seq<Client>)
    requires forall k :: 0 <= k < |cs| ==> Agrees(cfg, s, cs[k])
    ensures RestoredAll(cfg, s, cs) == cs && forall k :: 0 <= k < |cs| ==> Importable(cfg, cs[k])
  {
    hide StartState, Representable;
    if cs != [] {
      AgreesRestored(cfg, s, cs[1..]);
      assert Agrees(cfg, s, cs[0]);
      assert cs == [cs[0]] + cs[1..];
    }
  }

  function OutRules(cfg: Config, cs: seq<Client>): (r: seq<Rule>) {
    if cs == [] then []
    else (if cs[0].state == cfg.authMark then [OutRule(cfg, cs[0])] else []) + OutRules(cfg, cs[1..])
  }

  function IncRules(cfg: Config, cs: seq<Client>): (r: seq<Rule>) {
    if cs == [] then []
    else (if cs[0].state == cfg.authMark then [IncMarkRule(cfg, cs[0]), IncCountRule(cs[0])] else [])
         + IncRules(cfg, cs[1..])
  }

  lemma {:induction false} Reinstalled(cfg: Config, fw: Tables, cs: seq<Client>)
    requires OUT in fw && INC in fw
    ensures FwOf(cfg, fw, cs)
            == fw[OUT := fw[OUT] + OutRules(cfg, cs)][INC := fw[INC] + IncRules(cfg, cs)]
    decreases |cs|
  {
    hide FwAuthenticate, OutRule, IncMarkRule, IncCountRule;
    if cs == [] {
      assert fw[OUT] + [] == fw[OUT] && fw[INC] + [] == fw[INC];
    } else {
      var c, rest := cs[0], cs[1..];
      var fw' := if c.state == cfg.authMark then FwAuthenticate(cfg, fw, c) else fw;
      AuthenticateKeeps(cfg, fw, c);
      Reinstalled(cfg, fw', rest);
      assert fw'[OUT] + OutRules(cfg, rest) == fw[OUT] + OutRules(cfg, cs);
      assert fw'[INC] + IncRules(cfg, rest) == fw[INC] + IncRules(cfg, cs);
    }
  }

  lemma {:induction false} ImportsList(cfg: Config, s: State, cs: seq<Client>, now: int, rnd: nat -> string)
    ensures Import(cfg, s, Parsed(Export(cs)), now, rnd) == ImportAll(cfg, s, ExportAll(cs), -EINVAL, now, rnd, 0)
  {
    hide ImportAll, ExportAll;
  }

  /** Export, then import into an empty list, whatever the MAC lists are by then: the same records in
      the same order and field for field, but each in the state that `Restored` gives, and exactly the
      access rules of the authenticated ones, in list order. */
  lemma {:induction false} ImportExactly(cfg: Config, s: State, cs: seq<Client>, now: int, rnd: nat -> string)
    requires ValidMarks(cfg) && s.clients == [] && |cs| <= cfg.maxClients
    requires OUT in s.fw && INC in s.fw
    requires DistinctIds(cs) && DistinctPairs(cs)
    requires forall k :: 0 <= k < |cs| ==> Importable(cfg, cs[k])
    ensures var rs := RestoredAll(cfg, s, cs);
            Import(cfg, s, Parsed(Export(cs)), now, rnd)
            == (s.(clients := rs, nextId := s.nextId + |cs|,
                   fw := s.fw[OUT := s.fw[OUT] + OutRules(cfg, rs)][INC := s.fw[INC] + IncRules(cfg, rs)]), 0)
  {
    hide Import, ImportAll, ExportAll, Export, FwOf, Importable, DistinctIds, DistinctPairs, OutRules, IncRules, RestoredAll;
    var rs := RestoredAll(cfg, s, cs);
    assert s.clients + cs == cs && s.clients + rs == rs;
    ImportsList(cfg, s, cs, now, rnd);
    ImportMany(cfg, s, cs, -EINVAL, now, rnd, 0);
    Reinstalled(cfg, s.fw, rs);
  }

  /** The list comes back unchanged exactly when every record agrees with the MAC lists. */
  lemma {:induction false} RestoredExactly(cfg: Config, s: State, cs: seq<Client>)
    requires forall k :: 0 <= k < |cs| ==> Importable(cfg, cs[k])
    ensures RestoredAll(cfg, s, cs) == cs <==> forall k :: 0 <= k < |cs| ==> Agrees(cfg, s, cs[k])
  {
    hide StartState, Representable;
    if cs != [] {
      RestoredExactly(cfg, s, cs[1..]);
      var r, rest := Restored(cfg, s, cs[0]), RestoredAll(cfg, s, cs[1..]);
      assert cs == [cs[0]] + cs[1..];
      assert RestoredAll(cfg, s, cs)[0] == r && RestoredAll(cfg, s, cs)[1..] == rest;
      assert r == cs[0] <==> Agrees(cfg, s, cs[0]);
      assert (forall k :: 0 <= k < |cs| ==> Agrees(cfg, s, cs[k])) <==>
             Agrees(cfg, s, cs[0]) && forall k :: 0 <= k < |cs[1..]| ==> Agrees(cfg, s, cs[1..][k]) by {
        assert forall k :: 0 < k < |cs| ==> cs[k] == cs[1..][k - 1];
      }
    }
  }

  /** So, for records that agree with the MAC lists: the same records in the same order and field for
      field, and exactly the access rules of the authenticated ones, in list order. */
  lemma {:induction false} RoundTrip(cfg: Config, s: State, cs: seq<Client>, now: int, rnd: nat -> string)
    requires ValidMarks(cfg) && s.clients == [] && |cs| <= cfg.maxClients
    requires OUT in s.fw && INC in s.fw
    requires DistinctIds(cs) && DistinctPairs(cs)
    requires forall k :: 0 <= k < |cs| ==> Agrees(cfg, s, cs[k])
    ensures Import(cfg, s, Parsed(Export(cs)), now, rnd)
            == (s.(clients := cs, nextId := s.nextId + |cs|,
                   fw := s.fw[OUT := s.fw[OUT] + OutRules(cfg, cs)][INC := s.fw[INC] + IncRules(cfg, cs)]), 0)
  {
    hide Import, Export, Agrees, Importable, DistinctIds, DistinctPairs, OutRules, IncRules, RestoredAll;
    AgreesRestored(cfg, s, cs);
    ImportExactly(cfg, s, cs, now, rnd);
  }

  /** An entry that is not an object ends the import with the state of the entries before it; if
      those were all imported, the result is 0, as if all had been read, exactly when there were any. */
  lemma {:induction false} StaleResult(cfg: Config, s: State, good: seq<Json>, bad: Json, rest: seq<Json>,
                                       rc: int, now: int, rnd: nat -> string, i: nat)
    requires !bad.JsonObject? && rc != 0
    requires forall k :: 0 <= k < |good| ==> good[k].JsonObject?
    ensures var r := ImportAll(cfg, s, good + [bad] + rest, rc, now, rnd, i);
            var g := ImportAll(cfg, s, good, rc, now, rnd, i);
            r.0 == g.0 && (g.1 == 0 ==> (r.1 == 0 <==> good != [])) && (g.1 != 0 ==> r.1 == g.1)
    decreases |good|
  {
    hide ImportClient;
    var all := good + [bad] + rest;
    if good == [] {
      assert all[0] == bad;
    } else {
      assert all[0] == good[0] && all[1..] == good[1..] + [bad] + rest;
      var t := ImportClient(cfg, s, good[0], now, rnd(i)).0;
      StaleZero(cfg, t, good[1..], bad, rest, now, rnd, i + 1);
    }
  }

  /** A state file with one good record and a number after it is reported as read in full. */
  lemma {:induction false} StaleExample(cfg: Config, s: State, c: Client, now: int, rnd: nat -> string)
    requires ValidMarks(cfg) && s.clients == [] && cfg.maxClients >= 1
    requires OUT in s.fw && INC in s.fw && Agrees(cfg, s, c)
    ensures ImportAll(cfg, s, [ExportClient(c), JsonInt(0)], -EINVAL, now, rnd, 0).1 == 0
  {
    hide ImportAll, Export, Import, Agrees;
    RoundTrip(cfg, s, [c], now, rnd);
    ImportsList(cfg, s, [c], now, rnd);
    assert [c][1..] == [] && ExportAll([c]) == [ExportClient(c)];
    StaleResult(cfg, s, [ExportClient(c)], JsonInt(0), [], -EINVAL, now, rnd, 0);
    assert [ExportClient(c)] + [JsonInt(0)] + [] == [ExportClient(c), JsonInt(0)];
  }

  lemma {:induction false} StaleZero(cfg: Config, s: State, good: seq<Json>, bad: Json, rest: seq<Json>,
                                     now: int, rnd: nat -> string, i: nat)
    requires !bad.JsonObject?
    requires forall k :: 0 <= k < |good| ==> good[k].JsonObject?
    ensures ImportAll(cfg, s, good + [bad] + rest, 0, now, rnd, i) == ImportAll(cfg, s, good, 0, now, rnd, i)
    decreases |good|
  {
    hide ImportClient;
    var all := good + [bad] + rest;
    if good == [] {
      assert all[0] == bad;
    } else {
      assert all[0] == good[0] && all[1..] == good[1..] + [bad] + rest;
      StaleZero(cfg, ImportClient(cfg, s, good[0], now, rnd(i)).0, good[1..], bad, rest, now, rnd, i + 1);
    }
  }
}
