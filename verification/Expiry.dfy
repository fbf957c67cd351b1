/** What the end of a session, or of its volume, means for the client under the block mechanism: the
    timeout check puts its MAC address on the blocked list, and no run lets it back in. */
module Expiry {
  import opened Iptables
  import opened Configuration
  import opened Session
  import opened Mirror
  import opened StateFile
  import opened Runs
  import opened Sweeps
  import opened Identity

  // ---------------------------------------------------------------- who goes on the list

  /** The timeout check moves the client to blocked: its session is over, or its volume used up. */
  predicate Expelled(cfg: Config, c: Client, now: int) {
    c.state == cfg.authMark && Decide(cfg, c, now) == ToState(cfg.blockedMark)
  }

  /** The addresses of the clients moved to blocked, in list order. */
  function ExpelledMacs(cfg: Config, cs: seq<Client>, now: int): (r: seq<string>) {
    if cs == [] then []
    else (if Expelled(cfg, cs[0], now) then [cs[0].mac] else []) + ExpelledMacs(cfg, cs[1..], now)
  }

  /** The blocked list after the addresses were added one by one. */
  function Extended(blocked: seq<string>, macs: seq<string>): (r: seq<string>)
    decreases |macs|
  {
    if macs == [] then blocked
    else Extended(if FirstMac(blocked, macs[0]) < |blocked| then blocked else [macs[0]] + blocked, macs[1..])
  }

  /** The text ends up on the list if and only if it was there, or no spelling of the address was and
      it is the first spelling among those added. */
  lemma {:induction false} ExtendedExactly(blocked: seq<string>, macs: seq<string>, mac: string)
    ensures mac in Extended(blocked, macs) <==>
            mac in blocked
            || (FirstMac(blocked, mac) == |blocked| && FirstMac(macs, mac) < |macs| && macs[FirstMac(macs, mac)] == mac)
    decreases |macs|
  {
    hide FirstMac, Fold;
    if macs != [] {
      var m := macs[0];
      var next := if FirstMac(blocked, m) < |blocked| then blocked else [m] + blocked;
      ExtendedExactly(next, macs[1..], mac);
      FirstMacCons(m, macs[1..], mac);
      assert macs == [m] + macs[1..];
      FirstMacCons(m, blocked, mac);
      if SameMac(m, mac) { FirstMacSame(blocked, m, mac); }
    }
  }

  lemma {:induction false} FirstMacCons(m: string, macs: seq<string>, mac: string)
    ensures FirstMac([m] + macs, mac) == if SameMac(m, mac) then 0 else 1 + FirstMac(macs, mac)
  {
    hide Fold;
    assert ([m] + macs)[1..] == macs;
  }

  lemma {:induction false} FirstMacSame(macs: seq<string>, m: string, mac: string)
    requires SameMac(m, mac)
    ensures FirstMac(macs, m) == FirstMac(macs, mac)
    ensures mac in macs ==> FirstMac(macs, mac) < |macs|
  {
    hide Fold;
    if macs != [] {
      FirstMacSame(macs[1..], m, mac);
    }
  }

  /** No earlier record, kept or to come, has the id of an authenticated record to come. */
  predicate Ahead(cfg: Config, kept: seq<Client>, rest: seq<Client>) {
    forall i, j :: 0 <= i < |kept| && 0 <= j < |rest| && rest[j].state == cfg.authMark ==> kept[i].id != rest[j].id
  }

  lemma {:induction false} AheadNext(cfg: Config, kept: seq<Client>, rest: seq<Client>, more: seq<Client>)
    requires Ahead(cfg, kept, rest) && AuthFirst(cfg, rest) && rest != []
    requires forall i :: 0 <= i < |more| ==> more[i].id == rest[0].id
    ensures Ahead(cfg, kept + more, rest[1..]) && AuthFirst(cfg, rest[1..])
  {
    var tail := rest[1..];
    assert forall j :: 0 <= j < |tail| ==> tail[j] == rest[j + 1];
  }

  lemma {:induction false} EffectBlocks(cfg: Config, s: State, c: Client, now: int)
    requires ValidMarks(cfg) && cfg.mechanism == MacBlock && (c.state == cfg.authMark ==> cfg.validMac(c.mac))
    ensures Sweeps.Effect(cfg, s, c, now).blocked ==
            Extended(s.blocked, if Expelled(cfg, c, now) then [c.mac] else [])
  {
    hide FwDeauthenticate, Exec, Accepted, FirstMac;
    assert [c.mac][1..] == [];
  }

  lemma {:induction false} ExtendedConcat(blocked: seq<string>, a: seq<string>, b: seq<string>)
    requires |a| <= 1
    ensures Extended(blocked, a + b) == Extended(Extended(blocked, a), b)
  {
    hide FirstMac;
    if a == [] {
      assert a + b == b;
    } else {
      assert (a + b)[0] == a[0] && (a + b)[1..] == b && a[1..] == [];
    }
  }

  lemma {:induction false} PassedOver(cfg: Config, kept: seq<Client>, rest: seq<Client>, now: int)
    requires rest != [] && Ahead(cfg, kept, rest) && First(kept, ById(rest[0].id)) < |kept|
    ensures !Expelled(cfg, rest[0], now)
  {
    var k := First(kept, ById(rest[0].id));
    assert ById(rest[0].id)(kept[k]);
    hide First;
    assert kept[k].id == rest[0].id;
  }

  lemma {:induction false} FoldBlocks(cfg: Config, s: State, rest: seq<Client>, now: int, rnd: nat -> string, visit: nat)
    requires ValidMarks(cfg) && cfg.mechanism == MacBlock && Ahead(cfg, s.clients, rest) && AuthFirst(cfg, rest)
    requires forall j :: 0 <= j < |rest| && rest[j].state == cfg.authMark ==> cfg.validMac(rest[j].mac)
    ensures SweepFold(cfg, s, rest, now, rnd, visit).blocked == Extended(s.blocked, ExpelledMacs(cfg, rest, now))
    decreases |rest|
  {
    hide First, Sweeps.Effect, Outcome, Expelled, Ahead, AuthFirst, Extended;
    if rest == [] {
      ExtendedNothing(s.blocked);
    } else {
      var c, kept := rest[0], s.clients;
      var macs := if Expelled(cfg, c, now) then [c.mac] else [];
      ExtendedConcat(s.blocked, macs, ExpelledMacs(cfg, rest[1..], now));
      if First(kept, ById(c.id)) < |kept| {
        PassedOver(cfg, kept, rest, now);
        ExtendedNothing(s.blocked);
        AheadNext(cfg, kept, rest, [c]);
        FoldBlocks(cfg, s.(clients := kept + [c]), rest[1..], now, rnd, visit + 1);
      } else {
        var more := Kept(Outcome(cfg, c, now, rnd(visit)));
        EffectBlocks(cfg, s, c, now);
        AheadNext(cfg, kept, rest, more);
        FoldBlocks(cfg, Sweeps.Effect(cfg, s, c, now).(clients := kept + more), rest[1..], now, rnd, visit + 1);
      }
    }
  }

  lemma {:induction false} ExtendedNothing(blocked: seq<string>)
    ensures Extended(blocked, []) == blocked
  {
  }

  /** In a state where authenticated records come first, as in every run, the check adds to the
      blocked list exactly the addresses of the clients it moves to blocked, in list order. */
  lemma {:induction false} RefreshBlocks(cfg: Config, s: State, now: int, rnd: nat -> string)
    requires ValidMarks(cfg) && cfg.mechanism == MacBlock && AuthFirst(cfg, s.clients) && ClientsSane(cfg, s.clients)
    ensures Runs.Next(cfg, s, Refresh(now, rnd)).blocked == Extended(s.blocked, ExpelledMacs(cfg, s.clients, now))
  {
    hide Sweep, SweepFold, Extended, ExpelledMacs, AuthFirst;
    assert [] + s.clients == s.clients;
    SweepIsFold(cfg, s, [], s.clients, now, rnd, 0);
    FoldBlocks(cfg, s.(clients := []), s.clients, now, rnd, 0);
  }

  // ---------------------------------------------------------------- the expelled record goes

  predicate NoPair(cs: seq<Client>, mac: string, ip: string) {
    forall i :: 0 <= i < |cs| ==> cs[i].mac != mac || cs[i].ip != ip
  }

  lemma {:induction false} OutcomePair(cfg: Config, c: Client, now: int, token: string)
    requires ValidMarks(cfg)
    ensures Expelled(cfg, c, now) ==> Outcome(cfg, c, now, token) == None
    ensures var o := Outcome(cfg, c, now, token); o.Some? ==> o.value.mac == c.mac && o.value.ip == c.ip
  {
  }

  lemma {:induction false} FoldDropsPair(cfg: Config, s: State, rest: seq<Client>, now: int, rnd: nat -> string, visit: nat,
                                         mac: string, ip: string)
    requires ValidMarks(cfg) && Ahead(cfg, s.clients, rest) && AuthFirst(cfg, rest) && NoPair(s.clients, mac, ip)
    requires forall j :: 0 <= j < |rest| && rest[j].mac == mac && rest[j].ip == ip ==> Expelled(cfg, rest[j], now)
    ensures NoPair(SweepFold(cfg, s, rest, now, rnd, visit).clients, mac, ip)
    decreases |rest|
  {
    hide First, Sweeps.Effect, Outcome, Expelled, Ahead, AuthFirst;
    if rest != [] {
      var c, kept := rest[0], s.clients;
      if First(kept, ById(c.id)) < |kept| {
        PassedOver(cfg, kept, rest, now);
        AheadNext(cfg, kept, rest, [c]);
        FoldDropsPair(cfg, s.(clients := kept + [c]), rest[1..], now, rnd, visit + 1, mac, ip);
      } else {
        var more := Kept(Outcome(cfg, c, now, rnd(visit)));
        OutcomePair(cfg, c, now, rnd(visit));
        AheadNext(cfg, kept, rest, more);
        FoldDropsPair(cfg, Sweeps.Effect(cfg, s, c, now).(clients := kept + more), rest[1..], now, rnd, visit + 1, mac, ip);
      }
    }
  }

  lemma {:induction false} RefreshDropsPair(cfg: Config, s: State, k: nat, now: int, rnd: nat -> string)
    requires ValidMarks(cfg) && AuthFirst(cfg, s.clients) && DistinctPairs(s.clients)
    requires k < |s.clients| && Expelled(cfg, s.clients[k], now)
    ensures NoPair(Runs.Next(cfg, s, Refresh(now, rnd)).clients, s.clients[k].mac, s.clients[k].ip)
  {
    hide Sweep, SweepFold, AuthFirst, Expelled;
    assert [] + s.clients == s.clients;
    SweepIsFold(cfg, s, [], s.clients, now, rnd, 0);
    FoldDropsPair(cfg, s.(clients := []), s.clients, now, rnd, 0, s.clients[k].mac, s.clients[k].ip);
  }

  // ---------------------------------------------------------------- for the rest of every run

  /** A record of the MAC address that is not blocked was on the list `base` already, and a new record
      of it starts blocked. */
  predicate KeptOut(cfg: Config, mac: string, base: seq<Client>, s: State) {
    && mac in s.blocked
    && StartState(cfg, s, mac) == cfg.blockedMark
    && forall i :: 0 <= i < |s.clients| && s.clients[i].mac == mac && s.clients[i].state != cfg.blockedMark ==>
         HasEarlier(cfg, base, s.clients[i])
  }

  /** The step takes the MAC address off the blocked list. */
  predicate Unblocks(step: Step, mac: string) {
    step.MacOff? && step.list.BlockedList? && SameMac(step.mac, mac)
  }

  lemma {:induction false} OffOther(macs: seq<string>, mac: string, other: string)
    requires mac in macs && !SameMac(other, mac) && FirstMac(macs, other) < |macs|
    ensures mac in RemoveAt(macs, FirstMac(macs, other))
  {
    var i := FirstMac(macs, other);
    assert macs[i] != mac;
    hide FirstMac, Fold;
    var j :| 0 <= j < |macs| && macs[j] == mac;
    assert RemoveAt(macs, i)[if j < i then j else j - 1] == mac;
  }

  lemma {:induction false} OffBlocked(cfg: Config, s: State, l: MacList, m: string, mac: string)
    requires mac in s.blocked && !(l.BlockedList? && SameMac(m, mac))
    ensures mac in RemoveMac(cfg, s, l, m).0.blocked
  {
    if l.BlockedList? && FirstMac(s.blocked, m) < |s.blocked| { OffOther(s.blocked, mac, m); }
    hide Exec, Accepted, FirstMac, Fold;
  }

  /** Only unblocking takes a MAC address off the blocked list. */
  lemma {:induction false} StepBlocked(cfg: Config, s: State, step: Step, mac: string)
    requires ValidMarks(cfg) && mac in s.blocked && !Unblocks(step, mac)
    ensures mac in Runs.Next(cfg, s, step).blocked
  {
    hide AddClient, RemoveMac, Import, Fold;
    if step.Add? {
      AddLists(cfg, s, step.mac, step.ip, step.now, step.token);
    } else if step.MacOff? {
      OffBlocked(cfg, s, step.list, step.mac, mac);
    } else if step.Load? {
      ImportFrame(cfg, s, step.file, step.now, step.rnd);
    } else {
      StepFramed(cfg, s, step);
    }
  }

  lemma {:induction false} KeptOutKept(cfg: Config, mac: string, base: seq<Client>, s: State, t: State)
    requires cfg.mechanism == MacBlock && KeptOut(cfg, mac, base, s) && mac in t.blocked
    requires forall j :: 0 <= j < |t.clients| && t.clients[j].mac == mac && t.clients[j].state != cfg.blockedMark ==>
               HasEarlier(cfg, s.clients, t.clients[j])
    ensures KeptOut(cfg, mac, base, t)
  {
    forall j | 0 <= j < |t.clients| && t.clients[j].mac == mac && t.clients[j].state != cfg.blockedMark
      ensures HasEarlier(cfg, base, t.clients[j])
    {
      assert HasEarlier(cfg, s.clients, t.clients[j]);
      var k :| 0 <= k < |s.clients| && Later(cfg, s.clients[k], t.clients[j]);
      assert HasEarlier(cfg, base, s.clients[k]);
      var i :| 0 <= i < |base| && Later(cfg, base[i], s.clients[k]);
      assert Later(cfg, base[i], t.clients[j]);
    }
  }

  /** A record that was there before stays its own descendant. */
  lemma {:induction false} SameRecord(cfg: Config, cs: seq<Client>, k: nat)
    requires k < |cs|
    ensures HasEarlier(cfg, cs, cs[k])
  {
    assert Later(cfg, cs[k], cs[k]);
  }

  lemma {:induction false} ImportKeptOut(cfg: Config, s: State, elems: seq<Json>, rc: int, now: int, rnd: nat -> string, i: nat,
                                         mac: string, base: seq<Client>)
    requires ValidMarks(cfg) && cfg.mechanism == MacBlock && KeptOut(cfg, mac, base, s)
    ensures KeptOut(cfg, mac, base, ImportAll(cfg, s, elems, rc, now, rnd, i).0)
    decreases |elems|
  {
    hide ImportClient, HasEarlier;
    if elems != [] && elems[0].JsonObject? {
      ImportClientFrame(cfg, s, elems[0], now, rnd(i));
      var t := ImportClient(cfg, s, elems[0], now, rnd(i)).0;
      forall k | 0 <= k < |t.clients| && t.clients[k].mac == mac && t.clients[k].state != cfg.blockedMark
        ensures HasEarlier(cfg, s.clients, t.clients[k])
      {
        assert k < |s.clients| && t.clients[k] == s.clients[k];
        SameRecord(cfg, s.clients, k);
      }
      KeptOutKept(cfg, mac, base, s, t);
      hide KeptOut;
      ImportKeptOut(cfg, t, elems[1..], 0, now, rnd, i + 1, mac, base);
    }
  }

  lemma {:induction false} LoadKeptOut(cfg: Config, s: State, f: File, now: int, rnd: nat -> string, mac: string, base: seq<Client>)
    requires ValidMarks(cfg) && cfg.mechanism == MacBlock && KeptOut(cfg, mac, base, s)
    ensures KeptOut(cfg, mac, base, Startup(cfg, s, f, now, rnd))
  {
    var t := Import(cfg, s, f, now, rnd).0;
    assert KeptOut(cfg, mac, base, t) by {
      hide ImportAll, KeptOut;
      if f.Parsed? && f.top.JsonObject? && KClients in f.top.fields && f.top.fields[KClients].JsonArray? {
        ImportKeptOut(cfg, s, f.top.fields[KClients].elems, -EINVAL, now, rnd, 0, mac, base);
      }
    }
    hide Import, HasEarlier;
    KeptOutKept(cfg, mac, base, t, Reset(cfg, t));
  }

  lemma {:induction false} AddKeptOut(cfg: Config, s: State, m: string, ip: string, now: int, token: string, mac: string, base: seq<Client>)
    requires ValidMarks(cfg) && cfg.mechanism == MacBlock && KeptOut(cfg, mac, base, s)
    ensures KeptOut(cfg, mac, base, AddClient(cfg, s, m, ip, now, token).0)
  {
    hide AddClient, HasEarlier, NewClient, StartState;
    var t := AddClient(cfg, s, m, ip, now, token).0;
    AddClientCases(cfg, s, m, ip, now, token);
    NewClientState(cfg, s, m, ip, now, token);
    NewClientMac(cfg, s, m, ip, now, token);
    if t != s {
      forall k | 0 <= k < |t.clients| && t.clients[k].mac == mac && t.clients[k].state != cfg.blockedMark
        ensures HasEarlier(cfg, s.clients, t.clients[k])
      {
        assert k < |s.clients| && t.clients[k] == s.clients[k];
        SameRecord(cfg, s.clients, k);
      }
      KeptOutKept(cfg, mac, base, s, t);
    }
  }

  lemma {:induction false} NewClientMac(cfg: Config, s: State, mac: string, ip: string, now: int, token: string)
    ensures NewClient(cfg, s, mac, ip, now, token).mac == mac
  {
  }

  lemma {:induction false} StepKeptOut(cfg: Config, s: State, step: Step, mac: string, base: seq<Client>)
    requires ValidMarks(cfg) && cfg.mechanism == MacBlock && KeptOut(cfg, mac, base, s) && !Unblocks(step, mac)
    ensures KeptOut(cfg, mac, base, Runs.Next(cfg, s, step))
  {
    hide AddClient, Startup, HasEarlier;
    var t := Runs.Next(cfg, s, step);
    if step.Load? {
      LoadKeptOut(cfg, s, step.file, step.now, step.rnd, mac, base);
    } else if step.Add? {
      AddKeptOut(cfg, s, step.mac, step.ip, step.now, step.token, mac, base);
    } else {
      StepBlocked(cfg, s, step, mac);
      StepEvolves(cfg, s, step);
      hide Runs.Next;
      KeptOutKept(cfg, mac, base, s, t);
    }
  }

  lemma {:induction false} RunKeptOut(cfg: Config, s: State, steps: seq<Step>, mac: string, base: seq<Client>)
    requires ValidMarks(cfg) && cfg.mechanism == MacBlock && KeptOut(cfg, mac, base, s)
    requires forall i :: 0 <= i < |steps| ==> !Unblocks(steps[i], mac)
    ensures KeptOut(cfg, mac, base, Run(cfg, s, steps))
    decreases |steps|
  {
    hide KeptOut, Runs.Next, Unblocks;
    if steps != [] {
      StepKeptOut(cfg, s, steps[0], mac, base);
      RunKeptOut(cfg, Runs.Next(cfg, s, steps[0]), steps[1..], mac, base);
    }
  }

  /** The check puts the spelling of the record on the blocked list: it is there, or no spelling of the
      address is, and this is the first spelling of it among the clients that go. */
  predicate Spelled(cfg: Config, s: State, mac: string, now: int) {
    var macs := ExpelledMacs(cfg, s.clients, now);
    mac in s.blocked
    || (FirstMac(s.blocked, mac) == |s.blocked| && FirstMac(macs, mac) < |macs| && macs[FirstMac(macs, mac)] == mac)
  }

  lemma {:induction false} BlockedStart(cfg: Config, s: State, mac: string)
    requires ValidMarks(cfg) && cfg.mechanism == MacBlock
    ensures StartState(cfg, s, mac) == cfg.blockedMark <==> mac in s.blocked
  {
  }

  /** After the check, a new record of the address starts blocked if and only if the list held that
      spelling, or no spelling of it and the check put this one there. */
  lemma {:induction false} ExpiryBlocksExactly(cfg: Config, s: State, mac: string, now: int, rnd: nat -> string)
    requires ValidMarks(cfg) && cfg.mechanism == MacBlock && AuthFirst(cfg, s.clients) && ClientsSane(cfg, s.clients)
    ensures StartState(cfg, Runs.Next(cfg, s, Refresh(now, rnd)), mac) == cfg.blockedMark <==> Spelled(cfg, s, mac, now)
  {
    hide Runs.Next, StartState, ExpelledMacs, Extended, FirstMac, AuthFirst, ClientsSane;
    RefreshBlocks(cfg, s, now, rnd);
    ExtendedExactly(s.blocked, ExpelledMacs(cfg, s.clients, now), mac);
    BlockedStart(cfg, Runs.Next(cfg, s, Refresh(now, rnd)), mac);
  }

  /** The list holds the address in lower case, the client that goes uses upper case: its next record
      starts unblocked. */
  lemma {:induction false} SpellingExample(cfg: Config, s: State, k: nat, now: int, rnd: nat -> string)
    requires ValidMarks(cfg) && cfg.mechanism == MacBlock && AuthFirst(cfg, s.clients) && ClientsSane(cfg, s.clients)
    requires k < |s.clients| && Expelled(cfg, s.clients[k], now)
    requires s.clients[k].mac == "0A:00:00:00:00:01" && s.blocked == ["0a:00:00:00:00:01"]
    ensures StartState(cfg, Runs.Next(cfg, s, Refresh(now, rnd)), s.clients[k].mac) != cfg.blockedMark
  {
    hide Runs.Next, StartState, ExpelledMacs, FirstMac, AuthFirst, ClientsSane;
    var mac := s.clients[k].mac;
    assert mac[1] == 'A' && s.blocked[0][1] == 'a';
    assert Fold(mac) == Fold(s.blocked[0]);
    FirstMacCons(s.blocked[0], [], mac);
    assert [s.blocked[0]] + [] == s.blocked;
    ExpiryBlocksExactly(cfg, s, mac, now, rnd);
  }

  /** With one spelling of the address on the blocked list and among the records the condition
      holds for every client that goes. */
  lemma {:induction false} OneSpelling(cfg: Config, s: State, k: nat, now: int)
    requires k < |s.clients| && Expelled(cfg, s.clients[k], now)
    requires forall m :: m in s.blocked && SameMac(m, s.clients[k].mac) ==> m == s.clients[k].mac
    requires forall i :: 0 <= i < |s.clients| && SameMac(s.clients[i].mac, s.clients[k].mac) ==> s.clients[i].mac == s.clients[k].mac
    ensures Spelled(cfg, s, s.clients[k].mac, now)
  {
    hide FirstMac, Fold;
    var mac, macs := s.clients[k].mac, ExpelledMacs(cfg, s.clients, now);
    ExpelledIn(cfg, s.clients, k, now);
    ExpelledFrom(cfg, s.clients, now, FirstMac(macs, mac));
    FirstMacSame(macs, mac, mac);
    if FirstMac(s.blocked, mac) < |s.blocked| {
      assert s.blocked[FirstMac(s.blocked, mac)] in s.blocked;
    }
  }

  lemma {:induction false} ExpelledIn(cfg: Config, cs: seq<Client>, k: nat, now: int)
    requires k < |cs| && Expelled(cfg, cs[k], now)
    ensures cs[k].mac in ExpelledMacs(cfg, cs, now)
  {
    hide Expelled;
    if k > 0 { ExpelledIn(cfg, cs[1..], k - 1, now); }
  }

  lemma {:induction false} ExpelledFrom(cfg: Config, cs: seq<Client>, now: int, i: nat)
    ensures i < |ExpelledMacs(cfg, cs, now)| ==>
              exists k :: 0 <= k < |cs| && cs[k].mac == ExpelledMacs(cfg, cs, now)[i]
  {
    hide Expelled;
    if cs != [] && i < |ExpelledMacs(cfg, cs, now)| {
      var n := if Expelled(cfg, cs[0], now) then 1 else 0;
      if i < n {
        assert cs[0].mac == ExpelledMacs(cfg, cs, now)[i];
      } else {
        ExpelledFrom(cfg, cs[1..], now, i - n);
        var k :| 0 <= k < |cs[1..]| && cs[1..][k].mac == ExpelledMacs(cfg, cs[1..], now)[i - n];
        assert cs[k + 1].mac == ExpelledMacs(cfg, cs, now)[i];
      }
    }
  }

  lemma {:induction false} ExpelledKeptOut(cfg: Config, s: State, k: nat, now: int, rnd: nat -> string, steps: seq<Step>)
    requires ValidMarks(cfg) && cfg.mechanism == MacBlock && AuthFirst(cfg, s.clients) && ClientsSane(cfg, s.clients)
    requires k < |s.clients| && Expelled(cfg, s.clients[k], now) && Spelled(cfg, s, s.clients[k].mac, now)
    requires forall i :: 0 <= i < |steps| ==> !Unblocks(steps[i], s.clients[k].mac)
    ensures var t := Runs.Next(cfg, s, Refresh(now, rnd));
            KeptOut(cfg, s.clients[k].mac, t.clients, Run(cfg, t, steps))
  {
    hide Runs.Next, StartState, Spelled, AuthFirst, ClientsSane, Unblocks, Run, Expelled, HasEarlier;
    var mac := s.clients[k].mac;
    var t := Runs.Next(cfg, s, Refresh(now, rnd));
    ExpiryBlocksExactly(cfg, s, mac, now, rnd);
    BlockedStart(cfg, t, mac);
    forall i | 0 <= i < |t.clients| ensures HasEarlier(cfg, t.clients, t.clients[i]) { SameRecord(cfg, t.clients, i); }
    RunKeptOut(cfg, t, steps, mac, t.clients);
  }

  /** In every run under the block mechanism: a client that the timeout check moves to blocked is gone
      from the list, and until its address is unblocked, through every further run, imports included,
      a new record of the address starts blocked, every record of it that is not blocked was on the
      list right after the check, and a record of the client's own pair is blocked. */
  lemma {:induction false} ExpiredStayOut(cfg: Config, fw0: Tables, trusted: seq<string>, blocked: seq<string>, allowed: seq<string>,
                                          before: seq<Step>, k: nat, now: int, rnd: nat -> string, after: seq<Step>)
    requires ValidMarks(cfg) && cfg.mechanism == MacBlock && Initialised(cfg, fw0, trusted, blocked, allowed)
    ensures var s := Run(cfg, Initial(fw0, trusted, blocked, allowed), before);
            k < |s.clients| && Expelled(cfg, s.clients[k], now) && Spelled(cfg, s, s.clients[k].mac, now)
            && (forall i :: 0 <= i < |after| ==> !Unblocks(after[i], s.clients[k].mac)) ==>
              var c := s.clients[k];
              var t := Runs.Next(cfg, s, Refresh(now, rnd));
              var u := Run(cfg, t, after);
              && NoPair(t.clients, c.mac, c.ip)
              && KeptOut(cfg, c.mac, t.clients, u)
              && forall i :: 0 <= i < |u.clients| && u.clients[i].mac == c.mac && u.clients[i].ip == c.ip ==>
                   u.clients[i].state == cfg.blockedMark
  {
    hide Run, Runs.Next, Expelled, Spelled, Unblocks, AuthFirst, Initialised, ValidMarks, MacsMirrored, ClientsMirrored, OnlySessionChains, StartState;
    var s := Run(cfg, Initial(fw0, trusted, blocked, allowed), before);
    EveryRunFirst(cfg, fw0, trusted, blocked, allowed, before);
    EveryRunAgrees(cfg, fw0, trusted, blocked, allowed, before);
    hide DistinctPairs, ClientsSane;
    if k < |s.clients| && Expelled(cfg, s.clients[k], now) && Spelled(cfg, s, s.clients[k].mac, now)
       && forall i :: 0 <= i < |after| ==> !Unblocks(after[i], s.clients[k].mac) {
      ExpelledKeptOut(cfg, s, k, now, rnd, after);
      RefreshDropsPair(cfg, s, k, now, rnd);
      PairKeptOut(cfg, s.clients[k], Runs.Next(cfg, s, Refresh(now, rnd)).clients,
                  Run(cfg, Runs.Next(cfg, s, Refresh(now, rnd)), after));
    }
  }

  lemma {:induction false} PairKeptOut(cfg: Config, c: Client, base: seq<Client>, u: State)
    requires NoPair(base, c.mac, c.ip) && KeptOut(cfg, c.mac, base, u)
    ensures forall i :: 0 <= i < |u.clients| && u.clients[i].mac == c.mac && u.clients[i].ip == c.ip ==>
              u.clients[i].state == cfg.blockedMark
  {
  }

  // ---------------------------------------------------------------- the allow mechanism

  lemma {:induction false} VisitAllow(cfg: Config, s: State, k: nat, now: int, token: string)
    requires k < |s.clients| && cfg.mechanism == MacAllow
    ensures var t := SweepAt(cfg, s, k, now, token);
            t.blocked == s.blocked && t.allowed == s.allowed && t.trusted == s.trusted
  {
    hide FwAuthenticate, FwDeauthenticate, Exec, Accepted, FirstMac;
  }

  lemma {:induction false} SweepAllow(cfg: Config, s: State, i: nat, now: int, rnd: nat -> string, visit: nat)
    requires i <= |s.clients| && cfg.mechanism == MacAllow
    ensures var t := Sweep(cfg, s, i, now, rnd, visit);
            t.blocked == s.blocked && t.allowed == s.allowed && t.trusted == s.trusted
    decreases |s.clients| - i
  {
    if i < |s.clients| {
      hide SweepAt, First, Sweep;
      SweepStep(cfg, s, i, now, rnd, visit);
      var k := First(s.clients, ById(s.clients[i].id));
      var t := SweepAt(cfg, s, k, now, rnd(visit));
      VisitAllow(cfg, s, k, now, rnd(visit));
      SweepAllow(cfg, t, if |t.clients| < |s.clients| then i else i + 1, now, rnd, visit + 1);
    }
  }

  /** Under the allow mechanism, in every run, a client that the timeout check moves to blocked leaves
      the list, and that is all: no MAC list changes, and a new record of any address starts as before. */
  lemma {:induction false} ExpiryUnderAllow(cfg: Config, fw0: Tables, trusted: seq<string>, blocked: seq<string>, allowed: seq<string>,
                                            before: seq<Step>, k: nat, mac: string, now: int, rnd: nat -> string)
    requires ValidMarks(cfg) && cfg.mechanism == MacAllow && Initialised(cfg, fw0, trusted, blocked, allowed)
    ensures var s := Run(cfg, Initial(fw0, trusted, blocked, allowed), before);
            var t := Runs.Next(cfg, s, Refresh(now, rnd));
            && StartState(cfg, t, mac) == StartState(cfg, s, mac)
            && (k < |s.clients| && Expelled(cfg, s.clients[k], now) ==> NoPair(t.clients, s.clients[k].mac, s.clients[k].ip))
  {
    hide Run, Expelled, AuthFirst, Initialised, MacsMirrored, ClientsMirrored, OnlySessionChains, StartState, Sweep;
    var s := Run(cfg, Initial(fw0, trusted, blocked, allowed), before);
    EveryRunFirst(cfg, fw0, trusted, blocked, allowed, before);
    EveryRunAgrees(cfg, fw0, trusted, blocked, allowed, before);
    hide DistinctPairs, ClientsSane;
    SweepAllow(cfg, s, 0, now, rnd, 0);
    SameStart(cfg, s, Runs.Next(cfg, s, Refresh(now, rnd)), mac);
    if k < |s.clients| && Expelled(cfg, s.clients[k], now) { RefreshDropsPair(cfg, s, k, now, rnd); }
  }

  // ---------------------------------------------------------------- the run to the spelling example

  const LOWER := "0a:00:00:00:00:01"
  const UPPER := "0A:00:00:00:00:01"

  /** A client that comes in and authenticates for one second. */
  lemma {:induction false} OneSecond(cfg: Config, s: State, mac: string, ip: string, token: string, now: int)
    requires ValidMarks(cfg) && s.clients == [] && cfg.maxClients >= 1 && cfg.validMac(mac) && cfg.validIp(ip)
    requires StartState(cfg, s, mac) == PREAUTHENTICATED
    ensures var u := Run(cfg, s, [Add(mac, ip, now, token), Http(mac, ip, token, 1, 0, 0, now)]);
            && |u.clients| == 1 && u.clients[0].mac == mac && u.clients[0].state == cfg.authMark
            && u.clients[0].sessionEnd == now + 1 && u.blocked == s.blocked
  {
    hide Run, Runs.Next, StartState;
    var add, http := Add(mac, ip, now, token), Http(mac, ip, token, 1, 0, 0, now);
    ComesIn(cfg, s, mac, ip, token, now);
    LogsIn(cfg, Runs.Next(cfg, s, add), Client(s.nextId, ip, mac, token, PREAUTHENTICATED, 0, 0, 0, 0, now, 0, 0), now);
    RunNothing(cfg, s);
    RunSnoc(cfg, s, [], add);
    RunSnoc(cfg, s, [add], http);
    assert [] + [add] == [add] && [add] + [http] == [add, http];
  }

  lemma {:induction false} RunNothing(cfg: Config, s: State)
    ensures Run(cfg, s, []) == s
  {
  }

  lemma {:induction false} ComesIn(cfg: Config, s: State, mac: string, ip: string, token: string, now: int)
    requires s.clients == [] && cfg.maxClients >= 1 && cfg.validMac(mac) && cfg.validIp(ip)
    requires StartState(cfg, s, mac) == PREAUTHENTICATED
    ensures var t := Runs.Next(cfg, s, Add(mac, ip, now, token));
            && t.clients == [Client(s.nextId, ip, mac, token, PREAUTHENTICATED, 0, 0, 0, 0, now, 0, 0)]
            && t.blocked == s.blocked
  {
    hide StartState;
  }

  lemma {:induction false} LogsIn(cfg: Config, t: State, c: Client, now: int)
    requires ValidMarks(cfg) && t.clients == [c] && c.state == PREAUTHENTICATED
    ensures var u := Runs.Next(cfg, t, Http(c.mac, c.ip, c.token, 1, 0, 0, now));
            && |u.clients| == 1 && u.clients[0].mac == c.mac && u.clients[0].state == cfg.authMark
            && u.clients[0].sessionEnd == now + 1 && u.blocked == t.blocked
  {
    FirstIs([c], ByPair(c.mac, c.ip), 0);
    FirstIs([c], ById(c.id), 0);
    hide First;
    AuthByIdExactly(cfg, t, c.id, now);
    AuthBlocked(cfg, t, c.id, now);
    hide AuthById;
  }

  lemma {:induction false} AuthBlocked(cfg: Config, t: State, id: nat, now: int)
    requires ValidMarks(cfg)
    ensures AuthById(cfg, t, id, now).0.blocked == t.blocked
  {
    hide First, FwAuthenticate, FwDeauthenticate, AddMac;
  }

  /** From the initial state: the configuration blocks the address in lower case. A client that uses
      upper case comes in, authenticates for one second, and is moved to blocked by the timeout check a
      second later; its next record starts preauthenticated. */
  lemma {:induction false} SpellingRun(cfg: Config, fw0: Tables, ip: string, token: string, now: nat, rnd: nat -> string)
    requires ValidMarks(cfg) && cfg.mechanism == MacBlock && cfg.sessionTimeoutBlock > 0 && cfg.maxClients >= 1
    requires cfg.validMac(UPPER) && cfg.validIp(ip)
    ensures var s := Run(cfg, Initial(fw0, [], [LOWER], []), [Add(UPPER, ip, now, token), Http(UPPER, ip, token, 1, 0, 0, now)]);
            && |s.clients| == 1 && Expelled(cfg, s.clients[0], now + 1)
            && StartState(cfg, Runs.Next(cfg, s, Refresh(now + 1, rnd)), UPPER) != cfg.blockedMark
  {
    var s0 := Initial(fw0, [], [LOWER], []);
    assert LOWER[1] == 'a' && UPPER[1] == 'A';
    assert StartState(cfg, s0, UPPER) == PREAUTHENTICATED;
    var s := Run(cfg, s0, [Add(UPPER, ip, now, token), Http(UPPER, ip, token, 1, 0, 0, now)]);
    OneSecond(cfg, s0, UPPER, ip, token, now);
    hide Run, StartState, Runs.Next, Fold;
    SpellingExample(cfg, s, 0, now + 1, rnd);
  }
}
