/** The two loops over the live client list (src/auth.c:142-206 and 419-438) against folds over a
    snapshot of the list. */
module Sweeps {
  import opened Iptables
  import opened Configuration
  import opened Session
  import opened Mirror
  import opened StateFile

  /** The record after one visit of the timeout check, or None when it goes. */
  function Outcome(cfg: Config, c: Client, now: int, token: string): (r: Option<Client>)
    ensures r.Some? ==> r.value.id == c.id
  {
    match Decide(cfg, c, now)
    case Keep => Some(c)
    case Discard => None
    case ToState(to) =>
      if c.state != cfg.authMark then Some(c)
      else if to == PREAUTHENTICATED then Some(ResetClient(c, now, token).(state := to))
      else None
  }

  /** What one visit does outside the client list. */
  function Effect(cfg: Config, s: State, c: Client, now: int): (t: State)
    ensures t.clients == s.clients
  {
    match Decide(cfg, c, now)
    case Keep => s
    case Discard => s
    case ToState(to) =>
      if c.state != cfg.authMark then s
      else
        var t := s.(fw := FwDeauthenticate(cfg, s.fw, c));
        if to == PREAUTHENTICATED then t
        else AddMac(cfg, t, BlockedList, c.mac).0.(clients := s.clients)
  }

  function Kept(o: Option<Client>): (r: seq<Client>) {
    if o.Some? then [o.value] else []
  }

  /** The timeout check as a fold over the records `rest`, with those already seen in `s.clients`. A
      record whose id is taken by an earlier one that stayed is passed over. */
  function SweepFold(cfg: Config, s: State, rest: seq<Client>, now: int, rnd: nat -> string, visit: nat): (t: State)
    decreases |rest|
  {
    if rest == [] then s
    else
      var c := rest[0];
      if First(s.clients, ById(c.id)) < |s.clients| then
        SweepFold(cfg, s.(clients := s.clients + [c]), rest[1..], now, rnd, visit + 1)
      else
        var t := Effect(cfg, s, c, now);
        SweepFold(cfg, t.(clients := s.clients + Kept(Outcome(cfg, c, now, rnd(visit)))), rest[1..], now, rnd, visit + 1)
  }

  /** A visit changes nothing. */
  predicate Stable(cfg: Config, c: Client, now: int) {
    match Decide(cfg, c, now)
    case Keep => true
    case Discard => false
    case ToState(to) => c.state != cfg.authMark
  }

  /** A record that stays is not changed by a second visit. */
  lemma {:induction false} OutcomeStable(cfg: Config, c: Client, now: int, token: string)
    requires ValidMarks(cfg)
    ensures var o := Outcome(cfg, c, now, token); o.Some? ==> Stable(cfg, o.value, now)
  {
  }

  lemma {:induction false} VisitIs(cfg: Config, s: State, k: nat, now: int, token: string)
    requires ValidMarks(cfg) && k < |s.clients|
    ensures var c := s.clients[k];
            var o := Outcome(cfg, c, now, token);
            SweepAt(cfg, s, k, now, token)
            == Effect(cfg, s, c, now).(clients := if o.Some? then s.clients[k := o.value] else RemoveAt(s.clients, k))
    ensures Stable(cfg, s.clients[k], now) ==> SweepAt(cfg, s, k, now, token) == s
  {
    hide FwAuthenticate, FwDeauthenticate, Exec, Accepted, FirstMac;
    assert s.clients[k := s.clients[k]] == s.clients;
  }

  /** The effect does not depend on the client list. */
  lemma {:induction false} EffectFrame(cfg: Config, s: State, c: Client, now: int, cs: seq<Client>)
    ensures Effect(cfg, s.(clients := cs), c, now) == Effect(cfg, s, c, now).(clients := cs)
  {
    hide FwDeauthenticate, Exec, Accepted, FirstMac;
  }

  /** Every record that comes first with its id has had its visit. */
  predicate Settled(cfg: Config, kept: seq<Client>, now: int) {
    forall m :: 0 <= m < |kept| && First(kept, ById(kept[m].id)) == m ==> Stable(cfg, kept[m], now)
  }

  lemma {:induction false} FirstConcat(a: seq<Client>, b: seq<Client>, id: nat)
    ensures var k := First(a, ById(id));
            First(a + b, ById(id)) == if k < |a| then k else |a| + First(b, ById(id))
  {
    var k, l := First(a, ById(id)), First(b, ById(id));
    var n := if k < |a| then k else |a| + l;
    assert forall j :: 0 <= j < n ==> (a + b)[j] == if j < |a| then a[j] else b[j - |a|];
    FirstIs(a + b, ById(id), n);
  }

  lemma {:induction false} SettledSkip(cfg: Config, kept: seq<Client>, c: Client, now: int)
    requires Settled(cfg, kept, now)
    requires First(kept, ById(c.id)) < |kept| || Stable(cfg, c, now)
    ensures Settled(cfg, kept + [c], now)
  {
    hide Stable, First;
    var all := kept + [c];
    forall m | 0 <= m < |all| && First(all, ById(all[m].id)) == m ensures Stable(cfg, all[m], now) {
      FirstConcat(kept, [c], all[m].id);
    }
  }

  /** One iteration at a record whose id an earlier record has. */
  lemma {:induction false} PassOver(cfg: Config, s: State, kept: seq<Client>, rest: seq<Client>, now: int, rnd: nat -> string, visit: nat)
    requires ValidMarks(cfg) && s.clients == kept + rest && Settled(cfg, kept, now) && rest != []
    requires First(kept, ById(rest[0].id)) < |kept|
    ensures Settled(cfg, kept + [rest[0]], now)
    ensures Sweep(cfg, s, |kept|, now, rnd, visit) == Sweep(cfg, s, |kept| + 1, now, rnd, visit + 1)
  {
    hide Stable, SweepAt, Settled;
    var c := rest[0];
    FirstConcat(kept, rest, c.id);
    hide First;
    var k := First(s.clients, ById(c.id));
    SweepLength(cfg, s, k, now, rnd(visit));
    VisitIs(cfg, s, k, now, rnd(visit));
    SettledFirst(cfg, kept, c.id, now);
    SettledSkip(cfg, kept, c, now);
  }

  /** One iteration at a record that comes first with its id. */
  lemma {:induction false} Visit(cfg: Config, s: State, kept: seq<Client>, rest: seq<Client>, now: int, rnd: nat -> string, visit: nat)
    requires ValidMarks(cfg) && s.clients == kept + rest && Settled(cfg, kept, now) && rest != []
    requires First(kept, ById(rest[0].id)) == |kept|
    ensures var kept' := kept + Kept(Outcome(cfg, rest[0], now, rnd(visit)));
            var t := Effect(cfg, s, rest[0], now).(clients := kept' + rest[1..]);
            Settled(cfg, kept', now)
            && Sweep(cfg, s, |kept|, now, rnd, visit) == Sweep(cfg, t, |kept'|, now, rnd, visit + 1)
  {
    hide Stable, SweepAt, Settled, First, Effect, Outcome, Sweep;
    var c := rest[0];
    var o := Outcome(cfg, c, now, rnd(visit));
    var kept' := kept + Kept(o);
    assert First(s.clients, ById(c.id)) == |kept| by {
      FirstConcat(kept, rest, c.id);
      FirstIs(rest, ById(c.id), 0);
    }
    VisitIs(cfg, s, |kept|, now, rnd(visit));
    OneIteration(cfg, s, |kept|, now, rnd, visit);
    KeptOrNot(kept, rest, o);
    if o.Some? {
      OutcomeStable(cfg, c, now, rnd(visit));
      SettledSkip(cfg, kept, o.value, now);
    }
  }

  lemma {:induction false} KeptOrNot(kept: seq<Client>, rest: seq<Client>, o: Option<Client>)
    requires rest != []
    ensures kept + Kept(o) + rest[1..]
            == if o.Some? then (kept + rest)[|kept| := o.value] else RemoveAt(kept + rest, |kept|)
    ensures o.None? ==> kept + Kept(o) == kept
  {
  }

  lemma {:induction false} OneIteration(cfg: Config, s: State, i: nat, now: int, rnd: nat -> string, visit: nat)
    requires i < |s.clients| && First(s.clients, ById(s.clients[i].id)) == i
    ensures var t := SweepAt(cfg, s, i, now, rnd(visit));
            |t.clients| <= |s.clients| && (|t.clients| < |s.clients| ==> i <= |t.clients|)
            && Sweep(cfg, s, i, now, rnd, visit)
               == Sweep(cfg, t, if |t.clients| < |s.clients| then i else i + 1, now, rnd, visit + 1)
  {
    hide SweepAt, First, Sweep;
    SweepStep(cfg, s, i, now, rnd, visit);
  }

  /** The loop over the live list, which looks every record up by its id and deletes as it goes, is
      the fold: for every list, with or without repeated ids. */
  lemma {:induction false} SweepIsFold(cfg: Config, s: State, kept: seq<Client>, rest: seq<Client>,
                                       now: int, rnd: nat -> string, visit: nat)
    requires ValidMarks(cfg) && s.clients == kept + rest && Settled(cfg, kept, now)
    ensures Sweep(cfg, s, |kept|, now, rnd, visit) == SweepFold(cfg, s.(clients := kept), rest, now, rnd, visit)
    decreases |rest|
  {
    hide First, Effect, Outcome, Settled, SweepAt;
    if rest == [] {
      assert kept + rest == kept;
    } else if First(kept, ById(rest[0].id)) < |kept| {
      PassOver(cfg, s, kept, rest, now, rnd, visit);
      assert kept + rest == kept + [rest[0]] + rest[1..];
      hide Sweep;
      SweepIsFold(cfg, s, kept + [rest[0]], rest[1..], now, rnd, visit + 1);
    } else {
      Visit(cfg, s, kept, rest, now, rnd, visit);
      hide Sweep;
      var kept' := kept + Kept(Outcome(cfg, rest[0], now, rnd(visit)));
      EffectFrame(cfg, s, rest[0], now, kept);
      SweepIsFold(cfg, Effect(cfg, s, rest[0], now).(clients := kept' + rest[1..]), kept', rest[1..], now, rnd, visit + 1);
    }
  }

  lemma {:induction false} SettledFirst(cfg: Config, kept: seq<Client>, id: nat, now: int)
    requires Settled(cfg, kept, now) && First(kept, ById(id)) < |kept|
    ensures Stable(cfg, kept[First(kept, ById(id))], now)
  {
    hide Stable;
    var k := First(kept, ById(id));
    assert ById(id)(kept[k]);
    assert kept[k].id == id;
  }

  // ---------------------------------------------------------------- distinct ids

  /** The records that stay, in order. */
  function Survivors(cfg: Config, cs: seq<Client>, now: int, rnd: nat -> string, visit: nat): (r: seq<Client>) {
    if cs == [] then []
    else Kept(Outcome(cfg, cs[0], now, rnd(visit))) + Survivors(cfg, cs[1..], now, rnd, visit + 1)
  }

  /** The effects of all visits, in order. */
  function Effects(cfg: Config, s: State, cs: seq<Client>, now: int): (t: State)
    ensures t.clients == s.clients
    decreases |cs|
  {
    if cs == [] then s else Effects(cfg, Effect(cfg, s, cs[0], now), cs[1..], now)
  }

  lemma {:induction false} FoldDistinct(cfg: Config, s: State, rest: seq<Client>, now: int, rnd: nat -> string, visit: nat)
    requires DistinctIds(rest)
    requires forall m, j :: 0 <= m < |s.clients| && 0 <= j < |rest| ==> s.clients[m].id != rest[j].id
    ensures SweepFold(cfg, s, rest, now, rnd, visit)
            == Effects(cfg, s, rest, now).(clients := s.clients + Survivors(cfg, rest, now, rnd, visit))
    decreases |rest|
  {
    hide Effect, Outcome;
    if rest == [] {
      assert s.clients + [] == s.clients;
    } else {
      var c := rest[0];
      assert First(s.clients, ById(c.id)) == |s.clients| by { FirstIs(s.clients, ById(c.id), |s.clients|); }
      hide First;
      var o := Outcome(cfg, c, now, rnd(visit));
      var kept := s.clients + Kept(o);
      var t := Effect(cfg, s, c, now).(clients := kept);
      forall m, j | 0 <= m < |kept| && 0 <= j < |rest[1..]| ensures kept[m].id != rest[1..][j].id {
        assert rest[1..][j] == rest[j + 1];
      }
      FoldDistinct(cfg, t, rest[1..], now, rnd, visit + 1);
      EffectsFrame(cfg, Effect(cfg, s, c, now), rest[1..], now, kept);
      assert kept + Survivors(cfg, rest[1..], now, rnd, visit + 1) == s.clients + Survivors(cfg, rest, now, rnd, visit);
    }
  }

  lemma {:induction false} EffectsFrame(cfg: Config, s: State, cs: seq<Client>, now: int, ds: seq<Client>)
    ensures Effects(cfg, s.(clients := ds), cs, now) == Effects(cfg, s, cs, now).(clients := ds)
    decreases |cs|
  {
    hide Effect;
    if cs != [] {
      EffectFrame(cfg, s, cs[0], now, ds);
      EffectsFrame(cfg, Effect(cfg, s, cs[0], now), cs[1..], now, ds);
    }
  }

  /** With distinct ids every record is visited exactly once, in list order, and each by the first of
      the four cases that applies to it. */
  lemma {:induction false} SweepVisitsEachOnce(cfg: Config, s: State, now: int, rnd: nat -> string)
    requires ValidMarks(cfg) && DistinctIds(s.clients)
    ensures Sweep(cfg, s, 0, now, rnd, 0)
            == Effects(cfg, s, s.clients, now).(clients := Survivors(cfg, s.clients, now, rnd, 0))
  {
    hide Sweep, SweepFold, Effects, Survivors;
    assert [] + s.clients == s.clients;
    SweepIsFold(cfg, s, [], s.clients, now, rnd, 0);
    FoldDistinct(cfg, s.(clients := []), s.clients, now, rnd, 0);
    EffectsFrame(cfg, s, s.clients, now, []);
    var survivors := Survivors(cfg, s.clients, now, rnd, 0);
    assert [] + survivors == survivors;
  }

  // ---------------------------------------------------------------- expired sessions

  /** An authenticated record is the first one with its id: the one that a lookup by id finds. */
  predicate AuthFirst(cfg: Config, cs: seq<Client>) {
    forall i, j :: 0 <= i < j < |cs| && cs[j].state == cfg.authMark ==> cs[i].id != cs[j].id
  }

  predicate Expired(cfg: Config, c: Client, now: int) {
    c.state == cfg.authMark && 0 < c.sessionEnd <= now
  }

  predicate NoneExpired(cfg: Config, cs: seq<Client>, now: int) {
    forall i :: 0 <= i < |cs| ==> !Expired(cfg, cs[i], now)
  }

  /** Some record has the id and stays. */
  predicate StayingId(cfg: Config, cs: seq<Client>, id: nat, now: int) {
    exists i :: 0 <= i < |cs| && cs[i].id == id && Stays(cfg, cs[i], now)
  }

  /** An earlier record has the same id and stays. */
  predicate Shadowed(cfg: Config, cs: seq<Client>, j: nat, now: int)
    requires j < |cs|
  {
    StayingId(cfg, cs[..j], cs[j].id, now)
  }

  predicate Stays(cfg: Config, c: Client, now: int) {
    Outcome(cfg, c, now, "").Some?
  }

  lemma {:induction false} StaysAnyToken(cfg: Config, c: Client, now: int, token: string)
    ensures Outcome(cfg, c, now, token).Some? <==> Stays(cfg, c, now)
  {
  }

  lemma {:induction false} OutcomeNotExpired(cfg: Config, c: Client, now: int, token: string)
    requires ValidMarks(cfg)
    ensures var o := Outcome(cfg, c, now, token); o.Some? ==> !Expired(cfg, o.value, now)
  {
  }

  lemma {:induction false} StayingSnoc(cfg: Config, pre: seq<Client>, c: Client, id: nat, now: int)
    ensures StayingId(cfg, pre + [c], id, now) <==> StayingId(cfg, pre, id, now) || (c.id == id && Stays(cfg, c, now))
  {
    hide Stays;
    var all := pre + [c];
    assert forall i :: 0 <= i < |pre| ==> all[i] == pre[i];
    assert all[|pre|] == c;
  }

  /** The ids in `kept` are those of the records of `pre` that stay. */
  ghost predicate IdsOf(cfg: Config, kept: seq<Client>, pre: seq<Client>, now: int) {
    forall id: nat :: First(kept, ById(id)) < |kept| <==> StayingId(cfg, pre, id, now)
  }

  lemma {:induction false} IdsOfSnoc(cfg: Config, kept: seq<Client>, pre: seq<Client>, c: Client, now: int, more: seq<Client>)
    requires IdsOf(cfg, kept, pre, now)
    requires if First(kept, ById(c.id)) < |kept| then more == [c]
             else if Stays(cfg, c, now) then |more| == 1 && more[0].id == c.id else more == []
    ensures IdsOf(cfg, kept + more, pre + [c], now)
  {
    hide First, Stays, StayingId;
    forall id: nat
      ensures First(kept + more, ById(id)) < |kept + more| <==> StayingId(cfg, pre + [c], id, now)
    {
      FirstConcat(kept, more, id);
      StayingSnoc(cfg, pre, c, id, now);
      FirstSmall(more, id);
    }
  }

  lemma {:induction false} FirstSmall(cs: seq<Client>, id: nat)
    requires |cs| <= 1
    ensures First(cs, ById(id)) < |cs| <==> cs != [] && cs[0].id == id
  {
  }

  lemma {:induction false} FoldExpired(cfg: Config, s: State, pre: seq<Client>, rest: seq<Client>,
                                       now: int, rnd: nat -> string, visit: nat)
    requires ValidMarks(cfg) && IdsOf(cfg, s.clients, pre, now)
    ensures NoneExpired(cfg, SweepFold(cfg, s, rest, now, rnd, visit).clients, now) <==>
            NoneExpired(cfg, s.clients, now)
            && forall j :: |pre| <= j < |pre| + |rest| && Expired(cfg, (pre + rest)[j], now) ==>
                 !Shadowed(cfg, pre + rest, j, now)
    decreases |rest|
  {
    hide First, Stays, StayingId, Effect, Outcome, Expired, IdsOf;
    if rest != [] {
      var c, kept, all := rest[0], s.clients, pre + rest;
      var o := Outcome(cfg, c, now, rnd(visit));
      assert all == pre + [c] + rest[1..] && all[|pre|] == c && all[..|pre|] == pre;
      StaysAnyToken(cfg, c, now, rnd(visit));
      OutcomeNotExpired(cfg, c, now, rnd(visit));
      var shadowed := First(kept, ById(c.id)) < |kept|;
      assert shadowed <==> Shadowed(cfg, all, |pre|, now) by { IdsOfAt(cfg, kept, pre, now, c.id); }
      var more := if shadowed then [c] else Kept(o);
      IdsOfSnoc(cfg, kept, pre, c, now, more);
      var t := if shadowed then s else Effect(cfg, s, c, now);
      FoldExpired(cfg, t.(clients := kept + more), pre + [c], rest[1..], now, rnd, visit + 1);
      NoneExpiredConcat(cfg, kept, more, now);
    }
  }

  lemma {:induction false} IdsOfAt(cfg: Config, kept: seq<Client>, pre: seq<Client>, now: int, id: nat)
    requires IdsOf(cfg, kept, pre, now)
    ensures First(kept, ById(id)) < |kept| <==> StayingId(cfg, pre, id, now)
  {
  }

  lemma {:induction false} NoneExpiredConcat(cfg: Config, a: seq<Client>, b: seq<Client>, now: int)
    ensures NoneExpired(cfg, a + b, now) <==> NoneExpired(cfg, a, now) && NoneExpired(cfg, b, now)
  {
    hide Expired;
    assert forall i :: 0 <= i < |a| ==> (a + b)[i] == a[i];
    assert forall i :: 0 <= i < |b| ==> (a + b)[|a| + i] == b[i];
  }

  /** After the check no authenticated client is past the end of its session, exactly when no such
      client has an earlier record with its id that stays. */
  lemma {:induction false} NoExpiredSurvivorExactly(cfg: Config, s: State, now: int, rnd: nat -> string)
    requires ValidMarks(cfg)
    ensures NoneExpired(cfg, Sweep(cfg, s, 0, now, rnd, 0).clients, now) <==>
            forall j :: 0 <= j < |s.clients| && Expired(cfg, s.clients[j], now) ==> !Shadowed(cfg, s.clients, j, now)
    ensures AuthFirst(cfg, s.clients) ==> NoneExpired(cfg, Sweep(cfg, s, 0, now, rnd, 0).clients, now)
  {
    hide Sweep, SweepFold, Stays, NoneExpired, Expired, Shadowed, AuthFirst;
    assert [] + s.clients == s.clients;
    SweepIsFold(cfg, s, [], s.clients, now, rnd, 0);
    NobodyYet(cfg, now);
    FoldExpired(cfg, s.(clients := []), [], s.clients, now, rnd, 0);
    if AuthFirst(cfg, s.clients) { NeverShadowed(cfg, s.clients, now); }
  }

  lemma {:induction false} NobodyYet(cfg: Config, now: int)
    ensures IdsOf(cfg, [], [], now) && NoneExpired(cfg, [], now)
  {
  }

  lemma {:induction false} NeverShadowed(cfg: Config, cs: seq<Client>, now: int)
    requires AuthFirst(cfg, cs)
    ensures forall j :: 0 <= j < |cs| && Expired(cfg, cs[j], now) ==> !Shadowed(cfg, cs, j, now)
  {
    hide Stays;
    assert forall i, j :: 0 <= i < j < |cs| ==> cs[..j][i] == cs[i];
  }

  // ---------------------------------------------------------------- shutdown

  predicate NoneAuthenticated(cfg: Config, cs: seq<Client>) {
    forall i :: 0 <= i < |cs| ==> cs[i].state != cfg.authMark
  }

  lemma {:induction false} DeauthAllFrom(cfg: Config, s: State, i: nat, now: int, rnd: nat -> string)
    requires ValidMarks(cfg) && i <= |s.clients| && AuthFirst(cfg, s.clients)
    requires forall j :: 0 <= j < i ==> s.clients[j].state != cfg.authMark
    ensures NoneAuthenticated(cfg, DeauthAll(cfg, s, i, now, rnd).clients)
    decreases |s.clients| - i
  {
    hide ChangeState, First;
    if i < |s.clients| {
      var k := First(s.clients, ById(s.clients[i].id));
      FirstUpTo(s.clients, i);
      assert s.clients[i].state == cfg.authMark ==> k == i;
      var t := ChangeState(cfg, s, k, PREAUTHENTICATED, now, rnd(i)).0;
      DeauthOne(cfg, s, k, now, rnd(i));
      assert forall j :: 0 <= j < |s.clients| ==> t.clients[j].id == s.clients[j].id;
      DeauthAllFrom(cfg, t, i + 1, now, rnd);
    }
  }

  lemma {:induction false} FirstUpTo(cs: seq<Client>, i: nat)
    requires i < |cs|
    ensures First(cs, ById(cs[i].id)) <= i && cs[First(cs, ById(cs[i].id))].id == cs[i].id
  {
    var k := First(cs, ById(cs[i].id));
    assert ById(cs[i].id)(cs[i]);
    assert k < |cs| ==> ById(cs[i].id)(cs[k]);
  }

  lemma {:induction false} DeauthOne(cfg: Config, s: State, i: nat, now: int, token: string)
    requires ValidMarks(cfg) && i < |s.clients|
    ensures var t := ChangeState(cfg, s, i, PREAUTHENTICATED, now, token).0;
            |t.clients| == |s.clients| && t.clients == s.clients[i := t.clients[i]]
            && t.clients[i].id == s.clients[i].id && t.clients[i].state != cfg.authMark
  {
    hide FwAuthenticate, FwDeauthenticate, AddMac;
    assert s.clients[i := s.clients[i]] == s.clients;
  }

  /** The shutdown leaves no client authenticated and no access rule behind. */
  lemma {:induction false} DeauthAllClears(cfg: Config, fw0: Tables, s: State, now: int, rnd: nat -> string)
    requires ValidMarks(cfg) && AuthFirst(cfg, s.clients) && Inv(cfg, fw0, s)
    ensures var t := DeauthAll(cfg, s, 0, now, rnd);
            NoneAuthenticated(cfg, t.clients) && OUT in t.fw && INC in t.fw && t.fw[OUT] == [] && t.fw[INC] == []
  {
    var t := DeauthAll(cfg, s, 0, now, rnd);
    DeauthAllFrom(cfg, s, 0, now, rnd);
    DeauthAllKeeps(cfg, fw0, s, 0, now, rnd);
    EmptyBags(cfg, t.clients);
    hide DeauthAll, Bag, MacsMirrored, DistinctPairs, ClientsSane, NoneAuthenticated;
    assert |multiset(t.fw[OUT])| == 0 && |multiset(t.fw[INC])| == 0;
  }

  lemma {:induction false} EmptyBags(cfg: Config, cs: seq<Client>)
    requires NoneAuthenticated(cfg, cs)
    ensures Bag(cs, OutOf(cfg)) == multiset{} && Bag(cs, IncOf(cfg)) == multiset{}
  {
    if cs != [] {
      EmptyBags(cfg, cs[1..]);
    }
  }
}
