/** Agreement between the client list, the MAC lists and the chains that repeat them, and that
    every operation of Session.dfy keeps it. */
module Mirror {
  import opened Iptables
  import opened Configuration
  import opened Session
  import opened Balance

  // ---------------------------------------------------------------- rules of a list

  function OutOf(cfg: Config): (f: Client -> multiset<Rule>) {
    (c: Client) => if c.state == cfg.authMark then multiset{OutRule(cfg, c)} else multiset{}
  }

  function IncOf(cfg: Config): (f: Client -> multiset<Rule>) {
    (c: Client) => if c.state == cfg.authMark then multiset{IncMarkRule(cfg, c), IncCountRule(c)} else multiset{}
  }

  function MacOf(cfg: Config, l: MacList): (f: string -> multiset<Rule>) {
    (mac: string) => multiset{MacRule(cfg, l, mac)}
  }

  /** The rules that the entries of a list call for. */
  function Bag<T>(xs: seq<T>, f: T -> multiset<Rule>): (b: multiset<Rule>) {
    if xs == [] then multiset{} else f(xs[0]) + Bag(xs[1..], f)
  }

  lemma {:induction false} BagConcat<T>(a: seq<T>, b: seq<T>, f: T -> multiset<Rule>)
    ensures Bag(a + b, f) == Bag(a, f) + Bag(b, f)
  {
    if a == [] {
      assert a + b == b;
    } else {
      assert (a + b)[0] == a[0] && (a + b)[1..] == a[1..] + b;
      BagConcat(a[1..], b, f);
    }
  }

  lemma {:induction false} BagSplit<T>(xs: seq<T>, k: nat, f: T -> multiset<Rule>)
    requires k < |xs|
    ensures Bag(xs, f) == Bag(xs[..k], f) + f(xs[k]) + Bag(xs[k + 1..], f)
  {
    assert xs == xs[..k] + xs[k..];
    BagConcat(xs[..k], xs[k..], f);
    assert xs[k..][0] == xs[k] && xs[k..][1..] == xs[k + 1..];
  }

  lemma {:induction false} BagUpdate<T>(xs: seq<T>, k: nat, x: T, f: T -> multiset<Rule>)
    requires k < |xs|
    ensures Bag(xs[k := x], f) == Bag(xs, f) - f(xs[k]) + f(x)
    ensures f(xs[k]) <= Bag(xs, f)
  {
    BagSplit(xs, k, f);
    BagSplit(xs[k := x], k, f);
    assert xs[k := x][..k] == xs[..k] && xs[k := x][k + 1..] == xs[k + 1..];
  }

  lemma {:induction false} BagSame<T>(xs: seq<T>, k: nat, x: T, f: T -> multiset<Rule>)
    requires k < |xs| && f(x) == f(xs[k])
    ensures Bag(xs[k := x], f) == Bag(xs, f)
  {
    hide Bag;
    BagUpdate(xs, k, x, f);
  }

  lemma {:induction false} BagRemove<T>(xs: seq<T>, k: nat, f: T -> multiset<Rule>)
    requires k < |xs|
    ensures Bag(RemoveAt(xs, k), f) == Bag(xs, f) - f(xs[k])
    ensures f(xs[k]) <= Bag(xs, f)
  {
    BagSplit(xs, k, f);
    BagConcat(xs[..k], xs[k + 1..], f);
  }

  lemma {:induction false} BagAppend<T>(xs: seq<T>, x: T, f: T -> multiset<Rule>)
    ensures Bag(xs + [x], f) == Bag(xs, f) + f(x)
  {
    BagConcat(xs, [x], f);
    assert [x][1..] == [];
  }

  lemma {:induction false} BagHas<T>(xs: seq<T>, f: T -> multiset<Rule>, r: Rule)
    ensures r in Bag(xs, f) <==> exists i :: 0 <= i < |xs| && r in f(xs[i])
  {
    if xs != [] {
      BagHas(xs[1..], f, r);
      assert forall i :: 0 < i < |xs| ==> xs[i] == xs[1..][i - 1];
      if r in Bag(xs[1..], f) {
        var i :| 0 <= i < |xs[1..]| && r in f(xs[1..][i]);
        assert r in f(xs[i + 1]);
      }
    }
  }

  // ---------------------------------------------------------------- the invariant

  /** Marks every packet as blocked: the last rule of ndsBLK under the allow mechanism. */
  function CatchAll(cfg: Config): (r: Rule) {
    Rule([], MarkTarget(cfg, cfg.blockedMark))
  }

  /** The rule that marks what goes to an address, and the one that accepts it. */
  function MarkTo(cfg: Config, ip: string): (r: Rule) { Rule([DstIp(ip)], MarkTarget(cfg, cfg.authMark)) }
  function CountTo(ip: string): (r: Rule) { Rule([DstIp(ip)], Accept) }

  /** For every address, each accepting rule has a marking rule before it, one for one. */
  ghost predicate Paired(cfg: Config, rules: seq<Rule>) {
    forall ip: string :: Ahead(rules, MarkTo(cfg, ip), CountTo(ip))
  }

  /** ndsOUT and ndsINC hold exactly the rules of the authenticated clients, and ndsINC marks before it
      accepts. */
  ghost predicate ClientsMirrored(cfg: Config, s: State) {
    && OUT in s.fw && INC in s.fw
    && SameBags(cfg, s.fw, s.clients)
    && Paired(cfg, s.fw[INC])
  }

  predicate SameBags(cfg: Config, fw: Tables, cs: seq<Client>)
    requires OUT in fw && INC in fw
  {
    && multiset(fw[OUT]) == Bag(cs, OutOf(cfg))
    && multiset(fw[INC]) == Bag(cs, IncOf(cfg))
  }

  lemma {:induction false} PairedAppend(cfg: Config, rules: seq<Rule>, ip: string)
    requires Paired(cfg, rules)
    ensures Paired(cfg, rules + [MarkTo(cfg, ip), CountTo(ip)])
  {
    forall x: string ensures Ahead(rules + [MarkTo(cfg, ip), CountTo(ip)], MarkTo(cfg, x), CountTo(x)) {
      RulesApart(cfg, x, ip);
      hide MarkTo, CountTo;
      AheadAppend(rules, MarkTo(cfg, ip), CountTo(ip), MarkTo(cfg, x), CountTo(x));
    }
  }

  lemma {:induction false} RulesApart(cfg: Config, x: string, y: string)
    ensures MarkTo(cfg, x) != CountTo(y) && MarkTo(cfg, y) != CountTo(x) && MarkTo(cfg, x) != CountTo(x)
    ensures x != y ==> MarkTo(cfg, x) != MarkTo(cfg, y) && CountTo(x) != CountTo(y)
  {
    assert x != y ==> MarkTo(cfg, x).matches[0] != MarkTo(cfg, y).matches[0];
    assert x != y ==> CountTo(x).matches[0] != CountTo(y).matches[0];
  }

  lemma {:induction false} PairedRemove(cfg: Config, rules: seq<Rule>, ip: string)
    requires Paired(cfg, rules) && MarkTo(cfg, ip) in rules && CountTo(ip) in rules
    ensures var r := RemoveAt(rules, IndexOf(rules, MarkTo(cfg, ip)));
            CountTo(ip) in r && Paired(cfg, RemoveAt(r, IndexOf(r, CountTo(ip))))
  {
    var m, c := MarkTo(cfg, ip), CountTo(ip);
    RulesApart(cfg, ip, ip);
    AheadRemovePair(rules, m, c);
    var r := RemoveAt(rules, IndexOf(rules, m));
    var q := RemoveAt(r, IndexOf(r, c));
    forall x: string ensures Ahead(q, MarkTo(cfg, x), CountTo(x)) {
      RulesApart(cfg, x, ip);
      hide MarkTo, CountTo, IndexOf, RemoveAt, Ahead;
      if x != ip {
        AheadRemoveOther(rules, IndexOf(rules, m), MarkTo(cfg, x), CountTo(x));
        AheadRemoveOther(r, IndexOf(r, c), MarkTo(cfg, x), CountTo(x));
      }
    }
  }

  predicate NoDuplicates(macs: seq<string>) {
    forall i, j :: 0 <= i < j < |macs| ==> !SameMac(macs[i], macs[j])
  }

  /** ndsTRU and ndsBLK hold exactly the rules of the MAC lists; under the allow mechanism the
      catch-all stays last. */
  predicate MacsMirrored(cfg: Config, s: State) {
    && NoDuplicates(s.trusted) && NoDuplicates(s.blocked) && NoDuplicates(s.allowed)
    && TRU in s.fw && BLK in s.fw
    && multiset(s.fw[TRU]) == Bag(s.trusted, MacOf(cfg, TrustedList))
    && (match cfg.mechanism
        case MacBlock => multiset(s.fw[BLK]) == Bag(s.blocked, MacOf(cfg, BlockedList))
        case MacAllow =>
          var n := |s.fw[BLK]|;
          n > 0 && s.fw[BLK][n - 1] == CatchAll(cfg)
          && multiset(s.fw[BLK][..n - 1]) == Bag(s.allowed, MacOf(cfg, AllowedList)))
  }

  /** No two records share MAC and address. */
  predicate DistinctPairs(cs: seq<Client>) {
    forall i, j :: 0 <= i < j < |cs| ==> cs[i].mac != cs[j].mac || cs[i].ip != cs[j].ip
  }

  /** Outside the four session chains the tables are those of `fw0`. */
  predicate OnlySessionChains(fw0: Tables, fw: Tables) {
    && fw.Keys == fw0.Keys
    && forall id :: id in fw0 && id != OUT && id != INC && id != BLK && id != TRU ==> fw[id] == fw0[id]
  }

  predicate ClientsSane(cfg: Config, cs: seq<Client>) {
    && (|cs| <= cfg.maxClients || cs == [])
    && forall i :: 0 <= i < |cs| ==> cfg.validMac(cs[i].mac) && Known(cfg, cs[i].state)
  }

  predicate Known(cfg: Config, m: Mark) {
    m == PREAUTHENTICATED || m == cfg.authMark || m == cfg.blockedMark || m == cfg.trustedMark
  }

  /** What every step of every run keeps; `fw0` is the firewall right after initialisation. */
  ghost predicate Inv(cfg: Config, fw0: Tables, s: State) {
    && ClientsMirrored(cfg, s)
    && MacsMirrored(cfg, s)
    && DistinctPairs(s.clients)
    && ClientsSane(cfg, s.clients)
    && OnlySessionChains(fw0, s.fw)
  }

  // ---------------------------------------------------------------- preservation

  lemma {:induction false} AppendOne(fw: Tables, id: ChainId, r: Rule)
    requires id in fw && !r.target.Jump?
    ensures Exec(fw, Append(id, r)) == fw[id := fw[id] + [r]]
  {
  }

  lemma {:induction false} DeleteOne(fw: Tables, id: ChainId, r: Rule)
    requires id in fw && r in fw[id]
    ensures var fw' := Exec(fw, Delete(id, r));
            id in fw' && fw' == fw[id := fw'[id]] && multiset(fw'[id]) == multiset(fw[id]) - multiset{r}
            && fw'[id] == RemoveAt(fw[id], IndexOf(fw[id], r))
  {
    RemoveAtBag(fw[id], IndexOf(fw[id], r));
  }

  lemma {:induction false} AuthenticateKeeps(cfg: Config, fw: Tables, c: Client)
    requires OUT in fw && INC in fw
    ensures FwAuthenticate(cfg, fw, c)
            == fw[OUT := fw[OUT] + [OutRule(cfg, c)]][INC := fw[INC] + [IncMarkRule(cfg, c), IncCountRule(c)]]
  {
    hide Exec, Accepted;
    AppendOne(fw, OUT, OutRule(cfg, c));
    var fw1 := Exec(fw, Append(OUT, OutRule(cfg, c)));
    AppendOne(fw1, INC, IncMarkRule(cfg, c));
    var fw2 := Exec(fw1, Append(INC, IncMarkRule(cfg, c)));
    AppendOne(fw2, INC, IncCountRule(c));
    assert fw[INC] + [IncMarkRule(cfg, c)] + [IncCountRule(c)] == fw[INC] + [IncMarkRule(cfg, c), IncCountRule(c)];
  }

  lemma {:induction false} DeauthenticateKeeps(cfg: Config, fw: Tables, c: Client)
    requires OUT in fw && INC in fw && OutRule(cfg, c) in fw[OUT]
    requires IncMarkRule(cfg, c) in fw[INC] && IncCountRule(c) in fw[INC]
    ensures var fw' := FwDeauthenticate(cfg, fw, c);
            OUT in fw' && INC in fw' && fw' == fw[OUT := fw'[OUT]][INC := fw'[INC]]
            && multiset(fw'[OUT]) == multiset(fw[OUT]) - multiset{OutRule(cfg, c)}
            && multiset(fw'[INC]) == multiset(fw[INC]) - multiset{IncMarkRule(cfg, c), IncCountRule(c)}
            && var r := RemoveAt(fw[INC], IndexOf(fw[INC], IncMarkRule(cfg, c)));
               IncCountRule(c) in r && fw'[INC] == RemoveAt(r, IndexOf(r, IncCountRule(c)))
  {
    RulesDiffer(cfg, c);
    hide Exec, Accepted, OutRule, IncMarkRule, IncCountRule, RemoveAt, IndexOf, FwAuthenticate;
    DeleteOne(fw, OUT, OutRule(cfg, c));
    var fw1 := Exec(fw, Delete(OUT, OutRule(cfg, c)));
    DeleteOne(fw1, INC, IncMarkRule(cfg, c));
    var fw2 := Exec(fw1, Delete(INC, IncMarkRule(cfg, c)));
    assert IncCountRule(c) in multiset(fw2[INC]);
    DeleteOne(fw2, INC, IncCountRule(c));
  }

  lemma {:induction false} RulesDiffer(cfg: Config, c: Client)
    ensures IncMarkRule(cfg, c) != IncCountRule(c)
  {
  }

  /** Operations on the access rules leave the MAC lists mirrored. */
  lemma {:induction false} MacsFrame(cfg: Config, s: State, t: State)
    requires MacsMirrored(cfg, s)
    requires t.trusted == s.trusted && t.blocked == s.blocked && t.allowed == s.allowed
    requires BLK in t.fw && TRU in t.fw && t.fw[BLK] == s.fw[BLK] && t.fw[TRU] == s.fw[TRU]
    ensures MacsMirrored(cfg, t)
  {
  }

  /** Changing a record without touching MAC and address. */
  lemma {:induction false} UpdateSane(cfg: Config, cs: seq<Client>, k: nat, c: Client)
    requires DistinctPairs(cs) && ClientsSane(cfg, cs) && k < |cs|
    requires c.mac == cs[k].mac && c.ip == cs[k].ip && Known(cfg, c.state)
    ensures DistinctPairs(cs[k := c]) && ClientsSane(cfg, cs[k := c])
  {
  }

  lemma {:induction false} RemoveSane(cfg: Config, cs: seq<Client>, k: nat)
    requires DistinctPairs(cs) && ClientsSane(cfg, cs) && k < |cs|
    ensures DistinctPairs(RemoveAt(cs, k)) && ClientsSane(cfg, RemoveAt(cs, k))
  {
  }

  /** Letting a client in. */
  lemma {:induction false} AuthMirrored(cfg: Config, s: State, k: nat, c': Client)
    requires ClientsMirrored(cfg, s) && ValidMarks(cfg) && k < |s.clients|
    requires s.clients[k].state == PREAUTHENTICATED && c' == s.clients[k].(state := cfg.authMark)
    ensures ClientsMirrored(cfg, s.(fw := FwAuthenticate(cfg, s.fw, s.clients[k]), clients := s.clients[k := c']))
  {
    hide FwAuthenticate, SameBags, Paired, OutRule, IncMarkRule, IncCountRule;
    AuthenticateKeeps(cfg, s.fw, s.clients[k]);
    AuthBags(cfg, s, k, c');
    AuthPaired(cfg, s.fw, s.clients[k]);
  }

  lemma {:induction false} AuthPaired(cfg: Config, fw: Tables, c: Client)
    requires OUT in fw && INC in fw && Paired(cfg, fw[INC])
    ensures INC in FwAuthenticate(cfg, fw, c) && Paired(cfg, FwAuthenticate(cfg, fw, c)[INC])
  {
    hide FwAuthenticate, Paired, IncMarkRule, IncCountRule;
    AuthenticateKeeps(cfg, fw, c);
    IncRulesOf(cfg, c);
    PairedAppend(cfg, fw[INC], c.ip);
  }

  lemma {:induction false} AuthBags(cfg: Config, s: State, k: nat, c': Client)
    requires OUT in s.fw && INC in s.fw && SameBags(cfg, s.fw, s.clients) && ValidMarks(cfg) && k < |s.clients|
    requires s.clients[k].state == PREAUTHENTICATED && c' == s.clients[k].(state := cfg.authMark)
    ensures var fw := FwAuthenticate(cfg, s.fw, s.clients[k]); OUT in fw && INC in fw && SameBags(cfg, fw, s.clients[k := c'])
  {
    hide FwAuthenticate, Bag, OutRule, IncMarkRule, IncCountRule;
    var c := s.clients[k];
    AuthenticateKeeps(cfg, s.fw, c);
    BagUpdate(s.clients, k, c', OutOf(cfg));
    BagUpdate(s.clients, k, c', IncOf(cfg));
    SameRules(cfg, c, c');
    AppendBag(s.fw[OUT], [OutRule(cfg, c)]);
    AppendBag(s.fw[INC], [IncMarkRule(cfg, c), IncCountRule(c)]);
  }

  lemma {:induction false} IncRulesOf(cfg: Config, c: Client)
    ensures IncMarkRule(cfg, c) == MarkTo(cfg, c.ip) && IncCountRule(c) == CountTo(c.ip)
  {
  }

  lemma {:induction false} AppendBag(a: seq<Rule>, b: seq<Rule>)
    ensures multiset(a + b) == multiset(a) + multiset(b)
  {
  }

  /** The rules of a record depend on MAC and address only. */
  lemma {:induction false} SameRules(cfg: Config, c: Client, d: Client)
    requires c.mac == d.mac && c.ip == d.ip
    ensures OutRule(cfg, c) == OutRule(cfg, d)
    ensures IncMarkRule(cfg, c) == IncMarkRule(cfg, d) && IncCountRule(c) == IncCountRule(d)
  {
  }

  lemma {:induction false} AuthKeeps(cfg: Config, fw0: Tables, s: State, k: nat, c': Client)
    requires Inv(cfg, fw0, s) && ValidMarks(cfg) && k < |s.clients|
    requires s.clients[k].state == PREAUTHENTICATED && c' == s.clients[k].(state := cfg.authMark)
    ensures Inv(cfg, fw0, s.(fw := FwAuthenticate(cfg, s.fw, s.clients[k]), clients := s.clients[k := c']))
  {
    hide FwAuthenticate, ClientsMirrored, DistinctPairs, ClientsSane, MacsMirrored, OutRule, IncMarkRule, IncCountRule;
    Chains(cfg, s);
    var t := s.(fw := FwAuthenticate(cfg, s.fw, s.clients[k]), clients := s.clients[k := c']);
    AuthMirrored(cfg, s, k, c');
    AuthenticateKeeps(cfg, s.fw, s.clients[k]);
    UpdateSane(cfg, s.clients, k, c');
    MacsFrame(cfg, s, t);
  }

  lemma {:induction false} Chains(cfg: Config, s: State)
    requires MacsMirrored(cfg, s) && ClientsMirrored(cfg, s)
    ensures TRU in s.fw && BLK in s.fw && OUT in s.fw && INC in s.fw
  {
  }

  /** The rules of an authenticated client are there. */
  lemma {:induction false} RulesThere(cfg: Config, s: State, k: nat)
    requires ClientsMirrored(cfg, s) && k < |s.clients| && s.clients[k].state == cfg.authMark
    ensures var c := s.clients[k];
            OutRule(cfg, c) in s.fw[OUT] && IncMarkRule(cfg, c) in s.fw[INC] && IncCountRule(c) in s.fw[INC]
  {
    hide Bag, OutRule, IncMarkRule, IncCountRule;
    var c := s.clients[k];
    BagSplit(s.clients, k, OutOf(cfg));
    BagSplit(s.clients, k, IncOf(cfg));
    assert OutRule(cfg, c) in multiset(s.fw[OUT]);
    assert IncMarkRule(cfg, c) in multiset(s.fw[INC]) && IncCountRule(c) in multiset(s.fw[INC]);
  }

  /** ... and go, when the record is no longer authenticated or no longer there. */
  lemma {:induction false} DeauthMirrored(cfg: Config, s: State, k: nat, cs: seq<Client>)
    requires ClientsMirrored(cfg, s) && k < |s.clients| && s.clients[k].state == cfg.authMark
    requires cs == RemoveAt(s.clients, k)
             || exists d: Client :: d.state != cfg.authMark && cs == s.clients[k := d]
    ensures ClientsMirrored(cfg, s.(fw := FwDeauthenticate(cfg, s.fw, s.clients[k]), clients := cs))
  {
    hide FwDeauthenticate, SameBags, Paired, OutRule, IncMarkRule, IncCountRule, RemoveAt;
    RulesThere(cfg, s, k);
    DeauthenticateKeeps(cfg, s.fw, s.clients[k]);
    DeauthBags(cfg, s, k, cs);
    DeauthPaired(cfg, s.fw, s.clients[k]);
  }

  lemma {:induction false} DeauthPaired(cfg: Config, fw: Tables, c: Client)
    requires OUT in fw && INC in fw && Paired(cfg, fw[INC]) && OutRule(cfg, c) in fw[OUT]
    requires IncMarkRule(cfg, c) in fw[INC] && IncCountRule(c) in fw[INC]
    ensures var fw' := FwDeauthenticate(cfg, fw, c); INC in fw' && Paired(cfg, fw'[INC])
  {
    hide FwDeauthenticate, Paired, OutRule, IncMarkRule, IncCountRule, RemoveAt, IndexOf;
    DeauthenticateKeeps(cfg, fw, c);
    IncRulesOf(cfg, c);
    PairedRemove(cfg, fw[INC], c.ip);
  }

  lemma {:induction false} DeauthBags(cfg: Config, s: State, k: nat, cs: seq<Client>)
    requires ClientsMirrored(cfg, s) && k < |s.clients| && s.clients[k].state == cfg.authMark
    requires cs == RemoveAt(s.clients, k)
             || exists d: Client :: d.state != cfg.authMark && cs == s.clients[k := d]
    ensures var fw := FwDeauthenticate(cfg, s.fw, s.clients[k]); OUT in fw && INC in fw && SameBags(cfg, fw, cs)
  {
    hide FwDeauthenticate, Bag, OutRule, IncMarkRule, IncCountRule, Paired, RemoveAt, IndexOf;
    var c := s.clients[k];
    RulesThere(cfg, s, k);
    DeauthenticateKeeps(cfg, s.fw, c);
    if cs == RemoveAt(s.clients, k) {
      BagRemove(s.clients, k, OutOf(cfg));
      BagRemove(s.clients, k, IncOf(cfg));
    } else {
      var d: Client :| d.state != cfg.authMark && cs == s.clients[k := d];
      BagUpdate(s.clients, k, d, OutOf(cfg));
      BagUpdate(s.clients, k, d, IncOf(cfg));
    }
  }

  lemma {:induction false} DeauthShape(cfg: Config, fw: Tables, c: Client)
    requires OUT in fw && INC in fw && OutRule(cfg, c) in fw[OUT]
    requires IncMarkRule(cfg, c) in fw[INC] && IncCountRule(c) in fw[INC]
    ensures var fw' := FwDeauthenticate(cfg, fw, c);
            OUT in fw' && INC in fw' && fw' == fw[OUT := fw'[OUT]][INC := fw'[INC]]
  {
    hide FwDeauthenticate, OutRule, IncMarkRule, IncCountRule, RemoveAt, IndexOf;
    DeauthenticateKeeps(cfg, fw, c);
  }

  /** Shutting a client out leaves everything else alone. */
  lemma {:induction false} DeauthFrame(cfg: Config, fw0: Tables, s: State, k: nat)
    requires Inv(cfg, fw0, s) && k < |s.clients| && s.clients[k].state == cfg.authMark
    ensures var fw' := FwDeauthenticate(cfg, s.fw, s.clients[k]);
            OnlySessionChains(fw0, fw') && MacsMirrored(cfg, s.(fw := fw'))
  {
    hide FwDeauthenticate, ClientsMirrored, DistinctPairs, ClientsSane, MacsMirrored, OutRule, IncMarkRule, IncCountRule, RemoveAt, IndexOf;
    Chains(cfg, s);
    RulesThere(cfg, s, k);
    DeauthShape(cfg, s.fw, s.clients[k]);
    MacsFrame(cfg, s, s.(fw := FwDeauthenticate(cfg, s.fw, s.clients[k])));
  }

  // ---------------------------------------------------------------- MAC commands

  /** The effect of a MAC command on the tables is confined to its chain. */
  lemma {:induction false} MacFrame(cfg: Config, fw0: Tables, s: State, t: State, l: MacList)
    requires Inv(cfg, fw0, s) && t.clients == s.clients
    requires MacChain(l) in t.fw && t.fw == s.fw[MacChain(l) := t.fw[MacChain(l)]]
    requires MacsMirrored(cfg, t)
    ensures Inv(cfg, fw0, t)
  {
    hide MacsMirrored, DistinctPairs, ClientsSane, Bag;
    Chains(cfg, s);
    assert t.fw.Keys == s.fw.Keys;
    assert t.fw[OUT] == s.fw[OUT] && t.fw[INC] == s.fw[INC];
  }

  lemma {:induction false} NewEntry(macs: seq<string>, mac: string)
    requires NoDuplicates(macs) && FirstMac(macs, mac) == |macs|
    ensures NoDuplicates([mac] + macs)
  {
    var all := [mac] + macs;
    forall i, j | 0 <= i < j < |all|
      ensures !SameMac(all[i], all[j])
    {
      assert all[j] == macs[j - 1];
      assert i > 0 ==> all[i] == macs[i - 1];
    }
  }

  lemma {:induction false} EntryGone(macs: seq<string>, i: nat)
    requires NoDuplicates(macs) && i < |macs|
    ensures NoDuplicates(RemoveAt(macs, i))
  {
  }

  lemma {:induction false} BagCons<T>(x: T, xs: seq<T>, f: T -> multiset<Rule>)
    ensures Bag([x] + xs, f) == Bag(xs, f) + f(x)
  {
    assert ([x] + xs)[1..] == xs;
  }

  /** With a new entry in the list and its rule in the chain, in front of any catch-all, the lists
      are mirrored again. */
  lemma {:induction false} EntryMirrored(cfg: Config, s: State, l: MacList, macs: seq<string>, chain: seq<Rule>)
    requires MacsMirrored(cfg, s) && Usable(cfg, l) && NoDuplicates(macs)
    requires !l.AllowedList? ==> multiset(chain) == Bag(macs, MacOf(cfg, l))
    requires l.AllowedList? ==> |chain| > 0 && chain[|chain| - 1] == CatchAll(cfg)
                                && multiset(chain[..|chain| - 1]) == Bag(macs, MacOf(cfg, l))
    ensures MacsMirrored(cfg, WithMacs(s, l, macs).(fw := s.fw[MacChain(l) := chain]))
  {
    hide Bag, NoDuplicates, CatchAll, MacRule;
  }

  lemma {:induction false} ListMirrored(cfg: Config, s: State, l: MacList)
    requires MacsMirrored(cfg, s) && Usable(cfg, l)
    ensures NoDuplicates(Macs(s, l)) && MacChain(l) in s.fw
    ensures var chain, bag := s.fw[MacChain(l)], Bag(Macs(s, l), MacOf(cfg, l));
            if l.AllowedList? then
              |chain| > 0 && chain[|chain| - 1] == CatchAll(cfg) && multiset(chain[..|chain| - 1]) == bag
            else multiset(chain) == bag
  {
    hide Bag, NoDuplicates, CatchAll, MacRule;
  }

  /** Adding a MAC address to a list adds its rule to the chain. */
  lemma {:induction false} AddMacKeeps(cfg: Config, fw0: Tables, s: State, l: MacList, mac: string)
    requires Inv(cfg, fw0, s)
    ensures Inv(cfg, fw0, AddMac(cfg, s, l, mac).0)
  {
    hide Bag, Exec, Accepted, ClientsMirrored, MacsMirrored, DistinctPairs, ClientsSane, NoDuplicates, FirstMac, MacRule, CatchAll;
    var (t, rc) := AddMac(cfg, s, l, mac);
    var macs := Macs(s, l);
    if cfg.validMac(mac) && Usable(cfg, l) && FirstMac(macs, mac) == |macs| {
      ListMirrored(cfg, s, l);
      var r, chain := MacRule(cfg, l, mac), s.fw[MacChain(l)];
      BagCons(mac, macs, MacOf(cfg, l));
      NewEntry(macs, mac);
      NotJump(cfg, l, mac);
      if l.AllowedList? {
        InsertOne(s.fw, BLK, r);
        assert ([r] + chain)[..|chain|] == [r] + chain[..|chain| - 1];
        AppendBag([r], chain[..|chain| - 1]);
        EntryMirrored(cfg, s, l, [mac] + macs, [r] + chain);
      } else {
        AppendOne(s.fw, MacChain(l), r);
        AppendBag(chain, [r]);
        EntryMirrored(cfg, s, l, [mac] + macs, chain + [r]);
      }
      MacFrame(cfg, fw0, s, t, l);
    }
  }

  lemma {:induction false} NotJump(cfg: Config, l: MacList, mac: string)
    ensures !MacRule(cfg, l, mac).target.Jump?
  {
  }

  lemma {:induction false} InsertOne(fw: Tables, id: ChainId, r: Rule)
    requires id in fw && !r.target.Jump?
    ensures Exec(fw, Insert(id, 1, r)) == fw[id := [r] + fw[id]]
  {
    assert fw[id][..0] + [r] + fw[id][0..] == [r] + fw[id];
  }

  /** The rule of a listed MAC address is in the chain, under any spelling. */
  lemma {:induction false} MacRuleThere(cfg: Config, s: State, l: MacList, mac: string)
    requires MacsMirrored(cfg, s) && Usable(cfg, l) && FirstMac(Macs(s, l), mac) < |Macs(s, l)|
    ensures MacRule(cfg, l, mac) in s.fw[MacChain(l)]
    ensures l.AllowedList? ==> MacRule(cfg, l, mac) in s.fw[BLK][..|s.fw[BLK]| - 1]
  {
    hide Bag, NoDuplicates;
    var i := FirstMac(Macs(s, l), mac);
    BagSplit(Macs(s, l), i, MacOf(cfg, l));
    assert MacRule(cfg, l, mac) == MacRule(cfg, l, Macs(s, l)[i]);
    hide MacRule, FirstMac, Fold;
    var r := MacRule(cfg, l, mac);
    if l.AllowedList? {
      assert r in multiset(s.fw[BLK][..|s.fw[BLK]| - 1]);
    } else {
      assert r in multiset(s.fw[MacChain(l)]);
    }
  }

  /** Deleting a RETURN rule never takes the catch-all. */
  lemma {:induction false} DeleteReturn(chain: seq<Rule>, r: Rule)
    requires |chain| > 0 && r in chain[..|chain| - 1]
    ensures var rest := RemoveAt(chain, IndexOf(chain, r));
            |rest| > 0 && rest[|rest| - 1] == chain[|chain| - 1]
            && multiset(rest[..|rest| - 1]) == multiset(chain[..|chain| - 1]) - multiset{r}
  {
    var a, b := chain[..|chain| - 1], chain[|chain| - 1..];
    assert chain == a + b;
    IndexOfConcat(a, b, r);
    hide IndexOf;
    RemoveInFront(a, b, IndexOf(a, r));
    RemoveAtBag(a, IndexOf(a, r));
  }

  lemma {:induction false} RemoveInFront<T>(a: seq<T>, b: seq<T>, i: nat)
    requires i < |a| && |b| == 1
    ensures var rest := RemoveAt(a + b, i);
            |rest| > 0 && rest[|rest| - 1] == b[0] && rest[..|rest| - 1] == RemoveAt(a, i)
  {
    assert RemoveAt(a + b, i) == RemoveAt(a, i) + b;
  }

  lemma {:induction false} IndexOfConcat<T>(a: seq<T>, b: seq<T>, x: T)
    requires x in a
    ensures IndexOf(a + b, x) == IndexOf(a, x)
  {
    if a[0] != x {
      assert (a + b)[1..] == a[1..] + b;
      IndexOfConcat(a[1..], b, x);
    }
  }

  /** Removing a MAC address from a list removes its rule from the chain. */
  lemma {:induction false} RemoveMacKeeps(cfg: Config, fw0: Tables, s: State, l: MacList, mac: string)
    requires Inv(cfg, fw0, s)
    ensures Inv(cfg, fw0, RemoveMac(cfg, s, l, mac).0)
  {
    hide Bag, Exec, Accepted, ClientsMirrored, MacsMirrored, DistinctPairs, ClientsSane, NoDuplicates, FirstMac, MacRule, CatchAll, IndexOf, RemoveAt, Fold;
    var (t, rc) := RemoveMac(cfg, s, l, mac);
    var macs := Macs(s, l);
    var i := FirstMac(macs, mac);
    if cfg.validMac(mac) && Usable(cfg, l) && i < |macs| {
      ListMirrored(cfg, s, l);
      MacRuleThere(cfg, s, l, mac);
      var chain, r := s.fw[MacChain(l)], MacRule(cfg, l, mac);
      DeleteAtIndex(s.fw, MacChain(l), r);
      EntryGone(macs, i);
      var chain' := RemoveAt(chain, IndexOf(chain, r));
      RuleGone(cfg, s, l, mac, chain');
      EntryMirrored(cfg, s, l, RemoveAt(macs, i), chain');
      MacFrame(cfg, fw0, s, t, l);
    }
  }

  lemma {:induction false} RuleGone(cfg: Config, s: State, l: MacList, mac: string, chain': seq<Rule>)
    requires MacsMirrored(cfg, s) && Usable(cfg, l) && FirstMac(Macs(s, l), mac) < |Macs(s, l)|
    requires MacRule(cfg, l, mac) in s.fw[MacChain(l)]
    requires chain' == RemoveAt(s.fw[MacChain(l)], IndexOf(s.fw[MacChain(l)], MacRule(cfg, l, mac)))
    ensures var bag := Bag(RemoveAt(Macs(s, l), FirstMac(Macs(s, l), mac)), MacOf(cfg, l));
            if l.AllowedList? then
              |chain'| > 0 && chain'[|chain'| - 1] == CatchAll(cfg) && multiset(chain'[..|chain'| - 1]) == bag
            else multiset(chain') == bag
  {
    hide Bag, NoDuplicates, FirstMac, MacRule, CatchAll, IndexOf, RemoveAt, Fold;
    var macs, i := Macs(s, l), FirstMac(Macs(s, l), mac);
    ListMirrored(cfg, s, l);
    MacRuleThere(cfg, s, l, mac);
    SpellingFree(cfg, l, mac, macs[i]);
    hide MacsMirrored, Macs, Usable, MacOf;
    var chain, r := s.fw[MacChain(l)], MacRule(cfg, l, mac);
    if l.AllowedList? {
      ReturnGone(chain, r, macs, i, MacOf(cfg, l));
    } else {
      BagGone(chain, r, macs, i, MacOf(cfg, l));
    }
  }

  lemma {:induction false} BagGone(chain: seq<Rule>, r: Rule, macs: seq<string>, i: nat, f: string -> multiset<Rule>)
    requires i < |macs| && f(macs[i]) == multiset{r} && r in chain
    requires multiset(chain) == Bag(macs, f)
    ensures multiset(RemoveAt(chain, IndexOf(chain, r))) == Bag(RemoveAt(macs, i), f)
  {
    hide Bag, RemoveAt;
    BagRemove(macs, i, f);
    RemoveAtBag(chain, IndexOf(chain, r));
  }

  lemma {:induction false} ReturnGone(chain: seq<Rule>, r: Rule, macs: seq<string>, i: nat, f: string -> multiset<Rule>)
    requires i < |macs| && f(macs[i]) == multiset{r} && |chain| > 0 && r in chain[..|chain| - 1]
    requires multiset(chain[..|chain| - 1]) == Bag(macs, f)
    ensures var rest := RemoveAt(chain, IndexOf(chain, r));
            |rest| > 0 && rest[|rest| - 1] == chain[|chain| - 1]
            && multiset(rest[..|rest| - 1]) == Bag(RemoveAt(macs, i), f)
  {
    hide Bag, RemoveAt, IndexOf;
    BagRemove(macs, i, f);
    DeleteReturn(chain, r);
  }

  lemma {:induction false} SpellingFree(cfg: Config, l: MacList, a: string, b: string)
    requires SameMac(a, b)
    ensures MacRule(cfg, l, a) == MacRule(cfg, l, b) && MacOf(cfg, l)(b) == multiset{MacRule(cfg, l, a)}
  {
  }

  lemma {:induction false} DeleteAtIndex(fw: Tables, id: ChainId, r: Rule)
    requires id in fw && r in fw[id]
    ensures Exec(fw, Delete(id, r)) == fw[id := RemoveAt(fw[id], IndexOf(fw[id], r))]
  {
  }

  // ---------------------------------------------------------------- clients

  /** Every transition of the connection state keeps the agreement. */
  lemma {:induction false} ChangeStateKeeps(cfg: Config, fw0: Tables, s: State, k: nat, to: Mark, now: int, token: string)
    requires Inv(cfg, fw0, s) && ValidMarks(cfg) && k < |s.clients|
    ensures Inv(cfg, fw0, ChangeState(cfg, s, k, to, now, token).0)
  {
    hide FwAuthenticate, FwDeauthenticate, ClientsMirrored, MacsMirrored, DistinctPairs, ClientsSane, AddMac;
    var c := s.clients[k];
    if c.state == PREAUTHENTICATED && to == cfg.authMark {
      AuthKeeps(cfg, fw0, s, k, c.(state := to));
    } else if c.state == cfg.authMark && to == PREAUTHENTICATED {
      var d := ResetClient(c, now, token).(state := to);
      DeauthFrame(cfg, fw0, s, k);
      DeauthMirrored(cfg, s, k, s.clients[k := d]);
      UpdateSane(cfg, s.clients, k, d);
      MacsFrameClients(cfg, s.(fw := FwDeauthenticate(cfg, s.fw, c)), s.clients[k := d]);
    } else if c.state == cfg.authMark && to == cfg.blockedMark {
      var cs := RemoveAt(s.clients, k);
      var t := s.(fw := FwDeauthenticate(cfg, s.fw, c));
      DeauthFrame(cfg, fw0, s, k);
      DeauthMirrored(cfg, s, k, cs);
      RemoveSane(cfg, s.clients, k);
      MacsFrameClients(cfg, t, cs);
      AddMacKeeps(cfg, fw0, t.(clients := cs), BlockedList, c.mac);
      AddMacFrame(cfg, t, BlockedList, c.mac, cs);
    }
  }

  lemma {:induction false} MacsFrameClients(cfg: Config, s: State, cs: seq<Client>)
    requires MacsMirrored(cfg, s)
    ensures MacsMirrored(cfg, s.(clients := cs))
  {
    MacsFrame(cfg, s, s.(clients := cs));
  }

  /** MAC commands do not look at the client list. */
  lemma {:induction false} AddMacFrame(cfg: Config, s: State, l: MacList, mac: string, cs: seq<Client>)
    ensures AddMac(cfg, s.(clients := cs), l, mac).0 == AddMac(cfg, s, l, mac).0.(clients := cs)
  {
    hide Exec, Accepted, FirstMac;
  }

  /** A new record is never authenticated, and does not repeat a pair. */
  lemma {:induction false} AddClientKeeps(cfg: Config, fw0: Tables, s: State, mac: string, ip: string, now: int, token: string)
    requires Inv(cfg, fw0, s) && ValidMarks(cfg)
    ensures Inv(cfg, fw0, AddClient(cfg, s, mac, ip, now, token).0)
  {
    hide AddClient, NewClient, MacsMirrored, DistinctPairs, ClientsSane, ClientsMirrored, OnlySessionChains;
    var t := AddClient(cfg, s, mac, ip, now, token).0;
    AddClientCases(cfg, s, mac, ip, now, token);
    if t != s {
      assert TRU in s.fw && BLK in s.fw by { Chains(cfg, s); }
      var c := NewClient(cfg, s, mac, ip, now, token);
      MacsFrame(cfg, s, t);
      NewMirrored(cfg, s, t, c);
      NewDistinct(s.clients, c);
      NewSane(cfg, s.clients, c);
    }
  }

  lemma {:induction false} AddClientCases(cfg: Config, s: State, mac: string, ip: string, now: int, token: string)
    requires ValidMarks(cfg)
    ensures var t, c := AddClient(cfg, s, mac, ip, now, token).0, NewClient(cfg, s, mac, ip, now, token);
            t == s ||
            (&& t == s.(clients := s.clients + [c], nextId := s.nextId + 1)
             && |s.clients| < cfg.maxClients && cfg.validMac(c.mac)
             && Known(cfg, c.state) && c.state != cfg.authMark
             && forall j :: 0 <= j < |s.clients| ==> s.clients[j].mac != c.mac || s.clients[j].ip != c.ip)
  {
    var k := First(s.clients, ByPair(mac, ip));
    assert forall j :: 0 <= j < k ==> !ByPair(mac, ip)(s.clients[j]);
    hide First;
  }

  /** A record that is not authenticated calls for no rule. */
  lemma {:induction false} NewMirrored(cfg: Config, s: State, t: State, c: Client)
    requires ClientsMirrored(cfg, s) && t.fw == s.fw && t.clients == s.clients + [c]
    requires c.state != cfg.authMark
    ensures ClientsMirrored(cfg, t)
  {
    hide Bag;
    BagAppend(s.clients, c, OutOf(cfg));
    BagAppend(s.clients, c, IncOf(cfg));
  }

  lemma {:induction false} NewDistinct(cs: seq<Client>, c: Client)
    requires DistinctPairs(cs) && forall j :: 0 <= j < |cs| ==> cs[j].mac != c.mac || cs[j].ip != c.ip
    ensures DistinctPairs(cs + [c])
  {
  }

  lemma {:induction false} NewSane(cfg: Config, cs: seq<Client>, c: Client)
    requires ClientsSane(cfg, cs) && |cs| < cfg.maxClients && cfg.validMac(c.mac) && Known(cfg, c.state)
    ensures ClientsSane(cfg, cs + [c])
  {
  }

  /** Changing a record in place, except for its identity and its state. */
  lemma {:induction false} UpdateKeeps(cfg: Config, fw0: Tables, s: State, k: nat, c: Client)
    requires Inv(cfg, fw0, s) && k < |s.clients|
    requires c.mac == s.clients[k].mac && c.ip == s.clients[k].ip && c.state == s.clients[k].state
    ensures Inv(cfg, fw0, s.(clients := s.clients[k := c]))
  {
    hide MacsMirrored, ClientsMirrored, DistinctPairs, ClientsSane;
    UpdateMirrored(cfg, s, k, c);
    assert Known(cfg, c.state) by { StateKnown(cfg, s.clients, k); }
    UpdateSane(cfg, s.clients, k, c);
    MacsFrameClients(cfg, s, s.clients[k := c]);
  }

  lemma {:induction false} UpdateMirrored(cfg: Config, s: State, k: nat, c: Client)
    requires ClientsMirrored(cfg, s) && k < |s.clients|
    requires c.mac == s.clients[k].mac && c.ip == s.clients[k].ip && c.state == s.clients[k].state
    ensures ClientsMirrored(cfg, s.(clients := s.clients[k := c]))
  {
    hide Bag, OutRule, IncMarkRule, IncCountRule;
    SameRules(cfg, s.clients[k], c);
    assert OutOf(cfg)(c) == OutOf(cfg)(s.clients[k]) && IncOf(cfg)(c) == IncOf(cfg)(s.clients[k]);
    hide OutOf, IncOf;
    BagSame(s.clients, k, c, OutOf(cfg));
    BagSame(s.clients, k, c, IncOf(cfg));
  }

  lemma {:induction false} StateKnown(cfg: Config, cs: seq<Client>, k: nat)
    requires ClientsSane(cfg, cs) && k < |cs|
    ensures Known(cfg, cs[k].state)
  {
  }

  /** A record that is not authenticated can go without touching the firewall. */
  lemma {:induction false} DiscardKeeps(cfg: Config, fw0: Tables, s: State, k: nat)
    requires Inv(cfg, fw0, s) && k < |s.clients| && s.clients[k].state != cfg.authMark
    ensures Inv(cfg, fw0, s.(clients := RemoveAt(s.clients, k)))
  {
    hide Bag, MacsMirrored, DistinctPairs, ClientsSane;
    BagRemove(s.clients, k, OutOf(cfg));
    BagRemove(s.clients, k, IncOf(cfg));
    RemoveSane(cfg, s.clients, k);
    MacsFrameClients(cfg, s, RemoveAt(s.clients, k));
  }

  lemma {:induction false} AuthByIdKeeps(cfg: Config, fw0: Tables, s: State, id: nat, now: int)
    requires Inv(cfg, fw0, s) && ValidMarks(cfg)
    ensures Inv(cfg, fw0, AuthById(cfg, s, id, now).0)
  {
    hide ChangeState, Bag, NoDuplicates, DistinctPairs, ClientsSane;
    var k := First(s.clients, ById(id));
    if k < |s.clients| {
      ChangeStateKeeps(cfg, fw0, s, k, cfg.authMark, now, "");
    }
  }

  lemma {:induction false} DeauthByIdKeeps(cfg: Config, fw0: Tables, s: State, id: nat, now: int, token: string)
    requires Inv(cfg, fw0, s) && ValidMarks(cfg)
    ensures Inv(cfg, fw0, DeauthById(cfg, s, id, now, token).0)
  {
    hide ChangeState, Inv;
    var k := First(s.clients, ById(id));
    if k < |s.clients| {
      ChangeStateKeeps(cfg, fw0, s, k, PREAUTHENTICATED, now, token);
    }
  }

  lemma {:induction false} HttpAuthKeeps(cfg: Config, fw0: Tables, s: State, mac: string, ip: string, token: string,
                      seconds: nat, upload: nat, download: nat, now: int)
    requires Inv(cfg, fw0, s) && ValidMarks(cfg)
    ensures Inv(cfg, fw0, HttpAuth(cfg, s, mac, ip, token, seconds, upload, download, now))
  {
    hide AuthById, Inv;
    var k := First(s.clients, ByPair(mac, ip));
    if k < |s.clients| {
      AuthByIdKeeps(cfg, fw0, s, s.clients[k].id, now);
      var t := AuthById(cfg, s, s.clients[k].id, now).0;
      UpdateKeeps(cfg, fw0, t, k, t.clients[k].(
        downloadLimit := download, uploadLimit := upload, sessionStart := now,
        sessionEnd := if seconds > 0 then now + seconds else 0));
    }
  }

  lemma {:induction false} CountersKeep(cfg: Config, fw0: Tables, s: State,
                                        out: seq<(string, nat)>, inc: seq<(string, nat)>, now: int)
    requires Inv(cfg, fw0, s)
    ensures Inv(cfg, fw0, s.(clients := Counters(s.clients, out, inc, now)))
    decreases |out| + |inc|
  {
    hide Inv;
    var cs := s.clients;
    if out != [] {
      var k := First(cs, ByIp(out[0].0));
      var cs' := CountOutgoing(cs, out[0].0, out[0].1, now);
      if cs' != cs { UpdateKeeps(cfg, fw0, s, k, cs[k].(outgoing := out[0].1, lastUpdated := now)); }
      CountersKeep(cfg, fw0, s.(clients := cs'), out[1..], inc, now);
    } else if inc != [] {
      var k := First(cs, ByIp(inc[0].0));
      var cs' := CountIncoming(cs, inc[0].0, inc[0].1);
      if cs' != cs { UpdateKeeps(cfg, fw0, s, k, cs[k].(incoming := inc[0].1)); }
      CountersKeep(cfg, fw0, s.(clients := cs'), [], inc[1..], now);
    }
  }

  lemma {:induction false} SweepAtKeeps(cfg: Config, fw0: Tables, s: State, k: nat, now: int, token: string)
    requires Inv(cfg, fw0, s) && ValidMarks(cfg) && k < |s.clients|
    ensures Inv(cfg, fw0, SweepAt(cfg, s, k, now, token))
  {
    hide ChangeState, Inv;
    match Decide(cfg, s.clients[k], now)
    case Keep =>
    case Discard => DiscardKeeps(cfg, fw0, s, k);
    case ToState(to) => ChangeStateKeeps(cfg, fw0, s, k, to, now, token);
  }

  lemma {:induction false} SweepKeeps(cfg: Config, fw0: Tables, s: State, i: nat, now: int, rnd: nat -> string, visit: nat)
    requires Inv(cfg, fw0, s) && ValidMarks(cfg) && i <= |s.clients|
    ensures Inv(cfg, fw0, Sweep(cfg, s, i, now, rnd, visit))
    decreases |s.clients| - i
  {
    if i < |s.clients| {
      hide SweepAt, Inv, First, Sweep;
      SweepStep(cfg, s, i, now, rnd, visit);
      var k := First(s.clients, ById(s.clients[i].id));
      var t := SweepAt(cfg, s, k, now, rnd(visit));
      SweepAtKeeps(cfg, fw0, s, k, now, rnd(visit));
      SweepKeeps(cfg, fw0, t, if |t.clients| < |s.clients| then i else i + 1, now, rnd, visit + 1);
    }
  }

  lemma {:induction false} DeauthAllKeeps(cfg: Config, fw0: Tables, s: State, i: nat, now: int, rnd: nat -> string)
    requires Inv(cfg, fw0, s) && ValidMarks(cfg) && i <= |s.clients|
    ensures Inv(cfg, fw0, DeauthAll(cfg, s, i, now, rnd))
    decreases |s.clients| - i
  {
    hide ChangeState, Inv;
    if i < |s.clients| {
      var k := First(s.clients, ById(s.clients[i].id));
      ChangeStateKeeps(cfg, fw0, s, k, PREAUTHENTICATED, now, rnd(i));
      DeauthAllKeeps(cfg, fw0, ChangeState(cfg, s, k, PREAUTHENTICATED, now, rnd(i)).0, i + 1, now, rnd);
    }
  }
}
