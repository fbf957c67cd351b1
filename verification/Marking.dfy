/** What the mangle table does to a packet from the client network, in every state that agrees with
    its lists (Mirror.dfy): the three marking chains against the client list and the MAC lists. */
module Marking {
  import opened Iptables
  import opened Configuration
  import opened Session
  import opened Mirror

  // ---------------------------------------------------------------- reference

  /** An authenticated record has exactly this address and MAC. */
  predicate IsAuthenticated(cfg: Config, s: State, p: Packet) {
    exists i :: 0 <= i < |s.clients| && s.clients[i].state == cfg.authMark
                && s.clients[i].ip == p.src && Fold(s.clients[i].mac) == p.mac
  }

  predicate Listed(macs: seq<string>, mac: string) {
    exists i :: 0 <= i < |macs| && Fold(macs[i]) == mac
  }

  /** On the blocked list under the block mechanism, not on the allowed list under the other. */
  predicate IsBlocked(cfg: Config, s: State, p: Packet) {
    match cfg.mechanism
    case MacBlock => Listed(s.blocked, p.mac)
    case MacAllow => !Listed(s.allowed, p.mac)
  }

  predicate IsTrusted(s: State, p: Packet) {
    Listed(s.trusted, p.mac)
  }

  /** One mark operation, if it applies. */
  function Marked(cfg: Config, applies: bool, before: Mark, m: Mark): (r: Mark) {
    if !applies then before else if cfg.orMark then Or(before, m) else m
  }

  /** Authenticated, then blocked, then trusted. */
  function FinalMark(cfg: Config, s: State, p: Packet): (m: Mark) {
    var m1 := Marked(cfg, IsAuthenticated(cfg, s, p), p.mark, cfg.authMark);
    var m2 := Marked(cfg, IsBlocked(cfg, s, p), m1, cfg.blockedMark);
    Marked(cfg, IsTrusted(s, p), m2, cfg.trustedMark)
  }

  /** The three rules that the initialisation puts at the head of mangle PREROUTING. */
  function HookRules(cfg: Config): (r: seq<Rule>) {
    [HookRule(cfg, NdsOUT), HookRule(cfg, NdsBLK), HookRule(cfg, NdsTRU)]
  }

  function HookRule(cfg: Config, to: Chain): (r: Rule) {
    Rule([InIface(cfg.iface), SrcNet(cfg.ipRange)], Jump(to))
  }

  predicate FromClientNetwork(cfg: Config, p: Packet) {
    p.env(InIface(cfg.iface)) && p.env(SrcNet(cfg.ipRange))
  }

  // ---------------------------------------------------------------- one chain

  /** The rule does not look at the mark. */
  predicate MarkFree(r: Rule) {
    forall i :: 0 <= i < |r.matches| ==> !r.matches[i].MarkIs?
  }

  lemma {:induction false} MatchesAnyMark(r: Rule, p: Packet, m: Mark)
    requires MarkFree(r)
    ensures Matches(r, p.(mark := m)) == Matches(r, p)
  {
    forall i | 0 <= i < |r.matches| ensures Holds(r.matches[i], p.(mark := m)) == Holds(r.matches[i], p) {
      assert !r.matches[i].MarkIs?;
    }
  }

  predicate SomeMatch(rules: seq<Rule>, p: Packet) {
    exists i :: 0 <= i < |rules| && Matches(rules[i], p)
  }

  lemma {:induction false} SomeMatchTail(rules: seq<Rule>, p: Packet)
    requires rules != []
    ensures SomeMatch(rules, p) <==> Matches(rules[0], p) || SomeMatch(rules[1..], p)
  {
    hide Matches;
    var rest := rules[1..];
    assert forall i :: 0 <= i < |rest| ==> rest[i] == rules[i + 1];
    if i :| 0 <= i < |rules| && Matches(rules[i], p) && i > 0 {
      assert Matches(rest[i - 1], p);
    }
  }

  lemma {:induction false} SomeMatchAnyMark(rules: seq<Rule>, p: Packet, m: Mark)
    requires forall i :: 0 <= i < |rules| ==> MarkFree(rules[i])
    ensures SomeMatch(rules, p.(mark := m)) == SomeMatch(rules, p)
  {
    hide Matches, MarkFree;
    if rules != [] {
      MatchesAnyMark(rules[0], p, m);
      SomeMatchTail(rules, p);
      SomeMatchTail(rules, p.(mark := m));
      SomeMatchAnyMark(rules[1..], p, m);
    }
  }

  /** A chain of marking rules marks a packet once, whichever of its rules match. */
  lemma {:induction false} MarkChain(cfg: Config, fw: Tables, rules: seq<Rule>, p: Packet, depth: nat, m: Mark)
    requires forall i :: 0 <= i < |rules| ==> MarkFree(rules[i]) && rules[i].target == MarkTarget(cfg, m)
    ensures Eval(fw, Mangle, rules, p, depth) == Through(Marked(cfg, SomeMatch(rules, p), p.mark, m))
    decreases |rules|
  {
    hide Matches, MarkFree, SomeMatch, Or;
    if rules == [] {
      assert !SomeMatch(rules, p) by { NoMatch(p); }
    } else {
      SomeMatchTail(rules, p);
      var e := Apply(fw, Mangle, rules[0], p, depth);
      var q := p.(mark := e.mark);
      SomeMatchAnyMark(rules[1..], p, e.mark);
      MarkChain(cfg, fw, rules[1..], q, depth, m);
      OrAgain(p.mark, m);
    }
  }

  lemma {:induction false} OrAgain(a: Mark, b: Mark)
    ensures Or(Or(a, b), b) == Or(a, b)
  {
  }

  lemma {:induction false} NoMatch(p: Packet)
    ensures !SomeMatch([], p)
  {
  }

  /** A chain of RETURN rules lets a packet through when none matches. */
  lemma {:induction false} ReturnChain(fw: Tables, rules: seq<Rule>, p: Packet, depth: nat)
    requires forall i :: 0 <= i < |rules| ==> rules[i].target == Return
    ensures Eval(fw, Mangle, rules, p, depth) == if SomeMatch(rules, p) then Returned(p.mark) else Through(p.mark)
    decreases |rules|
  {
    hide Matches, SomeMatch;
    if rules == [] {
      NoMatch(p);
    } else {
      SomeMatchTail(rules, p);
      assert p.(mark := p.mark) == p;
      if !Matches(rules[0], p) {
        ReturnChain(fw, rules[1..], p, depth);
      }
    }
  }

  // ---------------------------------------------------------------- chains and lists

  lemma {:induction false} OutMatches(cfg: Config, s: State, p: Packet)
    requires ClientsMirrored(cfg, s) && OUT in s.fw
    ensures SomeMatch(s.fw[OUT], p) <==> IsAuthenticated(cfg, s, p)
    ensures forall i :: 0 <= i < |s.fw[OUT]| ==>
              MarkFree(s.fw[OUT][i]) && s.fw[OUT][i].target == MarkTarget(cfg, cfg.authMark)
  {
    hide ClientsMirrored, Matches, MarkFree, IsAuthenticated;
    var chain := s.fw[OUT];
    forall i | 0 <= i < |chain|
      ensures MarkFree(chain[i]) && chain[i].target == MarkTarget(cfg, cfg.authMark)
      ensures Matches(chain[i], p) ==> IsAuthenticated(cfg, s, p)
    {
      assert chain[i] in chain;
      OutRuleFrom(cfg, s, p, chain[i]);
    }
    if IsAuthenticated(cfg, s, p) { OutRuleThere(cfg, s, p); }
  }

  lemma {:induction false} OutRuleFrom(cfg: Config, s: State, p: Packet, r: Rule)
    requires ClientsMirrored(cfg, s) && r in s.fw[OUT]
    ensures MarkFree(r) && r.target == MarkTarget(cfg, cfg.authMark)
    ensures Matches(r, p) ==> IsAuthenticated(cfg, s, p)
  {
    hide Bag, Paired, Matches;
    assert r in multiset(s.fw[OUT]);
    BagHas(s.clients, OutOf(cfg), r);
    var j :| 0 <= j < |s.clients| && r in OutOf(cfg)(s.clients[j]);
    OutRuleMatches(cfg, s.clients[j], p);
  }

  lemma {:induction false} OutRuleThere(cfg: Config, s: State, p: Packet)
    requires ClientsMirrored(cfg, s) && OUT in s.fw && IsAuthenticated(cfg, s, p)
    ensures SomeMatch(s.fw[OUT], p)
  {
    hide ClientsMirrored, Matches;
    var j :| 0 <= j < |s.clients| && s.clients[j].state == cfg.authMark
             && s.clients[j].ip == p.src && Fold(s.clients[j].mac) == p.mac;
    RulesThere(cfg, s, j);
    OutRuleMatches(cfg, s.clients[j], p);
    var chain := s.fw[OUT];
    var i :| 0 <= i < |chain| && chain[i] == OutRule(cfg, s.clients[j]);
  }

  lemma {:induction false} OutRuleMatches(cfg: Config, c: Client, p: Packet)
    ensures Matches(OutRule(cfg, c), p) <==> c.ip == p.src && Fold(c.mac) == p.mac
    ensures MarkFree(OutRule(cfg, c))
  {
    var r := OutRule(cfg, c);
    assert r.matches[0] == SrcIp(c.ip) && r.matches[1] == SrcMac(Fold(c.mac));
  }

  lemma {:induction false} MacRuleMatches(cfg: Config, l: MacList, mac: string, p: Packet)
    ensures Matches(MacRule(cfg, l, mac), p) <==> Fold(mac) == p.mac
    ensures MarkFree(MacRule(cfg, l, mac))
  {
    var r := MacRule(cfg, l, mac);
    assert r.matches[0] == SrcMac(Fold(mac));
  }

  lemma {:induction false} MacMatches(cfg: Config, l: MacList, macs: seq<string>, chain: seq<Rule>, p: Packet)
    requires multiset(chain) == Bag(macs, MacOf(cfg, l))
    ensures SomeMatch(chain, p) <==> Listed(macs, p.mac)
    ensures forall i :: 0 <= i < |chain| ==> MarkFree(chain[i]) && chain[i].target == MacRule(cfg, l, "").target
  {
    hide Bag, Fold;
    forall i | 0 <= i < |chain|
      ensures MarkFree(chain[i]) && chain[i].target == MacRule(cfg, l, "").target
      ensures Matches(chain[i], p) ==> Listed(macs, p.mac)
    {
      assert chain[i] in multiset(chain);
      BagHas(macs, MacOf(cfg, l), chain[i]);
      var j :| 0 <= j < |macs| && chain[i] in MacOf(cfg, l)(macs[j]);
      MacRuleMatches(cfg, l, macs[j], p);
    }
    if Listed(macs, p.mac) {
      var j :| 0 <= j < |macs| && Fold(macs[j]) == p.mac;
      var r := MacRule(cfg, l, macs[j]);
      assert r in MacOf(cfg, l)(macs[j]);
      BagHas(macs, MacOf(cfg, l), r);
      assert r in multiset(chain);
      var i :| 0 <= i < |chain| && chain[i] == r;
      MacRuleMatches(cfg, l, macs[j], p);
    }
  }

  // ---------------------------------------------------------------- the three chains

  lemma {:induction false} OutMarks(cfg: Config, s: State, p: Packet, depth: nat)
    requires ClientsMirrored(cfg, s)
    ensures Eval(s.fw, Mangle, s.fw[OUT], p, depth)
            == Through(Marked(cfg, IsAuthenticated(cfg, s, p), p.mark, cfg.authMark))
  {
    hide ClientsMirrored, MarkFree, IsAuthenticated, SomeMatch, Eval;
    assert OUT in s.fw by { Has(cfg, s); }
    OutMatches(cfg, s, p);
    MarkChain(cfg, s.fw, s.fw[OUT], p, depth, cfg.authMark);
  }

  lemma {:induction false} Has(cfg: Config, s: State)
    requires ClientsMirrored(cfg, s)
    ensures OUT in s.fw
  {
  }

  lemma {:induction false} TruMarks(cfg: Config, s: State, p: Packet, depth: nat)
    requires MacsMirrored(cfg, s)
    ensures Eval(s.fw, Mangle, s.fw[TRU], p, depth) == Through(Marked(cfg, IsTrusted(s, p), p.mark, cfg.trustedMark))
  {
    hide Bag, NoDuplicates, MarkFree, Listed, SomeMatch, Eval, Fold;
    MacMatches(cfg, TrustedList, s.trusted, s.fw[TRU], p);
    MarkChain(cfg, s.fw, s.fw[TRU], p, depth, cfg.trustedMark);
  }

  lemma {:induction false} BlkMarks(cfg: Config, s: State, p: Packet, depth: nat)
    requires MacsMirrored(cfg, s)
    ensures var v := Eval(s.fw, Mangle, s.fw[BLK], p, depth);
            !v.Decided? && v.mark == Marked(cfg, IsBlocked(cfg, s, p), p.mark, cfg.blockedMark)
  {
    hide Bag, NoDuplicates, MarkFree, Listed, SomeMatch, Eval, Fold;
    var chain := s.fw[BLK];
    if cfg.mechanism == MacBlock {
      MacMatches(cfg, BlockedList, s.blocked, chain, p);
      MarkChain(cfg, s.fw, chain, p, depth, cfg.blockedMark);
    } else {
      var front, last := chain[..|chain| - 1], [CatchAll(cfg)];
      assert chain == front + last;
      MacMatches(cfg, AllowedList, s.allowed, front, p);
      ReturnChain(s.fw, front, p, depth);
      EvalConcat(s.fw, Mangle, front, last, p, depth);
      assert p.(mark := p.mark) == p;
      CatchAllMarks(cfg, s.fw, p, depth);
    }
  }

  lemma {:induction false} CatchAllMarks(cfg: Config, fw: Tables, p: Packet, depth: nat)
    ensures Eval(fw, Mangle, [CatchAll(cfg)], p, depth) == Through(Marked(cfg, true, p.mark, cfg.blockedMark))
  {
    hide Or;
    var r := CatchAll(cfg);
    assert Matches(r, p);
    assert [r][1..] == [];
    EvalNothing(fw, p.(mark := Marked(cfg, true, p.mark, cfg.blockedMark)), depth);
  }

  lemma {:induction false} Enter(cfg: Config, fw: Tables, to: Chain, rest: seq<Rule>, p: Packet, depth: nat)
    requires FromClientNetwork(cfg, p) && depth > 0 && ChainId(Mangle, to) in fw
    requires !Eval(fw, Mangle, fw[ChainId(Mangle, to)], p, depth - 1).Decided?
    ensures Eval(fw, Mangle, [HookRule(cfg, to)] + rest, p, depth)
            == Eval(fw, Mangle, rest, p.(mark := Eval(fw, Mangle, fw[ChainId(Mangle, to)], p, depth - 1).mark), depth)
  {
    var r := HookRule(cfg, to);
    assert r.matches[0] == InIface(cfg.iface) && r.matches[1] == SrcNet(cfg.ipRange);
    assert Matches(r, p);
    assert ([r] + rest)[0] == r && ([r] + rest)[1..] == rest;
    var v := Eval(fw, Mangle, fw[ChainId(Mangle, to)], p, depth - 1);
    assert Apply(fw, Mangle, r, p, depth) == Next(v.mark);
  }

  /** In every state that agrees with its lists, every packet from the client network leaves the three
      hook rules with the mark that its record and the lists call for. */
  lemma {:induction false} PacketMark(cfg: Config, fw0: Tables, s: State, p: Packet, depth: nat)
    requires Inv(cfg, fw0, s) && FromClientNetwork(cfg, p) && depth > 0
    ensures Eval(s.fw, Mangle, HookRules(cfg), p, depth) == Through(FinalMark(cfg, s, p))
  {
    hide Inv, ClientsMirrored, MacsMirrored, Eval, IsAuthenticated, HookRules, FromClientNetwork, Or, IsBlocked, IsTrusted, Marked;
    Parts(cfg, fw0, s);
    Chains(cfg, s);
    var m1 := Marked(cfg, IsAuthenticated(cfg, s, p), p.mark, cfg.authMark);
    var m2 := Marked(cfg, IsBlocked(cfg, s, p), m1, cfg.blockedMark);
    OutMarks(cfg, s, p, depth - 1);
    BlkMarks(cfg, s, p.(mark := m1), depth - 1);
    TruMarks(cfg, s, p.(mark := m2), depth - 1);
    SamePacket(cfg, s, p, m1);
    SamePacket(cfg, s, p, m2);
    ThreeJumps(cfg, s.fw, p, depth, m1, m2, FinalMark(cfg, s, p));
  }

  lemma {:induction false} ThreeJumps(cfg: Config, fw: Tables, p: Packet, depth: nat, m1: Mark, m2: Mark, m3: Mark)
    requires FromClientNetwork(cfg, p) && depth > 0 && OUT in fw && BLK in fw && TRU in fw
    requires var v := Eval(fw, Mangle, fw[OUT], p, depth - 1); !v.Decided? && v.mark == m1
    requires var v := Eval(fw, Mangle, fw[BLK], p.(mark := m1), depth - 1); !v.Decided? && v.mark == m2
    requires var v := Eval(fw, Mangle, fw[TRU], p.(mark := m2), depth - 1); !v.Decided? && v.mark == m3
    ensures Eval(fw, Mangle, HookRules(cfg), p, depth) == Through(m3)
  {
    hide Eval, HookRule;
    var r1, r2, r3 := HookRule(cfg, NdsOUT), HookRule(cfg, NdsBLK), HookRule(cfg, NdsTRU);
    Enter(cfg, fw, NdsOUT, [r2, r3], p, depth);
    Enter(cfg, fw, NdsBLK, [r3], p.(mark := m1), depth);
    Enter(cfg, fw, NdsTRU, [], p.(mark := m2), depth);
    assert [r1] + [r2, r3] == HookRules(cfg) && [r2] + [r3] == [r2, r3] && [r3] + [] == [r3];
    EvalNothing(fw, p.(mark := m3), depth);
  }

  lemma {:induction false} EvalNothing(fw: Tables, p: Packet, depth: nat)
    ensures Eval(fw, Mangle, [], p, depth) == Through(p.mark)
  {
  }

  lemma {:induction false} Parts(cfg: Config, fw0: Tables, s: State)
    requires Inv(cfg, fw0, s)
    ensures ClientsMirrored(cfg, s) && MacsMirrored(cfg, s)
  {
  }

  lemma {:induction false} SamePacket(cfg: Config, s: State, p: Packet, m: Mark)
    ensures var q := p.(mark := m);
            IsBlocked(cfg, s, q) == IsBlocked(cfg, s, p) && IsTrusted(s, q) == IsTrusted(s, p)
            && FromClientNetwork(cfg, q) == FromClientNetwork(cfg, p)
  {
  }

  // ---------------------------------------------------------------- consequences

  /** An unmarked packet whose MAC is neither blocked nor trusted leaves with the authenticated mark
      exactly when an authenticated record has its address and MAC, for both mark operations. */
  lemma {:induction false} AuthenticatedExactly(cfg: Config, fw0: Tables, s: State, p: Packet, depth: nat)
    requires Inv(cfg, fw0, s) && FromClientNetwork(cfg, p) && depth > 0 && ValidMarks(cfg)
    requires p.mark == 0 && !IsBlocked(cfg, s, p) && !IsTrusted(s, p)
    ensures var m := Eval(s.fw, Mangle, HookRules(cfg), p, depth).mark;
            (m == cfg.authMark <==> IsAuthenticated(cfg, s, p)) && (m == 0 <==> !IsAuthenticated(cfg, s, p))
  {
    PacketMark(cfg, fw0, s, p, depth);
    hide Inv, Eval, IsAuthenticated, IsBlocked, IsTrusted;
    assert Or(0, cfg.authMark) == cfg.authMark;
  }

  /** When at most one of the three chains applies, an unmarked packet gets the mark of that chain,
      for both mark operations. */
  lemma {:induction false} OneChain(cfg: Config, fw0: Tables, s: State, p: Packet, depth: nat)
    requires Inv(cfg, fw0, s) && FromClientNetwork(cfg, p) && depth > 0 && p.mark == 0
    requires var (a, b, t) := (IsAuthenticated(cfg, s, p), IsBlocked(cfg, s, p), IsTrusted(s, p));
             !(a && b) && !(a && t) && !(b && t)
    ensures Eval(s.fw, Mangle, HookRules(cfg), p, depth).mark ==
            if IsTrusted(s, p) then cfg.trustedMark
            else if IsBlocked(cfg, s, p) then cfg.blockedMark
            else if IsAuthenticated(cfg, s, p) then cfg.authMark
            else PREAUTHENTICATED
  {
    PacketMark(cfg, fw0, s, p, depth);
    hide Inv, Eval, IsAuthenticated, IsBlocked, IsTrusted;
    assert Or(0, cfg.authMark) == cfg.authMark && Or(0, cfg.blockedMark) == cfg.blockedMark
           && Or(0, cfg.trustedMark) == cfg.trustedMark;
  }

  /** With --set-mark the last chain that applies wins: trusted over blocked over authenticated. */
  lemma {:induction false} SetMarkPrecedence(cfg: Config, fw0: Tables, s: State, p: Packet, depth: nat)
    requires Inv(cfg, fw0, s) && FromClientNetwork(cfg, p) && depth > 0 && !cfg.orMark
    ensures Eval(s.fw, Mangle, HookRules(cfg), p, depth).mark ==
            if IsTrusted(s, p) then cfg.trustedMark
            else if IsBlocked(cfg, s, p) then cfg.blockedMark
            else if IsAuthenticated(cfg, s, p) then cfg.authMark
            else p.mark
  {
    PacketMark(cfg, fw0, s, p, depth);
    hide Inv, Eval, IsAuthenticated, IsBlocked, IsTrusted;
  }

  /** With --or-mark and the default marks, blocked and trusted together read as authenticated, and
      authenticated absorbs both: a packet from the network carries the authenticated mark exactly
      when it is authenticated, or blocked and trusted, and the blocked mark exactly when it is
      blocked and neither of the others. */
  lemma {:induction false} OrMarkDefaults(cfg: Config, fw0: Tables, s: State, p: Packet, depth: nat)
    requires Inv(cfg, fw0, s) && FromClientNetwork(cfg, p) && depth > 0 && cfg.orMark && p.mark == 0
    requires cfg.authMark == 0x30000 && cfg.trustedMark == 0x20000 && cfg.blockedMark == 0x10000
    ensures var m := Eval(s.fw, Mangle, HookRules(cfg), p, depth).mark;
            var (a, b, t) := (IsAuthenticated(cfg, s, p), IsBlocked(cfg, s, p), IsTrusted(s, p));
            (m == cfg.authMark <==> a || (b && t))
            && (m == cfg.blockedMark <==> b && !a && !t)
            && (m == cfg.trustedMark <==> t && !a && !b)
  {
    PacketMark(cfg, fw0, s, p, depth);
    hide Inv, Eval, IsAuthenticated, IsBlocked, IsTrusted, Or;
    DefaultOrs();
  }

  lemma {:induction false} DefaultOrs()
    ensures Or(0, 0x30000) == 0x30000 && Or(0, 0x10000) == 0x10000 && Or(0, 0x20000) == 0x20000
    ensures Or(0x30000, 0x10000) == 0x30000 && Or(0x30000, 0x20000) == 0x30000
    ensures Or(0x10000, 0x20000) == 0x30000
  {
  }
}
