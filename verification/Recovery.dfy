/** What a crash during the set-up leaves, and what the destruction at the next start
    (src/main.c:307-308) makes of it. */
module Recovery {
  import opened Iptables
  import opened Configuration
  import opened Session
  import opened Mirror
  import opened StateFile
  import opened Marking
  import opened FilterPolicy
  import opened Lifecycle

  // ---------------------------------------------------------------- commands that can be undone

  /** A command on a chain of the daemon; or a jump to one put into, or taken from, the head of a hook. */
  predicate Harmless(prior: Tables, fw: Tables, c: Command) {
    || IsOwn(c.id)
    || (IsHook(c.id) && c.id in prior && c.id in fw && match c
        case Insert(id, pos, r) =>
          r.target.Jump? && Sought(id, r.target.to) && 1 <= pos <= |fw[id]| - |prior[id]| + 1
        case DeleteAt(id, pos) => 1 <= pos <= |fw[id]| - |prior[id]|
        case _ => false)
  }

  lemma {:induction false} HeadInsert(id: ChainId, was: seq<Rule>, rules: seq<Rule>, pos: nat, r: Rule)
    requires HookOver(id, was, rules) && r.target.Jump? && Sought(id, r.target.to) && 1 <= pos <= |rules| - |was| + 1
    ensures HookOver(id, was, rules[..pos - 1] + [r] + rules[pos - 1..])
  {
    hide Sought;
    var n := |rules| - |was|;
    var next := rules[..pos - 1] + [r] + rules[pos - 1..];
    assert forall i :: 0 <= i < n ==> rules[..n][i] == rules[i];
    assert next[n + 1..] == rules[n..] == was;
    assert next == next[..n + 1] + next[n + 1..];
  }

  lemma {:induction false} HeadDelete(id: ChainId, was: seq<Rule>, rules: seq<Rule>, pos: nat)
    requires HookOver(id, was, rules) && 1 <= pos <= |rules| - |was|
    ensures HookOver(id, was, RemoveAt(rules, pos - 1))
  {
    hide Sought;
    var n := |rules| - |was|;
    var next := RemoveAt(rules, pos - 1);
    assert forall i :: 0 <= i < n ==> rules[..n][i] == rules[i];
    assert next[n - 1..] == rules[n..] == was;
    assert next == next[..n - 1] + next[n - 1..];
  }

  lemma {:induction false} OwnChanges(prior: Tables, fw: Tables, fw': Tables, own: ChainId)
    requires Over(prior, fw) && IsOwn(own) && fw'.Keys + {own} == fw.Keys + {own}
    requires forall id :: id in fw && id in fw' && id != own ==> fw'[id] == fw[id]
    ensures Over(prior, fw')
  {
    hide HookOver, IsHook, IsOwn;
    assert forall id :: id != own ==> (id in fw' <==> id in fw'.Keys + {own});
    assert forall id :: id != own ==> (id in fw <==> id in fw.Keys + {own});
  }

  lemma {:induction false} HookChanges(prior: Tables, fw: Tables, id: ChainId, rules: seq<Rule>)
    requires Over(prior, fw) && id in prior && IsHook(id) && HookOver(id, prior[id], rules)
    ensures Over(prior, fw[id := rules])
  {
    hide HookOver, IsOwn, IsHook;
  }

  /** From tables that the destruction undoes, such a command, accepted or not, leads to others. */
  lemma {:induction false} HarmlessKeepsOver(prior: Tables, fw: Tables, c: Command)
    requires Over(prior, fw) && Harmless(prior, fw, c)
    ensures Over(prior, Exec(fw, c))
  {
    if IsOwn(c.id) {
      hide Over, HookOver, Referenced, BuiltIn, TargetExists;
      OwnChanges(prior, fw, Exec(fw, c), c.id);
    } else {
      assert HookOver(c.id, prior[c.id], fw[c.id]);
      hide Over, HookOver, TargetExists, IsOwn, IsHook, Sought;
      if c.Insert? {
        HeadInsert(c.id, prior[c.id], fw[c.id], c.pos, c.rule);
        HookChanges(prior, fw, c.id, fw[c.id][..c.pos - 1] + [c.rule] + fw[c.id][c.pos - 1..]);
      } else {
        HeadDelete(c.id, prior[c.id], fw[c.id], c.pos);
        HookChanges(prior, fw, c.id, RemoveAt(fw[c.id], c.pos - 1));
      }
    }
  }

  predicate AllHarmless(prior: Tables, fw: Tables, cs: seq<Command>)
    decreases |cs|
  {
    cs == [] || (Harmless(prior, fw, cs[0]) && AllHarmless(prior, Exec(fw, cs[0]), cs[1..]))
  }

  /** So wherever a sequence of such commands is cut off. */
  lemma {:induction false} CutOffAnywhere(prior: Tables, fw: Tables, cs: seq<Command>, n: nat)
    requires Over(prior, fw) && AllHarmless(prior, fw, cs) && n <= |cs|
    ensures Over(prior, ExecAll(fw, cs[..n]))
    decreases n
  {
    hide Over, Harmless, Exec;
    if n > 0 {
      HarmlessKeepsOver(prior, fw, cs[0]);
      assert cs[..n][1..] == cs[1..][..n - 1];
      CutOffAnywhere(prior, Exec(fw, cs[0]), cs[1..], n - 1);
    }
  }

  /** The jumps into the daemon's chains, in the order of the set-up, are such commands. */
  lemma {:induction false} HooksHarmless(cfg: Config, prior: Tables, fw: Tables)
    requires Over(prior, fw) && PRE in prior && OUT in fw && BLK in fw && TRU in fw
    ensures AllHarmless(prior, fw, HookCommands(cfg))
  {
    hide HookOver;
    var cs := HookCommands(cfg);
    assert HookOver(PRE, prior[PRE], fw[PRE]);
    assert |prior[PRE]| <= |fw[PRE]| by { HookLonger(PRE, prior[PRE], fw[PRE]); }
    hide Over;
    var f1 := Exec(fw, cs[0]);
    var f2 := Exec(f1, cs[1]);
    assert |f1[PRE]| == |fw[PRE]| + 1 && |f2[PRE]| == |fw[PRE]| + 2;
    assert cs[1..][0] == cs[1] && cs[1..][1..] == cs[2..] && cs[2..][0] == cs[2] && cs[2..][1..] == [];
    assert AllHarmless(prior, f2, cs[2..]);
    assert AllHarmless(prior, f1, cs[1..]);
  }

  lemma {:induction false} HookLonger(id: ChainId, was: seq<Rule>, rules: seq<Rule>)
    requires HookOver(id, was, rules)
    ensures |was| <= |rules|
  {
  }

  // ---------------------------------------------------------------- the set-up

  /** From tables that the destruction undoes, every command in turn can be undone. */
  ghost predicate Safe(prior: Tables, fw: Tables, cs: seq<Command>) {
    Over(prior, fw) && AllHarmless(prior, fw, cs)
  }

  lemma {:induction false} SafeAfter(prior: Tables, fw: Tables, cs: seq<Command>)
    requires Safe(prior, fw, cs)
    ensures Over(prior, ExecAll(fw, cs))
  {
    hide Over, AllHarmless, ExecAll;
    CutOffAnywhere(prior, fw, cs, |cs|);
    assert cs[..|cs|] == cs;
  }

  lemma {:induction false} HarmlessConcat(prior: Tables, fw: Tables, a: seq<Command>, b: seq<Command>)
    requires AllHarmless(prior, fw, a) && AllHarmless(prior, ExecAll(fw, a), b)
    ensures AllHarmless(prior, fw, a + b)
    decreases |a|
  {
    hide Exec, Harmless;
    if a == [] {
      assert a + b == b;
    } else {
      assert (a + b)[0] == a[0] && (a + b)[1..] == a[1..] + b;
      HarmlessConcat(prior, Exec(fw, a[0]), a[1..], b);
    }
  }

  lemma {:induction false} SafeThen(prior: Tables, fw: Tables, a: seq<Command>, b: seq<Command>)
    requires Safe(prior, fw, a) && Safe(prior, ExecAll(fw, a), b)
    ensures Safe(prior, fw, a + b)
  {
    hide Over, AllHarmless, ExecAll;
    HarmlessConcat(prior, fw, a, b);
  }

  /** Only chains of the daemon are touched. */
  predicate OwnOnly(cs: seq<Command>) {
    forall i :: 0 <= i < |cs| ==> IsOwn(cs[i].id)
  }

  lemma {:induction false} OwnHarmless(prior: Tables, fw: Tables, cs: seq<Command>)
    requires OwnOnly(cs)
    ensures AllHarmless(prior, fw, cs)
    decreases |cs|
  {
    hide Exec, IsOwn;
    if cs != [] {
      OwnHarmless(prior, Exec(fw, cs[0]), cs[1..]);
    }
  }

  lemma {:induction false} OwnSafe(prior: Tables, fw: Tables, cs: seq<Command>)
    requires Over(prior, fw) && OwnOnly(cs)
    ensures Safe(prior, fw, cs)
  {
    hide Over, OwnOnly, AllHarmless;
    OwnHarmless(prior, fw, cs);
  }

  /** A jump to a sought chain at the head of a hook. */
  lemma {:induction false} PushSafe(prior: Tables, fw: Tables, id: ChainId, r: Rule)
    requires Over(prior, fw) && id in prior && IsHook(id) && r.target.Jump? && Sought(id, r.target.to)
    ensures Safe(prior, fw, [Insert(id, 1, r)])
  {
    hide HookOver, IsOwn, Exec, Sought;
    assert HookOver(id, prior[id], fw[id]);
    HookLonger(id, prior[id], fw[id]);
    assert Harmless(prior, fw, Insert(id, 1, r));
    hide Over, Harmless;
    assert [Insert(id, 1, r)][1..] == [];
    assert AllHarmless(prior, Exec(fw, Insert(id, 1, r)), []);
  }

  /** New chains, a jump in a hook, and the rules of the chains. */
  lemma {:induction false} PartSafe(prior: Tables, fw: Tables, a: seq<Command>, id: ChainId, r: Rule, b: seq<Command>)
    requires Over(prior, fw) && OwnOnly(a) && OwnOnly(b)
    requires id in prior && IsHook(id) && r.target.Jump? && Sought(id, r.target.to)
    ensures Safe(prior, fw, a + [Insert(id, 1, r)] + b)
  {
    hide Over, OwnOnly, Safe, IsHook, Sought;
    var push := [Insert(id, 1, r)];
    OwnSafe(prior, fw, a);
    SafeAfter(prior, fw, a);
    PushSafe(prior, ExecAll(fw, a), id, r);
    SafeThen(prior, fw, a, push);
    SafeAfter(prior, fw, a + push);
    OwnSafe(prior, ExecAll(fw, a + push), b);
    SafeThen(prior, fw, a + push, b);
  }

  lemma {:induction false} AppendsOwn(id: ChainId, rules: seq<Rule>)
    requires IsOwn(id)
    ensures OwnOnly(Appends(id, rules))
  {
  }

  lemma {:induction false} NewOwn(ids: seq<ChainId>)
    requires forall i :: 0 <= i < |ids| ==> IsOwn(ids[i])
    ensures OwnOnly(NewChains(ids))
  {
    hide IsOwn;
  }

  lemma {:induction false} OwnConcat(a: seq<Command>, b: seq<Command>)
    requires OwnOnly(a) && OwnOnly(b)
    ensures OwnOnly(a + b)
  {
    hide IsOwn;
  }

  lemma {:induction false} MacOwn(cfg: Config, trusted: seq<string>, blocked: seq<string>, allowed: seq<string>)
    ensures OwnOnly(MacCommands(cfg, trusted, blocked, allowed))
  {
    assert OwnOnly(AllowCommands(cfg, allowed));
    hide OwnOnly, Appends, AllowCommands, MacRules;
    AppendsOwn(TRU, MacRules(cfg, TrustedList, trusted));
    AppendsOwn(BLK, MacRules(cfg, BlockedList, blocked));
    AppendsOwn(BLK, [CatchAll(cfg)]);
    OwnConcat(Appends(BLK, [CatchAll(cfg)]), AllowCommands(cfg, allowed));
    OwnConcat(Appends(TRU, MacRules(cfg, TrustedList, trusted)),
              if cfg.mechanism == MacBlock then Appends(BLK, MacRules(cfg, BlockedList, blocked))
              else Appends(BLK, [CatchAll(cfg)]) + AllowCommands(cfg, allowed));
  }

  /** The chains of the mangle table exist once they are made. */
  lemma {:induction false} ChainsMade(prior: Tables)
    requires Prepared(prior)
    ensures var fw := ExecAll(prior, NewChains([TRU, BLK, ALW, INC, OUT])); OUT in fw && BLK in fw && TRU in fw
  {
    var cs := NewChains([TRU, BLK, ALW, INC, OUT]);
    var f1 := Exec(prior, cs[0]);
    var f2 := Exec(f1, cs[1]);
    var f3 := Exec(f2, cs[2]);
    var f4 := Exec(f3, cs[3]);
    var f5 := Exec(f4, cs[4]);
    assert TRU in f5 && BLK in f5 && OUT in f5;
    hide Exec;
    assert cs[1..][1..] == cs[2..] && cs[2..][1..] == cs[3..] && cs[3..][1..] == cs[4..] && cs[4..][1..] == [];
    assert ExecAll(f4, cs[4..]) == f5;
    assert ExecAll(f3, cs[3..]) == f5;
    assert ExecAll(f2, cs[2..]) == f5;
    assert ExecAll(f1, cs[1..]) == f5;
  }

  lemma {:induction false} StartOver(prior: Tables)
    requires Prepared(prior)
    ensures Over(prior, prior)
  {
    hide IsOwn, IsHook;
    forall id | id in prior ensures HookOver(id, prior[id], prior[id]) {
      assert prior[id][..0] == [] && [] + prior[id] == prior[id];
    }
  }

  lemma {:induction false} HooksThere(prior: Tables)
    requires Prepared(prior)
    ensures PRE in prior && POST in prior && NATPRE in prior && IN in prior && FWD in prior
  {
    hide IsOwn;
  }

  /** The jumps that the set-up puts into the hooks lead to chains sought there. */
  lemma {:induction false} JumpsSought(cfg: Config)
    ensures IsHook(POST) && PostRule(cfg).target == Jump(NdsINC) && Sought(POST, NdsINC)
    ensures IsHook(NATPRE) && HookRule(cfg, NdsOUT).target == Jump(NdsOUT) && Sought(NATPRE, NdsOUT)
    ensures IsHook(IN) && HookRule(cfg, NdsRTR).target == Jump(NdsRTR) && Sought(IN, NdsRTR)
    ensures IsHook(FWD) && HookRule(cfg, NdsNET).target == Jump(NdsNET) && Sought(FWD, NdsNET)
  {
  }

  lemma {:induction false} NewAllOwn()
    ensures OwnOnly(NewChains([TRU, BLK, ALW, INC, OUT]))
    ensures OwnOnly(NewChains([NET, RTR, AUT, FTRU, TRT]))
    ensures OwnOnly(NewChains([NATOUT]))
  {
    NewOwn([TRU, BLK, ALW, INC, OUT]);
    NewOwn([NET, RTR, AUT, FTRU, TRT]);
    NewOwn([NATOUT]);
  }

  lemma {:induction false} MangleSafe(cfg: Config, prior: Tables, trusted: seq<string>, blocked: seq<string>, allowed: seq<string>)
    requires Prepared(prior)
    ensures Safe(prior, prior, MangleCommands(cfg, trusted, blocked, allowed))
  {
    hide Over, Safe, Prepared, OwnOnly, NewChains, HookCommands, MacCommands, PostRule, IsHook, Sought, ExecAll, AllHarmless, IsOwn;
    var a, b := NewChains([TRU, BLK, ALW, INC, OUT]), HookCommands(cfg);
    var rest, push := MacCommands(cfg, trusted, blocked, allowed), [Insert(POST, 1, PostRule(cfg))];
    StartOver(prior);
    NewAllOwn();
    OwnSafe(prior, prior, a);
    SafeAfter(prior, prior, a);
    HooksThere(prior);
    HooksSafe(cfg, prior, a);
    SafeThen(prior, prior, a, b);
    SafeAfter(prior, prior, a + b);
    NoneOwn();
    JumpsSought(cfg);
    MacOwn(cfg, trusted, blocked, allowed);
    PartSafe(prior, ExecAll(prior, a + b), [], POST, PostRule(cfg), rest);
    assert [] + push + rest == push + rest;
    SafeThen(prior, prior, a + b, push + rest);
    assert a + b + (push + rest) == a + b + push + rest;
  }

  lemma {:induction false} HooksSafe(cfg: Config, prior: Tables, a: seq<Command>)
    requires Prepared(prior) && a == NewChains([TRU, BLK, ALW, INC, OUT]) && Over(prior, ExecAll(prior, a))
    ensures Safe(prior, ExecAll(prior, a), HookCommands(cfg))
  {
    hide Over, Prepared, HookCommands, ExecAll, AllHarmless, NewChains;
    HooksThere(prior);
    ChainsMade(prior);
    HooksHarmless(cfg, prior, ExecAll(prior, a));
  }

  lemma {:induction false} NoneOwn()
    ensures OwnOnly([])
  {
  }

  lemma {:induction false} NatSafe(cfg: Config, prior: Tables, fw: Tables)
    requires Over(prior, fw) && NATPRE in prior
    ensures Safe(prior, fw, NatCommands(cfg))
  {
    hide Over, Safe, OwnOnly, NewChains, Appends, NatChain, HookRule, IsHook, Sought;
    JumpsSought(cfg);
    NewAllOwn();
    AppendsOwn(NATOUT, NatChain(cfg));
    PartSafe(prior, fw, NewChains([NATOUT]), NATPRE, HookRule(cfg, NdsOUT), Appends(NATOUT, NatChain(cfg)));
  }

  lemma {:induction false} FilterSafe(cfg: Config, prior: Tables, fw: Tables)
    requires Over(prior, fw) && IN in prior && FWD in prior
    ensures Safe(prior, fw, FilterCommands(cfg))
  {
    hide Over, Safe, OwnOnly, NewChains, InputCommands, ForwardCommands, ExecAll;
    NewAllOwn();
    var a := NewChains([NET, RTR, AUT, FTRU, TRT]);
    OwnSafe(prior, fw, a);
    SafeAfter(prior, fw, a);
    InputSafe(cfg, prior, ExecAll(fw, a));
    SafeThen(prior, fw, a, InputCommands(cfg));
    SafeAfter(prior, fw, a + InputCommands(cfg));
    ForwardSafe(cfg, prior, ExecAll(fw, a + InputCommands(cfg)));
    SafeThen(prior, fw, a + InputCommands(cfg), ForwardCommands(cfg));
  }

  lemma {:induction false} InputSafe(cfg: Config, prior: Tables, fw: Tables)
    requires Over(prior, fw) && IN in prior
    ensures Safe(prior, fw, InputCommands(cfg))
  {
    hide Over, Safe, OwnOnly, Appends, RtrChain, ClassChain, HookRule, IsHook, Sought;
    var push := [Insert(IN, 1, HookRule(cfg, NdsRTR))];
    var a, b := Appends(RTR, RtrChain(cfg)), Appends(TRT, ClassChain(cfg.trustedUsersToRouter));
    JumpsSought(cfg);
    NoneOwn();
    AppendsOwn(RTR, RtrChain(cfg));
    AppendsOwn(TRT, ClassChain(cfg.trustedUsersToRouter));
    OwnConcat(a, b);
    PartSafe(prior, fw, [], IN, HookRule(cfg, NdsRTR), a + b);
    assert [] + push + (a + b) == push + a + b;
  }

  lemma {:induction false} ForwardSafe(cfg: Config, prior: Tables, fw: Tables)
    requires Over(prior, fw) && FWD in prior
    ensures Safe(prior, fw, ForwardCommands(cfg))
  {
    hide Over, Safe, OwnOnly, Appends, NetChain, ClassChain, HookRule, IsHook, Sought;
    var push := [Insert(FWD, 1, HookRule(cfg, NdsNET))];
    var a, b := Appends(NET, NetChain(cfg)), Appends(FTRU, ClassChain(cfg.trustedUsers));
    var c := Appends(AUT, ClassChain(cfg.authenticatedUsers));
    JumpsSought(cfg);
    NoneOwn();
    AppendsOwn(NET, NetChain(cfg));
    AppendsOwn(FTRU, ClassChain(cfg.trustedUsers));
    AppendsOwn(AUT, ClassChain(cfg.authenticatedUsers));
    OwnConcat(a, b);
    OwnConcat(a + b, c);
    PartSafe(prior, fw, [], FWD, HookRule(cfg, NdsNET), a + b + c);
    assert [] + push + (a + b + c) == push + a + b + c;
  }

  /** Outside its test rules the set-up can be undone after every command. */
  lemma {:induction false} BuildSafe(cfg: Config, prior: Tables, trusted: seq<string>, blocked: seq<string>, allowed: seq<string>)
    requires Prepared(prior)
    ensures Safe(prior, prior, BuildCommands(cfg, trusted, blocked, allowed))
  {
    var a, b, c := MangleCommands(cfg, trusted, blocked, allowed), NatCommands(cfg), FilterCommands(cfg);
    hide Safe, Over, Prepared, MangleCommands, NatCommands, FilterCommands, ExecAll;
    MangleSafe(cfg, prior, trusted, blocked, allowed);
    HooksThere(prior);
    SafeAfter(prior, prior, a);
    NatSafe(cfg, prior, ExecAll(prior, a));
    SafeThen(prior, prior, a, b);
    SafeAfter(prior, prior, a + b);
    FilterSafe(cfg, prior, ExecAll(prior, a + b));
    SafeThen(prior, prior, a + b, c);
  }

  // ---------------------------------------------------------------- the test rules

  /** The set-up is cut off between the insertion and the deletion of a test rule. */
  predicate InTest(cfg: Config, n: nat) {
    (cfg.orMark && n == 1) || (cfg.masking && n == if cfg.orMark then 3 else 1)
  }

  /** A listing of a test rule mentions no chain of the daemon. */
  ghost predicate TestsUnlisted(cfg: Config, listed: (Rule, Chain) -> bool) {
    && (forall c :: Sought(PRE, c) ==> !listed(OrTest(cfg), c))
    && (forall c :: Sought(FWD, c) ==> !listed(MaskTest(cfg), c))
  }

  lemma {:induction false} TestInserted(prior: Tables, id: ChainId, r: Rule)
    requires id in prior && !r.target.Jump?
    ensures Exec(prior, Insert(id, 1, r)) == prior[id := [r] + prior[id]]
    ensures Exec(Exec(prior, Insert(id, 1, r)), DeleteAt(id, 1)) == prior
  {
    var was := prior[id];
    assert was[..0] + [r] + was[0..] == [r] + was;
    assert RemoveAt([r] + was, 0) == was;
    assert prior[id := [r] + was][id := was] == prior;
  }

  /** The tables after the first `n` commands, as far as the test rules go. */
  lemma {:induction false} ProbeStates(cfg: Config, prior: Tables, n: nat)
    requires PRE in prior && FWD in prior && n <= |ProbeCommands(cfg)|
    ensures ExecAll(prior, ProbeCommands(cfg)[..n]) ==
            if cfg.orMark && n == 1 then prior[PRE := [OrTest(cfg)] + prior[PRE]]
            else if cfg.masking && n == (if cfg.orMark then 3 else 1) then prior[FWD := [MaskTest(cfg)] + prior[FWD]]
            else prior
  {
    TestInserted(prior, PRE, OrTest(cfg));
    TestInserted(prior, FWD, MaskTest(cfg));
    hide Exec, OrTest, MaskTest;
    var cs := ProbeCommands(cfg)[..n];
    var a := if cfg.orMark then [Insert(PRE, 1, OrTest(cfg)), DeleteAt(PRE, 1)] else [];
    if n <= |a| {
      assert cs == a[..n];
      FirstTwo(prior, PRE, OrTest(cfg), n);
    } else {
      var b := [Insert(FWD, 1, MaskTest(cfg)), DeleteAt(FWD, 1)];
      assert cs == a + b[..n - |a|];
      ExecConcat(prior, a, b[..n - |a|]);
      FirstTwo(prior, PRE, OrTest(cfg), 2);
      assert [Insert(PRE, 1, OrTest(cfg)), DeleteAt(PRE, 1)][..2] == [Insert(PRE, 1, OrTest(cfg)), DeleteAt(PRE, 1)];
      FirstTwo(prior, FWD, MaskTest(cfg), n - |a|);
    }
  }

  lemma {:induction false} FirstTwo(prior: Tables, id: ChainId, r: Rule, n: nat)
    requires id in prior && !r.target.Jump? && n <= 2
    ensures ExecAll(prior, [Insert(id, 1, r), DeleteAt(id, 1)][..n]) ==
            if n == 1 then prior[id := [r] + prior[id]] else prior
    ensures ExecAll(prior, []) == prior
  {
    TestInserted(prior, id, r);
    hide Exec;
    var cs := [Insert(id, 1, r), DeleteAt(id, 1)];
    if n > 0 {
      assert cs[..n][0] == cs[0] && cs[..n][1..] == cs[1..n];
      if n == 2 {
        assert cs[1..2] == [cs[1]] && [cs[1]][1..] == [];
        assert ExecAll(Exec(prior, cs[0]), [cs[1]]) == Exec(Exec(prior, cs[0]), cs[1]);
      } else {
        assert cs[1..1] == [];
      }
    }
  }

  /** The destruction leaves a test rule where it is. */
  lemma {:induction false} TestStays(listed: (Rule, Chain) -> bool, prior: Tables, id: ChainId, r: Rule)
    requires Prepared(prior) && Clean(listed, prior) && id in prior && IsHook(id) && !r.target.Jump?
    requires forall c :: Sought(id, c) ==> !listed(r, c)
    ensures var fw := prior[id := [r] + prior[id]];
            Around(prior, fw) && Destroyed(listed, prior, fw) == fw && Unreferring(fw) && fw != prior
  {
    hide Left, IsHook, IsOwn, Prepared, Clean, Sought, Around, Unreferring;
    var fw := prior[id := [r] + prior[id]];
    TestAround(listed, prior, id, r);
    forall h | h in prior && IsHook(h) ensures Left(listed, h, fw[h]) == fw[h] {
      HookUnlisted(listed, prior, id, r, h);
    }
    assert |fw[id]| != |prior[id]|;
  }

  lemma {:induction false} TestAround(listed: (Rule, Chain) -> bool, prior: Tables, id: ChainId, r: Rule)
    requires Prepared(prior) && Clean(listed, prior) && id in prior && IsHook(id) && !r.target.Jump?
    ensures var fw := prior[id := [r] + prior[id]]; Around(prior, fw) && Unreferring(fw)
  {
    hide Sought, IsHook, IsOwn;
    var fw := prior[id := [r] + prior[id]];
    assert forall x :: x in fw[id] ==> x in prior[id] || x == r;
  }

  lemma {:induction false} HookUnlisted(listed: (Rule, Chain) -> bool, prior: Tables, id: ChainId, r: Rule, h: ChainId)
    requires Clean(listed, prior) && id in prior && h in prior && forall c :: Sought(id, c) ==> !listed(r, c)
    ensures var fw := prior[id := [r] + prior[id]]; Left(listed, h, fw[h]) == fw[h]
  {
    hide Sought, IsOwn, Left;
    var rules := prior[id := [r] + prior[id]][h];
    assert forall x :: x in rules ==> x in prior[h] || (h == id && x == r);
    Unlisted(listed, h, rules);
  }

  lemma {:induction false} Unlisted(listed: (Rule, Chain) -> bool, id: ChainId, rules: seq<Rule>)
    requires forall r, c :: r in rules && Sought(id, c) ==> !listed(r, c)
    ensures Left(listed, id, rules) == rules
  {
    hide UnmentionedAll;
    UnmentionedAllGone(listed, [], rules, SoughtIn(id));
    assert [] + rules == rules;
  }

  /** However many of its commands the set-up got to: the destruction at the next start gives the old
      tables back if and only if the set-up was not cut off between the insertion and the deletion of
      a test rule. */
  lemma {:induction false} CrashRecovery(cfg: Config, listed: (Rule, Chain) -> bool, prior: Tables,
                                         trusted: seq<string>, blocked: seq<string>, allowed: seq<string>, n: nat)
    requires Prepared(prior) && Clean(listed, prior) && TestsUnlisted(cfg, listed)
    requires n <= |SetUpCommands(cfg, trusted, blocked, allowed)|
    ensures var fw := ExecAll(prior, SetUpCommands(cfg, trusted, blocked, allowed)[..n]);
            && Around(prior, fw) && Unreferring(Destroyed(listed, prior, fw))
            && (Destroyed(listed, prior, fw) == prior <==> !InTest(cfg, n))
  {
    hide Prepared, Clean, Around, Unreferring, Destroyed, Over, BuildCommands, ExecAll, ProbeCommands, TestsUnlisted;
    var probe, build := ProbeCommands(cfg), BuildCommands(cfg, trusted, blocked, allowed);
    var cs := SetUpCommands(cfg, trusted, blocked, allowed)[..n];
    ProbeLength(cfg);
    if n <= |probe| {
      assert cs == probe[..n];
      DuringTests(cfg, listed, prior, n);
    } else {
      var m := n - |probe|;
      assert cs == probe + build[..m];
      AfterTests(cfg, listed, prior, trusted, blocked, allowed, m);
    }
  }

  lemma {:induction false} DuringTests(cfg: Config, listed: (Rule, Chain) -> bool, prior: Tables, n: nat)
    requires Prepared(prior) && Clean(listed, prior) && TestsUnlisted(cfg, listed) && n <= |ProbeCommands(cfg)|
    ensures var fw := ExecAll(prior, ProbeCommands(cfg)[..n]);
            && Around(prior, fw) && Unreferring(Destroyed(listed, prior, fw))
            && (Destroyed(listed, prior, fw) == prior <==> !InTest(cfg, n))
  {
    hide Prepared, Clean, Around, Unreferring, Destroyed, Over, ExecAll, OrTest, MaskTest, ProbeCommands, IsHook, Sought;
    HooksThere(prior);
    TestRules(cfg);
    ProbeStates(cfg, prior, n);
    StartOver(prior);
    OverDestroyed(listed, prior, prior);
    if cfg.orMark && n == 1 {
      TestStays(listed, prior, PRE, OrTest(cfg));
    } else if InTest(cfg, n) {
      TestStays(listed, prior, FWD, MaskTest(cfg));
    }
  }

  lemma {:induction false} ProbeLength(cfg: Config)
    ensures |ProbeCommands(cfg)| == (if cfg.orMark then 2 else 0) + (if cfg.masking then 2 else 0)
  {
    hide OrTest, MaskTest;
  }

  lemma {:induction false} TestRules(cfg: Config)
    ensures IsHook(PRE) && IsHook(FWD) && !OrTest(cfg).target.Jump? && !MaskTest(cfg).target.Jump?
  {
  }

  lemma {:induction false} AfterTests(cfg: Config, listed: (Rule, Chain) -> bool, prior: Tables,
                                      trusted: seq<string>, blocked: seq<string>, allowed: seq<string>, m: nat)
    requires Prepared(prior) && Clean(listed, prior) && m <= |BuildCommands(cfg, trusted, blocked, allowed)|
    ensures var fw := ExecAll(prior, ProbeCommands(cfg) + BuildCommands(cfg, trusted, blocked, allowed)[..m]);
            Around(prior, fw) && Destroyed(listed, prior, fw) == prior && Unreferring(prior)
  {
    hide Prepared, Clean, Around, Unreferring, Destroyed, Over, BuildCommands, ExecAll, ProbeCommands, OrTest, MaskTest, AllHarmless;
    var probe, build := ProbeCommands(cfg), BuildCommands(cfg, trusted, blocked, allowed);
    ProbeLength(cfg);
    HooksThere(prior);
    ExecConcat(prior, probe, build[..m]);
    ProbeStates(cfg, prior, |probe|);
    assert probe[..|probe|] == probe;
    BuildSafe(cfg, prior, trusted, blocked, allowed);
    CutOffAnywhere(prior, prior, build, m);
    OverDestroyed(listed, prior, ExecAll(prior, build[..m]));
  }
}
