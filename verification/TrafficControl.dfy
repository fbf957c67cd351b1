/** Traffic control for clients (src/tc.c, src/fw_iptables.c): each client gets three classes, three
    filters and two queueing disciplines on a device, which must go again, children first, when
    the client does, whatever its limits are by then. */
module TrafficControl {
  import Iptables

  // ---------------------------------------------------------------- a device

  /** The first and the second slope of a service curve, in kbit. */
  datatype Curve = Curve(m1: int, m2: int)

  /** An hfsc class under the root handle, by the minor number of its parent. */
  datatype Class = Class(parent: nat, realtime: Curve, share: Curve, ceiling: int)

  /** What a filter looks at besides the client's address. */
  datatype Kind = Icmp | Dns | Any

  datatype Filter = Filter(ip: string, kind: Kind, flow: nat)

  /** Classes by minor number, filters by priority, and by class the handle of its own queueing
      discipline. */
  datatype Device = Device(classes: map<nat, Class>, filters: map<nat, seq<Filter>>, leaves: map<nat, nat>)

  datatype Command =
    | ClassAdd(minor: nat, class_: Class)
    | ClassDel(minor: nat)
    | FilterAdd(prio: nat, filter: Filter)
    | FilterDel(prio: nat)
    | QdiscAdd(minor: nat, handle: nat)
    | QdiscDel(minor: nat)

  predicate HasChild(d: Device, minor: nat) {
    exists k :: k in d.classes && d.classes[k].parent == minor
  }

  predicate HasFilter(d: Device, minor: nat) {
    exists p :: p in d.filters && exists j :: 0 <= j < |d.filters[p]| && d.filters[p][j].flow == minor
  }

  /** When the kernel carries out a command: a class needs its parent, and goes only when no class
      is below it and no filter leads to it. */
  predicate Succeeds(d: Device, c: Command) {
    match c
    case ClassAdd(k, class_) => k !in d.classes && class_.parent in d.classes
    case ClassDel(k) => k in d.classes && !HasChild(d, k) && !HasFilter(d, k)
    case FilterAdd(_, _) => true
    case FilterDel(p) => p in d.filters
    case QdiscAdd(k, h) => k in d.classes && k !in d.leaves && h !in d.leaves.Values
    case QdiscDel(k) => k in d.leaves
  }

  /** The device after a command. A class takes its own queueing discipline with it, and a
      filter deletion takes every filter of the priority. */
  function Exec(d: Device, c: Command): (r: Device) {
    if !Succeeds(d, c) then d
    else match c
      case ClassAdd(k, class_) => d.(classes := d.classes[k := class_])
      case ClassDel(k) => d.(classes := d.classes - {k}, leaves := d.leaves - {k})
      case FilterAdd(p, f) => d.(filters := d.filters[p := (if p in d.filters then d.filters[p] else []) + [f]])
      case FilterDel(p) => d.(filters := d.filters - {p})
      case QdiscAdd(k, h) => d.(leaves := d.leaves[k := h])
      case QdiscDel(k) => d.(leaves := d.leaves - {k})
  }

  function ExecAll(d: Device, cs: seq<Command>): (r: Device) {
    if cs == [] then d else Exec(ExecAll(d, cs[..|cs| - 1]), cs[|cs| - 1])
  }

  predicate AllSucceed(d: Device, cs: seq<Command>) {
    cs == [] ||
    (AllSucceed(d, cs[..|cs| - 1]) && Succeeds(ExecAll(d, cs[..|cs| - 1]), cs[|cs| - 1]))
  }

  // ---------------------------------------------------------------- a client's commands

  /** The number of the first of a client's three classes. */
  function Base(idx: nat): (id: nat) { 3 * idx + 10 }

  function Outer(limit: int): (c: Class) {
    Class(1, Curve(limit / 5, limit / 5), Curve(limit / 5, limit / 5), limit)
  }

  function Fast(id: nat, limit: int): (c: Class) {
    Class(id, Curve(limit / 5 * 4, limit / 20), Curve(limit / 10, limit / 10), limit)
  }

  function Bulk(id: nat, limit: int): (c: Class) {
    Class(id, Curve(0, 0), Curve(0, limit / 5), limit)
  }

  function AttachCommands(id: nat, limit: int, ip: string): (cs: seq<Command>) {
    [ClassAdd(id, Outer(limit)),
     ClassAdd(id + 1, Fast(id, limit)),
     FilterAdd(id, Filter(ip, Icmp, id + 1)),
     FilterAdd(id + 1, Filter(ip, Dns, id + 1)),
     ClassAdd(id + 2, Bulk(id, limit)),
     FilterAdd(id + 2, Filter(ip, Any, id + 2)),
     QdiscAdd(id + 1, id + 1),
     QdiscAdd(id + 2, id + 2)]
  }

  function DetachCommands(id: nat): (cs: seq<Command>) {
    [FilterDel(id + 2), FilterDel(id + 1), FilterDel(id),
     QdiscDel(id + 2), QdiscDel(id + 1),
     ClassDel(id + 2), ClassDel(id + 1), ClassDel(id)]
  }

  // ---------------------------------------------------------------- nothing else is touched

  predicate Owns(id: nat, k: nat) { id <= k <= id + 2 }

  function Key(c: Command): (k: nat) {
    match c
    case ClassAdd(k, _) => k
    case ClassDel(k) => k
    case FilterAdd(p, _) => p
    case FilterDel(p) => p
    case QdiscAdd(k, _) => k
    case QdiscDel(k) => k
  }

  predicate SameIn<T(==)>(m: map<nat, T>, n: map<nat, T>, k: nat) {
    (k in m <==> k in n) && (k in m && k in n ==> m[k] == n[k])
  }

  predicate SameAt(d: Device, e: Device, k: nat) {
    SameIn(d.classes, e.classes, k) && SameIn(d.filters, e.filters, k) && SameIn(d.leaves, e.leaves, k)
  }

  ghost predicate SameOutside(d: Device, e: Device, id: nat) {
    forall k: nat :: !Owns(id, k) ==> SameAt(d, e, k)
  }

  predicate Within(cs: seq<Command>, id: nat) {
    forall i :: 0 <= i < |cs| ==> Owns(id, Key(cs[i]))
  }

  lemma {:induction false} ExecOutside(d: Device, c: Command, id: nat)
    requires Owns(id, Key(c))
    ensures SameOutside(d, Exec(d, c), id)
  {
    hide Succeeds;
  }

  lemma {:induction false} ExecAllOutside(d: Device, cs: seq<Command>, id: nat)
    requires Within(cs, id)
    ensures SameOutside(d, ExecAll(d, cs), id)
  {
    if cs != [] {
      var n := |cs| - 1;
      ExecAllOutside(d, cs[..n], id);
      ExecOutside(ExecAll(d, cs[..n]), cs[n], id);
    }
  }

  /** Whatever the device holds, and whether or not the commands succeed, a client's commands
      leave every class, filter and queueing discipline of another client and of the classes 1:1
      and 1:2 as it is. */
  lemma {:induction false} TouchesNothingElse(d: Device, idx: nat, limit: int, ip: string, k: nat)
    requires k < 10 || (exists other: nat :: other != idx && Owns(Base(other), k))
    ensures SameAt(d, ExecAll(d, AttachCommands(Base(idx), limit, ip)), k)
    ensures SameAt(d, ExecAll(d, DetachCommands(Base(idx))), k)
  {
    hide ExecAll, SameAt;
    ExecAllOutside(d, AttachCommands(Base(idx), limit, ip), Base(idx));
    ExecAllOutside(d, DetachCommands(Base(idx)), Base(idx));
    assert !Owns(Base(idx), k);
  }

  // ---------------------------------------------------------------- attaching and detaching

  /** No class, filter or queueing discipline has, or leads to, a number of the client. */
  ghost predicate Free(d: Device, id: nat) {
    && (forall k :: k in d.classes ==> !Owns(id, k) && !Owns(id, d.classes[k].parent))
    && (forall p :: p in d.filters ==>
          !Owns(id, p) && forall j :: 0 <= j < |d.filters[p]| ==> !Owns(id, d.filters[p][j].flow))
    && (forall k :: k in d.leaves ==> !Owns(id, k) && !Owns(id, d.leaves[k]))
  }

  /** The device with everything that belongs to an attached client. */
  function Attached(d: Device, id: nat, limit: int, ip: string): (r: Device) {
    Device(ClassesOf(d.classes, id, limit), FiltersOf(d.filters, id, ip), LeavesOf(d.leaves, id))
  }

  function ClassesOf(m: map<nat, Class>, id: nat, limit: int): (r: map<nat, Class>) {
    m[id := Outer(limit)][id + 1 := Fast(id, limit)][id + 2 := Bulk(id, limit)]
  }

  function FiltersOf(m: map<nat, seq<Filter>>, id: nat, ip: string): (r: map<nat, seq<Filter>>) {
    m[id := [Filter(ip, Icmp, id + 1)]][id + 1 := [Filter(ip, Dns, id + 1)]][id + 2 := [Filter(ip, Any, id + 2)]]
  }

  function LeavesOf(m: map<nat, nat>, id: nat): (r: map<nat, nat>) {
    m[id + 1 := id + 1][id + 2 := id + 2]
  }

  /** A fifth, a tenth or a twentieth of the limit, rounded down. */
  predicate Part(n: int, parts: nat, limit: int) { parts * n <= limit < parts * n + parts }

  /** The classes of an attached client: one below 1:1 that is guaranteed a fifth of the limit, and two
      below it, one for short bursts and a twentieth after, one for bulk; none goes above the limit. */
  lemma {:induction false} ClassesExactly(d: Device, id: nat, limit: int, ip: string)
    requires limit > 0 && id >= 10
    ensures var cs := Attached(d, id, limit, ip).classes;
            && id in cs && cs[id].parent == 1 && cs[id].ceiling == limit
            && Part(cs[id].realtime.m1, 5, limit) && cs[id].realtime == cs[id].share && cs[id].share.m1 == cs[id].share.m2
            && id + 1 in cs && cs[id + 1].parent == id && cs[id + 1].ceiling == limit
            && cs[id + 1].realtime.m1 == 4 * cs[id].share.m1 && Part(cs[id + 1].realtime.m2, 20, limit)
            && Part(cs[id + 1].share.m1, 10, limit) && cs[id + 1].share.m2 == cs[id + 1].share.m1
            && id + 2 in cs && cs[id + 2].parent == id && cs[id + 2].ceiling == limit
            && cs[id + 2].realtime == Curve(0, 0) && cs[id + 2].share.m1 == 0 && Part(cs[id + 2].share.m2, 5, limit)
  {
  }

  /** The filter takes the traffic of the address. */
  predicate Takes(f: Filter, ip: string, kind: Kind) { f.ip == ip && (f.kind == Any || f.kind == kind) }

  /** Where the filters of a priority lead the traffic: the first that takes it. */
  function Leads(fs: seq<Filter>, ip: string, kind: Kind): (flow: nat) {
    if fs == [] then 0 else if Takes(fs[0], ip, kind) then fs[0].flow else Leads(fs[1..], ip, kind)
  }

  /** The filters of an attached client lead its ICMP and DNS traffic to the first leaf class and the rest
      to the second, take no traffic of another address, and each leaf has a discipline of its own. */
  lemma {:induction false} FiltersExactly(d: Device, id: nat, limit: int, ip: string, other: string)
    requires id >= 10 && other != ip
    ensures var r := Attached(d, id, limit, ip);
            && id in r.filters && id + 1 in r.filters && id + 2 in r.filters
            && Leads(r.filters[id], ip, Icmp) == id + 1
            && Leads(r.filters[id], ip, Dns) == 0 && Leads(r.filters[id + 1], ip, Dns) == id + 1
            && Leads(r.filters[id], ip, Any) == 0 && Leads(r.filters[id + 1], ip, Any) == 0
            && Leads(r.filters[id + 2], ip, Any) == id + 2
            && (forall k, kind :: id <= k <= id + 2 ==> Leads(r.filters[k], other, kind) == 0)
            && id + 1 in r.leaves && r.leaves[id + 1] == id + 1 && id + 2 in r.leaves && r.leaves[id + 2] == id + 2
  {
    var r := Attached(d, id, limit, ip);
    assert r.filters[id] == [Filter(ip, Icmp, id + 1)] && r.filters[id + 1] == [Filter(ip, Dns, id + 1)]
        && r.filters[id + 2] == [Filter(ip, Any, id + 2)];
    LeadsOne(Filter(ip, Icmp, id + 1));
    LeadsOne(Filter(ip, Dns, id + 1));
    LeadsOne(Filter(ip, Any, id + 2));
    hide Leads;
  }

  lemma {:induction false} LeadsOne(f: Filter)
    ensures forall ip, kind :: Leads([f], ip, kind) == if Takes(f, ip, kind) then f.flow else 0
  {
    assert [f][1..] == [];
  }

  lemma {:induction false} Snoc(d: Device, cs: seq<Command>, c: Command)
    ensures ExecAll(d, cs + [c]) == Exec(ExecAll(d, cs), c)
    ensures AllSucceed(d, cs + [c]) <==> AllSucceed(d, cs) && Succeeds(ExecAll(d, cs), c)
  {
    assert (cs + [c])[..|cs|] == cs;
  }

  lemma {:induction false} Nothing(d: Device)
    ensures ExecAll(d, []) == d && AllSucceed(d, [])
  {
  }

  /** The commands all succeed and lead from `d` to `e`. */
  predicate Reaches(d: Device, cs: seq<Command>, e: Device) {
    AllSucceed(d, cs) && ExecAll(d, cs) == e
  }

  lemma {:induction false} Onward(d: Device, cs: seq<Command>, e: Device, c: Command, all: seq<Command>, f: Device)
    requires Reaches(d, cs, e) && Succeeds(e, c) && f == Exec(e, c)
    requires |cs| < |all| && cs == all[..|cs|] && c == all[|cs|]
    ensures Reaches(d, all[..|cs| + 1], f)
  {
    hide Exec, Succeeds;
    Snoc(d, cs, c);
    assert all[..|cs| + 1] == cs + [c];
  }

  /** The first four commands of attaching. */
  lemma {:induction false} HalfAttached(d: Device, id: nat, limit: int, ip: string)
    requires Free(d, id) && 1 in d.classes
    ensures Reaches(d, AttachCommands(id, limit, ip)[..4],
                    Device(d.classes[id := Outer(limit)][id + 1 := Fast(id, limit)],
                           d.filters[id := [Filter(ip, Icmp, id + 1)]][id + 1 := [Filter(ip, Dns, id + 1)]],
                           d.leaves))
  {
    hide Reaches, HasChild, HasFilter, Outer, Bulk;
    var cs := AttachCommands(id, limit, ip);
    StartsHere(d, cs);
    var d1 := d.(classes := d.classes[id := Outer(limit)]);
    assert Outer(limit).parent == 1 by { OuterParent(limit); }
    Onward(d, cs[..0], d, cs[0], cs, d1);
    var d2 := d1.(classes := d1.classes[id + 1 := Fast(id, limit)]);
    Onward(d, cs[..1], d1, cs[1], cs, d2);
    var d3 := d2.(filters := d2.filters[id := [Filter(ip, Icmp, id + 1)]]);
    FilterAdded(d2, id, Filter(ip, Icmp, id + 1));
    Onward(d, cs[..2], d2, cs[2], cs, d3);
    var d4 := d3.(filters := d3.filters[id + 1 := [Filter(ip, Dns, id + 1)]]);
    FilterAdded(d3, id + 1, Filter(ip, Dns, id + 1));
    Onward(d, cs[..3], d3, cs[3], cs, d4);
  }

  lemma {:induction false} OuterParent(limit: int)
    ensures Outer(limit).parent == 1
  {
  }

  /** On a device without anything of the client, attaching succeeds and adds exactly its classes,
      filters and queueing disciplines. */
  lemma {:induction false} AttachAdds(d: Device, id: nat, limit: int, ip: string)
    requires Free(d, id) && 1 in d.classes
    ensures Reaches(d, AttachCommands(id, limit, ip), Attached(d, id, limit, ip))
  {
    hide Reaches, HasChild, HasFilter, Outer, Fast;
    var cs := AttachCommands(id, limit, ip);
    HalfAttached(d, id, limit, ip);
    var d4 := Device(d.classes[id := Outer(limit)][id + 1 := Fast(id, limit)],
                     d.filters[id := [Filter(ip, Icmp, id + 1)]][id + 1 := [Filter(ip, Dns, id + 1)]],
                     d.leaves);
    var d5 := d4.(classes := d4.classes[id + 2 := Bulk(id, limit)]);
    Onward(d, cs[..4], d4, cs[4], cs, d5);
    var d6 := d5.(filters := d5.filters[id + 2 := [Filter(ip, Any, id + 2)]]);
    FilterAdded(d5, id + 2, Filter(ip, Any, id + 2));
    Onward(d, cs[..5], d5, cs[5], cs, d6);
    var d7 := d6.(leaves := d6.leaves[id + 1 := id + 1]);
    Onward(d, cs[..6], d6, cs[6], cs, d7);
    var d8 := d7.(leaves := d7.leaves[id + 2 := id + 2]);
    Onward(d, cs[..7], d7, cs[7], cs, d8);
    assert cs[..8] == cs;
  }

  lemma {:induction false} FilterAdded(d: Device, p: nat, f: Filter)
    requires p !in d.filters
    ensures Exec(d, FilterAdd(p, f)) == d.(filters := d.filters[p := [f]])
  {
    assert [] + [f] == [f];
  }

  lemma {:induction false} StartsHere(d: Device, cs: seq<Command>)
    ensures Reaches(d, cs[..0], d)
  {
    assert cs[..0] == [];
  }

  /** The last part of detaching: leaf, leaf and parent go once the filters and the queueing
      disciplines are gone. */
  lemma {:induction false} ClassesGo(d: Device, id: nat, limit: int)
    requires Free(d, id) && id >= 10
    ensures var c0 := ClassesOf(d.classes, id, limit);
            var e1, e2 := d.(classes := c0 - {id + 2}), d.(classes := c0 - {id + 2} - {id + 1});
            && Succeeds(d.(classes := c0), ClassDel(id + 2)) && Exec(d.(classes := c0), ClassDel(id + 2)) == e1
            && Succeeds(e1, ClassDel(id + 1)) && Exec(e1, ClassDel(id + 1)) == e2
            && Succeeds(e2, ClassDel(id)) && Exec(e2, ClassDel(id)) == d
  {
    var c0 := ClassesOf(d.classes, id, limit);
    var c1 := c0 - {id + 2};
    var c2 := c1 - {id + 1};
    hide Succeeds, Exec;
    LastClassGoes(d, c0, id, id + 2);
    LastClassGoes(d, c1, id, id + 1);
    LastClassGoes(d, c2, id, id);
    assert c2 - {id} == d.classes;
  }

  lemma {:induction false} LastClassGoes(d: Device, classes: map<nat, Class>, id: nat, k: nat)
    requires Free(d, id) && Owns(id, k) && k in classes
    requires forall j :: j in classes ==> classes[j].parent != k
    ensures Succeeds(d.(classes := classes), ClassDel(k))
    ensures Exec(d.(classes := classes), ClassDel(k)) == d.(classes := classes - {k})
  {
    assert d.leaves - {k} == d.leaves;
  }

  /** Detaching an attached client succeeds command by command, and what remains is the device
      without anything of the client. */
  lemma {:induction false} DetachRemoves(d: Device, id: nat, limit: int, ip: string)
    requires Free(d, id) && id >= 10
    ensures Reaches(Attached(d, id, limit, ip), DetachCommands(id), d)
  {
    hide Reaches, HasChild, HasFilter;
    var cs := DetachCommands(id);
    var e := Attached(d, id, limit, ip);
    var e5 := Device(e.classes, d.filters, d.leaves);
    FirstFive(d, id, limit, ip);
    hide Exec, Succeeds, Free;
    ClassesGo(d, id, limit);
    var e6 := e5.(classes := e5.classes - {id + 2});
    Onward(e, cs[..5], e5, cs[5], cs, e6);
    var e7 := e6.(classes := e6.classes - {id + 1});
    Onward(e, cs[..6], e6, cs[6], cs, e7);
    Onward(e, cs[..7], e7, cs[7], cs, d);
    assert cs[..8] == cs;
  }

  lemma {:induction false} FirstFive(d: Device, id: nat, limit: int, ip: string)
    requires Free(d, id)
    ensures var e := Attached(d, id, limit, ip);
            Reaches(e, DetachCommands(id)[..5], Device(e.classes, d.filters, d.leaves))
  {
    hide Reaches, HasChild, HasFilter;
    var cs := DetachCommands(id);
    var e := Attached(d, id, limit, ip);
    StartsHere(e, cs);
    FiltersBack(d.filters, id, ip);
    LeavesBack(d.leaves, id);
    hide Free, FiltersOf, LeavesOf, ClassesOf;
    var e1 := e.(filters := e.filters - {id + 2});
    Onward(e, cs[..0], e, cs[0], cs, e1);
    var e2 := e1.(filters := e1.filters - {id + 1});
    Onward(e, cs[..1], e1, cs[1], cs, e2);
    var e3 := e2.(filters := d.filters);
    Onward(e, cs[..2], e2, cs[2], cs, e3);
    var e4 := e3.(leaves := e3.leaves - {id + 2});
    Onward(e, cs[..3], e3, cs[3], cs, e4);
    Onward(e, cs[..4], e4, cs[4], cs, Device(e.classes, d.filters, d.leaves));
  }

  lemma {:induction false} FiltersBack(m: map<nat, seq<Filter>>, id: nat, ip: string)
    requires forall p :: p in m ==> !Owns(id, p)
    ensures var f := FiltersOf(m, id, ip);
            id + 2 in f && id + 1 in f - {id + 2} && id in f - {id + 2} - {id + 1}
            && f - {id + 2} - {id + 1} - {id} == m
  {
    assert FiltersOf(m, id, ip) - {id + 2} - {id + 1} - {id} == m;
  }

  lemma {:induction false} LeavesBack(m: map<nat, nat>, id: nat)
    requires forall k :: k in m ==> !Owns(id, k)
    ensures var f := LeavesOf(m, id);
            id + 2 in f && id + 1 in f - {id + 2} && f - {id + 2} - {id + 1} == m
  {
    assert LeavesOf(m, id) - {id + 2} - {id + 1} == m;
  }

  /** Where nothing of the client is, every command of detaching fails and nothing changes. */
  lemma {:induction false} DetachIdle(d: Device, id: nat)
    requires Free(d, id)
    ensures ExecAll(d, DetachCommands(id)) == d
  {
    var cs := DetachCommands(id);
    forall k | 0 <= k < |cs|
      ensures !Succeeds(d, cs[k])
    {
      assert Owns(id, Key(cs[k]));
    }
    NoneSucceeds(d, cs);
  }

  lemma {:induction false} NoneSucceeds(d: Device, cs: seq<Command>)
    requires forall k :: 0 <= k < |cs| ==> !Succeeds(d, cs[k])
    ensures ExecAll(d, cs) == d
  {
    hide Succeeds;
    if cs != [] {
      NoneSucceeds(d, cs[..|cs| - 1]);
    }
  }

  // ---------------------------------------------------------------- limits

  /** Limits in kbit; zero or less means none. */
  datatype Limits = Limits(download: int, upload: int)

  datatype Direction = Down | Up

  function Pick(l: Limits, dir: Direction): (n: int) {
    if dir == Down then l.download else l.upload
  }

  /** A client's own limits count only if it has both. */
  function Effective(cfg: Limits, client: Limits): (l: Limits) {
    if client.download > 0 && client.upload > 0 then client else cfg
  }

  function Min(a: int, b: int): (m: int) { if a < b then a else b }

  function AttachLimit(cfg: Limits, client: Limits, dir: Direction): (n: int) {
    Min(Pick(Effective(cfg, client), dir), Pick(cfg, dir))
  }

  /** A client with both limits gets the smaller of its own and the configured one in each direction, and
      any other client the configured one. */
  lemma {:induction false} LimitExactly(cfg: Limits, client: Limits)
    ensures client.download > 0 && client.upload > 0 ==>
              && AttachLimit(cfg, client, Down) == (if client.download < cfg.download then client.download else cfg.download)
              && AttachLimit(cfg, client, Up) == (if client.upload < cfg.upload then client.upload else cfg.upload)
    ensures client.download <= 0 || client.upload <= 0 ==>
              AttachLimit(cfg, client, Down) == cfg.download && AttachLimit(cfg, client, Up) == cfg.upload
  {
  }

  /** Whatever the client's limits, attaching creates something in a direction exactly if the
      configuration limits that direction, and then detaching acts on it, even if the client's
      limits are others by then. */
  lemma {:induction false} ShapedExactly(cfg: Limits, atAttach: Limits, atDetach: Limits, dir: Direction)
    ensures AttachLimit(cfg, atAttach, dir) > 0 <==> Pick(cfg, dir) > 0
    ensures AttachLimit(cfg, atAttach, dir) > 0 ==> Pick(Effective(cfg, atDetach), dir) > 0
    ensures AttachLimit(cfg, atAttach, dir) <= Pick(cfg, dir)
  {
  }

  /** The device of one direction after a client is attached or detached. */
  function AttachOn(cfg: Limits, dir: Direction, d: Device, idx: nat, ip: string, client: Limits): (r: Device) {
    var limit := AttachLimit(cfg, client, dir);
    if limit > 0 then ExecAll(d, AttachCommands(Base(idx), limit, ip)) else d
  }

  function DetachOn(cfg: Limits, dir: Direction, d: Device, idx: nat, client: Limits): (r: Device) {
    if Pick(Effective(cfg, client), dir) > 0 then ExecAll(d, DetachCommands(Base(idx))) else d
  }

  /** Detaching undoes attaching, for all limits of the client then and now. */
  lemma {:induction false} DetachUndoes(cfg: Limits, dir: Direction, d: Device, idx: nat, ip: string, atAttach: Limits, atDetach: Limits)
    requires Free(d, Base(idx)) && (Pick(cfg, dir) > 0 ==> 1 in d.classes)
    ensures DetachOn(cfg, dir, AttachOn(cfg, dir, d, idx, ip, atAttach), idx, atDetach) == d
  {
    hide ExecAll, AllSucceed, Free, Attached, AttachCommands, DetachCommands;
    ShapedExactly(cfg, atAttach, atDetach, dir);
    var limit := AttachLimit(cfg, atAttach, dir);
    if limit > 0 {
      AttachAdds(d, Base(idx), limit, ip);
      DetachRemoves(d, Base(idx), limit, ip);
    } else {
      DetachIdle(d, Base(idx));
    }
  }

  // ---------------------------------------------------------------- runs

  /** A client that is attached. */
  datatype Slot = Slot(idx: nat, limit: int, ip: string)

  /** The device with the given clients attached, one on top of the other. */
  function Layers(d: Device, s: seq<Slot>): (r: Device) {
    if s == [] then d
    else
      var last := s[|s| - 1];
      Attached(Layers(d, s[..|s| - 1]), Base(last.idx), last.limit, last.ip)
  }

  predicate Distinct(s: seq<Slot>) {
    forall i, j :: 0 <= i < j < |s| ==> s[i].idx != s[j].idx
  }

  /** A device without clients, with the class that theirs go below. */
  ghost predicate Ready(d: Device) {
    1 in d.classes && forall idx: nat :: Free(d, Base(idx))
  }

  lemma {:induction false} AttachedFree(d: Device, idx: nat, limit: int, ip: string, other: nat)
    requires idx != other && Free(d, Base(other))
    ensures Free(Attached(d, Base(idx), limit, ip), Base(other))
  {
    assert forall k :: Owns(Base(idx), k) ==> !Owns(Base(other), k);
  }

  lemma {:induction false} LayersFree(d: Device, s: seq<Slot>, idx: nat)
    requires Ready(d) && forall i :: 0 <= i < |s| ==> s[i].idx != idx
    ensures Free(Layers(d, s), Base(idx)) && 1 in Layers(d, s).classes
  {
    hide Free;
    if s != [] {
      var last := s[|s| - 1];
      LayersFree(d, s[..|s| - 1], idx);
      AttachedFree(Layers(d, s[..|s| - 1]), last.idx, last.limit, last.ip, idx);
    }
  }

  /** Clients with different numbers can be attached in any order. */
  lemma {:induction false} AttachedCommute(d: Device, a: Slot, b: Slot)
    requires a.idx != b.idx
    ensures Attached(Attached(d, Base(a.idx), a.limit, a.ip), Base(b.idx), b.limit, b.ip) ==
            Attached(Attached(d, Base(b.idx), b.limit, b.ip), Base(a.idx), a.limit, a.ip)
  {
    var x, y := Base(a.idx), Base(b.idx);
    ClassesCommute(d.classes, x, a.limit, y, b.limit);
    FiltersCommute(d.filters, x, a.ip, y, b.ip);
    LeavesCommute(d.leaves, x, y);
    hide Base, ClassesOf, FiltersOf, LeavesOf;
  }

  lemma {:induction false} ClassesCommute(m: map<nat, Class>, x: nat, l: int, y: nat, n: int)
    requires x + 2 < y || y + 2 < x
    ensures ClassesOf(ClassesOf(m, x, l), y, n) == ClassesOf(ClassesOf(m, y, n), x, l)
  {
    hide Outer, Fast, Bulk;
  }

  lemma {:induction false} FiltersCommute(m: map<nat, seq<Filter>>, x: nat, a: string, y: nat, b: string)
    requires x + 2 < y || y + 2 < x
    ensures FiltersOf(FiltersOf(m, x, a), y, b) == FiltersOf(FiltersOf(m, y, b), x, a)
  {
    var f0, f1, f2 := [Filter(a, Icmp, x + 1)], [Filter(a, Dns, x + 1)], [Filter(a, Any, x + 2)];
    var g0, g1, g2 := [Filter(b, Icmp, y + 1)], [Filter(b, Dns, y + 1)], [Filter(b, Any, y + 2)];
    UpdatesCommute(m, x, f0, f1, f2, y, g0, g1, g2);
  }

  lemma {:induction false} LeavesCommute(m: map<nat, nat>, x: nat, y: nat)
    requires x + 2 < y || y + 2 < x
    ensures LeavesOf(LeavesOf(m, x), y) == LeavesOf(LeavesOf(m, y), x)
  {
  }

  lemma {:induction false} UpdatesCommute<T>(m: map<nat, T>, x: nat, a0: T, a1: T, a2: T, y: nat, b0: T, b1: T, b2: T)
    requires x + 2 < y || y + 2 < x
    ensures m[x := a0][x + 1 := a1][x + 2 := a2][y := b0][y + 1 := b1][y + 2 := b2] ==
            m[y := b0][y + 1 := b1][y + 2 := b2][x := a0][x + 1 := a1][x + 2 := a2]
  {
  }

  /** Any attached client can be taken for the one attached last. */
  lemma {:induction false} LayersMove(d: Device, s: seq<Slot>, k: nat)
    requires k < |s| && Distinct(s)
    ensures Layers(d, s) == Attached(Layers(d, Iptables.RemoveAt(s, k)), Base(s[k].idx), s[k].limit, s[k].ip)
    decreases |s|
  {
    hide Attached;
    var n := |s| - 1;
    if k == n {
      assert Iptables.RemoveAt(s, k) == s[..n];
    } else {
      LayersMove(d, s[..n], k);
      assert Iptables.RemoveAt(s, k)[..n - 1] == Iptables.RemoveAt(s[..n], k);
      assert Iptables.RemoveAt(s, k)[n - 1] == s[n];
      AttachedCommute(Layers(d, Iptables.RemoveAt(s[..n], k)), s[k], s[n]);
    }
  }

  datatype Event = Arrive(idx: nat, ip: string, client: Limits) | Leave(idx: nat, client: Limits)

  function Find(s: seq<Slot>, idx: nat): (k: nat)
    ensures k <= |s| && (k < |s| ==> s[k].idx == idx)
    ensures forall j :: 0 <= j < k ==> s[j].idx != idx
  {
    if s == [] || s[0].idx == idx then 0
    else 1 + Find(s[1..], idx)
  }

  /** The attached clients after an event; only a client that is not attached arrives. */
  function Next(cfg: Limits, dir: Direction, s: seq<Slot>, e: Event): (r: seq<Slot>) {
    var k := Find(s, e.idx);
    match e
    case Arrive(idx, ip, client) =>
      if k < |s| then s else s + [Slot(idx, AttachLimit(cfg, client, dir), ip)]
    case Leave(idx, _) => if k < |s| then Iptables.RemoveAt(s, k) else s
  }

  function DeviceNext(cfg: Limits, dir: Direction, s: seq<Slot>, d: Device, e: Event): (r: Device) {
    match e
    case Arrive(idx, ip, client) => if Find(s, idx) < |s| then d else AttachOn(cfg, dir, d, idx, ip, client)
    case Leave(idx, client) => DetachOn(cfg, dir, d, idx, client)
  }

  /** The attached clients, and the device, after a sequence of events. */
  function Present(cfg: Limits, dir: Direction, es: seq<Event>): (s: seq<Slot>) {
    if es == [] then [] else Next(cfg, dir, Present(cfg, dir, es[..|es| - 1]), es[|es| - 1])
  }

  function DeviceRun(cfg: Limits, dir: Direction, d: Device, es: seq<Event>): (r: Device) {
    if es == [] then d
    else
      var before := es[..|es| - 1];
      DeviceNext(cfg, dir, Present(cfg, dir, before), DeviceRun(cfg, dir, d, before), es[|es| - 1])
  }

  lemma {:induction false} NextDistinct(cfg: Limits, dir: Direction, s: seq<Slot>, e: Event)
    requires Distinct(s)
    ensures Distinct(Next(cfg, dir, s, e))
  {
  }

  lemma {:induction false} PresentDistinct(cfg: Limits, dir: Direction, es: seq<Event>)
    ensures Distinct(Present(cfg, dir, es))
  {
    if es != [] {
      PresentDistinct(cfg, dir, es[..|es| - 1]);
      NextDistinct(cfg, dir, Present(cfg, dir, es[..|es| - 1]), es[|es| - 1]);
    }
  }

  lemma {:induction false} WithoutOther(s: seq<Slot>, k: nat)
    requires k < |s| && Distinct(s)
    ensures forall i :: 0 <= i < |Iptables.RemoveAt(s, k)| ==> Iptables.RemoveAt(s, k)[i].idx != s[k].idx
  {
  }

  lemma {:induction false} NextMirrors(cfg: Limits, dir: Direction, d: Device, s: seq<Slot>, e: Event)
    requires Ready(d) && Distinct(s) && Pick(cfg, dir) > 0
    ensures DeviceNext(cfg, dir, s, Layers(d, s), e) == Layers(d, Next(cfg, dir, s, e))
  {
    hide Ready, Free, ExecAll, AllSucceed, Attached, AttachCommands, DetachCommands, Iptables.RemoveAt;
    ShapedExactly(cfg, e.client, e.client, dir);
    var k := Find(s, e.idx);
    var here := Layers(d, s);
    if k == |s| {
      LayersFree(d, s, e.idx);
      if e.Arrive? {
        var slot := Slot(e.idx, AttachLimit(cfg, e.client, dir), e.ip);
        AttachAdds(here, Base(e.idx), slot.limit, e.ip);
        assert (s + [slot])[..|s|] == s;
      } else {
        DetachIdle(here, Base(e.idx));
      }
    } else if e.Leave? {
      var rest := Iptables.RemoveAt(s, k);
      LayersMove(d, s, k);
      WithoutOther(s, k);
      LayersFree(d, rest, e.idx);
      DetachRemoves(Layers(d, rest), Base(e.idx), s[k].limit, s[k].ip);
    }
  }

  /** In a limited direction the device holds, after every sequence of arrivals and departures,
      exactly what it held at first and what belongs to the clients now attached. */
  lemma {:induction false} RunMirrors(cfg: Limits, dir: Direction, d: Device, es: seq<Event>)
    requires Ready(d) && Pick(cfg, dir) > 0
    ensures DeviceRun(cfg, dir, d, es) == Layers(d, Present(cfg, dir, es))
  {
    if es != [] {
      hide Ready, Next, DeviceNext;
      var before := es[..|es| - 1];
      RunMirrors(cfg, dir, d, before);
      PresentDistinct(cfg, dir, before);
      NextMirrors(cfg, dir, d, Present(cfg, dir, before), es[|es| - 1]);
    }
  }

  /** In a direction without a limit nothing ever changes. */
  lemma {:induction false} RunUnlimited(cfg: Limits, dir: Direction, d: Device, es: seq<Event>)
    requires (forall idx: nat :: Free(d, Base(idx))) && Pick(cfg, dir) <= 0
    ensures DeviceRun(cfg, dir, d, es) == d
  {
    if es != [] {
      hide Free, ExecAll, AttachCommands, DetachCommands;
      var e := es[|es| - 1];
      RunUnlimited(cfg, dir, d, es[..|es| - 1]);
      ShapedExactly(cfg, e.client, e.client, dir);
      DetachIdle(d, Base(e.idx));
    }
  }

  // ---------------------------------------------------------------- the devices of the gateway

  type Devices = map<string, Device>

  /** Commands on the device called `dev`; there is no effect without such a device. */
  function On(m: Devices, dev: string, cs: seq<Command>): (r: Devices) {
    if dev in m then m[dev := ExecAll(m[dev], cs)] else m
  }

  predicate Fine(m: Devices, dev: string, cs: seq<Command>) {
    cs == [] || (dev in m && AllSucceed(m[dev], cs))
  }

  lemma {:induction false} OnSnoc(m: Devices, dev: string, cs: seq<Command>, c: Command)
    ensures On(m, dev, cs + [c]) == On(On(m, dev, cs), dev, [c])
    ensures Fine(m, dev, cs + [c]) <==> Fine(m, dev, cs) && Fine(On(m, dev, cs), dev, [c])
  {
    hide Succeeds, Exec;
    if dev in m {
      var d := m[dev];
      Snoc(d, cs, c);
      Snoc(ExecAll(d, cs), [], c);
      Nothing(ExecAll(d, cs));
      assert [] + [c] == [c];
    }
  }

  lemma {:induction false} OnNothing(m: Devices, dev: string)
    ensures On(m, dev, []) == m && Fine(m, dev, [])
  {
  }

  /** Return codes are collected with a bitwise or. */
  function Collect(a: bv32, b: bv32): (r: bv32)
    ensures r == 0 <==> a == 0 && b == 0
  {
    a | b
  }

  class Shaper {
    var devices: Devices
    const limits: Limits
    const downDev: string
    const upDev: string

    constructor (devices: Devices, limits: Limits, downDev: string, upDev: string)
      ensures this.devices == devices && this.limits == limits
      ensures this.downDev == downDev && this.upDev == upDev
    {
      this.devices, this.limits, this.downDev, this.upDev := devices, limits, downDev, upDev;
    }

    method Execute(dev: string, c: Command) returns (rc: bv32)
      modifies this
      ensures devices == On(old(devices), dev, [c])
      ensures rc == 0 <==> Fine(old(devices), dev, [c])
    {
      OneCommand(devices, dev, c);
      if dev in devices && Succeeds(devices[dev], c) {
        devices := devices[dev := Exec(devices[dev], c)];
        rc := 0;
      } else {
        rc := 2;
      }
    }

    /** Carries out the next of some commands. */
    method Also(dev: string, c: Command, rc: bv32, ghost start: Devices, ghost cs: seq<Command>, ghost n: nat)
      returns (r: bv32)
      requires n < |cs| && c == cs[n]
      requires devices == On(start, dev, cs[..n]) && (rc == 0 <==> Fine(start, dev, cs[..n]))
      modifies this
      ensures devices == On(start, dev, cs[..n + 1])
      ensures r == 0 <==> Fine(start, dev, cs[..n + 1])
    {
      hide On, Fine;
      OnSnoc(start, dev, cs[..n], c);
      assert cs[..n + 1] == cs[..n] + [c];
      var one := Execute(dev, c);
      r := Collect(rc, one);
    }

    /** One direction of `tc_attach_client`. */
    method AttachDirection(dev: string, limit: int, id: nat, ip: string) returns (rc: bv32)
      modifies this
      ensures devices == On(old(devices), dev, AttachCommands(id, limit, ip))
      ensures rc == 0 <==> Fine(old(devices), dev, AttachCommands(id, limit, ip))
    {
      hide On, Fine, Outer, Fast, Bulk;
      ghost var start, cs := devices, AttachCommands(id, limit, ip);
      OnNothing(start, dev);
      assert cs[..0] == [];
      rc := Also(dev, ClassAdd(id, Outer(limit)), 0, start, cs, 0);
      rc := Also(dev, ClassAdd(id + 1, Fast(id, limit)), rc, start, cs, 1);
      rc := Also(dev, FilterAdd(id, Filter(ip, Icmp, id + 1)), rc, start, cs, 2);
      rc := Also(dev, FilterAdd(id + 1, Filter(ip, Dns, id + 1)), rc, start, cs, 3);
      rc := Also(dev, ClassAdd(id + 2, Bulk(id, limit)), rc, start, cs, 4);
      rc := Also(dev, FilterAdd(id + 2, Filter(ip, Any, id + 2)), rc, start, cs, 5);
      rc := Also(dev, QdiscAdd(id + 1, id + 1), rc, start, cs, 6);
      rc := Also(dev, QdiscAdd(id + 2, id + 2), rc, start, cs, 7);
      assert cs[..8] == cs;
    }

    /** One direction of `tc_detach_client`. */
    method DetachDirection(dev: string, id: nat) returns (rc: bv32)
      modifies this
      ensures devices == On(old(devices), dev, DetachCommands(id))
      ensures rc == 0 <==> Fine(old(devices), dev, DetachCommands(id))
    {
      hide On, Fine;
      ghost var start, cs := devices, DetachCommands(id);
      OnNothing(start, dev);
      assert cs[..0] == [];
      rc := 0;
      var n := 2;
      while n >= 0
        invariant -1 <= n <= 2
        invariant devices == On(start, dev, cs[..2 - n]) && (rc == 0 <==> Fine(start, dev, cs[..2 - n]))
      {
        rc := Also(dev, FilterDel(id + n), rc, start, cs, 2 - n);
        n := n - 1;
      }
      n := 2;
      while n >= 1
        invariant 0 <= n <= 2
        invariant devices == On(start, dev, cs[..5 - n]) && (rc == 0 <==> Fine(start, dev, cs[..5 - n]))
      {
        rc := Also(dev, QdiscDel(id + n), rc, start, cs, 5 - n);
        n := n - 1;
      }
      n := 2;
      while n >= 0
        invariant -1 <= n <= 2
        invariant devices == On(start, dev, cs[..7 - n]) && (rc == 0 <==> Fine(start, dev, cs[..7 - n]))
      {
        rc := Also(dev, ClassDel(id + n), rc, start, cs, 7 - n);
        n := n - 1;
      }
      assert cs[..8] == cs;
    }

    /** The commands of both directions. */
    function Attaching(dir: Direction, eff: Limits, idx: nat, ip: string): (cs: seq<Command>) {
      var limit := Min(Pick(eff, dir), Pick(limits, dir));
      if limit > 0 then AttachCommands(Base(idx), limit, ip) else []
    }

    function Detaching(dir: Direction, eff: Limits, idx: nat): (cs: seq<Command>) {
      if Pick(eff, dir) > 0 then DetachCommands(Base(idx)) else []
    }

    /** `tc_attach_client`. */
    method AttachClient(eff: Limits, idx: nat, ip: string) returns (rc: bv32)
      modifies this
      ensures var mid := On(old(devices), downDev, Attaching(Down, eff, idx, ip));
              devices == On(mid, upDev, Attaching(Up, eff, idx, ip))
              && (rc == 0 <==> Fine(old(devices), downDev, Attaching(Down, eff, idx, ip))
                               && Fine(mid, upDev, Attaching(Up, eff, idx, ip)))
    {
      hide On, Fine, AttachCommands;
      rc := 0;
      var dlimit := Min(eff.download, limits.download);
      var ulimit := Min(eff.upload, limits.upload);
      OnNothing(devices, downDev);
      if dlimit > 0 {
        rc := AttachDirection(downDev, dlimit, Base(idx), ip);
      }
      OnNothing(devices, upDev);
      if ulimit > 0 {
        var more := AttachDirection(upDev, ulimit, Base(idx), ip);
        rc := Collect(rc, more);
      }
    }

    /** `tc_detach_client`. */
    method DetachClient(eff: Limits, idx: nat) returns (rc: bv32)
      modifies this
      ensures var mid := On(old(devices), downDev, Detaching(Down, eff, idx));
              devices == On(mid, upDev, Detaching(Up, eff, idx))
              && (rc == 0 <==> Fine(old(devices), downDev, Detaching(Down, eff, idx))
                               && Fine(mid, upDev, Detaching(Up, eff, idx)))
    {
      hide On, Fine, DetachCommands;
      rc := 0;
      OnNothing(devices, downDev);
      if eff.download > 0 {
        rc := DetachDirection(downDev, Base(idx));
      }
      OnNothing(devices, upDev);
      if eff.upload > 0 {
        var more := DetachDirection(upDev, Base(idx));
        rc := Collect(rc, more);
      }
    }

    /** What `iptables_fw_authenticate` does here: both devices get the client. */
    method Authenticate(trafficControl: bool, idx: nat, ip: string, client: Limits) returns (rc: bv32)
      modifies this
      ensures !trafficControl ==> rc == 0 && devices == old(devices)
      ensures var eff := Effective(limits, client);
              var mid := On(old(devices), downDev, Attaching(Down, eff, idx, ip));
              trafficControl ==>
                devices == On(mid, upDev, Attaching(Up, eff, idx, ip))
                && (rc == 0 <==> Fine(old(devices), downDev, Attaching(Down, eff, idx, ip))
                                 && Fine(mid, upDev, Attaching(Up, eff, idx, ip)))
      ensures trafficControl && downDev in old(devices) && upDev in old(devices) && downDev != upDev ==>
                devices == old(devices)
                  [downDev := AttachOn(limits, Down, old(devices)[downDev], idx, ip, client)]
                  [upDev := AttachOn(limits, Up, old(devices)[upDev], idx, ip, client)]
    {
      hide AttachCommands;
      rc := 0;
      if trafficControl {
        rc := AttachClient(Effective(limits, client), idx, ip);
      }
    }

    /** What `iptables_fw_deauthenticate` does here. */
    method Deauthenticate(trafficControl: bool, idx: nat, client: Limits) returns (rc: bv32)
      modifies this
      ensures !trafficControl ==> rc == 0 && devices == old(devices)
      ensures var eff := Effective(limits, client);
              var mid := On(old(devices), downDev, Detaching(Down, eff, idx));
              trafficControl ==>
                devices == On(mid, upDev, Detaching(Up, eff, idx))
                && (rc == 0 <==> Fine(old(devices), downDev, Detaching(Down, eff, idx))
                                 && Fine(mid, upDev, Detaching(Up, eff, idx)))
      ensures trafficControl && downDev in old(devices) && upDev in old(devices) && downDev != upDev ==>
                devices == old(devices)
                  [downDev := DetachOn(limits, Down, old(devices)[downDev], idx, client)]
                  [upDev := DetachOn(limits, Up, old(devices)[upDev], idx, client)]
    {
      hide DetachCommands;
      rc := 0;
      if trafficControl {
        rc := DetachClient(Effective(limits, client), idx);
      }
    }
  }

  lemma {:induction false} OneCommand(m: Devices, dev: string, c: Command)
    ensures Fine(m, dev, [c]) <==> dev in m && Succeeds(m[dev], c)
    ensures On(m, dev, [c]) == if dev in m then m[dev := Exec(m[dev], c)] else m
    ensures !Fine(m, dev, [c]) ==> On(m, dev, [c]) == m
  {
    if dev in m {
      Nothing(m[dev]);
      Snoc(m[dev], [], c);
      assert [] + [c] == [c];
      assert m[dev := m[dev]] == m;
    }
  }
}
