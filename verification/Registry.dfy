/**
 * The service registry: methods are found by name and by a 32-bit hash of their full
 * name, and the two indexes agree whatever is registered.
 */
module Registry {
  import opened Base

  type Name = seq<bv8>
  type MethodId = u32

  const FNV_OFFSET: bv64 := 0xcbf29ce484222325
  const FNV_PRIME: bv64 := 0x100000001b3
  const DOT: bv8 := 0x2e

  // ------------------------------------------------------------------------- hashing

  function Mix(hash: bv64, b: bv8): bv64 {
    (hash ^ (b as bv64)) * FNV_PRIME
  }

  /** FNV-1a over a byte string. */
  function Fnv1a(bytes: Name): bv64 {
    if bytes == [] then FNV_OFFSET else Mix(Fnv1a(bytes[..|bytes| - 1]), bytes[|bytes| - 1])
  }

  function Fold(hash: bv64): bv32 {
    (((hash >> 32) ^ hash) & 0xFFFF_FFFF) as bv32
  }

  function FullName(service: Name, method_: Name): Name {
    service + [DOT] + method_
  }

  function IdOf(fullName: Name): MethodId {
    Fold(Fnv1a(fullName)) as int
  }

  method ComputeMethodId(service: Name, method_: Name) returns (id: MethodId)
    ensures id == IdOf(FullName(service, method_))
  {
    hide Mix, Fold;
    ghost var full := FullName(service, method_);
    var hash := FNV_OFFSET;
    for i := 0 to |service|
      invariant hash == Fnv1a(full[..i])
    {
      assert full[..i + 1][..i] == full[..i];
      hash := Mix(hash, service[i]);
    }
    assert full[..|service| + 1][..|service|] == full[..|service|];
    hash := Mix(hash, DOT);
    for i := 0 to |method_|
      invariant hash == Fnv1a(full[..|service| + 1 + i])
    {
      assert full[..|service| + 1 + i + 1][..|service| + 1 + i] == full[..|service| + 1 + i];
      hash := Mix(hash, method_[i]);
    }
    assert full[..|service| + 1 + |method_|] == full;
    return Fold(hash) as int;
  }

  /** The TypeScript client's computation: one loop over the full name, the halves folded by a mask. */
  method ComputeMethodIdInOneLoop(service: Name, method_: Name) returns (id: MethodId)
    ensures id == IdOf(FullName(service, method_))
  {
    hide Mix, Fold;
    var full := service + [DOT] + method_;
    var hash := FNV_OFFSET;
    for i := 0 to |full|
      invariant hash == Fnv1a(full[..i])
    {
      assert full[..i + 1][..i] == full[..i];
      hash := Mix(hash, full[i]);
    }
    assert full[..|full|] == full;
    FoldsAgree(hash);
    return (((hash >> 32) ^ (hash & 0xFFFF_FFFF)) as bv32) as int;
  }

  /** Truncating the folded hash and folding its truncated half are the same. */
  lemma {:induction false} FoldsAgree(h: bv64)
    ensures (h >> 32) ^ (h & 0xFFFF_FFFF) == Fold(h) as bv64
    ensures (((h >> 32) ^ (h & 0xFFFF_FFFF)) as bv32) == Fold(h)
  {
  }

  /** A full name is the service name, a full stop, and the method name. */
  lemma {:induction false} FullNameParts(service: Name, method_: Name)
    ensures var full := FullName(service, method_);
            && full[..|service|] == service && full[|service|] as int == '.' as int
            && full[|service| + 1..] == method_
  {
  }

  /** The hash of a name is its last byte mixed into the hash of the rest. */
  lemma {:induction false} FnvExtends(bytes: Name, b: bv8)
    ensures Fnv1a(bytes + [b]) == Mix(Fnv1a(bytes), b)
  {
    assert (bytes + [b])[..|bytes|] == bytes;
  }

  lemma {:induction false} FnvExtends3(bytes: Name, a: bv8, b: bv8, c: bv8)
    ensures Fnv1a(bytes + [a, b, c]) == Mix(Mix(Mix(Fnv1a(bytes), a), b), c)
  {
    hide Mix;
    FnvExtends(bytes, a);
    FnvExtends(bytes + [a], b);
    FnvExtends(bytes + [a, b], c);
    assert bytes + [a] + [b] == bytes + [a, b];
    assert bytes + [a, b] + [c] == bytes + [a, b, c];
  }

  /** The published 64-bit FNV-1a values of "", "a" and "foobar". */
  lemma {:induction false} PublishedVectors()
    ensures Fnv1a([]) == 0xcbf29ce484222325
    ensures Fnv1a([0x61]) == 0xaf63dc4c8601ec8c
    ensures Fnv1a([0x66, 0x6f, 0x6f, 0x62, 0x61, 0x72]) == 0x85944171f73967e8
  {
    FnvExtends([], 0x61);
    assert [] + [0x61] == [0x61 as bv8];
    FnvExtends3([], 0x66, 0x6f, 0x6f);
    FnvExtends3([0x66, 0x6f, 0x6f], 0x62, 0x61, 0x72);
    assert [] + [0x66, 0x6f, 0x6f as bv8] == [0x66, 0x6f, 0x6f];
    assert [0x66, 0x6f, 0x6f] + [0x62, 0x61, 0x72 as bv8] == [0x66, 0x6f, 0x6f, 0x62, 0x61, 0x72];
  }

  // --------------------------------------------------------------------------- values

  datatype MethodEntry = MethodEntry(id: MethodId, name: Name, fullName: Name, isStreaming: bool)

  datatype ServiceEntry = ServiceEntry(id: u32, name: Name, methods: map<Name, MethodEntry>)

  datatype MethodLookup = MethodLookup(serviceName: Name, methodName: Name)

  datatype Tables = Tables(services: map<Name, ServiceEntry>, byId: map<MethodId, MethodLookup>, nextServiceId: u32)
  {
    function LookupMethod(service: Name, method_: Name): Option<MethodEntry> {
      if service in services && method_ in services[service].methods then Some(services[service].methods[method_])
      else None
    }

    function MethodById(id: MethodId): Option<MethodEntry> {
      if id in byId then LookupMethod(byId[id].serviceName, byId[id].methodName) else None
    }

    function ResolveMethodId(service: Name, method_: Name): Option<MethodId> {
      var m := LookupMethod(service, method_);
      if m.Some? then Some(m.value.id) else None
    }
  }

  /** A builder owns the service entry it will add; the registry's by-ID index is filled as it goes. */
  datatype Building = Building(name: Name, id: u32, methods: map<Name, MethodEntry>)

  datatype State = State(tables: Tables, building: Option<Building>)

  datatype Op = Register(service: Name) | AddMethod(name: Name, isStreaming: bool) | Finish | Discard

  /** A panic unwinds the builder and leaves the registry as it is. */
  function Step(s: State, op: Op): State {
    match op
    case Register(name) =>
      if s.tables.nextServiceId == U32_MAX then s.(building := None)
      else State(s.tables.(nextServiceId := s.tables.nextServiceId + 1),
                 Some(Building(name, s.tables.nextServiceId, map[])))
    case AddMethod(name, streaming) =>
      if s.building.None? then s
      else
        var b := s.building.value;
        var id := IdOf(FullName(b.name, name));
        if id in s.tables.byId then s.(building := None)
        else
          State(s.tables.(byId := s.tables.byId[id := MethodLookup(b.name, name)]),
                Some(b.(methods := b.methods[name := MethodEntry(id, name, FullName(b.name, name), streaming)])))
    case Finish =>
      if s.building.None? then s
      else
        var b := s.building.value;
        State(s.tables.(services := s.tables.services[b.name := ServiceEntry(b.id, b.name, b.methods)]), None)
    case Discard => s.(building := None)
  }

  function At(ops: seq<Op>): State {
    if ops == [] then State(Tables(map[], map[], 0), None) else Step(At(ops[..|ops| - 1]), ops[|ops| - 1])
  }

  // -------------------------------------------------------------------------- classes

  class ServiceRegistry {
    var servicesByName: map<Name, ServiceEntry>
    var methodsById: map<MethodId, MethodLookup>
    var nextServiceId: u32

    ghost function View(): Tables
      reads this
    {
      Tables(servicesByName, methodsById, nextServiceId)
    }

    constructor ()
      ensures View() == At([]).tables
    {
      servicesByName, methodsById, nextServiceId := map[], map[], 0;
    }

    /** `None` is the overflow panic of the service counter. */
    method RegisterService(name: Name) returns (builder: Option<ServiceBuilder>)
      modifies this
      ensures var s := Step(State(old(View()), None), Register(name));
              View() == s.tables && builder.Some? == s.building.Some?
              && (builder.Some? ==>
                    && fresh(builder.value) && builder.value.registry == this
                    && builder.value.View() == s.building.value)
    {
      if nextServiceId == U32_MAX {
        return None;
      }
      var b := new ServiceBuilder(this, name, nextServiceId);
      nextServiceId := nextServiceId + 1;
      return Some(b);
    }

    method MethodById(id: MethodId) returns (m: Option<MethodEntry>)
      ensures m == View().MethodById(id)
    {
      if id !in methodsById {
        return None;
      }
      var lookup := methodsById[id];
      m := LookupMethod(lookup.serviceName, lookup.methodName);
    }

    method LookupMethod(service: Name, method_: Name) returns (m: Option<MethodEntry>)
      ensures m == View().LookupMethod(service, method_)
    {
      if service !in servicesByName {
        return None;
      }
      var methods := servicesByName[service].methods;
      m := if method_ in methods then Some(methods[method_]) else None;
    }
  }

  class ServiceBuilder {
    const registry: ServiceRegistry
    const serviceName: Name
    const serviceId: u32
    var methods: map<Name, MethodEntry>

    ghost function View(): Building
      reads this
    {
      Building(serviceName, serviceId, methods)
    }

    constructor (registry: ServiceRegistry, name: Name, id: u32)
      ensures this.registry == registry && View() == Building(name, id, map[])
    {
      this.registry := registry;
      serviceName, serviceId, methods := name, id, map[];
    }

    /** `None` is the panic on a method id that is already taken. */
    method AddMethodInner(name: Name, isStreaming: bool) returns (r: Option<MethodId>)
      modifies this, registry
      ensures r.Some? ==> r == Some(IdOf(FullName(serviceName, name)))
      ensures r.None? <==> IdOf(FullName(serviceName, name)) in old(registry.methodsById)
      ensures State(registry.View(), if r.Some? then Some(View()) else None)
              == Step(State(old(registry.View()), Some(old(View()))), AddMethod(name, isStreaming))
    {
      hide IdOf;
      var id := ComputeMethodId(serviceName, name);
      var fullName := FullName(serviceName, name);
      if id in registry.methodsById {
        return None;
      }
      methods := methods[name := MethodEntry(id, name, fullName, isStreaming)];
      registry.methodsById := registry.methodsById[id := MethodLookup(serviceName, name)];
      return Some(id);
    }

    method Finish()
      modifies registry
      ensures State(registry.View(), None) == Step(State(old(registry.View()), Some(old(View()))), Op.Finish)
    {
      registry.servicesByName := registry.servicesByName[serviceName := ServiceEntry(serviceId, serviceName, methods)];
    }
  }

  // ------------------------------------------------------------------------ agreement

  /** Every method of `service` carries the id its name hashes to and is the one indexed under it. */
  ghost predicate Indexed(byId: map<MethodId, MethodLookup>, service: Name, methods: map<Name, MethodEntry>) {
    forall m :: m in methods ==>
      && methods[m].id == IdOf(FullName(service, m)) && methods[m].name == m
      && methods[m].fullName == FullName(service, m)
      && methods[m].id in byId && byId[methods[m].id] == MethodLookup(service, m)
  }

  ghost predicate IdsHash(byId: map<MethodId, MethodLookup>) {
    forall id :: id in byId ==> id == IdOf(FullName(byId[id].serviceName, byId[id].methodName))
  }

  ghost predicate Inv(s: State) {
    && IdsHash(s.tables.byId)
    && (forall name :: name in s.tables.services ==>
          s.tables.services[name].name == name && s.tables.services[name].id < s.tables.nextServiceId
          && Indexed(s.tables.byId, name, s.tables.services[name].methods))
    && (forall a, b :: a in s.tables.services && b in s.tables.services && a != b ==>
        s.tables.services[a].id != s.tables.services[b].id)
    && (s.building.Some? ==>
          Indexed(s.tables.byId, s.building.value.name, s.building.value.methods)
          && s.building.value.id < s.tables.nextServiceId
          && forall name :: name in s.tables.services ==> s.tables.services[name].id != s.building.value.id)
  }

  lemma {:induction false} IndexedGrows(
      byId: map<MethodId, MethodLookup>, id: MethodId, lookup: MethodLookup, service: Name,
      methods: map<Name, MethodEntry>)
    requires Indexed(byId, service, methods) && id !in byId
    ensures Indexed(byId[id := lookup], service, methods)
  {
  }

  lemma {:induction false} StepInv(s: State, op: Op)
    requires Inv(s)
    ensures Inv(Step(s, op))
  {
    hide IdOf, IdsHash, Indexed;
    NothingIndexed(s.tables.byId);
    if op.AddMethod? && s.building.Some? {
      var b := s.building.value;
      var id, lookup := IdOf(FullName(b.name, op.name)), MethodLookup(b.name, op.name);
      if id !in s.tables.byId {
        forall name | name in s.tables.services
          ensures Indexed(s.tables.byId[id := lookup], name, s.tables.services[name].methods)
        {
          IndexedGrows(s.tables.byId, id, lookup, name, s.tables.services[name].methods);
        }
        AddedIndexed(s.tables.byId, b.name, b.methods, op.name, op.isStreaming);
      }
    }
  }

  lemma {:induction false} NothingIndexed(byId: map<MethodId, MethodLookup>)
    ensures forall service :: Indexed(byId, service, map[])
  {
  }

  lemma {:induction false} AddedIndexed(
      byId: map<MethodId, MethodLookup>, service: Name, methods: map<Name, MethodEntry>, name: Name, streaming: bool)
    requires IdsHash(byId) && Indexed(byId, service, methods) && IdOf(FullName(service, name)) !in byId
    ensures var id, full := IdOf(FullName(service, name)), FullName(service, name);
            var byId' := byId[id := MethodLookup(service, name)];
            IdsHash(byId') && Indexed(byId', service, methods[name := MethodEntry(id, name, full, streaming)])
  {
    hide IdOf, FullName;
  }

  lemma {:induction false} RunInv(ops: seq<Op>)
    ensures Inv(At(ops))
  {
    hide Step;
    if ops != [] {
      RunInv(ops[..|ops| - 1]);
      StepInv(At(ops[..|ops| - 1]), ops[|ops| - 1]);
    }
  }

  /** Every stored method is found again by the id its names resolve to, the hash of its full name. */
  lemma {:induction false} IndexesAgree(ops: seq<Op>, service: Name, method_: Name)
    ensures var t := At(ops).tables;
            t.LookupMethod(service, method_).Some? ==>
              t.ResolveMethodId(service, method_) == Some(IdOf(FullName(service, method_)))
              && t.MethodById(IdOf(FullName(service, method_))) == t.LookupMethod(service, method_)
  {
    hide IdOf, Step, At;
    RunInv(ops);
  }

  /** A hit by id has the queried id and is the method stored under its names. */
  lemma {:induction false} HitsAreGenuine(ops: seq<Op>, id: MethodId)
    ensures var t := At(ops).tables;
            t.MethodById(id).Some? ==>
              t.MethodById(id).value.id == id
              && t.LookupMethod(t.byId[id].serviceName, t.byId[id].methodName) == t.MethodById(id)
              && t.MethodById(id).value.name == t.byId[id].methodName
              && t.MethodById(id).value.fullName == FullName(t.byId[id].serviceName, t.byId[id].methodName)
  {
    hide IdOf, Step, At;
    RunInv(ops);
  }

  /** No two stored methods share an id, so no frame can reach the wrong one. */
  lemma {:induction false} IdsAreUnique(ops: seq<Op>, s1: Name, m1: Name, s2: Name, m2: Name)
    requires At(ops).tables.LookupMethod(s1, m1).Some? && At(ops).tables.LookupMethod(s2, m2).Some?
    ensures At(ops).tables.ResolveMethodId(s1, m1) == At(ops).tables.ResolveMethodId(s2, m2) <==> s1 == s2 && m1 == m2
  {
    hide IdOf, Step, At;
    RunInv(ops);
  }

  /** Names that differ only in where the dot falls are the same method to the hash. */
  lemma {:induction false} DotsAreAmbiguous(a: Name, b: Name, c: Name)
    ensures IdOf(FullName(FullName(a, b), c)) == IdOf(FullName(a, FullName(b, c)))
  {
    assert FullName(FullName(a, b), c) == FullName(a, FullName(b, c));
  }

  lemma {:induction false} IndexKept(ops: seq<Op>, n: nat, id: MethodId)
    requires n <= |ops| && id in At(ops[..n]).tables.byId
    ensures id in At(ops).tables.byId && At(ops).tables.byId[id] == At(ops[..n]).tables.byId[id]
  {
    hide IdOf;
    if n < |ops| {
      var front := ops[..|ops| - 1];
      assert front[..n] == ops[..n];
      IndexKept(front, n, id);
    } else {
      assert ops[..n] == ops;
    }
  }

  /**
   * An id once indexed keeps its meaning in every later state; replacing a service of
   * that name can only make a lookup of its former methods miss.
   */
  lemma {:induction false} IdsKeepTheirMeaning(ops: seq<Op>, n: nat, id: MethodId)
    requires n <= |ops| && At(ops[..n]).tables.MethodById(id).Some? && At(ops).tables.MethodById(id).Some?
    ensures At(ops).tables.byId[id] == At(ops[..n]).tables.byId[id]
    ensures var (now, before) := (At(ops).tables.MethodById(id).value, At(ops[..n]).tables.MethodById(id).value);
            now.name == before.name && now.fullName == before.fullName
  {
    hide IdOf, Step, At;
    IndexKept(ops, n, id);
    HitsAreGenuine(ops, id);
    HitsAreGenuine(ops[..n], id);
  }

  // -------------------------------------------------------------------------- history

  /** The state after the first `n` operations. */
  ghost function After(ops: seq<Op>, n: nat): State
    requires n <= |ops|
  {
    At(ops[..n])
  }

  lemma {:induction false} AfterNext(ops: seq<Op>, n: nat)
    requires n < |ops|
    ensures After(ops, n + 1) == Step(After(ops, n), ops[n])
  {
    hide Step;
    assert ops[..n + 1][..n] == ops[..n];
  }

  /** At operation `n` the builder opened by operation `i` is still open: only methods were added, and none panicked. */
  ghost predicate Builds(ops: seq<Op>, i: nat, n: nat)
    requires n <= |ops|
  {
    && i < n && ops[i].Register? && After(ops, i).tables.nextServiceId != U32_MAX
    && forall k | i < k < n ::
      ops[k].AddMethod? && IdOf(FullName(ops[i].service, ops[k].name)) !in After(ops, k).tables.byId
  }

  function EntryOf(service: Name, op: Op): MethodEntry
    requires op.AddMethod?
  {
    MethodEntry(IdOf(FullName(service, op.name)), op.name, FullName(service, op.name), op.isStreaming)
  }

  /** The methods are exactly those added by operations `i + 1`, ..., `n - 1`. */
  ghost predicate HasAdded(ops: seq<Op>, i: nat, n: nat, service: Name, methods: map<Name, MethodEntry>)
    requires n <= |ops|
  {
    && (forall k | i < k < n && ops[k].AddMethod? ::
          ops[k].name in methods && methods[ops[k].name] == EntryOf(service, ops[k]))
    && (forall m | m in methods :: exists k | i < k < n :: ops[k].AddMethod? && ops[k].name == m)
  }

  lemma {:induction false} AddsOne(
      ops: seq<Op>, i: nat, n: nat, service: Name, methods: map<Name, MethodEntry>, byId: map<MethodId, MethodLookup>)
    requires i < n < |ops| && HasAdded(ops, i, n, service, methods) && Indexed(byId, service, methods)
    requires ops[n].AddMethod? && IdOf(FullName(service, ops[n].name)) !in byId
    ensures HasAdded(ops, i, n + 1, service, methods[ops[n].name := EntryOf(service, ops[n])])
  {
    hide IdOf, FullName;
    var grown := methods[ops[n].name := EntryOf(service, ops[n])];
    forall m | m in grown ensures exists k | i < k < n + 1 :: ops[k].AddMethod? && ops[k].name == m {
      assert m == ops[n].name || m in methods;
    }
  }

  /** An open builder has the name it was opened with and the methods added since. */
  lemma {:induction false} BuilderHolds(ops: seq<Op>, i: nat, n: nat)
    requires n <= |ops| && Builds(ops, i, n)
    ensures var b := After(ops, n).building;
            b.Some? && b.value.name == ops[i].service && HasAdded(ops, i, n, ops[i].service, b.value.methods)
    decreases n
  {
    hide IdOf, FullName, HasAdded, Indexed, After, IdsHash;
    AfterNext(ops, n - 1);
    if i < n - 1 {
      BuilderHolds(ops, i, n - 1);
      IndexedAt(ops, n - 1);
      AddsOne(ops, i, n - 1, ops[i].service, After(ops, n - 1).building.value.methods, After(ops, n - 1).tables.byId);
    } else {
      NothingAdded(ops, i, ops[i].service);
    }
  }

  lemma {:induction false} NothingAdded(ops: seq<Op>, i: nat, service: Name)
    requires i < |ops|
    ensures HasAdded(ops, i, i + 1, service, map[])
  {
  }

  lemma {:induction false} IndexedAt(ops: seq<Op>, n: nat)
    requires n <= |ops|
    ensures var s := After(ops, n);
            s.building.Some? ==> Indexed(s.tables.byId, s.building.value.name, s.building.value.methods)
  {
    hide Indexed, IdsHash, At;
    RunInv(ops[..n]);
  }

  lemma {:induction false} BuilderFound(ops: seq<Op>, n: nat) returns (i: nat)
    requires n <= |ops| && After(ops, n).building.Some?
    ensures Builds(ops, i, n)
    decreases n
  {
    hide IdOf, FullName, After, HasAdded;
    if n == 0 {
      NothingBuilt(ops);
    } else {
      AfterNext(ops, n - 1);
      if ops[n - 1].Register? {
        i := n - 1;
      } else {
        i := BuilderFound(ops, n - 1);
        BuilderHolds(ops, i, n - 1);
      }
    }
  }

  lemma {:induction false} NothingBuilt(ops: seq<Op>)
    ensures After(ops, 0).building.None? && After(ops, 0).tables.services == map[]
  {
  }

  /** Operation `j` finishes the builder opened by operation `i`. */
  ghost predicate Finishes(ops: seq<Op>, i: nat, j: nat)
    requires j < |ops|
  {
    Builds(ops, i, j) && ops[j].Finish?
  }

  /** Operation `j` finished a service of that name, and none of that name was finished since. */
  ghost predicate Current(ops: seq<Op>, i: nat, j: nat, n: nat, service: Name)
    requires n <= |ops|
  {
    && j < n && Finishes(ops, i, j) && ops[i].service == service
    && forall i', j' | 0 <= i' < j' && j < j' < n :: Finishes(ops, i', j') ==> ops[i'].service != service
  }

  lemma {:induction false} ServiceStands(ops: seq<Op>, i: nat, j: nat, n: nat, service: Name)
    requires n <= |ops| && Current(ops, i, j, n, service)
    ensures var t := After(ops, n).tables;
            service in t.services && HasAdded(ops, i, j, service, t.services[service].methods)
    decreases n
  {
    hide IdOf, FullName, After, HasAdded, Builds;
    AfterNext(ops, n - 1);
    if j < n - 1 {
      ServiceStands(ops, i, j, n - 1, service);
      if ops[n - 1].Finish? && After(ops, n - 1).building.Some? {
        var i' := BuilderFound(ops, n - 1);
        BuilderHolds(ops, i', n - 1);
        assert Finishes(ops, i', n - 1);
        BuildsBefore(ops, i', n - 1);
      }
    } else {
      BuilderHolds(ops, i, j);
    }
  }

  lemma {:induction false} BuildsBefore(ops: seq<Op>, i: nat, n: nat)
    requires n <= |ops| && Builds(ops, i, n)
    ensures i < n && ops[i].Register?
  {
  }

  lemma {:induction false} ServiceFound(ops: seq<Op>, n: nat, service: Name) returns (i: nat, j: nat)
    requires n <= |ops| && service in After(ops, n).tables.services
    ensures Current(ops, i, j, n, service)
    decreases n
  {
    hide IdOf, FullName, After, HasAdded, Builds;
    if n == 0 {
      NothingBuilt(ops);
    } else {
      AfterNext(ops, n - 1);
      if ops[n - 1].Finish? && After(ops, n - 1).building.Some? {
        i := BuilderFound(ops, n - 1);
        j := n - 1;
        BuildsBefore(ops, i, j);
        BuilderHolds(ops, i, n - 1);
        if ops[i].service == service { return; }
      }
      i, j := ServiceFound(ops, n - 1, service);
      forall i', j' | 0 <= i' < j' && j < j' < n && Finishes(ops, i', j')
        ensures ops[i'].Register? && ops[i'].service != service
      {
        BuildsBefore(ops, i', j');
        if j' == n - 1 { BuilderHolds(ops, i', j'); }
      }
    }
  }

  /** Operation `k` added the method to a service that was finished and not replaced since. */
  ghost predicate Provided(ops: seq<Op>, i: nat, k: nat, j: nat, n: nat, service: Name, method_: Name)
    requires n <= |ops|
  {
    i < k < j && Current(ops, i, j, n, service) && ops[k].AddMethod? && ops[k].name == method_
  }

  /**
   * A method added to a builder is found by name from the moment the service is finished
   * until one of its name is finished again, with the id its full name hashes to, and by
   * that id.
   */
  lemma {:induction false} AddedIsFound(
      ops: seq<Op>, i: nat, k: nat, j: nat, n: nat, service: Name, method_: Name)
    requires n <= |ops| && Provided(ops, i, k, j, n, service, method_)
    ensures var t := After(ops, n).tables;
            && t.LookupMethod(service, method_) == Some(EntryOf(service, ops[k]))
            && t.MethodById(IdOf(FullName(service, method_))) == Some(EntryOf(service, ops[k]))
  {
    hide IdOf, FullName, At, Current, Step, Tables.MethodById;
    ServiceStands(ops, i, j, n, service);
    IndexesAgree(ops[..n], service, method_);
  }

  /** Conversely, whatever is found by name was added so. */
  lemma {:induction false} FoundWasAdded(ops: seq<Op>, n: nat, service: Name, method_: Name)
      returns (i: nat, k: nat, j: nat)
    requires n <= |ops| && After(ops, n).tables.LookupMethod(service, method_).Some?
    ensures Provided(ops, i, k, j, n, service, method_)
  {
    hide IdOf, FullName, After, Builds;
    i, j := ServiceFound(ops, n, service);
    ServiceStands(ops, i, j, n, service);
    k :| i < k < j && ops[k].AddMethod? && ops[k].name == method_;
  }
}
