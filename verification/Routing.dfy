/** Serving many instances of one contract behind one group, and the clients that call them
    (src/Resource.ts, `wireTag`, `serveInstances`, `invokeWireMethod`, `forwardClient`,
    `clientInstances`). A call crosses the wire unchanged: encoding is not part of the model.
    A member is opaque; what can be observed is which member is used, and with what. */
module Routing {
  import opened Wrappers
  import opened Paths
  import opened SpecTree

  const SLASH: char := '/'

  /** What a contract says of one leaf. A constant is an effect that a service resolves to a
      value when it is acquired. */
  datatype Method =
    | LocalOnly
    | Wire(ref: bool, constant: bool, hasPayload: bool, pair: bool)

  datatype Member = Function(id: nat) | Plain(id: nat) | Subscribable(id: nat)

  datatype Value = Undefined | Scalar(n: int) | Array(items: seq<Value>)

  datatype RoutingError =
    | MissingKey(path: string)
    | UnknownKey(path: string, key: string)
    | LocalOnlyMember(path: string)

  /** What using a member amounts to. */
  datatype Use =
    | Invoked(member: Member, args: seq<Value>)
    | Itself(member: Member)
    | Resolved(member: Member)    // the value of an effect, resolved at acquire
    | ChangesOf(member: Member)   // the change stream of a subscribable
    | Died(error: RoutingError)

  type Service = map<string, Node<Member>>

  // ---- wire tags ----

  function WireTag(groupId: string, path: string): string {
    groupId + [SLASH] + path
  }

  /** Within a group the tag determines the member; across groups it determines both, as long
      as member paths are free of slashes. */
  lemma WireTagInjective(g: string, p: string, h: string, q: string)
    requires WireTag(g, p) == WireTag(h, q)
    ensures g == h ==> p == q
    ensures SLASH !in p && SLASH !in q ==> g == h && p == q
  {
    var t := WireTag(g, p);
    assert t[|g|] == SLASH && t[|h|] == WireTag(h, q)[|h|] == SLASH;
    assert p == t[|g| + 1..] && q == t[|h| + 1..];
    assert g == t[..|g|] && h == t[..|h|];
    if SLASH !in p && SLASH !in q {
      assert |g| == |h|;
    }
  }

  /** Two groups can share a tag if and only if their ids are equal or one extends the other
      past a slash, which can be seen when the second id is claimed. */
  lemma GroupsShareATagIff(g: string, h: string)
    ensures (exists p, q :: WireTag(g, p) == WireTag(h, q)) <==> g == h || Extends(g, h, SLASH) || Extends(h, g, SLASH)
  {
    SharedJoinIff(g, h, SLASH);
    if p, q :| g + [SLASH] + p == h + [SLASH] + q {
      assert WireTag(g, p) == WireTag(h, q);
    }
  }

  /** Two declarations may not share a group id or an instance key. */
  class Registry {
    var claimed: set<string>

    constructor ()
      ensures claimed == {}
    {
      claimed := {};
    }

    method Claim(id: string) returns (accepted: bool)
      modifies this
      ensures accepted == (id !in old(claimed))
      ensures claimed == old(claimed) + {id}
    {
      accepted := id !in claimed;
      claimed := claimed + {id};
    }
  }

  // ---- the server ----

  /** The wire members of a flat contract; local ones get no procedure and no handler. */
  function WirePaths(spec: Flat<Method>): set<string> {
    set path | path in spec && spec[path].Wire?
  }

  /** What `serveInstances` asks of an implementation: every group, and every wire member.
      Local members may be absent, and there may be more besides. */
  ghost predicate Provides(impl: Node<Member>, spec: Spec<Method>)
    decreases spec
  {
    match spec
    case Leaf(_) => impl.Val?
    case Group(entries) =>
      impl.Obj? && forall e | e in entries && e.spec != Leaf(LocalOnly) ::
        e.key in impl.fields && Provides(impl.fields[e.key], e.spec)
  }

  /** An implementation with all members, local ones included, is one of those. */
  lemma ConformingProvides(impl: Node<Member>, spec: Spec<Method>)
    requires Conforms(impl, spec)
    ensures Provides(impl, spec)
    decreases spec
  {
    match spec
    case Leaf(_) =>
    case Group(entries) =>
      forall e | e in entries
        ensures Provides(impl.fields[e.key], e.spec)
      {
        ConformingProvides(impl.fields[e.key], e.spec);
      }
  }

  /** The walk to a member of the contract never throws, and reaches every wire member. */
  lemma {:induction false} ProvidedWalk(impl: Node<Member>, spec: Spec<Method>, path: Path)
    requires Provides(impl, spec) && MethodAt(spec, path).Some?
    ensures !Walk(impl, path).Threw?
    ensures MethodAt(spec, path).value.Wire? ==> LeafAt(impl, path).Some?
    decreases spec
  {
    match spec
    case Leaf(_) =>
    case Group(entries) =>
      var child := Lookup(entries, path[0]).value;
      assert Entry(path[0], child) in entries;
      if child == Leaf(LocalOnly) {
        assert path[1..] == [];
      } else {
        ProvidedWalk(impl.fields[path[0]], child, path[1..]);
      }
  }

  /** A walk that ends at a value ends at that leaf. */
  lemma {:induction false} WalkIsLeaf(n: Node<Member>, path: Path)
    ensures LeafAt(n, path) == match Walk(n, path) case Reached(Val(v)) => Some(v) case _ => None
    decreases |path|
  {
    if path != [] && n.Obj? && path[0] in n.fields {
      WalkIsLeaf(n.fields[path[0]], path[1..]);
    }
  }

  /** The flattened members of such an implementation hold every wire member of the contract. */
  lemma WireMembersProvided(impl: Service, entries: seq<Entry<Method>>)
    requires WellNamed(Group(entries)) && Provides(Obj(impl), Group(entries))
    ensures WirePaths(FlattenSpec(entries)) <= FlatMembers(Obj(impl), entries).Keys
  {
    forall k | k in WirePaths(FlattenSpec(entries))
      ensures LeafAt(Obj(impl), Split(k, DOT)).Some?
    {
      FlattenedSpecIsExact(entries, k);
      ProvidedWalk(Obj(impl), Group(entries), Split(k, DOT));
    }
  }

  datatype Instance = Instance(key: string, impl: Service)

  datatype Server = Server(groupId: string, spec: Flat<Method>, table: map<string, Flat<Member>>)

  /** `invokeWireMethod` */
  function InvokeWireMethod(member: Member, m: Method, payload: Value): Use {
    if m.Wire? && m.ref then ChangesOf(member)
    else if !member.Function? then Itself(member)
    else if m.Wire? && m.pair && payload.Array? then Invoked(member, [Item(payload.items, 0), Item(payload.items, 1)])
    else Invoked(member, [payload])
  }

  function Item(items: seq<Value>, i: nat): Value {
    if i < |items| then items[i] else Undefined
  }

  /** The member path a tag of this group carries. */
  function PathOfTag(groupId: string, tag: string): Option<string> {
    if groupId + [SLASH] <= tag then Some(tag[|groupId| + 1..]) else None
  }

  /** The handler mounted under a wire tag, called with a payload and the instance-key header;
      no handler answers a tag that is not one of the contract's. */
  function Handle(server: Server, tag: string, payload: Value, header: Option<string>): Option<Use> {
    match PathOfTag(server.groupId, tag)
    case None => None
    case Some(path) =>
      if path !in WirePaths(server.spec) then None
      else if header.None? then Some(Died(MissingKey(path)))
      else if header.value !in server.table then Some(Died(UnknownKey(path, header.value)))
      else if path !in server.table[header.value] then None
      else Some(InvokeWireMethod(server.table[header.value][path], server.spec[path], payload))
  }

  function InstanceKeys(instances: seq<Instance>): set<string> {
    set i | 0 <= i < |instances| :: instances[i].key
  }

  /** Instance `j` repeats the key of an earlier one. */
  predicate DuplicateAt(instances: seq<Instance>, j: nat) {
    j < |instances| && instances[j].key in InstanceKeys(instances[..j])
  }

  /** The routing table holds each instance's flattened members under its key. */
  ghost predicate Routes(table: map<string, Flat<Member>>, instances: seq<Instance>, entries: seq<Entry<Method>>) {
    && table.Keys == InstanceKeys(instances)
    && forall i | 0 <= i < |instances| ::
         instances[i].key in table && table[instances[i].key] == FlatMembers(Obj(instances[i].impl), entries)
  }

  /** `serveInstances`: the routing table, or the first key declared twice. */
  method ServeInstances(groupId: string, entries: seq<Entry<Method>>, instances: seq<Instance>)
    returns (r: Result<Server, nat>)
    requires WellNamed(Group(entries))
    requires forall i | 0 <= i < |instances| :: Provides(Obj(instances[i].impl), Group(entries))
    ensures r.Err? <==> exists j :: DuplicateAt(instances, j)
    ensures r.Err? ==> DuplicateAt(instances, r.error) && forall k | 0 <= k < r.error :: !DuplicateAt(instances, k)
    ensures r.Ok? ==> r.value.groupId == groupId && r.value.spec == FlattenSpec(entries)
    ensures r.Ok? ==> Routes(r.value.table, instances, entries)
  {
    var table: map<string, Flat<Member>> := map[];
    assert RoutesUpTo(table, instances, 0, entries);
    for j := 0 to |instances|
      invariant RoutesUpTo(table, instances, j, entries)
    {
      DuplicateIff(table, instances, j, entries);
      if instances[j].key in table {
        return Err(j);
      }
      var flat := MembersOf(instances[j].impl, entries);
      RoutesUpToNext(table, instances, j, entries);
      table := table[instances[j].key := flat];
    }
    assert instances[..|instances|] == instances;
    return Ok(Server(groupId, FlattenSpec(entries), table));
  }

  /** The first `j` instances are routed and none of them repeats a key. */
  ghost predicate RoutesUpTo(table: map<string, Flat<Member>>, instances: seq<Instance>, j: nat, entries: seq<Entry<Method>>)
    requires j <= |instances|
  {
    && Routes(table, instances[..j], entries)
    && forall k | 0 <= k < j :: !DuplicateAt(instances, k)
  }

  lemma DuplicateIff(table: map<string, Flat<Member>>, instances: seq<Instance>, j: nat, entries: seq<Entry<Method>>)
    requires j < |instances| && Routes(table, instances[..j], entries)
    ensures DuplicateAt(instances, j) <==> instances[j].key in table
  {
  }

  lemma RoutesUpToNext(table: map<string, Flat<Member>>, instances: seq<Instance>, j: nat, entries: seq<Entry<Method>>)
    requires j < |instances| && RoutesUpTo(table, instances, j, entries) && instances[j].key !in table
    ensures RoutesUpTo(table[instances[j].key := FlatMembers(Obj(instances[j].impl), entries)], instances, j + 1, entries)
  {
    assert instances[..j + 1] == instances[..j] + [instances[j]];
    RoutesOneMore(table, instances[..j], entries, instances[j]);
    DuplicateIff(table, instances, j, entries);
  }

  lemma RoutesOneMore(table: map<string, Flat<Member>>, instances: seq<Instance>, entries: seq<Entry<Method>>,
                      next: Instance)
    requires Routes(table, instances, entries) && next.key !in table
    ensures Routes(table[next.key := FlatMembers(Obj(next.impl), entries)], instances + [next], entries)
  {
    assert InstanceKeys(instances + [next]) == InstanceKeys(instances) + {next.key} by {
      forall k
        ensures k in InstanceKeys(instances + [next]) <==> k in InstanceKeys(instances) || k == next.key
      {
        if k in InstanceKeys(instances) {
          var i :| 0 <= i < |instances| && instances[i].key == k;
          assert (instances + [next])[i].key == k;
        }
        assert (instances + [next])[|instances|].key == next.key;
      }
    }
  }

  /** `flattenImpl` of one instance: the walk of every path, absent local members left out. */
  method MembersOf(impl: Service, entries: seq<Entry<Method>>) returns (flat: Flat<Member>)
    requires WellNamed(Group(entries)) && Provides(Obj(impl), Group(entries))
    ensures flat == FlatMembers(Obj(impl), entries)
    ensures WirePaths(FlattenSpec(entries)) <= flat.Keys
  {
    var paths := FlattenSpec(entries).Keys;
    forall k | k in paths
      ensures !Walk(Obj(impl), Split(k, DOT)).Threw?
    {
      FlattenedSpecIsExact(entries, k);
      ProvidedWalk(Obj(impl), Group(entries), Split(k, DOT));
    }
    var r := FlattenImpl(Obj(impl), paths);
    forall k | k in paths
      ensures LeafAt(Obj(impl), Split(k, DOT)) ==
              if r.value[k].Some? && r.value[k].value.Val? then Some(r.value[k].value.value) else None
    {
      WalkIsLeaf(Obj(impl), Split(k, DOT));
    }
    flat := map k | k in r.value && r.value[k].Some? && r.value[k].value.Val? :: r.value[k].value.value;
    assert flat == FlatMembers(Obj(impl), entries);
    WireMembersProvided(impl, entries);
  }

  // ---- the client ----

  /** A member of a client service, pinned to a tag and an instance key. */
  datatype Forward =
    | Request(tag: string, key: string)          // no payload: the call itself
    | OneArgument(tag: string, key: string)
    | TwoArguments(tag: string, key: string)     // packs its arguments as a tuple

  function Forwarded(m: Method, tag: string, key: string): Forward
    requires m.Wire?
  {
    if !m.hasPayload then Request(tag, key)
    else if m.pair then TwoArguments(tag, key)
    else OneArgument(tag, key)
  }

  /** `forwardClient`: every wire member of the contract, pinned to one instance. */
  method ForwardClient(spec: Flat<Method>, groupId: string, key: string) returns (flat: Flat<Forward>)
    ensures flat.Keys == WirePaths(spec)
    ensures forall path | path in flat :: flat[path] == Forwarded(spec[path], WireTag(groupId, path), key)
  {
    flat := map[];
    var todo := spec.Keys;
    while todo != {}
      invariant todo <= spec.Keys
      invariant flat.Keys == set path | path in spec && spec[path].Wire? && path !in todo
      invariant forall path | path in flat :: flat[path] == Forwarded(spec[path], WireTag(groupId, path), key)
      decreases todo
    {
      var path :| path in todo;
      todo := todo - {path};
      if spec[path].LocalOnly? {
        continue;
      }
      flat := flat[path := Forwarded(spec[path], WireTag(groupId, path), key)];
    }
  }

  /** `clientInstances`: one nested service per instance key. */
  method ClientInstances(entries: seq<Entry<Method>>, groupId: string, keys: seq<string>)
    returns (services: map<string, map<string, Node<Forward>>>)
    requires WellNamed(Group(entries))
    ensures services.Keys == set k | k in keys
    ensures forall key, path | key in keys ::
      LeafAt(Obj(services[key]), path) == ClientMember(entries, groupId, key, path)
  {
    var spec := FlattenSpec(entries);
    services := map[];
    for i := 0 to |keys|
      invariant services.Keys == set k | k in keys[..i]
      invariant forall key, path | key in services ::
        LeafAt(Obj(services[key]), path) == ClientMember(entries, groupId, key, path)
    {
      var flat := ForwardClient(spec, groupId, keys[i]);
      FlattenedIsPrefixFree(entries);
      assert PrefixFree(flat);
      var service := NestService(flat);
      forall path
        ensures LeafAt(Obj(service), path) == ClientMember(entries, groupId, keys[i], path)
      {
        ClientLeaf(entries, groupId, keys[i], flat, path);
      }
      services := services[keys[i] := service];
      assert keys[..i + 1] == keys[..i] + [keys[i]];
    }
    assert keys[..|keys|] == keys;
  }

  /** What a client service holds at a path of the nested contract. */
  function ClientMember(entries: seq<Entry<Method>>, groupId: string, key: string, path: Path): Option<Forward> {
    match MethodAt(Group(entries), path)
    case None => None
    case Some(m) =>
      if m.LocalOnly? || path == [] then None
      else Some(Forwarded(m, WireTag(groupId, Join(path, DOT)), key))
  }

  lemma ClientLeaf(entries: seq<Entry<Method>>, groupId: string, key: string, flat: Flat<Forward>, path: Path)
    requires WellNamed(Group(entries))
    requires flat.Keys == WirePaths(FlattenSpec(entries))
    requires forall p | p in flat :: flat[p] == Forwarded(FlattenSpec(entries)[p], WireTag(groupId, p), key)
    ensures FlatLeaf(flat, path) == ClientMember(entries, groupId, key, path)
  {
    if MethodAt(Group(entries), path).Some? {
      MethodPathsAreNames(Group(entries), path);
    }
    if IsName(path) {
      SplitOfJoin(path, DOT);
      FlattenedSpecIsExact(entries, Join(path, DOT));
    }
  }

  /** Using a client member: the payload it sends, with its key as the header. */
  function UseForward(server: Server, f: Forward, args: seq<Value>): Option<Use> {
    var payload :=
      match f
      case Request(_, _) => Undefined
      case OneArgument(_, _) => Item(args, 0)
      case TwoArguments(_, _) => Array([Item(args, 0), Item(args, 1)]);
    Handle(server, f.tag, payload, Some(f.key))
  }

  // ---- location transparency ----

  /** The member has the type its contract entry asks for. */
  predicate Fits(member: Member, m: Method) {
    m.Wire? ==>
      if m.ref then member.Subscribable? && !m.hasPayload && !m.constant
      else (member.Function? <==> m.hasPayload) && !(m.constant && m.hasPayload)
  }

  /** The arguments the contract entry takes. */
  predicate TakesArguments(m: Method, args: seq<Value>) {
    m.Wire? && |args| == (if !m.hasPayload then 0 else if m.pair then 2 else 1)
  }

  /** Using an instance's own member in its own process. */
  function UseHere(member: Member, m: Method, args: seq<Value>): Use {
    if m.Wire? && m.constant then Resolved(member)
    else if m.Wire? && m.hasPayload then Invoked(member, args)
    else Itself(member)
  }

  /** A served family and the nested client of one of its instances: at every wire path of the
      contract, the client reaches exactly that instance's own member with the same arguments,
      pairs packed and unpacked included. The use equals the local one for every member except
      a `ref` or a `constant`: there this client is handed the member's change stream, not the
      subscribable, and the effect, not its value. */
  lemma LocationTransparency(entries: seq<Entry<Method>>, server: Server, instance: Instance, path: Path, args: seq<Value>)
    requires WellNamed(Group(entries)) && Provides(Obj(instance.impl), Group(entries))
    requires server.spec == FlattenSpec(entries)
    requires instance.key in server.table
    requires server.table[instance.key] == FlatMembers(Obj(instance.impl), entries)
    requires ClientMember(entries, server.groupId, instance.key, path).Some?
    requires TakesArguments(MethodAt(Group(entries), path).value, args)
    requires LeafAt(Obj(instance.impl), path).Some? ==>
      Fits(LeafAt(Obj(instance.impl), path).value, MethodAt(Group(entries), path).value)
    ensures LeafAt(Obj(instance.impl), path).Some?
    ensures
      var f := ClientMember(entries, server.groupId, instance.key, path).value;
      var member, m := LeafAt(Obj(instance.impl), path).value, MethodAt(Group(entries), path).value;
      var used := UseForward(server, f, args);
      && used.Some? && !used.value.Died? && used.value.member == member
      && (used.value == UseHere(member, m, args) <==> !m.ref && !m.constant)
      && (m.ref ==> used.value == ChangesOf(member))
      && (m.constant ==> used.value == Itself(member))
  {
    var k := Join(path, DOT);
    MethodPathsAreNames(Group(entries), path);
    SplitOfJoin(path, DOT);
    FlattenedSpecIsExact(entries, k);
    ProvidedWalk(Obj(instance.impl), Group(entries), path);
    ForwardReaches(server, k, instance.key, args);
  }

  /** What a member amounts to behind the wire. */
  function UseRemotely(member: Member, m: Method, args: seq<Value>): Use {
    if m.Wire? && m.ref then ChangesOf(member)
    else if m.Wire? && m.hasPayload then Invoked(member, args)
    else Itself(member)
  }

  lemma ForwardReaches(server: Server, k: string, key: string, args: seq<Value>)
    requires k in server.spec && key in server.table && k in server.table[key]
    requires TakesArguments(server.spec[k], args) && Fits(server.table[key][k], server.spec[k])
    ensures UseForward(server, Forwarded(server.spec[k], WireTag(server.groupId, k), key), args) ==
            Some(UseRemotely(server.table[key][k], server.spec[k], args))
  {
    var tag := WireTag(server.groupId, k);
    assert server.groupId + [SLASH] <= tag && tag[|server.groupId| + 1..] == k;
    assert |args| == 1 ==> [Item(args, 0)] == args;
    assert |args| == 2 ==> [Item(args, 0), Item(args, 1)] == args;
  }

  /** The server that `ServeInstances` builds answers every wire tag of its contract: with the
      own member of instance `i` when the header names `i`, and with the routing error when the
      header is missing or names no instance. No other tag has a handler. */
  lemma ServedTagsAnswer(server: Server, entries: seq<Entry<Method>>, instances: seq<Instance>,
                         tag: string, payload: Value, header: Option<string>)
    requires WellNamed(Group(entries))
    requires forall i | 0 <= i < |instances| :: Provides(Obj(instances[i].impl), Group(entries))
    requires server.spec == FlattenSpec(entries) && Routes(server.table, instances, entries)
    ensures Handle(server, tag, payload, header).Some? <==>
            exists path :: path in WirePaths(server.spec) && tag == WireTag(server.groupId, path)
    ensures forall path | path in WirePaths(server.spec) && tag == WireTag(server.groupId, path) ::
      && (header.None? ==> Handle(server, tag, payload, header) == Some(Died(MissingKey(path))))
      && (header.Some? && header.value !in InstanceKeys(instances) ==>
            Handle(server, tag, payload, header) == Some(Died(UnknownKey(path, header.value))))
      && forall i | 0 <= i < |instances| && header == Some(instances[i].key) ::
           LeafAt(Obj(instances[i].impl), Split(path, DOT)).Some? &&
           Handle(server, tag, payload, header) ==
           Some(InvokeWireMethod(LeafAt(Obj(instances[i].impl), Split(path, DOT)).value, server.spec[path], payload))
  {
    var carried := PathOfTag(server.groupId, tag);
    if carried.Some? {
      assert tag == WireTag(server.groupId, carried.value);
    }
    forall path | tag == WireTag(server.groupId, path)
      ensures carried == Some(path)
    {
      assert tag[|server.groupId| + 1..] == path;
    }
    if header.Some? && header.value in InstanceKeys(instances) {
      var i :| 0 <= i < |instances| && instances[i].key == header.value;
      WireMembersProvided(instances[i].impl, entries);
    }
    forall i | 0 <= i < |instances|
      ensures WirePaths(server.spec) <= FlatMembers(Obj(instances[i].impl), entries).Keys
    {
      WireMembersProvided(instances[i].impl, entries);
    }
  }

  /** Serving and calling end to end, over any set of distinct instances. */
  method CallThrough(groupId: string, entries: seq<Entry<Method>>, instances: seq<Instance>, i: nat,
                     path: Path, args: seq<Value>)
    returns (used: Option<Use>)
    requires WellNamed(Group(entries))
    requires forall j | 0 <= j < |instances| :: Provides(Obj(instances[j].impl), Group(entries))
    requires forall j :: !DuplicateAt(instances, j)
    requires i < |instances|
    requires MethodAt(Group(entries), path).Some? && TakesArguments(MethodAt(Group(entries), path).value, args)
    requires LeafAt(Obj(instances[i].impl), path).Some? ==>
      Fits(LeafAt(Obj(instances[i].impl), path).value, MethodAt(Group(entries), path).value)
    ensures LeafAt(Obj(instances[i].impl), path).Some?
    ensures var member, m := LeafAt(Obj(instances[i].impl), path).value, MethodAt(Group(entries), path).value;
      used == Some(if m.ref then ChangesOf(member) else if m.constant then Itself(member) else UseHere(member, m, args))
  {
    ProvidedWalk(Obj(instances[i].impl), Group(entries), path);
    var r := ServeInstances(groupId, entries, instances);
    var server := r.value;
    var keys := seq(|instances|, j requires 0 <= j < |instances| => instances[j].key);
    assert keys[i] in keys;
    assert instances[i].key in server.table;
    var services := ClientInstances(entries, groupId, keys);
    LocationTransparency(entries, server, instances[i], path, args);
    var f := LeafAt(Obj(services[keys[i]]), path).value;
    used := UseForward(server, f, args);
  }
}
