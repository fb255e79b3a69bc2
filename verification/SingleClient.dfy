/** The service of one instance in its own process and through its own client (src/Resource.ts,
    `buildLocalContext`, `buildClientService`). Both set a leaf for every member of the contract,
    local-only ones included, with `setPath`; constants are resolved while they are built. */
module SingleClient {
  import opened Wrappers
  import opened Paths
  import opened SpecTree
  import opened Routing

  // ---- the service in its own process ----

  datatype LocalLeaf =
    | NeedsLocal(member: Member)   // the member, for whoever holds the local capability
    | Constant(value: Use)         // resolved when the service was built
    | Own(member: Member)

  function LocalLeafOf(m: Method, member: Member): LocalLeaf {
    if m.LocalOnly? then NeedsLocal(member)
    else if m.constant then Constant(ResultOf(Itself(member)))
    else Own(member)
  }

  /** Running an effect gives its value. */
  function ResultOf(used: Use): Use {
    match used
    case Itself(member) => Resolved(member)
    case _ => used
  }

  /** Using a leaf of the local service; the local layer grants the capability. */
  function UseLocal(leaf: LocalLeaf, m: Method, args: seq<Value>): Use {
    match leaf
    case NeedsLocal(member) => Itself(member)
    case Constant(value) => value
    case Own(member) => UseHere(member, m, args)
  }

  /** What the local service holds at a path. */
  function LocalAt(impl: Service, entries: seq<Entry<Method>>, path: Path): Option<LocalLeaf> {
    match MethodAt(Group(entries), path)
    case None => None
    case Some(m) =>
      match LeafAt(Obj(impl), path)
      case None => None
      case Some(member) => Some(LocalLeafOf(m, member))
  }

  function LocalLeaves(impl: Service, entries: seq<Entry<Method>>): Flat<LocalLeaf> {
    map k | k in FlattenSpec(entries) && LeafAt(Obj(impl), Split(k, DOT)).Some? ::
      LocalLeafOf(FlattenSpec(entries)[k], LeafAt(Obj(impl), Split(k, DOT)).value)
  }

  lemma LocalFlatLeaf(impl: Service, entries: seq<Entry<Method>>, path: Path)
    requires WellNamed(Group(entries))
    ensures FlatLeaf(LocalLeaves(impl, entries), path) == LocalAt(impl, entries, path)
  {
    if MethodAt(Group(entries), path).Some? {
      MethodPathsAreNames(Group(entries), path);
    }
    if IsName(path) {
      SplitOfJoin(path, DOT);
      FlattenedSpecIsExact(entries, Join(path, DOT));
    }
  }

  /** Paths of a contract are prefix-free whatever is set at them. */
  lemma SamePathsPrefixFree<V>(flat: Flat<V>, entries: seq<Entry<Method>>)
    requires WellNamed(Group(entries)) && flat.Keys <= FlattenSpec(entries).Keys
    ensures PrefixFree(flat)
  {
    FlattenedIsPrefixFree(entries);
  }

  /** `buildLocalContext` */
  method BuildLocal(impl: Service, entries: seq<Entry<Method>>) returns (service: map<string, Node<LocalLeaf>>)
    requires WellNamed(Group(entries)) && Conforms(Obj(impl), Group(entries))
    ensures forall path :: LeafAt(Obj(service), path) == LocalAt(impl, entries, path)
  {
    var spec := FlattenSpec(entries);
    var members := FlattenWhole(impl, entries);
    ghost var leaves, order := LocalLeaves(impl, entries), [];
    FlatMembersComplete(Obj(impl), entries);
    var todo := spec.Keys;
    service := map[];
    while todo != {}
      invariant todo <= spec.Keys && Enumerates(order, spec.Keys - todo)
      invariant service == BuildFrom(leaves, order)
      decreases todo
    {
      var path :| path in todo;
      assert leaves[path] == LocalLeafOf(spec[path], members[path]);
      service := SetPath(service, Split(path, DOT), LocalLeafOf(spec[path], members[path]));
      BuildOneMore(leaves, order, path);
      OneMoreEnumerated(order, spec.Keys, todo, path);
      order, todo := order + [path], todo - {path};
    }
    BuiltLocal(impl, entries, order);
  }

  lemma OneMoreEnumerated(order: seq<string>, keys: set<string>, todo: set<string>, k: string)
    requires k in todo && todo <= keys && Enumerates(order, keys - todo)
    ensures Enumerates(order + [k], keys - (todo - {k}))
  {
  }

  lemma BuiltLocal(impl: Service, entries: seq<Entry<Method>>, order: seq<string>)
    requires WellNamed(Group(entries)) && Enumerates(order, LocalLeaves(impl, entries).Keys)
    ensures forall path ::
      LeafAt(Obj(BuildFrom(LocalLeaves(impl, entries), order)), path) == LocalAt(impl, entries, path)
  {
    BuiltLeaves(LocalLeaves(impl, entries), order, entries);
    forall path
      ensures FlatLeaf(LocalLeaves(impl, entries), path) == LocalAt(impl, entries, path)
    {
      LocalFlatLeaf(impl, entries, path);
    }
  }

  lemma BuildOneMore<V>(flat: Flat<V>, order: seq<string>, k: string)
    requires k in flat && forall j | j in order :: j in flat
    ensures BuildFrom(flat, order + [k]) == SetPath(BuildFrom(flat, order), Split(k, DOT), flat[k])
  {
    assert (order + [k])[..|order|] == order;
  }

  lemma BuiltLeaves<V>(flat: Flat<V>, order: seq<string>, entries: seq<Entry<Method>>)
    requires WellNamed(Group(entries)) && flat.Keys <= FlattenSpec(entries).Keys && Enumerates(order, flat.Keys)
    ensures forall path :: LeafAt(Obj(BuildFrom(flat, order)), path) == FlatLeaf(flat, path)
  {
    SamePathsPrefixFree(flat, entries);
    BuildHasWantedLeaves(flat, order);
  }

  // ---- the service through its client ----

  datatype ClientLeaf =
    | Stub(path: string)                 // dies: the local capability is never granted here
    | Cached(value: Use)                 // the answer of a call made when the service was built
    | Subscription(source: Option<Use>)  // a subscribable fed by the answer of such a call
    | Calls(forward: Forward)

  /** The call to a wire member that carries no argument. */
  function Query(server: Server, key: string, path: string, m: Method): Option<Use>
    requires m.Wire?
  {
    UseForward(server, Forwarded(m, WireTag(server.groupId, path), key), [])
  }

  /** A constant whose query no handler answers, or whose handler dies, fails the whole service. */
  predicate Acquires(server: Server, key: string, path: string, m: Method) {
    m.Wire? && m.constant ==> Query(server, key, path, m).Some? && !Query(server, key, path, m).value.Died?
  }

  function ClientLeafOf(server: Server, key: string, path: string, m: Method): ClientLeaf
    requires Acquires(server, key, path, m)
  {
    if m.LocalOnly? then Stub(path)
    else if m.constant then Cached(ResultOf(Query(server, key, path, m).value))
    else if m.ref then Subscription(Query(server, key, path, m))
    else Calls(Forwarded(m, WireTag(server.groupId, path), key))
  }

  /** Calling or running a leaf of the client's service; a subscription is not called. */
  function UseClient(server: Server, leaf: ClientLeaf, args: seq<Value>): Option<Use>
    requires !leaf.Subscription?
  {
    match leaf
    case Stub(path) => Some(Died(LocalOnlyMember(path)))
    case Cached(value) => Some(value)
    case Calls(forward) => UseForward(server, forward, args)
  }

  /** What the client's service holds at a path. */
  function ClientAt(server: Server, entries: seq<Entry<Method>>, key: string, path: Path): Option<ClientLeaf> {
    match MethodAt(Group(entries), path)
    case None => None
    case Some(m) =>
      if path == [] || !Acquires(server, key, Join(path, DOT), m) then None
      else Some(ClientLeafOf(server, key, Join(path, DOT), m))
  }

  function ClientLeaves(server: Server, entries: seq<Entry<Method>>, key: string): Flat<ClientLeaf> {
    map k | k in FlattenSpec(entries) && Acquires(server, key, k, FlattenSpec(entries)[k]) ::
      ClientLeafOf(server, key, k, FlattenSpec(entries)[k])
  }

  lemma ClientFlatLeaf(server: Server, entries: seq<Entry<Method>>, key: string, path: Path)
    requires WellNamed(Group(entries))
    ensures FlatLeaf(ClientLeaves(server, entries, key), path) == ClientAt(server, entries, key, path)
  {
    if MethodAt(Group(entries), path).Some? {
      MethodPathsAreNames(Group(entries), path);
    }
    if IsName(path) {
      SplitOfJoin(path, DOT);
      FlattenedSpecIsExact(entries, Join(path, DOT));
    }
  }

  /** `buildClientService`: it fails exactly when a constant cannot be acquired. */
  method BuildClient(server: Server, entries: seq<Entry<Method>>, key: string)
    returns (r: Result<map<string, Node<ClientLeaf>>, string>)
    requires WellNamed(Group(entries))
    ensures r.Err? ==> r.error in FlattenSpec(entries) && !Acquires(server, key, r.error, FlattenSpec(entries)[r.error])
    ensures r.Ok? ==> forall k | k in FlattenSpec(entries) :: Acquires(server, key, k, FlattenSpec(entries)[k])
    ensures r.Ok? ==> forall path :: LeafAt(Obj(r.value), path) == ClientAt(server, entries, key, path)
  {
    var spec := FlattenSpec(entries);
    var wire := ForwardClient(spec, server.groupId, key);
    ghost var leaves, order := ClientLeaves(server, entries, key), [];
    var todo := spec.Keys;
    var service: map<string, Node<ClientLeaf>> := map[];
    while todo != {}
      invariant todo <= spec.Keys && Enumerates(order, spec.Keys - todo)
      invariant forall k | k in spec && k !in todo :: Acquires(server, key, k, spec[k])
      invariant service == BuildFrom(leaves, order)
      decreases todo
    {
      var path :| path in todo;
      var leaf := BuildLeaf(server, key, path, spec[path], if path in wire then Some(wire[path]) else None);
      if leaf.None? {
        return Err(path);
      }
      assert leaf.value == leaves[path];
      service := SetPath(service, Split(path, DOT), leaf.value);
      BuildOneMore(leaves, order, path);
      OneMoreEnumerated(order, spec.Keys, todo, path);
      order, todo := order + [path], todo - {path};
    }
    BuiltClient(server, entries, key, order);
    return Ok(service);
  }

  /** The leaf of one member, by its kind; none when a constant cannot be acquired. */
  method BuildLeaf(server: Server, key: string, path: string, m: Method, wire: Option<Forward>)
    returns (leaf: Option<ClientLeaf>)
    requires m.Wire? ==> wire == Some(Forwarded(m, WireTag(server.groupId, path), key))
    ensures leaf.Some? <==> Acquires(server, key, path, m)
    ensures leaf.Some? ==> leaf.value == ClientLeafOf(server, key, path, m)
  {
    if m.LocalOnly? {
      return Some(Stub(path));
    }
    if m.constant {
      var answer := UseForward(server, wire.value, []);
      return if answer.None? || answer.value.Died? then None else Some(Cached(ResultOf(answer.value)));
    }
    return Some(if m.ref then Subscription(UseForward(server, wire.value, [])) else Calls(wire.value));
  }

  lemma BuiltClient(server: Server, entries: seq<Entry<Method>>, key: string, order: seq<string>)
    requires WellNamed(Group(entries)) && Enumerates(order, ClientLeaves(server, entries, key).Keys)
    ensures forall path ::
      LeafAt(Obj(BuildFrom(ClientLeaves(server, entries, key), order)), path) == ClientAt(server, entries, key, path)
  {
    BuiltLeaves(ClientLeaves(server, entries, key), order, entries);
    forall path
      ensures FlatLeaf(ClientLeaves(server, entries, key), path) == ClientAt(server, entries, key, path)
    {
      ClientFlatLeaf(server, entries, key, path);
    }
  }

  // ---- as if it were local ----

  /** Every wire member of the implementation has the type its contract entry asks for. */
  ghost predicate AllFit(impl: Service, entries: seq<Entry<Method>>) {
    forall path | MethodAt(Group(entries), path).Some? && LeafAt(Obj(impl), path).Some? ::
      Fits(LeafAt(Obj(impl), path).value, MethodAt(Group(entries), path).value)
  }

  /** A local leaf and a client leaf of the same member serve its user alike: calls, effects and
      constants are equal, a ref is a subscription to the member's own changes, and a local-only
      member can only be reached in its own process. */
  ghost predicate Alike(server: Server, member: Member, m: Method, path: Path, local: LocalLeaf, client: ClientLeaf) {
    match m
    case LocalOnly => local == NeedsLocal(member) && path != [] && client == Stub(Join(path, DOT))
    case Wire(ref, _, _, _) =>
      if ref then local == Own(member) && client == Subscription(Some(ChangesOf(member)))
      else
        !client.Subscription? &&
        forall args | TakesArguments(m, args) :: UseClient(server, client, args) == Some(UseLocal(local, m, args))
  }

  /** The server answers for the instance at the key. */
  ghost predicate Serves(server: Server, entries: seq<Entry<Method>>, key: string, impl: Service) {
    && server.spec == FlattenSpec(entries)
    && key in server.table && server.table[key] == FlatMembers(Obj(impl), entries)
  }

  lemma WireMemberReached(server: Server, entries: seq<Entry<Method>>, key: string, impl: Service, k: string,
                          args: seq<Value>)
    requires WellNamed(Group(entries)) && Conforms(Obj(impl), Group(entries)) && AllFit(impl, entries)
    requires Serves(server, entries, key, impl) && k in FlattenSpec(entries)
    requires TakesArguments(FlattenSpec(entries)[k], args)
    ensures LeafAt(Obj(impl), Split(k, DOT)).Some?
    ensures var member, m := LeafAt(Obj(impl), Split(k, DOT)).value, FlattenSpec(entries)[k];
      Fits(member, m) &&
      UseForward(server, Forwarded(m, WireTag(server.groupId, k), key), args) == Some(UseRemotely(member, m, args))
  {
    FlatMembersComplete(Obj(impl), entries);
    FlattenedSpecIsExact(entries, k);
    ForwardReaches(server, k, key, args);
  }

  /** Against a server of the instance every constant can be acquired. */
  lemma AllAcquired(server: Server, entries: seq<Entry<Method>>, key: string, impl: Service, k: string)
    requires WellNamed(Group(entries)) && Conforms(Obj(impl), Group(entries)) && AllFit(impl, entries)
    requires Serves(server, entries, key, impl) && k in FlattenSpec(entries)
    ensures Acquires(server, key, k, FlattenSpec(entries)[k])
  {
    var m := FlattenSpec(entries)[k];
    if m.Wire? && m.constant {
      FlatMembersComplete(Obj(impl), entries);
      FlattenedSpecIsExact(entries, k);
      assert Fits(LeafAt(Obj(impl), Split(k, DOT)).value, m);
      WireMemberReached(server, entries, key, impl, k, []);
    }
  }

  lemma MembersAlike(server: Server, entries: seq<Entry<Method>>, key: string, impl: Service, path: Path)
    requires WellNamed(Group(entries)) && Conforms(Obj(impl), Group(entries)) && AllFit(impl, entries)
    requires Serves(server, entries, key, impl) && MethodAt(Group(entries), path).Some?
    ensures LeafAt(Obj(impl), path).Some?
    ensures LocalAt(impl, entries, path).Some? && ClientAt(server, entries, key, path).Some?
    ensures Alike(server, LeafAt(Obj(impl), path).value, MethodAt(Group(entries), path).value, path,
                  LocalAt(impl, entries, path).value, ClientAt(server, entries, key, path).value)
  {
    var k, m := Join(path, DOT), MethodAt(Group(entries), path).value;
    MethodPathsAreNames(Group(entries), path);
    SplitOfJoin(path, DOT);
    FlattenedSpecIsExact(entries, k);
    ConformingLeaves(Obj(impl), Group(entries), path);
    AllAcquired(server, entries, key, impl, k);
    forall args | TakesArguments(m, args)
      ensures UseForward(server, Forwarded(m, WireTag(server.groupId, k), key), args) ==
              Some(UseRemotely(LeafAt(Obj(impl), path).value, m, args))
    {
      WireMemberReached(server, entries, key, impl, k, args);
    }
    if m.Wire? && (m.ref || m.constant) {
      assert TakesArguments(m, []);
    }
  }

  /** One instance among those of a served family, built in its own process and through its own
      client: both services have a leaf at exactly the paths of the contract, and the two leaves
      of a path serve their users alike. */
  method AsIfLocal(groupId: string, entries: seq<Entry<Method>>, instances: seq<Instance>, i: nat)
    returns (server: Server, local: map<string, Node<LocalLeaf>>, client: map<string, Node<ClientLeaf>>)
    requires WellNamed(Group(entries)) && i < |instances|
    requires forall j | 0 <= j < |instances| && j != i :: Provides(Obj(instances[j].impl), Group(entries))
    requires forall j :: !DuplicateAt(instances, j)
    requires Conforms(Obj(instances[i].impl), Group(entries)) && AllFit(instances[i].impl, entries)
    ensures forall path ::
      && (LeafAt(Obj(local), path).Some? <==> MethodAt(Group(entries), path).Some?)
      && (LeafAt(Obj(client), path).Some? <==> MethodAt(Group(entries), path).Some?)
    ensures forall path | MethodAt(Group(entries), path).Some? ::
      LeafAt(Obj(instances[i].impl), path).Some? &&
      Alike(server, LeafAt(Obj(instances[i].impl), path).value, MethodAt(Group(entries), path).value, path,
            LeafAt(Obj(local), path).value, LeafAt(Obj(client), path).value)
  {
    var impl, key := instances[i].impl, instances[i].key;
    ConformingProvides(Obj(impl), Group(entries));
    var served := ServeInstances(groupId, entries, instances);
    server := served.value;
    local := BuildLocal(impl, entries);
    forall k | k in FlattenSpec(entries)
      ensures Acquires(server, key, k, FlattenSpec(entries)[k])
    {
      AllAcquired(server, entries, key, impl, k);
    }
    var built := BuildClient(server, entries, key);
    client := built.value;
    forall path | MethodAt(Group(entries), path).Some?
      ensures LeafAt(Obj(impl), path).Some? && LeafAt(Obj(local), path).Some? && LeafAt(Obj(client), path).Some?
      ensures Alike(server, LeafAt(Obj(impl), path).value, MethodAt(Group(entries), path).value, path,
                    LeafAt(Obj(local), path).value, LeafAt(Obj(client), path).value)
    {
      MembersAlike(server, entries, key, impl, path);
    }
  }
}
