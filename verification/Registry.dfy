/** The device registry: sessions by address, aliases, routing and the status listing. */
module Registry {
  import opened Common
  import opened MacAddress
  import opened Estimator
  import opened Session

  /** A dictionary with its insertion order. */
  datatype Dict<V> = Dict(keys: seq<string>, vals: map<string, V>) {
    ghost predicate Valid() {
      && (forall k :: k in keys <==> k in vals)
      && (forall i, j :: 0 <= i < j < |keys| ==> keys[i] != keys[j])
    }

    function Put(key: string, value: V): (d: Dict<V>)
      ensures Valid() ==> d.Valid()
      ensures d.vals == vals[key := value]
    {
      Dict(if key in vals then keys else keys + [key], vals[key := value])
    }

    function Get(key: string): Option<V> {
      if key in vals then Some(vals[key]) else None
    }
  }

  datatype RegistryState<S> = RegistryState(sessions: Dict<S>, aliases: Dict<string>)

  /** A row of the listing: the session whose status it shows, and its aliases. */
  datatype Row<S> = Row(session: S, aliases: seq<string>)

  // ---------- specification ----------

  /** Every alias points to the key of a session. */
  ghost predicate Routed<S>(r: RegistryState<S>) {
    && r.sessions.Valid() && r.aliases.Valid()
    && forall a :: a in r.aliases.vals ==> r.aliases.vals[a] in r.sessions.vals
  }

  /** All keys and aliases are in canonical spelling. */
  ghost predicate Canonical<S>(r: RegistryState<S>) {
    && (forall k :: k in r.sessions.vals ==> Normalize(k) == Ok(k))
    && (forall a :: a in r.aliases.vals ==> Normalize(a) == Ok(a))
  }

  function Added<S>(r: RegistryState<S>, key: string, session: S): RegistryState<S> {
    r.(sessions := r.sessions.Put(key, session))
  }

  /** The session an address in canonical spelling leads to. */
  function Find<S>(r: RegistryState<S>, address: string): Option<S> {
    match r.sessions.Get(address)
    case Some(session) => Some(session)
    case None =>
      match r.aliases.Get(address)
      case Some(canonical) => r.sessions.Get(canonical)
      case None => None
  }

  function Lookup<S>(r: RegistryState<S>, address: string): Result<Option<S>, ValueError> {
    var normalized :- Normalize(address);
    Ok(Find(r, normalized))
  }

  function Resolve<S>(r: RegistryState<S>, address: string): Result<string, ValueError> {
    var normalized :- Normalize(address);
    Ok(if normalized in r.sessions.vals then normalized
       else if normalized in r.aliases.vals then r.aliases.vals[normalized]
       else normalized)
  }

  /** An alias is recorded only for an address that is a key; a bad address raises. */
  function Aliased<S>(r: RegistryState<S>, alias: string, canonical: string): Result<RegistryState<S>, ValueError> {
    var normalizedAlias :- Normalize(alias);
    var normalizedCanonical :- Normalize(canonical);
    Ok(if normalizedCanonical in r.sessions.vals
       then r.(aliases := r.aliases.Put(normalizedAlias, normalizedCanonical))
       else r)
  }

  /** Python's order on strings. */
  predicate StringLe(a: string, b: string) {
    a == "" || (b != "" && (a[0] < b[0] || (a[0] == b[0] && StringLe(a[1..], b[1..]))))
  }

  function Insert(x: string, sorted: seq<string>): seq<string> {
    if sorted == [] || StringLe(x, sorted[0]) then [x] + sorted
    else [sorted[0]] + Insert(x, sorted[1..])
  }

  /** `sorted(...)`. */
  function Sorted(xs: seq<string>): seq<string> {
    if xs == [] then [] else Insert(xs[0], Sorted(xs[1..]))
  }

  /** The aliases among `keys` that point to `key`, in the order of `keys`. */
  function AliasesOf(vals: map<string, string>, keys: seq<string>, key: string): seq<string> {
    if keys == [] then []
    else
      var most, last := keys[..|keys| - 1], keys[|keys| - 1];
      AliasesOf(vals, most, key) + if PointsTo(vals, last, key) then [last] else []
  }

  predicate PointsTo(vals: map<string, string>, alias: string, key: string) {
    alias in vals && vals[alias] == key
  }

  function GroupOf(groups: map<string, seq<string>>, key: string): seq<string> {
    if key in groups then groups[key] else []
  }

  ghost predicate Grouped(groups: map<string, seq<string>>, vals: map<string, string>, keys: seq<string>) {
    forall key :: GroupOf(groups, key) == AliasesOf(vals, keys, key)
  }

  lemma GroupedStep(groups: map<string, seq<string>>, vals: map<string, string>, keys: seq<string>, alias: string)
    requires Grouped(groups, vals, keys) && alias in vals
    ensures var key := vals[alias];
            Grouped(groups[key := GroupOf(groups, key) + [alias]], vals, keys + [alias])
  {
    var key, all := vals[alias], keys + [alias];
    var after := groups[key := GroupOf(groups, key) + [alias]];
    assert all[..|keys|] == keys;
    forall k ensures GroupOf(after, k) == AliasesOf(vals, all, k) {
      assert GroupOf(groups, k) == AliasesOf(vals, keys, k);
    }
  }

  /** The status listing: one row a session, in insertion order, with its aliases sorted. */
  function Listing<S>(r: RegistryState<S>): (rows: seq<Row<S>>)
    requires r.sessions.Valid() && r.aliases.Valid()
    ensures |rows| == |r.sessions.keys|
  {
    seq(|r.sessions.keys|, i requires 0 <= i < |r.sessions.keys| && r.sessions.keys[i] in r.sessions.vals =>
      RowOf(r, r.sessions.keys[i]))
  }

  function RowOf<S>(r: RegistryState<S>, key: string): Row<S>
    requires r.aliases.Valid() && key in r.sessions.vals
  {
    Row(r.sessions.vals[key], Sorted(AliasesOf(r.aliases.vals, r.aliases.keys, key)))
  }

  lemma RowGrouped<S>(r: RegistryState<S>, groups: map<string, seq<string>>, key: string)
    requires r.aliases.Valid() && key in r.sessions.vals
    requires Grouped(groups, r.aliases.vals, r.aliases.keys)
    ensures RowOf(r, key) == Row(r.sessions.vals[key], Sorted(GroupOf(groups, key)))
  {
    assert GroupOf(groups, key) == AliasesOf(r.aliases.vals, r.aliases.keys, key);
  }

  // ---------- the registry object ----------

  class DeviceRegistry {
    var sessions: Dict<DeviceSession>
    var aliases: Dict<string>

    ghost function State(): RegistryState<DeviceSession>
      reads this
    {
      RegistryState(sessions, aliases)
    }

    ghost predicate Valid()
      reads this
    {
      Routed(State()) && Canonical(State())
    }

    constructor ()
      ensures Valid()
      ensures State() == RegistryState(Dict([], map[]), Dict([], map[]))
    {
      sessions := Dict([], map[]);
      aliases := Dict([], map[]);
    }

    method Add(session: DeviceSession) returns (r: Result<(), ValueError>)
      requires Valid()
      modifies this
      ensures Valid()
      ensures match Normalize(session.address)
              case Ok(key) => r == Ok(()) && State() == Added(old(State()), key, session)
              case Err(e) => r == Err(e) && State() == old(State())
    {
      var key :- Normalize(session.address);
      NormalizeIdempotent(session.address);
      sessions := sessions.Put(key, session);
      return Ok(());
    }

    method Get(address: string) returns (r: Result<Option<DeviceSession>, ValueError>)
      ensures r == Lookup(State(), address)
    {
      var normalized :- Normalize(address);
      if normalized in sessions.vals {
        return Ok(Some(sessions.vals[normalized]));
      }
      if normalized !in aliases.vals {
        return Ok(None);
      }
      return Ok(sessions.Get(aliases.vals[normalized]));
    }

    method RegisterAlias(alias: string, canonicalAddress: string) returns (r: Result<(), ValueError>)
      requires Valid()
      modifies this`aliases
      ensures Valid()
      ensures match Aliased(old(State()), alias, canonicalAddress)
              case Ok(next) => r == Ok(()) && State() == next
              case Err(e) => r == Err(e) && State() == old(State())
    {
      var normalizedAlias :- Normalize(alias);
      var normalizedCanonical :- Normalize(canonicalAddress);
      NormalizeIdempotent(alias);
      if normalizedCanonical in sessions.vals {
        aliases := aliases.Put(normalizedAlias, normalizedCanonical);
      }
      return Ok(());
    }

    method ResolveAddress(address: string) returns (r: Result<string, ValueError>)
      ensures r == Resolve(State(), address)
    {
      var normalized :- Normalize(address);
      if normalized in sessions.vals {
        return Ok(normalized);
      }
      if normalized in aliases.vals {
        return Ok(aliases.vals[normalized]);
      }
      return Ok(normalized);
    }

    /** Queues the command on the session it is routed to, and on no other. */
    method SendCommand(command: CommandEvent) returns (r: Result<bool, ValueError>)
      modifies sessions.vals.Values`commandQueue
      ensures match Lookup(State(), command.address)
              case Err(e) => r == Err(e) && forall s :: s in sessions.vals.Values ==> unchanged(s`commandQueue)
              case Ok(None) => r == Ok(false) && forall s :: s in sessions.vals.Values ==> unchanged(s`commandQueue)
              case Ok(Some(session)) =>
                && r == Ok(true)
                && session.commandQueue == old(session.commandQueue) + [command]
                && forall s :: s in sessions.vals.Values && s != session ==> unchanged(s`commandQueue)
    {
      var session :- Get(command.address);
      if session == None {
        return Ok(false);
      }
      FoundIsListed(State(), Normalize(command.address).value);
      session.value.SendCommand(command);
      return Ok(true);
    }

    /** Groups the aliases by their session, in one pass. */
    method GroupAliases() returns (aliasMap: map<string, seq<string>>)
      requires aliases.Valid()
      ensures Grouped(aliasMap, aliases.vals, aliases.keys)
    {
      aliasMap := map[];
      for i := 0 to |aliases.keys|
        invariant Grouped(aliasMap, aliases.vals, aliases.keys[..i])
      {
        var alias := aliases.keys[i];
        var canonical := aliases.vals[alias];
        GroupedStep(aliasMap, aliases.vals, aliases.keys[..i], alias);
        assert aliases.keys[..i + 1] == aliases.keys[..i] + [alias];
        aliasMap := aliasMap[canonical := GroupOf(aliasMap, canonical) + [alias]];
      }
      assert aliases.keys[..|aliases.keys|] == aliases.keys;
    }

    method ListStatus() returns (rows: seq<Row<DeviceSession>>)
      requires sessions.Valid() && aliases.Valid()
      ensures rows == Listing(State())
    {
      var aliasMap := GroupAliases();
      rows := [];
      for i := 0 to |sessions.keys|
        invariant rows == Listing(State())[..i]
      {
        var address := sessions.keys[i];
        RowGrouped(State(), aliasMap, address);
        rows := rows + [Row(sessions.vals[address], Sorted(GroupOf(aliasMap, address)))];
      }
    }
  }

  lemma FoundIsListed<S>(r: RegistryState<S>, address: string)
    ensures Find(r, address).Some? ==> Find(r, address).value in r.sessions.vals.Values
  {
    var session := Find(r, address);
    if session.Some? {
      if address in r.sessions.vals {
        assert r.sessions.vals[address] in r.sessions.vals.Values;
      } else {
        assert r.sessions.vals[r.aliases.vals[address]] in r.sessions.vals.Values;
      }
    }
  }
}

/** The BLE central: the only place where sessions enter the registry. */
module Central {
  import opened Common
  import opened MacAddress
  import opened Session
  import opened Registry

  /** Routing after `ensure_target`: a session is added only when the address leads nowhere. */
  function Ensured<S>(r: RegistryState<S>, address: string, newSession: S): RegistryState<S> {
    match Normalize(address)
    case Err(_) => r
    case Ok(key) => if Find(r, key).Some? then r else Added(r, key, newSession)
  }

  /** The session made for a target that is new: started, and waiting. */
  function Opened(target: Target, key: string): SessionState {
    AfterCall(NewState(target, key), Start).state
  }

  /** The registry together with the address each of its sessions has now. */
  datatype Wiring<!S> = Wiring(registry: RegistryState<S>, addresses: map<S, string>)

  /** The wiring after `ensure_target`: an old session takes the address, as does a new one. */
  function Rewired<S(==)>(w: Wiring<S>, address: string, newSession: S): Wiring<S> {
    match Normalize(address)
    case Err(_) => w
    case Ok(key) =>
      match Find(w.registry, key)
      case Some(session) => w.(addresses := w.addresses[session := key])
      case None => Wiring(Added(w.registry, key, newSession), w.addresses[newSession := key])
  }

  lemma AddedValues<S>(m: map<string, S>, key: string, session: S)
    requires key !in m
    ensures m[key := session].Values == m.Values + {session}
  {
    var n := m[key := session];
    assert n[key] == session;
    forall s | s in m.Values ensures s in n.Values {
      var k :| k in m && m[k] == s;
      assert n[k] == s;
    }
  }

  class BleCentral {
    const registry: DeviceRegistry

    constructor (registry: DeviceRegistry)
      ensures this.registry == registry
    {
      this.registry := registry;
    }

    ghost function WiringNow(): Wiring<DeviceSession>
      reads registry, registry.sessions.vals.Values`address
    {
      Wiring(registry.State(), map s | s in registry.sessions.vals.Values :: s.address)
    }

    /** Changed addresses and routes together make the wiring that `ensure_target` leaves. */
    twostate lemma WiringFollows(address: string, new session: DeviceSession)
      requires Normalize(address).Ok? && session.address == Normalize(address).value
      requires registry.State() == Ensured(old(registry.State()), address, session)
      requires var found := Find(old(registry.State()), Normalize(address).value);
               found.Some? ==> found.value == session
      requires forall s :: s in old(registry.sessions.vals.Values) && s != session ==> s.address == old(s.address)
      ensures WiringNow() == Rewired(old(WiringNow()), address, session)
    {
      var key := Normalize(address).value;
      var before := old(registry.sessions.vals);
      if Find(old(registry.State()), key).None? {
        AddedValues(before, key, session);
      } else {
        FoundIsListed(old(registry.State()), key);
      }
    }

    /** Creates a session, stores it and starts it. */
    method Open(target: Target, address: string) returns (session: DeviceSession)
      requires registry.Valid() && Normalize(target.address) == Ok(address) && Normalize(address) == Ok(address)
      modifies registry
      ensures registry.Valid() && registry.State() == Added(old(registry.State()), address, session)
      ensures fresh(session) && session.Valid()
      ensures session.State() == Opened(target, address) && session.address == address
    {
      session :- assert DeviceSession.Create(target);
      var added := registry.Add(session);
      session.Start();
    }

    /** Starts a new session, or retargets the one the address already leads to. */
    method EnsureTarget(target: Target) returns (r: Result<DeviceSession, ValueError>)
      requires registry.Valid()
      modifies registry, registry.sessions.vals.Values
      ensures registry.Valid()
      ensures r.Ok? <==> Normalize(target.address).Ok?
      ensures r.Err? ==> registry.State() == old(registry.State())
      ensures r.Ok? ==>
                var found := Find(old(registry.State()), Normalize(target.address).value);
                && registry.State() == Ensured(old(registry.State()), target.address, r.value)
                && (if found.Some? then
                      && r.value == found.value
                      && r.value.State() == AfterCall(old(found.value.State()), UpdateTarget(target)).state
                    else
                      && fresh(r.value) && r.value.Valid()
                      && r.value.State() == Opened(target, Normalize(target.address).value))
      ensures WiringNow() == if r.Ok? then Rewired(old(WiringNow()), target.address, r.value) else old(WiringNow())
      ensures forall s :: s in old(registry.sessions.vals.Values) ==> s.commandQueue == old(s.commandQueue)
      ensures r.Ok? ==> forall s :: s in old(registry.sessions.vals.Values) && s != r.value ==> unchanged(s)
      ensures r.Ok? && r.value !in old(registry.sessions.vals.Values) ==> r.value.commandQueue == []
    {
      var address :- Normalize(target.address);
      NormalizeIdempotent(target.address);
      var known :- assert registry.Get(address);
      if known == None {
        var session := Open(target, address);
        WiringFollows(target.address, session);
        return Ok(session);
      }
      FoundIsListed(registry.State(), address);
      var updated := known.value.UpdateTarget(target);
      WiringFollows(target.address, known.value);
      return Ok(known.value);
    }
  }
}
