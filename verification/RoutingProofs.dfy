/** Where the commands for a frame's MAC go: exactly when back to the session that sent it. */
module RoutingProofs {
  import opened Common
  import opened MacAddress
  import opened Codec
  import opened Estimator
  import opened Registry
  import opened Central
  import opened RegistryProofs
  import opened RawLog
  import opened Hub

  // ---------- the addresses of sessions, over runs ----------

  function Wire<S(==)>(w: Wiring<S>, step: RouteStep<S>): Wiring<S> {
    match step
    case Ensure(address, newSession) => Rewired(w, address, newSession)
    case Alias(_, _) => w.(registry := Route(w.registry, step))
  }

  function WireAll<S(==)>(w: Wiring<S>, steps: seq<RouteStep<S>>): Wiring<S>
    decreases |steps|
  {
    if steps == [] then w else WireAll(Wire(w, steps[0]), steps[1..])
  }

  /** The hub before any session: nothing registered. */
  function Unwired<S>(): Wiring<S> {
    Wiring(RegistryState(Dict([], map[]), Dict([], map[])), map[])
  }

  /** Every session that a step brings along is a new object. */
  predicate NewSessions<S(==)>(w: Wiring<S>, steps: seq<RouteStep<S>>)
    decreases |steps|
  {
    steps == [] ||
    ((steps[0].Ensure? ==> steps[0].newSession !in w.addresses) && NewSessions(Wire(w, steps[0]), steps[1..]))
  }

  /** The addresses the session stored under `key` can have: the key, or an alias that is no key. */
  predicate Held<S>(r: RegistryState<S>, key: string, address: string) {
    address == key || (address in r.aliases.vals && address !in r.sessions.vals)
  }

  /** Distinct keys hold distinct sessions, each with an address it can have. */
  ghost predicate WiredRight<S>(w: Wiring<S>) {
    var sessions := w.registry.sessions.vals;
    && Routed(w.registry) && Canonical(w.registry)
    && (forall k :: k in sessions ==> sessions[k] in w.addresses && Held(w.registry, k, w.addresses[sessions[k]]))
    && (forall k, l :: k in sessions && l in sessions && sessions[k] == sessions[l] ==> k == l)
  }

  lemma WiringKept<S>(w: Wiring<S>, step: RouteStep<S>)
    requires WiredRight(w) && (step.Ensure? ==> step.newSession !in w.addresses)
    ensures WiredRight(Wire(w, step)) && Wire(w, step).registry == Route(w.registry, step)
  {
    RoutingKept(w.registry, step);
    match step
    case Ensure(address, newSession) =>
      if Normalize(address).Ok? {
        EnsureKeepsWiring(w, Normalize(address).value, address, newSession);
      }
    case Alias(alias, canonical) =>
  }

  lemma EnsureKeepsWiring<S>(w: Wiring<S>, key: string, address: string, newSession: S)
    requires WiredRight(w) && newSession !in w.addresses && Normalize(address) == Ok(key)
    requires Routed(Ensured(w.registry, address, newSession)) && Canonical(Ensured(w.registry, address, newSession))
    ensures WiredRight(Rewired(w, address, newSession))
  {
    if Find(w.registry, key).Some? {
      RetargetKeepsWiring(w, key, Find(w.registry, key).value);
    } else {
      AddingKeepsWiring(w, key, newSession);
    }
  }

  /** An old session takes the address through which it was found. */
  lemma RetargetKeepsWiring<S>(w: Wiring<S>, key: string, session: S)
    requires WiredRight(w) && Find(w.registry, key) == Some(session)
    ensures WiredRight(w.(addresses := w.addresses[session := key]))
  {
    var sessions := w.registry.sessions.vals;
    forall k | k in sessions
      ensures Held(w.registry, k, w.addresses[session := key][sessions[k]])
    {
      assert sessions[k] in w.addresses && Held(w.registry, k, w.addresses[sessions[k]]);
      if sessions[k] == session && key in sessions {
        assert k == key;
      }
    }
  }

  /** A new session is stored under an address that led nowhere. */
  lemma AddingKeepsWiring<S>(w: Wiring<S>, key: string, session: S)
    requires WiredRight(w) && Find(w.registry, key).None? && session !in w.addresses
    requires Routed(Added(w.registry, key, session)) && Canonical(Added(w.registry, key, session))
    ensures WiredRight(Wiring(Added(w.registry, key, session), w.addresses[session := key]))
  {
    var sessions := w.registry.sessions.vals;
    assert key !in sessions && key !in w.registry.aliases.vals;
    forall k | k in sessions
      ensures sessions[k] in w.addresses && Held(Added(w.registry, key, session), k, w.addresses[sessions[k]])
    {
      assert Held(w.registry, k, w.addresses[sessions[k]]);
    }
  }

  /** In every run of the hub from nothing, the wiring is right. */
  lemma {:induction false} WiringReachable<S>(w: Wiring<S>, steps: seq<RouteStep<S>>)
    requires WiredRight(w) && NewSessions(w, steps)
    ensures WiredRight(WireAll(w, steps))
    ensures WireAll(w, steps).registry == RouteAll(w.registry, steps)
    ensures WiredRight(Unwired<S>())
    decreases |steps|
  {
    if steps == [] {
    } else {
      WiringKept(w, steps[0]);
      WiringReachable(Wire(w, steps[0]), steps[1..]);
    }
  }

  /** A session whose address is a key is the one stored under that key. */
  lemma DeliveringSession<S>(w: Wiring<S>, k: string)
    requires WiredRight(w) && k in w.registry.sessions.vals
    ensures var address := w.addresses[w.registry.sessions.vals[k]];
            && Normalize(address) == Ok(address)
            && (address in w.registry.sessions.vals <==> address == k)
  {
    assert Held(w.registry, k, w.addresses[w.registry.sessions.vals[k]]);
  }

  /** Every session has the key under which it is stored for its address. */
  ghost predicate OwnKeys<S>(w: Wiring<S>)
    requires WiredRight(w)
  {
    forall k :: k in w.registry.sessions.vals ==> w.addresses[w.registry.sessions.vals[k]] == k
  }

  /** Exactly when a target takes a session away from its key: when its address is a recorded
      alias that is no key. No other step does. */
  lemma OwnKeysIff<S>(w: Wiring<S>, step: RouteStep<S>)
    requires WiredRight(w) && OwnKeys(w) && (step.Ensure? ==> step.newSession !in w.addresses)
    ensures WiredRight(Wire(w, step))
    ensures !OwnKeys(Wire(w, step)) <==>
            && step.Ensure? && Normalize(step.address).Ok?
            && Normalize(step.address).value in w.registry.aliases.vals
            && Normalize(step.address).value !in w.registry.sessions.vals
  {
    WiringKept(w, step);
    match step
    case Ensure(address, newSession) =>
      if Normalize(address).Ok? {
        var key := Normalize(address).value;
        if Find(w.registry, key).Some? {
          RetargetOwnKeys(w, key, Find(w.registry, key).value);
        } else {
          AddingOwnKeys(w, key, newSession);
        }
      }
    case Alias(_, _) =>
  }

  lemma RetargetOwnKeys<S>(w: Wiring<S>, key: string, session: S)
    requires WiredRight(w) && OwnKeys(w) && Find(w.registry, key) == Some(session)
    requires WiredRight(w.(addresses := w.addresses[session := key]))
    ensures OwnKeys(w.(addresses := w.addresses[session := key])) <==> key in w.registry.sessions.vals
  {
    var sessions, t := w.registry.sessions.vals, w.(addresses := w.addresses[session := key]);
    if key !in sessions {
      assert t.addresses[sessions[w.registry.aliases.vals[key]]] == key;
    } else {
      forall k | k in sessions ensures t.addresses[sessions[k]] == k {
        assert w.addresses[sessions[k]] == k;
      }
    }
  }

  lemma AddingOwnKeys<S>(w: Wiring<S>, key: string, session: S)
    requires WiredRight(w) && OwnKeys(w) && Find(w.registry, key).None? && session !in w.addresses
    requires WiredRight(Wiring(Added(w.registry, key, session), w.addresses[session := key]))
    ensures OwnKeys(Wiring(Added(w.registry, key, session), w.addresses[session := key]))
  {
    forall k | k in w.registry.sessions.vals ensures w.addresses[session := key][w.registry.sessions.vals[k]] == k {
      assert w.registry.sessions.vals[k] in w.addresses;
    }
  }

  /** An address that a session has had stays one it can have: a frame handed on under an
      address that was replaced meanwhile is still covered by what follows. */
  lemma HeldForever<S(!new)>(r: RegistryState<S>, steps: seq<RouteStep<S>>, key: string, address: string)
    requires Routed(r) && Canonical(r) && key in r.sessions.vals && Held(r, key, address)
    ensures Held(RouteAll(r, steps), key, address)
  {
    RoutesArePermanent(r, steps);
    if address != key {
      assert Find(r, address).Some?;
    }
  }

  // ---------- where a frame's MAC leads ----------

  /** After a frame, its MAC leads to the session stored under the source address, unless that
      MAC is itself the address of a session; then it leads to that one. */
  lemma FrameMacRoutesBack<S>(r: RegistryState<S>, mac: string, source: string)
    requires Normalize(mac) == Ok(mac) && Normalize(source) == Ok(source) && source in r.sessions.vals
    ensures Find(AliasLearned(r, mac, source), mac)
         == Some(if mac in r.sessions.vals then r.sessions.vals[mac] else r.sessions.vals[source])
  {
  }

  /** Exactly when commands for a frame's MAC go back to the session that delivered the frame,
      the one stored under `key`, under an address it has or has had. */
  lemma RoutesBackIff<S>(r: RegistryState<S>, key: string, source: string, mac: string)
    requires Routed(r) && Canonical(r) && key in r.sessions.vals && Held(r, key, source)
    requires Normalize(mac) == Ok(mac)
    requires forall k :: k in r.sessions.vals && r.sessions.vals[k] == r.sessions.vals[key] ==> k == key
    ensures Find(AliasLearned(r, mac, source), mac) == Some(r.sessions.vals[key])
            <==> (mac == key || (mac !in r.sessions.vals
                                 && (source == key || (mac in r.aliases.vals && r.aliases.vals[mac] == key))))
  {
    assert Normalize(source) == Ok(source);
    if source == key {
      FrameMacRoutesBack(r, mac, source);
    } else {
      assert AliasLearned(r, mac, source) == r;
    }
  }

  /** In every reachable wiring: the condition in terms of the delivering session's own address. */
  lemma FrameRoutesBackIff<S>(w: Wiring<S>, key: string, mac: string)
    requires WiredRight(w) && key in w.registry.sessions.vals && Normalize(mac) == Ok(mac)
    ensures var r, session := w.registry, w.registry.sessions.vals[key];
            Find(AliasLearned(r, mac, w.addresses[session]), mac) == Some(session)
            <==> (mac == key || (mac !in r.sessions.vals
                                 && (w.addresses[session] == key
                                     || (mac in r.aliases.vals && r.aliases.vals[mac] == key))))
  {
    RoutesBackIff(w.registry, key, w.addresses[w.registry.sessions.vals[key]], mac);
  }

  /** A target seen, a frame with another MAC, that MAC seen as a target, and a frame with a
      third MAC: the run in which the promise fails. */
  function AliasedTargetRun<S>(key: string, alias: string, session: S, unused: S): seq<RouteStep<S>> {
    [Ensure(key, session), Alias(alias, key), Ensure(alias, unused)]
  }

  /** That run leaves the session with the alias for an address; a frame it then delivers
      teaches the registry nothing, and a command for the frame's MAC is dropped. */
  lemma AliasedTargetDropsCommands<S>(
    key: string, alias: string, mac: string, session: S, unused: S, queues: Queues<S>, command: CommandEvent)
    requires Normalize(key) == Ok(key) && Normalize(alias) == Ok(alias) && Normalize(mac) == Ok(mac)
    requires key != alias && alias != mac && mac != key && session != unused
    requires command.address == mac
    ensures NewSessions(Unwired(), AliasedTargetRun(key, alias, session, unused))
    ensures var w := WireAll(Unwired(), AliasedTargetRun(key, alias, session, unused));
            && w.registry.sessions.vals == map[key := session] && w.addresses == map[session := alias]
            && AliasLearned(w.registry, mac, alias) == w.registry
            && Find(w.registry, mac).None? && Dispatched(w.registry, queues, command) == queues
  {
    var steps := AliasedTargetRun(key, alias, session, unused);
    var w1 := Wire(Unwired<S>(), steps[0]);
    var w2 := Wire(w1, steps[1]);
    var w3 := Wire(w2, steps[2]);
    assert w1.registry.sessions.vals == map[key := session] && w1.addresses == map[session := key];
    assert w2.registry.aliases.vals == map[alias := key];
    assert w3.addresses == map[session := alias];
    assert steps[1..] == [steps[1], steps[2]] && steps[1..][1..] == [steps[2]] && [steps[2]][1..] == [];
    assert WireAll(w2, [steps[2]]) == WireAll(w3, []) == w3;
    assert WireAll(w1, steps[1..]) == w3;
    assert NewSessions(w2, [steps[2]]);
    assert NewSessions(w1, steps[1..]);
  }

  // ---------- what dispatching does ----------

  /** The commands that lead to a session, in order. */
  function RoutedTo<S(==)>(r: RegistryState<S>, commands: seq<CommandEvent>, session: S): seq<CommandEvent> {
    if commands == [] then []
    else (if Lookup(r, commands[0].address) == Ok(Some(session)) then [commands[0]] else [])
         + RoutedTo(r, commands[1..], session)
  }

  /** Dispatching appends to every queue exactly the commands that lead to its session. */
  lemma {:induction false} DispatchIsExact<S>(
    r: RegistryState<S>, queues: Queues<S>, commands: seq<CommandEvent>, session: S)
    requires session in queues
    ensures var after := DispatchedAll(r, queues, commands);
            session in after && after[session] == queues[session] + RoutedTo(r, commands, session)
    decreases |commands|
  {
    if commands == [] {
      assert queues[session] + [] == queues[session];
    } else {
      var next := Dispatched(r, queues, commands[0]);
      DispatchIsExact(r, next, commands[1..], session);
      if Lookup(r, commands[0].address) == Ok(Some(session)) {
        Assoc(queues[session], [commands[0]], RoutedTo(r, commands[1..], session));
      } else {
        assert next[session] == queues[session];
      }
    }
  }

  /** Exactly when the enter command of a node newly entered is the next one queued on the session
      that delivered its frame: when the frame's MAC leads back to that session. */
  lemma EnterGoesBack<S>(
    layout: Layout, h: HubState<S>, w: Wiring<S>, key: string, frame: ParsedFrame, packet: RawDataPacket, now: real)
    requires WiredRight(w) && h.registry == w.registry && key in w.registry.sessions.vals
    requires w.registry.sessions.vals[key] in h.queues
    requires frame.parsed == RawData(packet) && Normalize(frame.mac) == Ok(frame.mac)
    requires Effective(EventOf(h.configs, frame, packet, now)).Enter? && h.status.lastAddress != Some(frame.mac)
    ensures var r, session := w.registry, w.registry.sessions.vals[key];
            var before := h.queues[session];
            var queues := Handled(layout, h, Delivery(w.addresses[session], frame), now).queues;
            && session in queues && before <= queues[session]
            && (OpensWithEnter(queues[session][|before|..], frame.mac)
                <==> (frame.mac == key || (frame.mac !in r.sessions.vals
                                           && (w.addresses[session] == key
                                               || (frame.mac in r.aliases.vals && r.aliases.vals[frame.mac] == key)))))
  {
    var session, event := w.registry.sessions.vals[key], EventOf(h.configs, frame, packet, now);
    DeliveringSession(w, key);
    var r := AliasLearned(h.registry, frame.mac, w.addresses[session]);
    var commands := CommandsFor(h.status, Effective(event));
    FrameRoutesBackIff(w, key, frame.mac);
    DispatchIsExact(r, h.queues, commands, session);
    EnterFirst(h.status, event);
    EnterRouted(r, commands, session, frame.mac);
  }

  /** Whether an enter command for a node comes first. */
  predicate OpensWithEnter(commands: seq<CommandEvent>, mac: string) {
    commands != [] && commands[0].command == "strong_enter" && commands[0].address == mac
  }

  lemma EnterRouted<S>(r: RegistryState<S>, commands: seq<CommandEvent>, session: S, mac: string)
    requires OpensWithEnter(commands, mac) && Normalize(mac) == Ok(mac)
    requires |commands| == 1 || (|commands| == 2 && commands[1].command == "strong_exit")
    ensures OpensWithEnter(RoutedTo(r, commands, session), mac) <==> Find(r, mac) == Some(session)
  {
    var later := RoutedTo(r, commands[1..], session);
    assert |commands| == 1 ==> later == [];
    assert |commands| == 2 ==> commands[1..] == [commands[1]] && RoutedTo(r, commands[1..][1..], session) == [];
  }

  lemma EnterFirst(status: UnitspaceStatus, event: RawDataEvent)
    requires Effective(event).Enter? && status.lastAddress != Some(Effective(event).address)
    ensures var commands := CommandsFor(status, Effective(event));
            && OpensWithEnter(commands, Effective(event).address)
            && (|commands| == 1 || (|commands| == 2 && commands[1].command == "strong_exit"))
    ensures Normalize(event.mac) == Ok(Effective(event).address)
  {
  }

  // ---------- the last teaching decides ----------

  /** Whether the step, taken in `r`, points `mac` to a session: an alias for it, recorded for a
      key and not shadowed by a key of its own. */
  predicate Teaches<S>(r: RegistryState<S>, step: RouteStep<S>, mac: string) {
    && step.Alias? && Normalize(step.alias) == Ok(mac) && Normalize(step.canonical).Ok?
    && Normalize(step.canonical).value in r.sessions.vals && mac !in r.sessions.vals
  }

  /** The session that last taught `mac` in a run, else the one made for it, else what it led to. */
  function LastTeacher<S>(r: RegistryState<S>, steps: seq<RouteStep<S>>, mac: string): Option<S> {
    if steps == [] then Find(r, mac)
    else
      var most, last := steps[..|steps| - 1], steps[|steps| - 1];
      var here, before := RouteAll(r, most), LastTeacher(r, most, mac);
      if Teaches(here, last, mac) then Some(here.sessions.vals[Normalize(last.canonical).value])
      else if last.Ensure? && Normalize(last.address) == Ok(mac) && before.None? then Some(last.newSession)
      else before
  }

  lemma {:induction false} RouteAllSnoc<S>(r: RegistryState<S>, steps: seq<RouteStep<S>>, step: RouteStep<S>)
    ensures RouteAll(r, steps + [step]) == Route(RouteAll(r, steps), step)
    decreases |steps|
  {
    if steps == [] {
      assert [step][1..] == [];
    } else {
      RouteAllSnoc(Route(r, steps[0]), steps[1..], step);
      assert (steps + [step])[1..] == steps[1..] + [step];
    }
  }

  /** Where an address leads after one step. */
  lemma StepLeads<S>(r: RegistryState<S>, step: RouteStep<S>, mac: string)
    requires Routed(r) && Canonical(r)
    ensures Find(Route(r, step), mac)
         == if Teaches(r, step, mac) then Some(r.sessions.vals[Normalize(step.canonical).value])
            else if step.Ensure? && Normalize(step.address) == Ok(mac) && Find(r, mac).None? then Some(step.newSession)
            else Find(r, mac)
  {
    match step
    case Ensure(address, newSession) =>
      if Normalize(address).Ok? && Find(r, Normalize(address).value).None? {
        assert Normalize(address).value !in r.sessions.vals.Keys + r.aliases.vals.Keys;
      }
    case Alias(_, _) =>
  }

  /** Routing, told by its history: over any run, an address leads to the session that last taught
      it, however often other sessions, aliases and targets came in between. */
  lemma {:induction false} LastTeachingDecides<S(!new)>(r: RegistryState<S>, steps: seq<RouteStep<S>>, mac: string)
    requires Routed(r) && Canonical(r)
    ensures Find(RouteAll(r, steps), mac) == LastTeacher(r, steps, mac)
    decreases |steps|
  {
    if steps == [] {
    } else {
      var most, last := steps[..|steps| - 1], steps[|steps| - 1];
      LastTeachingDecides(r, most, mac);
      RoutesArePermanent(r, most);
      RouteAllSnoc(r, most, last);
      assert steps == most + [last];
      StepLeads(RouteAll(r, most), last, mac);
    }
  }

  /** No step of the run names `mac` as an alias. */
  predicate NotTaught<S>(steps: seq<RouteStep<S>>, mac: string) {
    forall k :: 0 <= k < |steps| && steps[k].Alias? ==> Normalize(steps[k].alias) != Ok(mac)
  }

  /** An address that leads somewhere goes on leading there until it is taught again. */
  lemma {:induction false} UntaughtStays<S>(r: RegistryState<S>, steps: seq<RouteStep<S>>, mac: string)
    requires Find(r, mac).Some? && NotTaught(steps, mac)
    ensures LastTeacher(r, steps, mac) == Find(r, mac)
    decreases |steps|
  {
    if steps == [] {
    } else {
      UntaughtStays(r, steps[..|steps| - 1], mac);
    }
  }

  /** The exit command of a node displaced by another goes to the session through which the node's
      own frame came, whatever was routed in between, as long as the node was not heard again; or
      to the node's own session, if its MAC is a key. */
  lemma ExitGoesBack<S(!new)>(
    layout: Layout, r: RegistryState<S>, key: string, mac: string, steps: seq<RouteStep<S>>,
    h: HubState<S>, d: Delivery, now: real)
    requires Routed(r) && Canonical(r) && key in r.sessions.vals && Normalize(mac) == Ok(mac)
    requires h.registry == RouteAll(AliasLearned(r, mac, key), steps) && NotTaught(steps, mac)
    requires h.status.lastAddress == Some(mac)
    requires Welcome(d) && d.frame.parsed.RawData? && Normalize(d.frame.mac) != Ok(mac)
    requires Effective(EventOf(h.configs, d.frame, d.frame.parsed.packet, now)).Enter?
    ensures var session := r.sessions.vals[if mac in r.sessions.vals then mac else key];
            var queues := Handled(layout, h, d, now).queues;
            session in h.queues ==>
              && session in queues && h.queues[session] < queues[session]
              && queues[session][|queues[session]| - 1] == CommandEvent(mac, "strong_exit", PreviousLocation(h.status))
  {
    var session := r.sessions.vals[if mac in r.sessions.vals then mac else key];
    var step := Alias(d.frame.mac, d.source);
    TaughtStays(r, key, mac, steps + [step]);
    RouteAllSnoc(AliasLearned(r, mac, key), steps, step);
    if session in h.queues {
      ExitQueued(layout, h, mac, d, now, session);
    }
  }

  /** The exit command of the remembered node is queued last, where its MAC leads. */
  lemma ExitQueued<S>(layout: Layout, h: HubState<S>, mac: string, d: Delivery, now: real, session: S)
    requires h.status.lastAddress == Some(mac) && Normalize(mac) == Ok(mac) && session in h.queues
    requires Welcome(d) && d.frame.parsed.RawData?
    requires Normalize(d.frame.mac) != Ok(mac)
    requires Find(Route(h.registry, Alias(d.frame.mac, d.source)), mac) == Some(session)
    requires Effective(EventOf(h.configs, d.frame, d.frame.parsed.packet, now)).Enter?
    ensures var queues := Handled(layout, h, d, now).queues;
            && session in queues && h.queues[session] < queues[session]
            && queues[session][|queues[session]| - 1] == CommandEvent(mac, "strong_exit", PreviousLocation(h.status))
  {
    var commands := CommandsFor(h.status, Effective(EventOf(h.configs, d.frame, d.frame.parsed.packet, now)));
    QueuesHandled(layout, h, d, now);
    LastRouted(Route(h.registry, Alias(d.frame.mac, d.source)), h.queues, commands, session);
  }

  lemma QueuesHandled<S>(layout: Layout, h: HubState<S>, d: Delivery, now: real)
    requires Welcome(d) && d.frame.parsed.RawData?
    ensures var commands := CommandsFor(h.status, Effective(EventOf(h.configs, d.frame, d.frame.parsed.packet, now)));
            Handled(layout, h, d, now).queues
              == DispatchedAll(Route(h.registry, Alias(d.frame.mac, d.source)), h.queues, commands)
  {
  }

  lemma TaughtStays<S(!new)>(r: RegistryState<S>, key: string, mac: string, steps: seq<RouteStep<S>>)
    requires Routed(r) && Canonical(r) && key in r.sessions.vals && Normalize(mac) == Ok(mac)
    requires NotTaught(steps, mac)
    ensures Find(RouteAll(AliasLearned(r, mac, key), steps), mac)
         == Some(r.sessions.vals[if mac in r.sessions.vals then mac else key])
  {
    FrameMacRoutesBack(r, mac, key);
    RoutingKept(r, Alias(mac, key));
    LastTeachingDecides(AliasLearned(r, mac, key), steps, mac);
    UntaughtStays(AliasLearned(r, mac, key), steps, mac);
  }

  lemma LastRouted<S>(r: RegistryState<S>, queues: Queues<S>, commands: seq<CommandEvent>, session: S)
    requires |commands| == 2 && Lookup(r, commands[1].address) == Ok(Some(session)) && session in queues
    ensures var after := DispatchedAll(r, queues, commands);
            && session in after && queues[session] < after[session]
            && after[session][|after[session]| - 1] == commands[1]
  {
    DispatchIsExact(r, queues, commands, session);
    assert commands[1..] == [commands[1]] && RoutedTo(r, commands[1..], session) == [commands[1]];
  }
}
