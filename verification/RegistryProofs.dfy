/** Theorems about routing over whole runs, and about the status listing. */
module RegistryProofs {
  import opened Common
  import opened MacAddress
  import opened Registry
  import opened Central

  // ---------- routing ----------

  /** One routing step of the running hub: a target seen by the central, with the session
      made for it if one is needed, or a frame's alias. */
  datatype RouteStep<S> = Ensure(address: string, newSession: S) | Alias(alias: string, canonical: string)

  function Route<S>(r: RegistryState<S>, step: RouteStep<S>): RegistryState<S> {
    match step
    case Ensure(address, newSession) => Ensured(r, address, newSession)
    case Alias(alias, canonical) =>
      match Aliased(r, alias, canonical)
      case Ok(next) => next
      case Err(_) => r
  }

  function RouteAll<S>(r: RegistryState<S>, steps: seq<RouteStep<S>>): RegistryState<S>
    decreases |steps|
  {
    if steps == [] then r else RouteAll(Route(r, steps[0]), steps[1..])
  }

  /** `get` is the session stored under `resolve_address`, one hop always suffices, and in a
      routed registry an alias always leads to a session. */
  lemma LookupIsResolve<S>(r: RegistryState<S>, address: string)
    requires Routed(r) && Canonical(r) && Normalize(address).Ok?
    ensures var key := Resolve(r, address).value;
            && Lookup(r, address) == Ok(r.sessions.Get(key))
            && Resolve(r, key) == Ok(key)
            && (Lookup(r, address).value.None? <==>
                  Normalize(address).value !in r.sessions.vals && Normalize(address).value !in r.aliases.vals)
  {
    NormalizeIdempotent(address);
  }

  /** The routing invariant survives every routing step. */
  lemma RoutingKept<S>(r: RegistryState<S>, step: RouteStep<S>)
    requires Routed(r) && Canonical(r)
    ensures Routed(Route(r, step)) && Canonical(Route(r, step))
  {
    match step
    case Ensure(address, _) =>
      if Normalize(address).Ok? {
        NormalizeIdempotent(address);
      }
    case Alias(alias, canonical) =>
      if Normalize(alias).Ok? {
        NormalizeIdempotent(alias);
      }
  }

  /** What a routing step may not disturb: no key changes its session, no address that leads
      somewhere through an alias becomes a key, and every address that leads somewhere still does. */
  ghost predicate Permanent<S(!new)>(r: RegistryState<S>, t: RegistryState<S>) {
    && (forall k :: k in r.sessions.vals ==> k in t.sessions.vals && t.sessions.vals[k] == r.sessions.vals[k])
    && (forall a :: Find(r, a).Some? && a !in r.sessions.vals ==> a !in t.sessions.vals)
    && (forall a :: Find(r, a).Some? ==> Find(t, a).Some?)
    && (forall a :: a in r.aliases.vals ==> a in t.aliases.vals)
  }

  lemma AddingIsPermanent<S(!new)>(r: RegistryState<S>, key: string, newSession: S)
    requires Routed(r) && Find(r, key).None?
    ensures Permanent(r, Added(r, key, newSession))
  {
    assert key !in r.sessions.vals;
  }

  lemma AliasingIsPermanent<S(!new)>(r: RegistryState<S>, alias: string, key: string)
    requires Routed(r) && key in r.sessions.vals
    ensures Permanent(r, r.(aliases := r.aliases.Put(alias, key)))
  {
  }

  lemma StepIsPermanent<S(!new)>(r: RegistryState<S>, step: RouteStep<S>)
    requires Routed(r) && Canonical(r)
    ensures Permanent(r, Route(r, step))
  {
    match step
    case Ensure(address, newSession) =>
      if Normalize(address).Ok? && Find(r, Normalize(address).value).None? {
        AddingIsPermanent(r, Normalize(address).value, newSession);
      }
    case Alias(alias, canonical) =>
      if Aliased(r, alias, canonical).Ok? && Normalize(canonical).value in r.sessions.vals {
        AliasingIsPermanent(r, Normalize(alias).value, Normalize(canonical).value);
      }
  }

  /** Route permanence: over any run in which sessions are added only by `ensure_target` and
      aliases only by `register_alias`. */
  lemma {:induction false} RoutesArePermanent<S(!new)>(r: RegistryState<S>, steps: seq<RouteStep<S>>)
    requires Routed(r) && Canonical(r)
    ensures Routed(RouteAll(r, steps)) && Canonical(RouteAll(r, steps))
    ensures Permanent(r, RouteAll(r, steps))
    decreases |steps|
  {
    if steps == [] {
    } else {
      var next := Route(r, steps[0]);
      RoutingKept(r, steps[0]);
      StepIsPermanent(r, steps[0]);
      RoutesArePermanent(next, steps[1..]);
      var t := RouteAll(next, steps[1..]);
      assert RouteAll(r, steps) == t;
      forall a | Find(r, a).Some? && a !in r.sessions.vals ensures a !in t.sessions.vals {
        assert Find(next, a).Some? && a !in next.sessions.vals;
      }
    }
  }

  /** Keys and aliases keep the places in which they were first stored; new ones come last. */
  lemma {:induction false} PlacesKept<S>(r: RegistryState<S>, steps: seq<RouteStep<S>>)
    ensures r.sessions.keys <= RouteAll(r, steps).sessions.keys
    ensures r.aliases.keys <= RouteAll(r, steps).aliases.keys
    decreases |steps|
  {
    if steps == [] {
    } else {
      PlacesKept(Route(r, steps[0]), steps[1..]);
    }
  }

  // ---------- the status listing ----------

  /** Where two strings part: up to there they are the same. */
  ghost predicate PartAt(a: string, b: string, n: nat) {
    n < |a| && n < |b| && a[..n] == b[..n] && a[n] < b[n]
  }

  lemma PartLater(a: string, b: string, n: nat)
    requires PartAt(a, b, n) && n > 0
    ensures a[0] == b[0]
  {
    assert a[..n][0] == b[..n][0];
  }

  /** The order is the dictionary's: a string comes before those it begins, and where two strings
      part, the smaller character comes first. */
  lemma {:induction false} StringLeMeaning(a: string, b: string)
    ensures StringLe(a, b) <==> a <= b || exists n: nat :: PartAt(a, b, n)
    decreases |a|
  {
    if a == "" || b == "" {
    } else if a[0] == b[0] {
      StringLeMeaning(a[1..], b[1..]);
      if exists n: nat :: PartAt(a[1..], b[1..], n) {
        var n: nat :| PartAt(a[1..], b[1..], n);
        assert a[..n + 1] == [a[0]] + a[1..][..n] && b[..n + 1] == [b[0]] + b[1..][..n];
        assert PartAt(a, b, n + 1);
      }
      if exists n: nat :: PartAt(a, b, n) {
        var n: nat :| PartAt(a, b, n);
        assert a[1..][..n - 1] == a[..n][1..] && b[1..][..n - 1] == b[..n][1..];
        assert PartAt(a[1..], b[1..], n - 1);
      }
      assert a <= b <==> a[1..] <= b[1..] by {
        assert a == [a[0]] + a[1..] && b == [b[0]] + b[1..];
      }
    } else {
      assert !(a <= b) by {
        assert a[0] != b[0];
      }
      if a[0] < b[0] {
        assert PartAt(a, b, 0);
      }
      if exists n: nat :: PartAt(a, b, n) {
        var n: nat :| PartAt(a, b, n);
        if n > 0 {
          PartLater(a, b, n);
        }
      }
    }
  }

  lemma {:induction false} StringLeTotal(a: string, b: string)
    ensures StringLe(a, b) || StringLe(b, a)
    decreases |a|
  {
    if a != "" && b != "" && a[0] == b[0] {
      StringLeTotal(a[1..], b[1..]);
    }
  }

  lemma {:induction false} StringLeTransitive(a: string, b: string, c: string)
    requires StringLe(a, b) && StringLe(b, c)
    ensures StringLe(a, c)
    decreases |a|
  {
    if a != "" && a[0] == b[0] && b[0] == c[0] {
      StringLeTransitive(a[1..], b[1..], c[1..]);
    }
  }

  ghost predicate InOrder(xs: seq<string>) {
    forall i, j :: 0 <= i < j < |xs| ==> StringLe(xs[i], xs[j])
  }

  lemma {:induction false} InsertKeeps(x: string, xs: seq<string>)
    ensures multiset(Insert(x, xs)) == multiset(xs) + multiset{x}
    decreases |xs|
  {
    if xs == [] {
    } else {
      InsertKeeps(x, xs[1..]);
      assert xs == [xs[0]] + xs[1..];
    }
  }

  lemma {:induction false} InsertSorts(x: string, xs: seq<string>)
    requires InOrder(xs)
    ensures InOrder(Insert(x, xs))
    decreases |xs|
  {
    if xs == [] {
    } else {
      StringLeTotal(x, xs[0]);
      if StringLe(x, xs[0]) {
        forall j | 0 < j < |xs| ensures StringLe(x, xs[j]) {
          StringLeTransitive(x, xs[0], xs[j]);
        }
      } else {
        InsertSorts(x, xs[1..]);
        FirstStaysFirst(x, xs);
      }
    }
  }

  lemma FirstStaysFirst(x: string, xs: seq<string>)
    requires xs != [] && InOrder(xs) && StringLe(xs[0], x)
    ensures forall y :: y in Insert(x, xs[1..]) ==> StringLe(xs[0], y)
  {
    InsertKeeps(x, xs[1..]);
    forall y | y in Insert(x, xs[1..]) ensures StringLe(xs[0], y) {
      assert y in multiset(Insert(x, xs[1..]));
      assert y == x || y in xs[1..];
    }
  }

  lemma MultisetCons(x: string, xs: seq<string>)
    ensures multiset([x] + xs) == multiset(xs) + multiset{x}
  {
  }

  /** `sorted` puts the strings in order and keeps each as often as it was there. */
  lemma {:induction false} SortedSorts(xs: seq<string>)
    ensures InOrder(Sorted(xs)) && multiset(Sorted(xs)) == multiset(xs)
  {
    if xs == [] {
    } else {
      var x, rest := xs[0], xs[1..];
      SortedSorts(rest);
      InsertSorts(x, Sorted(rest));
      InsertKeeps(x, Sorted(rest));
      MultisetCons(x, rest);
      assert xs == [x] + rest;
    }
  }

  lemma CountSnoc(xs: seq<string>, x: string, y: string)
    ensures multiset(xs + [x])[y] == multiset(xs)[y] + if x == y then 1 else 0
  {
  }

  lemma {:induction false} AliasesOfCount(vals: map<string, string>, keys: seq<string>, key: string, alias: string)
    ensures multiset(AliasesOf(vals, keys, key))[alias]
         == if PointsTo(vals, alias, key) then multiset(keys)[alias] else 0
    decreases |keys|
  {
    if keys == [] {
    } else {
      var most, last := keys[..|keys| - 1], keys[|keys| - 1];
      assert keys == most + [last];
      AliasesOfCount(vals, most, key, alias);
      CountSnoc(most, last, alias);
      CountSnoc(AliasesOf(vals, most, key), last, alias);
    }
  }

  lemma {:induction false} DistinctOnce(keys: seq<string>, i: nat)
    requires forall i, j :: 0 <= i < j < |keys| ==> keys[i] != keys[j]
    requires i < |keys|
    ensures multiset(keys)[keys[i]] == 1
  {
    assert keys == keys[..i] + [keys[i]] + keys[i + 1..];
    assert keys[i] !in keys[..i] && keys[i] !in keys[i + 1..];
  }

  /** The listing has one row a key, in order, each showing that key's session and its sorted
      aliases; an alias stands in a row exactly once if the row is its session's, else not. */
  lemma ListingInvertsAliases<S>(r: RegistryState<S>, i: nat, alias: string)
    requires Routed(r) && i < |r.sessions.keys|
    ensures var row, key := Listing(r)[i], r.sessions.keys[i];
            && row.session == r.sessions.vals[key]
            && InOrder(row.aliases)
            && multiset(row.aliases)[alias]
               == if PointsTo(r.aliases.vals, alias, key) then 1 else 0
  {
    var key := r.sessions.keys[i];
    var found := AliasesOf(r.aliases.vals, r.aliases.keys, key);
    SortedSorts(found);
    AliasesOfCount(r.aliases.vals, r.aliases.keys, key, alias);
    if alias in r.aliases.vals {
      var j :| 0 <= j < |r.aliases.keys| && r.aliases.keys[j] == alias;
      DistinctOnce(r.aliases.keys, j);
    }
  }

  lemma SortedLength(xs: seq<string>)
    ensures |Sorted(xs)| == |xs|
  {
    SortedSorts(xs);
    assert |multiset(Sorted(xs))| == |multiset(xs)|;
  }

  function AliasTotal<S>(rows: seq<Row<S>>): nat {
    if rows == [] then 0 else AliasTotal(rows[..|rows| - 1]) + |rows[|rows| - 1].aliases|
  }

  /** How many of the aliases in `keys` point to one of the sessions in `to`. */
  function CountTo(vals: map<string, string>, keys: seq<string>, to: seq<string>): nat {
    if keys == [] then 0
    else
      var most, last := keys[..|keys| - 1], keys[|keys| - 1];
      CountTo(vals, most, to) + if last in vals && vals[last] in to then 1 else 0
  }

  lemma {:induction false} CountToGrows(vals: map<string, string>, keys: seq<string>, to: seq<string>, key: string)
    requires key !in to
    ensures CountTo(vals, keys, to + [key]) == CountTo(vals, keys, to) + |AliasesOf(vals, keys, key)|
    decreases |keys|
  {
    if keys == [] {
    } else {
      CountToGrows(vals, keys[..|keys| - 1], to, key);
    }
  }

  lemma {:induction false} CountToAll(vals: map<string, string>, keys: seq<string>, to: seq<string>)
    requires forall a :: a in keys ==> a in vals && vals[a] in to
    ensures CountTo(vals, keys, to) == |keys|
    decreases |keys|
  {
    if keys == [] {
    } else {
      CountToAll(vals, keys[..|keys| - 1], to);
    }
  }

  lemma {:induction false} CountToNone(vals: map<string, string>, keys: seq<string>)
    ensures CountTo(vals, keys, []) == 0
    decreases |keys|
  {
    if keys == [] {
    } else {
      CountToNone(vals, keys[..|keys| - 1]);
    }
  }

  lemma {:induction false} AliasTotalCounts<S>(
    rows: seq<Row<S>>, keys: seq<string>, vals: map<string, string>, aliases: seq<string>)
    requires |rows| == |keys|
    requires forall i :: 0 <= i < |rows| ==> |rows[i].aliases| == |AliasesOf(vals, aliases, keys[i])|
    requires forall i, j :: 0 <= i < j < |keys| ==> keys[i] != keys[j]
    ensures AliasTotal(rows) == CountTo(vals, aliases, keys)
    decreases |rows|
  {
    if rows == [] {
      CountToNone(vals, aliases);
      assert keys == [];
    } else {
      var most, key := keys[..|keys| - 1], keys[|keys| - 1];
      AliasTotalCounts(rows[..|rows| - 1], most, vals, aliases);
      assert keys == most + [key];
      CountToGrows(vals, aliases, most, key);
    }
  }

  /** No alias is lost or doubled: the lists of all rows together are as long as the alias map. */
  lemma ListingCountsAliases<S>(r: RegistryState<S>)
    requires Routed(r)
    ensures AliasTotal(Listing(r)) == |r.aliases.keys|
  {
    var keys := r.sessions.keys;
    forall i | 0 <= i < |keys|
      ensures |Listing(r)[i].aliases| == |AliasesOf(r.aliases.vals, r.aliases.keys, keys[i])|
    {
      assert Listing(r)[i] == RowOf(r, keys[i]);
      SortedLength(AliasesOf(r.aliases.vals, r.aliases.keys, keys[i]));
    }
    AliasTotalCounts(Listing(r), keys, r.aliases.vals, r.aliases.keys);
    CountToAll(r.aliases.vals, r.aliases.keys, keys);
  }
}
