/** The search for a path of registered migrations between two schema versions. */
module MigrationPath {
  import opened Options

  type Version = nat
  datatype Migration = Migration(from: Version, to: Version)

  datatype PathError = DuplicateSteps | NoPath
  datatype Result = Ok(steps: seq<Migration>) | Err(error: PathError)

  ghost predicate DistinctStarts(registry: seq<Migration>) {
    forall i, j | 0 <= i < j < |registry| :: registry[i].from != registry[j].from
  }

  /** A chain of registered steps from one version to another. */
  ghost predicate IsPath(registry: seq<Migration>, from: Version, to: Version, steps: seq<Migration>) {
    && (forall s <- steps :: s in registry)
    && (forall i | 0 <= i < |steps| - 1 :: steps[i].to == steps[i + 1].from)
    && (if steps == [] then from == to else steps[0].from == from && steps[|steps| - 1].to == to)
  }

  ghost predicate Reachable(registry: seq<Migration>, from: Version, to: Version) {
    exists steps :: IsPath(registry, from, to, steps)
  }

  // ---------------------------------------------------------------- the orbit of a version

  type Table = map<Version, Migration>

  ghost predicate TableOf(registry: seq<Migration>, table: Table) {
    && (forall s <- registry :: s.from in table && table[s.from] == s)
    && (forall v <- table :: table[v] in registry && table[v].from == v)
  }

  /** The version after `k` steps, if the steps exist. */
  function Orbit(table: Table, v: Version, k: nat): Option<Version> {
    if k == 0 then Some(v)
    else
      var before := Orbit(table, v, k - 1);
      if before.None? || before.value !in table then None else Some(table[before.value].to)
  }

  lemma {:induction false} PathIsOrbit(registry: seq<Migration>, table: Table, from: Version, to: Version, steps: seq<Migration>)
    requires TableOf(registry, table) && IsPath(registry, from, to, steps)
    ensures Orbit(table, from, |steps|) == Some(to)
    decreases |steps|
  {
    if steps != [] {
      var init, last := steps[..|steps| - 1], steps[|steps| - 1];
      assert IsPath(registry, from, last.from, init) by {
        if init != [] {
          assert steps[|init| - 1].to == steps[|init| - 1 + 1].from;
        }
      }
      PathIsOrbit(registry, table, from, last.from, init);
      assert last in registry;
    }
  }

  /** `n + 1` values in a set of at most `n` elements repeat. */
  lemma {:induction false} Pigeonhole(vs: seq<Version>, s: set<Version>) returns (i: nat, j: nat)
    requires |vs| > |s| && forall v <- vs :: v in s
    ensures i < j < |vs| && vs[i] == vs[j]
    decreases |vs|
  {
    var last := vs[|vs| - 1];
    var init := vs[..|vs| - 1];
    if k :| 0 <= k < |init| && init[k] == last {
      return k, |vs| - 1;
    }
    i, j := Pigeonhole(init, s - {last});
  }

  /** Once the orbit repeats, everything on it was met before the repetition. */
  lemma {:induction false} OrbitRepeats(table: Table, v: Version, i: nat, j: nat, k: nat)
    requires i < j && Orbit(table, v, i).Some? && Orbit(table, v, i) == Orbit(table, v, j)
    ensures exists m: nat | m < j :: Orbit(table, v, m) == Orbit(table, v, k)
    decreases k
  {
    if k >= j {
      OrbitRepeats(table, v, i, j, k - 1);
      var m: nat :| m < j && Orbit(table, v, m) == Orbit(table, v, k - 1);
      assert Orbit(table, v, m + 1) == Orbit(table, v, k);
      if m + 1 == j {
        assert Orbit(table, v, i) == Orbit(table, v, k);
      }
    }
  }

  /** A target that is not met in as many steps as there are table entries is never met. */
  lemma NotMetSoonNeverMet(table: Table, v: Version, target: Version)
    requires forall k: nat | k <= |table| :: Orbit(table, v, k) != Some(target)
    ensures forall k: nat :: Orbit(table, v, k) != Some(target)
  {
    forall k: nat
      ensures Orbit(table, v, k) != Some(target)
    {
      if k > |table| && Orbit(table, v, k) == Some(target) {
        forall m: nat | m < k
          ensures Orbit(table, v, m).Some? && Orbit(table, v, m).value in table
        {
          OrbitGoesOn(table, v, m, k);
        }
        var vs := seq(|table| + 1, m requires 0 <= m <= |table| => Orbit(table, v, m).value);
        var i, j := Pigeonhole(vs, table.Keys);
        OrbitRepeats(table, v, i, j, k);
      }
    }
  }

  lemma {:induction false} OrbitGoesOn(table: Table, v: Version, m: nat, k: nat)
    requires m < k && Orbit(table, v, k).Some?
    ensures Orbit(table, v, m).Some? && Orbit(table, v, m).value in table
    decreases k
  {
    if m < k - 1 {
      OrbitGoesOn(table, v, m, k - 1);
    }
  }

  // ---------------------------------------------------------------- the search

  lemma TableExtends(registry: seq<Migration>, table: Table, step: Migration)
    requires TableOf(registry, table) && step.from !in table && DistinctStarts(registry)
    ensures TableOf(registry + [step], table[step.from := step]) && DistinctStarts(registry + [step])
  {
    var more := registry + [step];
    forall i, j | 0 <= i < j < |more|
      ensures more[i].from != more[j].from
    {
      assert more[i] in registry;
    }
  }

  lemma TableRejects(registry: seq<Migration>, table: Table, i: nat)
    requires i < |registry| && TableOf(registry[..i], table) && registry[i].from in table
    ensures !DistinctStarts(registry)
  {
    assert table[registry[i].from] in registry[..i];
  }

  method IndexByStart(registry: seq<Migration>) returns (table: Option<Table>)
    ensures table.Some? <==> DistinctStarts(registry)
    ensures table.Some? ==> TableOf(registry, table.value) && |table.value| == |registry|
  {
    hide DistinctStarts;
    hide TableOf;
    var t: Table := map[];
    var i := 0;
    EmptyTable();
    assert registry[..0] == [];
    while i < |registry|
      invariant 0 <= i <= |registry| && DistinctStarts(registry[..i]) && TableOf(registry[..i], t) && |t| == i
    {
      var step := registry[i];
      if step.from in t {
        TableRejects(registry, t, i);
        return None;
      }
      TableExtends(registry[..i], t, step);
      assert registry[..i] + [step] == registry[..i + 1];
      t := t[step.from := step];
      i := i + 1;
    }
    assert registry[..i] == registry;
    table := Some(t);
  }

  lemma EmptyTable()
    ensures TableOf([], map[]) && DistinctStarts([])
  {
  }

  /** The walk stands at `cursor` after `steps`, and has not met the target before. */
  ghost predicate Walked(registry: seq<Migration>, table: Table, current: Version, target: Version, cursor: Version, steps: seq<Migration>) {
    && IsPath(registry, current, cursor, steps)
    && Orbit(table, current, |steps|) == Some(cursor)
    && (forall k: nat | k < |steps| :: Orbit(table, current, k) == Some(steps[k].from) && steps[k].from != target)
  }

  lemma WalkStarts(registry: seq<Migration>, table: Table, current: Version, target: Version)
    ensures Walked(registry, table, current, target, current, [])
  {
  }

  lemma WalkGoesOn(registry: seq<Migration>, table: Table, current: Version, target: Version, cursor: Version, steps: seq<Migration>)
    requires TableOf(registry, table) && Walked(registry, table, current, target, cursor, steps)
    requires cursor != target && cursor in table
    ensures Walked(registry, table, current, target, table[cursor].to, steps + [table[cursor]])
  {
    var step, more := table[cursor], steps + [table[cursor]];
    assert Orbit(table, current, |steps| + 1) == Some(step.to);
    forall k: nat | k < |more|
      ensures Orbit(table, current, k) == Some(more[k].from) && more[k].from != target
    {
      assert k < |steps| ==> more[k] == steps[k];
    }
    forall i | 0 <= i < |more| - 1
      ensures more[i].to == more[i + 1].from
    {
      assert more[i] == steps[i];
      assert i + 1 < |steps| ==> more[i + 1] == steps[i + 1];
    }
  }

  /** `_registry_chain`: it finds a chain exactly when the target can be reached, and the length limit never
      rejects a target that can be.  No step is repeated. */
  method RegistryChain(registry: seq<Migration>, current: Version, target: Version) returns (r: Result)
    ensures current == target ==> r == Ok([])
    ensures current != target ==> (r == Err(DuplicateSteps) <==> !DistinctStarts(registry))
    ensures current != target && DistinctStarts(registry) ==> (r.Ok? <==> Reachable(registry, current, target))
    ensures r.Ok? ==> IsPath(registry, current, target, r.steps) && |r.steps| <= |registry|
    ensures r.Ok? ==> forall i, j | 0 <= i < j < |r.steps| :: r.steps[i] != r.steps[j]
  {
    hide DistinctStarts;
    hide TableOf;
    hide Walked;
    hide IsPath;
    hide Orbit;
    if current == target {
      NoSteps(registry, current);
      return Ok([]);
    }
    var indexed := IndexByStart(registry);
    if indexed.None? {
      return Err(DuplicateSteps);
    }
    var table, steps, cursor := indexed.value, [], current;
    WalkStarts(registry, table, current, target);
    while cursor != target
      invariant Walked(registry, table, current, target, cursor, steps) && |steps| <= |registry|
      decreases |registry| - |steps|
    {
      if cursor !in table || |steps| >= |registry| {
        WalkIsStuck(registry, table, current, target, cursor, steps);
        return Err(NoPath);
      }
      WalkGoesOn(registry, table, current, target, cursor, steps);
      steps := steps + [table[cursor]];
      cursor := table[cursor].to;
    }
    WalkArrives(registry, table, current, target, steps);
    r := Ok(steps);
  }

  lemma NoSteps(registry: seq<Migration>, v: Version)
    ensures IsPath(registry, v, v, [])
  {
  }

  lemma WalkIsStuck(registry: seq<Migration>, table: Table, current: Version, target: Version, cursor: Version, steps: seq<Migration>)
    requires TableOf(registry, table) && |table| == |registry| && cursor != target
    requires Walked(registry, table, current, target, cursor, steps) && (cursor !in table || |steps| >= |registry|)
    ensures !Reachable(registry, current, target)
  {
    NeverReached(registry, table, current, target, |steps|);
  }

  lemma WalkArrives(registry: seq<Migration>, table: Table, current: Version, target: Version, steps: seq<Migration>)
    requires Walked(registry, table, current, target, target, steps)
    ensures Reachable(registry, current, target) && IsPath(registry, current, target, steps)
    ensures forall i, j | 0 <= i < j < |steps| :: steps[i] != steps[j]
  {
    NoRepetition(table, current, target, steps);
  }

  lemma NeverReached(registry: seq<Migration>, table: Table, current: Version, target: Version, n: nat)
    requires TableOf(registry, table) && |table| == |registry|
    requires forall k: nat | k <= n :: Orbit(table, current, k) != Some(target)
    requires Orbit(table, current, n).Some?
    requires Orbit(table, current, n).value !in table || n >= |registry|
    ensures !Reachable(registry, current, target)
  {
    if Reachable(registry, current, target) {
      var steps :| IsPath(registry, current, target, steps);
      PathIsOrbit(registry, table, current, target, steps);
      if n >= |registry| {
        NotMetSoonNeverMet(table, current, target);
      } else if |steps| > n {
        OrbitGoesOn(table, current, n, |steps|);
      }
    }
  }

  /** The walk to the target meets no version twice, since it would then never leave the cycle. */
  lemma NoRepetition(table: Table, current: Version, target: Version, steps: seq<Migration>)
    requires Orbit(table, current, |steps|) == Some(target)
    requires forall k: nat | k < |steps| :: Orbit(table, current, k) == Some(steps[k].from) && steps[k].from != target
    ensures forall i, j | 0 <= i < j < |steps| :: steps[i] != steps[j]
  {
    forall i, j | 0 <= i < j < |steps|
      ensures steps[i] != steps[j]
    {
      if steps[i] == steps[j] {
        OrbitRepeats(table, current, i, j, |steps|);
      }
    }
  }
}
