/** The migration of a workspace from its legacy names, with compensation.

    The state directory is a map from relative names to bytes.  The bytes rewritten in metadata files
    and the test for well-formed results are parameters, and so is the step at which an exception is
    raised.
 */
module BrandMigration {
  import opened Options

  type Bytes = string
  type Relative = string
  type Tree = map<Relative, Bytes>

  /** The four managed names of a workspace. */
  datatype Names = Names(legacyConfig: Option<Bytes>, config: Option<Bytes>, legacyState: Option<Tree>, state: Option<Tree>)

  /** How metadata is recognized, rewritten and validated. */
  datatype Rules = Rules(isMetadata: Relative -> bool, rewrite: Bytes -> Bytes, parses: Bytes -> bool)

  /** A recorded move: the configuration file or the state directory. */
  datatype Move = ConfigMove | StateMove

  datatype Result = Unchanged | Refused | Migrated(changed: seq<Move>) | RolledBack

  /** Every metadata file rewritten, every other file as it was. */
  function Rewritten(rules: Rules, t: Tree): Tree {
    map r | r in t :: if rules.isMetadata(r) then rules.rewrite(t[r]) else t[r]
  }

  /** The tree while a set of metadata files remains to be rewritten. */
  function Partly(rules: Rules, t: Tree, pending: set<Relative>): Tree {
    map r | r in t :: if rules.isMetadata(r) && r !in pending then rules.rewrite(t[r]) else t[r]
  }

  predicate Conflicts(n: Names) {
    (n.legacyConfig.Some? && n.config.Some?) || (n.legacyState.Some? && n.state.Some?)
  }

  predicate Legacy(n: Names) {
    n.legacyConfig.Some? || n.legacyState.Some?
  }

  /** What a completed migration leaves. */
  function Completed(rules: Rules, n: Names): Names {
    Names(None, if n.legacyConfig.Some? then n.legacyConfig else n.config,
          None, if n.legacyState.Some? then Some(Rewritten(rules, n.legacyState.value)) else n.state)
  }

  /** The moves a workspace needs, in order. */
  function Needed(n: Names): seq<Move> {
    (if n.legacyConfig.Some? then [ConfigMove] else []) + (if n.legacyState.Some? then [StateMove] else [])
  }

  predicate AllParse(rules: Rules, n: Names) {
    n.legacyState.Some? ==> TreeParses(rules, n.legacyState.value)
  }

  /** Every metadata file that changes is well formed afterwards. */
  predicate TreeParses(rules: Rules, t: Tree) {
    forall r <- t | rules.isMetadata(r) && rules.rewrite(t[r]) != t[r] :: rules.parses(rules.rewrite(t[r]))
  }

  /** The saved bytes are the original ones, and every file that differs was saved. */
  ghost predicate Saved(original: Tree, current: Tree, originals: Tree) {
    && current.Keys == original.Keys
    && (forall r <- originals :: r in original && originals[r] == original[r])
    && (forall r <- original :: r in originals || current[r] == original[r])
  }

  /** `moved` and `originals` tell how to get from `after` back to `before`. */
  ghost predicate Undoable(before: Names, after: Names, moved: seq<Move>, originals: Tree) {
    && (moved == [] || moved == [ConfigMove] || moved == [StateMove] || moved == [ConfigMove, StateMove])
    && (if ConfigMove in moved then before.legacyConfig.Some? && before.config.None? && after.legacyConfig.None? && after.config == before.legacyConfig
        else after.legacyConfig == before.legacyConfig && after.config == before.config)
    && (if StateMove in moved then
          && before.legacyState.Some? && before.state.None? && after.legacyState.None? && after.state.Some?
          && Saved(before.legacyState.value, after.state.value, originals)
        else after.legacyState == before.legacyState && after.state == before.state && originals == map[])
  }

  class Workspace {
    var names: Names

    constructor (names: Names)
      ensures this.names == names
    {
      this.names := names;
    }

    /** One move without replacement, or its reversal. */
    method MoveNames(move: Move, forward: bool) returns (ok: bool)
      modifies this
      ensures ok <==>
        var (from, to) := Ends(old(names), move, forward);
        from && !to
      ensures names == if ok then Moved(old(names), move, forward) else old(names)
    {
      var (from, to) := Ends(names, move, forward);
      ok := from && !to;
      if ok {
        names := Moved(names, move, forward);
      }
    }

    /** `_rollback_namespace`: undoes the recorded moves, newest first; a move that cannot be undone is counted and
        left as it is. */
    method RollbackNames(moved: seq<Move>) returns (errors: nat)
      modifies this
      ensures names == Undone(old(names), moved).0 && errors == Undone(old(names), moved).1
      ensures (forall i, j | 0 <= i < j < |moved| :: moved[i] != moved[j]) ==>
        var n := old(names);
        var config := ConfigMove in moved && n.config.Some? && n.legacyConfig.None?;
        var state := StateMove in moved && n.state.Some? && n.legacyState.None?;
        && names == Names(if config then n.config else n.legacyConfig, if config then None else n.config,
                          if state then n.state else n.legacyState, if state then None else n.state)
        && errors + (if config then 1 else 0) + (if state then 1 else 0) == |moved|
    {
      if forall i, j | 0 <= i < j < |moved| :: moved[i] != moved[j] {
        UndoneEach(names, moved);
      }
      var i := |moved|;
      ghost var before := names;
      errors := 0;
      assert moved[..i] == moved;
      while i > 0
        invariant 0 <= i <= |moved|
        invariant Undone(before, moved).0 == Undone(names, moved[..i]).0
        invariant Undone(before, moved).1 == errors + Undone(names, moved[..i]).1
      {
        i := i - 1;
        assert moved[..i + 1][..i] == moved[..i];
        var ok := MoveNames(moved[i], false);
        if !ok {
          errors := errors + 1;
        }
      }
    }

    /** `_restore_metadata`: writes the saved bytes back, wherever the state directory now is. */
    method RestoreMetadata(originals: Tree)
      modifies this
      ensures names.legacyConfig == old(names).legacyConfig && names.config == old(names).config
      ensures names.legacyState == Overlaid(old(names).legacyState, originals)
      ensures names.state == if old(names).legacyState.Some? then old(names).state else Overlaid(old(names).state, originals)
      ensures
        var n := old(names);
        var before, after := if n.legacyState.Some? then n.legacyState else n.state,
                             if n.legacyState.Some? then names.legacyState else names.state;
        before.Some? ==>
          && after.Some? && after.value.Keys == before.value.Keys
          && forall r <- before.value :: after.value[r] == if r in originals then originals[r] else before.value[r]
    {
      if names.legacyState.Some? {
        var tree := Overlay(names.legacyState.value, originals);
        names := names.(legacyState := Some(tree));
      } else if names.state.Some? {
        var tree := Overlay(names.state.value, originals);
        names := names.(state := Some(tree));
      }
    }

    /** Moves the configuration and the state directory and rewrites the metadata; an exception may come at any
        step.  Whatever happens, the recorded moves and saved bytes describe what was done. */
    method Apply(rules: Rules, fault: Option<nat>) returns (failed: bool, moved: seq<Move>, originals: Tree)
      requires !Conflicts(names)
      modifies this
      ensures Undoable(old(names), names, moved, originals)
      ensures !failed ==> names == Completed(rules, old(names)) && moved == Needed(old(names))
      ensures fault.None? ==> (failed <==> !AllParse(rules, old(names)))
    {
      ghost var before := names;
      moved, originals := [], map[];
      if names.legacyConfig.Some? {
        if fault == Some(0) {
          return true, moved, originals;
        }
        var ok := MoveNames(ConfigMove, true);
        moved := moved + [ConfigMove];
        if fault == Some(1) {
          return true, moved, originals;
        }
      }
      failed := false;
      if names.legacyState.Some? {
        if fault == Some(2) {
          return true, moved, originals;
        }
        var ok := MoveNames(StateMove, true);
        moved := moved + [StateMove];
        if fault == Some(3) {
          return true, moved, originals;
        }
        failed, originals := RewriteMetadata(rules, fault);
      }
    }

    /** Rewrites the metadata files one by one, saving the bytes of each before it is written. */
    method RewriteMetadata(rules: Rules, fault: Option<nat>) returns (failed: bool, originals: Tree)
      requires names.state.Some?
      modifies this
      ensures names == old(names).(state := names.state) && names.state.Some?
      ensures Saved(old(names).state.value, names.state.value, originals)
      ensures !failed ==> names.state.value == Rewritten(rules, old(names).state.value)
      ensures fault.None? ==> (failed <==> !TreeParses(rules, old(names).state.value))
    {
      hide Partly;
      hide Saved;
      hide TreeParses;
      hide AllButPending;
      var tree := names.state.value;
      var pending, step := set r | r in tree && rules.isMetadata(r), 4;
      failed, originals := false, map[];
      NothingRewritten(rules, tree, pending);
      AllPending(rules, tree, pending);
      while pending != {}
        invariant names == old(names).(state := Some(Partly(rules, tree, pending)))
        invariant forall r <- pending :: r in tree && rules.isMetadata(r)
        invariant Saved(tree, Partly(rules, tree, pending), originals)
        invariant forall r <- originals :: r !in pending
        invariant AllButPending(rules, tree, pending)
      {
        var r :| r in pending;
        if fault == Some(step) {
          return true, originals;
        }
        var current := names.state.value;
        OneRewritten(rules, tree, pending, originals, r);
        var after := rules.rewrite(current[r]);
        if after != current[r] {
          if !rules.parses(after) {
            DoesNotParse(rules, tree, r);
            return true, originals;
          }
          originals := originals[r := current[r]];
          if fault == Some(step + 1) {
            return true, originals;
          }
          names := names.(state := Some(current[r := after]));
          if fault == Some(step + 2) {
            return true, originals;
          }
        }
        OneParsed(rules, tree, pending, r);
        pending, step := pending - {r}, step + 3;
      }
      AllRewritten(rules, tree);
      NonePending(rules, tree);
    }

    /** `migrate_legacy_workspace`: it either completes, or leaves every name with exactly the bytes it had. */
    method Migrate(rules: Rules, confirm: bool, fault: Option<nat>) returns (r: Result)
      modifies this
      ensures !Legacy(old(names)) ==> r == Unchanged
      ensures Legacy(old(names)) && (Conflicts(old(names)) || !confirm) ==> r == Refused
      ensures Legacy(old(names)) && !Conflicts(old(names)) && confirm ==> r == RolledBack || r == Migrated(Needed(old(names)))
      ensures names == if r.Migrated? then Completed(rules, old(names)) else old(names)
      ensures r.Migrated? ==> !Legacy(names)      // so a second run changes nothing
      ensures
        var n := old(names);
        var changed := if n.legacyState.None? then {}
                       else set f | f in n.legacyState.value && rules.isMetadata(f)
                                    && rules.rewrite(n.legacyState.value[f]) != n.legacyState.value[f];
        Legacy(n) && !Conflicts(n) && confirm && fault.None? ==>
          (r.Migrated? <==> forall f <- changed :: rules.parses(rules.rewrite(n.legacyState.value[f])))
      ensures r.Migrated? ==>
        var n := old(names);
        && names.config == (if n.legacyConfig.Some? then n.legacyConfig else n.config)
        && (n.legacyState.None? ==> names.state == n.state)
        && (n.legacyState.Some? ==>
              && names.state.Some? && names.state.value.Keys == n.legacyState.value.Keys
              && forall f <- n.legacyState.value ::
                   names.state.value[f] ==
                     if rules.isMetadata(f) then rules.rewrite(n.legacyState.value[f]) else n.legacyState.value[f])
        && r.changed == (if n.legacyConfig.Some? then [ConfigMove] else []) + (if n.legacyState.Some? then [StateMove] else [])
    {
      if !Legacy(names) {
        return Unchanged;
      }
      if Conflicts(names) || !confirm {
        return Refused;
      }
      var failed, moved, originals := Apply(rules, fault);
      if failed {
        if StateMove in moved {
          OverlayRestores(old(names).legacyState.value, names.state.value, originals);
        } else {
          OverlayNothing(names.legacyState);
          OverlayNothing(names.state);
        }
        UndoesAll(old(names), names, moved, originals);
        var errors := RollbackNames(moved);
        RestoreMetadata(originals);
        return RolledBack;
      }
      r := Migrated(moved);
    }
  }

  /** Whether the source and the destination of a move exist. */
  function Ends(n: Names, move: Move, forward: bool): (bool, bool) {
    match move
    case ConfigMove => if forward then (n.legacyConfig.Some?, n.config.Some?) else (n.config.Some?, n.legacyConfig.Some?)
    case StateMove => if forward then (n.legacyState.Some?, n.state.Some?) else (n.state.Some?, n.legacyState.Some?)
  }

  function Moved(n: Names, move: Move, forward: bool): Names {
    match move
    case ConfigMove => if forward then n.(legacyConfig := None, config := n.legacyConfig) else n.(legacyConfig := n.config, config := None)
    case StateMove => if forward then n.(legacyState := None, state := n.legacyState) else n.(legacyState := n.state, state := None)
  }

  /** The names after the moves are undone in reverse, and how many could not be. */
  function Undone(n: Names, moved: seq<Move>): (Names, nat)
    decreases |moved|
  {
    if moved == [] then (n, 0)
    else
      var init, last := moved[..|moved| - 1], moved[|moved| - 1];
      var (from, to) := Ends(n, last, false);
      if from && !to then Undone(Moved(n, last, false), init)
      else
        var rest := Undone(n, init);
        (rest.0, rest.1 + 1)
  }

  /** What a failed migration recorded can be undone without an error, and gives every name back. */
  lemma UndoesAll(before: Names, after: Names, moved: seq<Move>, originals: Tree)
    requires Undoable(before, after, moved, originals)
    ensures Undone(after, moved).1 == 0
    ensures
      var n := Undone(after, moved).0;
      && n.legacyConfig == before.legacyConfig && n.config == before.config
      && n.state == before.state
      && n.legacyState == if StateMove in moved then after.state else before.legacyState
  {
    if moved == [ConfigMove, StateMove] {
      assert moved[..1] == [ConfigMove] && [ConfigMove][..0] == [];
      assert Undone(Moved(after, StateMove, false), [ConfigMove]).1 == 0;
    } else if |moved| == 1 {
      assert moved[..0] == [];
    }
  }

  /** Moves recorded once each are undone one by one: each exactly if its source is free and its destination there. */
  lemma UndoneEach(n: Names, moved: seq<Move>)
    requires forall i, j | 0 <= i < j < |moved| :: moved[i] != moved[j]
    ensures
      var config := ConfigMove in moved && n.config.Some? && n.legacyConfig.None?;
      var state := StateMove in moved && n.state.Some? && n.legacyState.None?;
      && Undone(n, moved).0 == Names(if config then n.config else n.legacyConfig, if config then None else n.config,
                                     if state then n.state else n.legacyState, if state then None else n.state)
      && Undone(n, moved).1 + (if config then 1 else 0) + (if state then 1 else 0) == |moved|
  {
    TwoKinds(moved);
    if |moved| == 2 {
      assert moved[..|moved| - 1] == [moved[0]];
      assert moved[0] != moved[1] && moved[0] in moved && moved[1] in moved;
      UndoneOne(n, moved[0]);
      UndoneOne(Moved(n, moved[1], false), moved[0]);
    } else if |moved| == 1 {
      assert moved == [moved[0]];
      UndoneOne(n, moved[0]);
    }
  }

  lemma TwoKinds(moved: seq<Move>)
    ensures |moved| >= 3 ==> exists i, j | 0 <= i < j < |moved| :: moved[i] == moved[j]
  {
    if |moved| >= 3 {
      assert moved[0] == moved[1] || moved[1] == moved[2] || moved[0] == moved[2];
    }
  }

  lemma UndoneOne(n: Names, move: Move)
    ensures
      var (from, to) := Ends(n, move, false);
      Undone(n, [move]) == if from && !to then (Moved(n, move, false), 0) else (n, 1)
  {
    assert [move][..0] == [];
  }

  function Overlaid(t: Option<Tree>, originals: Tree): Option<Tree> {
    if t.None? then None
    else Some(map r | r in t.value :: if r in originals then originals[r] else t.value[r])
  }

  /** Writes each saved file that still exists. */
  method Overlay(t: Tree, originals: Tree) returns (r: Tree)
    ensures Overlaid(Some(t), originals) == Some(r)
  {
    r := t;
    var pending := originals.Keys;
    while pending != {}
      invariant pending <= originals.Keys && r.Keys == t.Keys
      invariant forall x <- t :: r[x] == if x in originals && x !in pending then originals[x] else t[x]
    {
      var x :| x in pending;
      pending := pending - {x};
      if x in r {
        r := r[x := originals[x]];
      }
    }
    assert r == Overlaid(Some(t), originals).value;
  }

  lemma NothingRewritten(rules: Rules, tree: Tree, pending: set<Relative>)
    requires pending == set r | r in tree && rules.isMetadata(r)
    ensures Partly(rules, tree, pending) == tree && Saved(tree, tree, map[])
  {
  }

  lemma AllRewritten(rules: Rules, tree: Tree)
    ensures Partly(rules, tree, {}) == Rewritten(rules, tree)
  {
  }

  /** The changed metadata files that are done are well formed. */
  ghost predicate AllButPending(rules: Rules, t: Tree, pending: set<Relative>) {
    forall r <- t | rules.isMetadata(r) && r !in pending && rules.rewrite(t[r]) != t[r] :: rules.parses(rules.rewrite(t[r]))
  }

  lemma AllPending(rules: Rules, tree: Tree, pending: set<Relative>)
    requires pending == set r | r in tree && rules.isMetadata(r)
    ensures AllButPending(rules, tree, pending)
  {
  }

  lemma OneParsed(rules: Rules, tree: Tree, pending: set<Relative>, r: Relative)
    requires AllButPending(rules, tree, pending) && r in tree
    requires rules.rewrite(tree[r]) != tree[r] ==> rules.parses(rules.rewrite(tree[r]))
    ensures AllButPending(rules, tree, pending - {r})
  {
  }

  lemma NonePending(rules: Rules, tree: Tree)
    requires AllButPending(rules, tree, {})
    ensures TreeParses(rules, tree)
  {
  }

  lemma DoesNotParse(rules: Rules, tree: Tree, r: Relative)
    requires r in tree && rules.isMetadata(r) && rules.rewrite(tree[r]) != tree[r] && !rules.parses(rules.rewrite(tree[r]))
    ensures !TreeParses(rules, tree)
  {
  }

  /** One more metadata file is rewritten, after its bytes were saved. */
  lemma OneRewritten(rules: Rules, tree: Tree, pending: set<Relative>, originals: Tree, r: Relative)
    requires r in pending && r in tree && rules.isMetadata(r) && r !in originals
    requires Saved(tree, Partly(rules, tree, pending), originals)
    ensures
      var current := Partly(rules, tree, pending);
      && r in current && current[r] == tree[r]
      && (var after := rules.rewrite(current[r]);
          && Partly(rules, tree, pending - {r}) == current[r := after]
          && Saved(tree, current, originals[r := current[r]])
          && Saved(tree, current[r := after], originals[r := current[r]])
          && (after == current[r] ==> Partly(rules, tree, pending - {r}) == current))
  {
    var current := Partly(rules, tree, pending);
    assert Partly(rules, tree, pending - {r}) == current[r := rules.rewrite(current[r])];
    if rules.rewrite(current[r]) == current[r] {
      assert current[r := current[r]] == current;
    }
  }

  /** Saved bytes written over the current tree give the original tree. */
  lemma OverlayRestores(original: Tree, current: Tree, originals: Tree)
    requires Saved(original, current, originals)
    ensures Overlaid(Some(current), originals) == Some(original)
  {
    assert Overlaid(Some(current), originals).value == original;
  }

  lemma OverlayNothing(t: Option<Tree>)
    ensures Overlaid(t, map[]) == t
  {
    if t.Some? {
      assert Overlaid(t, map[]).value == t.value;
    }
  }
}
