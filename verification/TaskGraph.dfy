/** The recursive dependency check with its `visiting` and `visited` sets. */
module TaskGraph {

  type Graph<!V> = map<V, set<V>>

  /** Every dependency is a node of the graph. */
  ghost predicate Closed<V(!new)>(g: Graph<V>) {
    forall v <- g :: g[v] <= g.Keys
  }

  ghost predicate Path<V(!new)>(g: Graph<V>, p: seq<V>) {
    && |p| >= 1
    && (forall i | 0 <= i < |p| :: p[i] in g)
    && (forall i | 0 <= i < |p| - 1 :: p[i + 1] in g[p[i]])
  }

  ghost predicate Reaches<V(!new)>(g: Graph<V>, a: V, b: V) {
    exists p :: Path(g, p) && p[0] == a && p[|p| - 1] == b
  }

  /** A node lies on a cycle when one of its dependencies leads back to it. */
  ghost predicate OnCycle<V(!new)>(g: Graph<V>, v: V) {
    v in g && exists d <- g[v] :: Reaches(g, d, v)
  }

  ghost predicate Acyclic<V(!new)>(g: Graph<V>) {
    forall v <- g :: !OnCycle(g, v)
  }

  lemma ReachesSelf<V(!new)>(g: Graph<V>, v: V)
    requires v in g
    ensures Reaches(g, v, v)
  {
    assert Path(g, [v]);
  }

  lemma ReachesFurther<V(!new)>(g: Graph<V>, a: V, b: V, c: V)
    requires Reaches(g, a, b) && c in g && c in g[b]
    ensures Reaches(g, a, c)
  {
    var p :| Path(g, p) && p[0] == a && p[|p| - 1] == b;
    var q := p + [c];
    assert Path(g, q) && q[0] == a && q[|q| - 1] == c;
  }

  /** A set of finished nodes that is closed under dependencies is never left. */
  lemma {:induction false} StaysInside<V(!new)>(g: Graph<V>, done: set<V>, p: seq<V>)
    requires Path(g, p) && p[0] in done && forall v <- done :: v in g && g[v] <= done
    ensures p[|p| - 1] in done
    decreases |p|
  {
    if |p| > 1 {
      assert Path(g, p[1..]);
      StaysInside(g, done, p[1..]);
    }
  }

  lemma CannotComeBack<V(!new)>(g: Graph<V>, done: set<V>, d: V, v: V)
    requires d in done && v !in done && forall x <- done :: x in g && g[x] <= done
    ensures !Reaches(g, d, v)
  {
    if Reaches(g, d, v) {
      var p :| Path(g, p) && p[0] == d && p[|p| - 1] == v;
      StaysInside(g, done, p);
    }
  }

  /** The finished nodes: closed under dependencies, none of them on a cycle. */
  ghost predicate Finished<V(!new)>(g: Graph<V>, visited: set<V>) {
    forall v <- visited :: v in g && g[v] <= visited && !OnCycle(g, v)
  }

  lemma Finish<V(!new)>(g: Graph<V>, visited: set<V>, v: V)
    requires v in g && Finished(g, visited) && g[v] <= visited && v !in visited
    ensures Finished(g, visited + {v})
  {
    if OnCycle(g, v) {
      var d :| d in g[v] && Reaches(g, d, v);
      CannotComeBack(g, visited, d, v);
    }
  }

  /** `visit`: the nodes being visited all lead to `v`.  It fails only by closing a cycle. */
  method Visit<V(==,!new)>(g: Graph<V>, v: V, visiting: set<V>, visited: set<V>) returns (ok: bool, done: set<V>)
    requires Closed(g) && v in g && visiting <= g.Keys && visiting !! visited && Finished(g, visited)
    requires forall x <- visiting :: Reaches(g, x, v) && exists d <- g[x] :: Reaches(g, d, v)
    ensures ok ==> Finished(g, done) && visited + {v} <= done && done !! visiting
    ensures !ok ==> !Acyclic(g)
    decreases g.Keys - visiting
  {
    done := visited;
    if v in visiting {
      assert OnCycle(g, v);
      return false, done;
    }
    if v in visited {
      return true, done;
    }
    var pending := g[v];
    ReachesSelf(g, v);
    while pending != {}
      invariant pending <= g[v]
      invariant Finished(g, done) && visited <= done && done !! visiting + {v}
      invariant g[v] - pending <= done
    {
      var d :| d in pending;
      pending := pending - {d};
      forall x <- visiting + {v}
        ensures Reaches(g, x, d) && exists e <- g[x] :: Reaches(g, e, d)
      {
        ReachesSelf(g, d);
        ReachesFurther(g, x, v, d);
        if x != v {
          var e :| e in g[x] && Reaches(g, e, v);
          ReachesFurther(g, e, v, d);
        }
      }
      ok, done := Visit(g, d, visiting + {v}, done);
      if !ok {
        return;
      }
    }
    Finish(g, done, v);
    ok, done := true, done + {v};
  }

  /** The dependency check terminates on every finite graph and succeeds exactly on acyclic ones. */
  method CheckAcyclic<V(==,!new)>(g: Graph<V>) returns (ok: bool)
    requires Closed(g)
    ensures ok <==> Acyclic(g)
  {
    var visited, pending := {}, g.Keys;
    ok := true;
    while pending != {}
      invariant pending <= g.Keys && Finished(g, visited) && g.Keys - pending <= visited
    {
      var v :| v in pending;
      pending := pending - {v};
      ok, visited := Visit(g, v, {}, visited);
      if !ok {
        return;
      }
    }
  }
}
