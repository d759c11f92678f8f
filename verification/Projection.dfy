/** The promotion events of an ancestry, as the projections collect them. */
module Projection {
  import opened Options
  import opened LedgerTypes
  import opened Promotion
  import opened PromotionInvariant
  import opened PromotionSteps
  import PromotionTheorems

  datatype ProjectionError = AncestorMissing | AncestryCyclic | EventInvalid | EventDisagrees | EventsUnresolved

  datatype Result<T> = Ok(value: T) | Err(error: ProjectionError)

  /** The event a generation names, by identifier; on a repeated name the older generation stays. */
  function Expected(g: GenId): map<TxnId, GenId> {
    match g
    case Genesis => map[]
    case Gen(parent, _, _, txn) => map[txn := g] + Expected(parent)
  }

  predicate AncestorsPublished(published: set<GenId>, g: GenId) {
    g.Genesis? || (g.parent in published && AncestorsPublished(published, g.parent))
  }

  predicate Agrees(e: Event, g: GenId) {
    g.Gen? && e.newGeneration == g && e.parent == g.parent && e.txn == g.txn
  }

  /** Every event file carries its own identifier. */
  ghost predicate EventsNamed(events: map<TxnId, Event>) {
    forall t <- events :: events[t].txn == t
  }

  ghost predicate EventsAgree(events: map<TxnId, Event>, g: GenId) {
    forall t <- Expected(g) :: t in events ==> Agrees(events[t], Expected(g)[t])
  }

  ghost predicate EventsPresent(events: map<TxnId, Event>, g: GenId) {
    forall t <- Expected(g) :: t in events
  }

  lemma ExpectedFurther(expected: map<TxnId, GenId>, g: GenId)
    ensures expected + Expected(g) == if g.Genesis? then expected else expected[g.txn := g] + Expected(g.parent)
  {
  }

  /** The ancestor walk: it never meets a generation twice, because an identifier contains its
      parent's. */
  method WalkAncestors(published: set<GenId>, g: GenId) returns (r: Result<map<TxnId, GenId>>)
    ensures r.Ok? <==> AncestorsPublished(published, g)
    ensures r.Ok? ==> r.value == Expected(g)
    ensures r.Err? ==> r.error == AncestorMissing
  {
    hide Expected;
    var cursor, ancestors, expected := g, {}, map[];
    while cursor !in ancestors
      invariant forall a <- ancestors :: Depth(a) > Depth(cursor)
      invariant AncestorsPublished(published, cursor) == AncestorsPublished(published, g)
      invariant expected + Expected(cursor) == Expected(g)
      decreases Depth(cursor)
    {
      ancestors := ancestors + {cursor};
      ExpectedFurther(expected, cursor);
      if cursor.Genesis? {
        return Ok(expected);
      }
      expected := expected[cursor.txn := cursor];
      if cursor.parent !in published {
        return Err(AncestorMissing);
      }
      cursor := cursor.parent;
    }
    assert false;
    r := Err(AncestryCyclic);
  }

  // ---------------------------------------------------------------- newest first

  /** The sort key of the event list: commit time, then the identifier; `order` is the order of identifiers. */
  predicate NotOlder(a: Event, b: Event, order: TxnId -> int) {
    a.committedAt > b.committedAt || (a.committedAt == b.committedAt && order(a.txn) >= order(b.txn))
  }

  ghost predicate NewestFirst(es: seq<Event>, order: TxnId -> int) {
    forall i, j | 0 <= i < j < |es| :: NotOlder(es[i], es[j], order)
  }

  function Insert(e: Event, es: seq<Event>, order: TxnId -> int): (r: seq<Event>)
    ensures multiset(r) == multiset(es) + multiset{e}
  {
    if es == [] then [e]
    else if NotOlder(e, es[0], order) then [e] + es
    else
      assert es == [es[0]] + es[1..];
      [es[0]] + Insert(e, es[1..], order)
  }

  lemma {:induction false} InsertKeepsOrder(e: Event, es: seq<Event>, order: TxnId -> int)
    requires NewestFirst(es, order)
    ensures NewestFirst(Insert(e, es, order), order)
    decreases |es|
  {
    if es != [] && !NotOlder(e, es[0], order) {
      InsertKeepsOrder(e, es[1..], order);
      var rest := Insert(e, es[1..], order);
      forall j | 0 <= j < |rest|
        ensures NotOlder(es[0], rest[j], order)
      {
        assert rest[j] in multiset(rest);
        assert rest[j] == e || rest[j] in es[1..];
      }
    }
  }

  function Sorted(es: seq<Event>, order: TxnId -> int): (r: seq<Event>)
    ensures multiset(r) == multiset(es)
  {
    if es == [] then []
    else
      assert es == [es[0]] + es[1..];
      Insert(es[0], Sorted(es[1..], order), order)
  }

  lemma {:induction false} SortedIsNewestFirst(es: seq<Event>, order: TxnId -> int)
    ensures NewestFirst(Sorted(es, order), order)
    decreases |es|
  {
    if es != [] {
      SortedIsNewestFirst(es[1..], order);
      InsertKeepsOrder(es[0], Sorted(es[1..], order), order);
    }
  }

  lemma SameElements(a: seq<Event>, b: seq<Event>)
    requires multiset(a) == multiset(b)
    ensures |a| == |b| && forall e :: e in a <==> e in b
  {
    assert |a| == |multiset(a)| && |b| == |multiset(b)|;
    forall e
      ensures e in a <==> e in b
    {
      assert e in a <==> e in multiset(a);
      assert e in b <==> e in multiset(b);
    }
  }

  /** The list holds the event of every name in the set, once each, and no other. */
  ghost predicate Collects(list: seq<Event>, names: set<TxnId>, events: map<TxnId, Event>) {
    && names <= events.Keys && |list| == |names|
    && (forall t <- names :: events[t] in list)
    && (forall e <- list :: e.txn in names && e == events[e.txn])
  }

  lemma CollectsMore(list: seq<Event>, names: set<TxnId>, events: map<TxnId, Event>, t: TxnId)
    requires Collects(list, names, events) && t in events && t !in names && events[t].txn == t
    ensures Collects(list + [events[t]], names + {t}, events)
  {
  }

  lemma CollectsSorted(list: seq<Event>, names: set<TxnId>, events: map<TxnId, Event>, order: TxnId -> int)
    requires Collects(list, names, events)
    ensures Collects(Sorted(list, order), names, events) && NewestFirst(Sorted(list, order), order)
  {
    SortedIsNewestFirst(list, order);
    SameElements(Sorted(list, order), list);
  }

  /** An event file carries its own name and agrees with the generation that names it, if any. */
  predicate FileOk(events: map<TxnId, Event>, expected: map<TxnId, GenId>, t: TxnId)
    requires t in events
  {
    events[t].txn == t && (t in expected ==> Agrees(events[t], expected[t]))
  }

  /** The files outside `files` were read: they are in order, and those the ancestry names are in the list. */
  ghost predicate ReadSoFar(events: map<TxnId, Event>, expected: map<TxnId, GenId>, files: set<TxnId>, found: set<TxnId>, list: seq<Event>) {
    && files <= events.Keys
    && (forall t <- events | t !in files :: FileOk(events, expected, t))
    && found == expected.Keys * (events.Keys - files)
    && Collects(list, found, events)
  }

  lemma ReadOneMore(events: map<TxnId, Event>, expected: map<TxnId, GenId>, files: set<TxnId>, found: set<TxnId>, list: seq<Event>, t: TxnId)
    requires ReadSoFar(events, expected, files, found, list) && t in files && FileOk(events, expected, t)
    ensures t in expected ==> ReadSoFar(events, expected, files - {t}, found + {t}, list + [events[t]])
    ensures t !in expected ==> ReadSoFar(events, expected, files - {t}, found, list)
  {
    hide Collects;
    hide Agrees;
    if t in expected {
      FileNamed(events, expected, t);
      CollectsMore(list, found, events, t);
    }
  }

  lemma ReadAll(events: map<TxnId, Event>, expected: map<TxnId, GenId>, found: set<TxnId>, list: seq<Event>)
    requires ReadSoFar(events, expected, {}, found, list)
    ensures forall t <- events :: FileOk(events, expected, t)
    ensures found == expected.Keys <==> expected.Keys <= events.Keys
    ensures Collects(list, found, events)
  {
    hide Collects;
    hide FileOk;
  }

  /** Reads every event file and collects those the ancestry names. */
  method MatchEvents(events: map<TxnId, Event>, expected: map<TxnId, GenId>) returns (r: Result<seq<Event>>)
    ensures r.Ok? <==> (forall t <- events :: FileOk(events, expected, t)) && expected.Keys <= events.Keys
    ensures r.Ok? ==> Collects(r.value, expected.Keys, events)
    ensures r.Err? ==> r.error != AncestryCyclic
  {
    hide Collects;
    hide FileOk;
    hide Agrees;
    hide ReadSoFar;
    var files := events.Keys;
    var found: set<TxnId> := {};
    var list: seq<Event> := [];
    NothingRead(events, expected);
    while files != {}
      invariant files <= events.Keys && ReadSoFar(events, expected, files, found, list)
    {
      var t :| t in files;
      if !FileOk(events, expected, t) {
        return Err(if events[t].txn != t then EventInvalid else EventDisagrees);
      }
      ReadOneMore(events, expected, files, found, list, t);
      if t in expected {
        found, list := found + {t}, list + [events[t]];
      }
      files := files - {t};
    }
    ReadAll(events, expected, found, list);
    if found != expected.Keys {
      return Err(EventsUnresolved);
    }
    r := Ok(list);
  }

  lemma NothingRead(events: map<TxnId, Event>, expected: map<TxnId, GenId>)
    ensures ReadSoFar(events, expected, events.Keys, {}, [])
  {
  }

  lemma FileNamed(events: map<TxnId, Event>, expected: map<TxnId, GenId>, t: TxnId)
    requires t in events && FileOk(events, expected, t)
    ensures events[t].txn == t
  {
  }

  lemma {:induction false} PublishedMeans(published: set<GenId>, g: GenId)
    ensures AncestorsPublished(published, g) <==> forall a | InChain(a, g) && a != g :: a in published
    decreases g
  {
    if g.Gen? {
      PublishedMeans(published, g.parent);
      InChainParent(g);
      forall a | InChain(a, g) && a != g
        ensures InChain(a, g.parent)
      {
      }
      forall a | InChain(a, g.parent)
        ensures InChain(a, g) && a != g
      {
        InChainDepth(a, g.parent);
      }
    }
  }

  lemma InChainParent(g: GenId)
    requires g.Gen?
    ensures InChain(g.parent, g)
  {
  }

  lemma {:induction false} AncestorsExpected(g: GenId, a: GenId)
    requires WellFormed(g) && InChain(a, g) && a.Gen?
    ensures a.txn in Expected(g) && Expected(g)[a.txn] == a
    decreases g
  {
    if a != g {
      AncestorsExpected(g.parent, a);
    } else if g.txn in Expected(g.parent) {
      ExpectedAreAncestors(g.parent, g.txn);
    }
  }

  /** The conditions of the walk in terms of the ancestry. */
  lemma EventsMean(published: set<GenId>, events: map<TxnId, Event>, g: GenId)
    requires WellFormed(g)
    ensures AncestorsPublished(published, g) <==> forall a | InChain(a, g) && a != g :: a in published
    ensures EventsNamed(events) ==>
      (EventsAgree(events, g) && EventsPresent(events, g) <==>
        forall a | InChain(a, g) && a.Gen? ::
          a.txn in events && events[a.txn].newGeneration == a && events[a.txn].parent == a.parent)
    ensures EventsPresent(events, g) ==>
      forall a | InChain(a, g) && a.Gen? :: a.txn in Expected(g)
  {
    PublishedMeans(published, g);
    forall a | InChain(a, g) && a.Gen?
      ensures a.txn in Expected(g) && Expected(g)[a.txn] == a
    {
      AncestorsExpected(g, a);
    }
    forall t | t in Expected(g)
      ensures InChain(Expected(g)[t], g) && Expected(g)[t].Gen? && Expected(g)[t].txn == t
    {
      ExpectedAreAncestors(g, t);
    }
  }

  /** `_canonical_events`: one agreeing event for each event the ancestry names and no other, newest first. */
  method CanonicalEvents(published: set<GenId>, events: map<TxnId, Event>, g: GenId, order: TxnId -> int)
    returns (r: Result<seq<Event>>)
    ensures r.Ok? <==>
      AncestorsPublished(published, g) && EventsNamed(events) && EventsAgree(events, g) && EventsPresent(events, g)
    ensures r.Ok? ==> Collects(r.value, Expected(g).Keys, events) && NewestFirst(r.value, order)
    ensures r.Err? ==> r.error != AncestryCyclic
    ensures r.Ok? ==> forall i, j | 0 <= i < j < |r.value| ::
      var a, b := r.value[i], r.value[j];
      a.committedAt > b.committedAt || (a.committedAt == b.committedAt && order(a.txn) >= order(b.txn))
    ensures WellFormed(g) ==> (r.Ok? <==>
      && (forall a | InChain(a, g) && a != g :: a in published)
      && (forall t <- events :: events[t].txn == t)
      && (forall a | InChain(a, g) && a.Gen? ::
            a.txn in events && events[a.txn].newGeneration == a && events[a.txn].parent == a.parent))
    ensures WellFormed(g) && r.Ok? ==>
      && |r.value| == Depth(g)
      && (forall a | InChain(a, g) && a.Gen? :: events[a.txn] in r.value)
  {
    if WellFormed(g) {
      EventsMean(published, events, g);
      ExpectedOnePerGeneration(g);
    }
    var walk := WalkAncestors(published, g);
    if walk.Err? {
      return Err(walk.error);
    }
    var matched := MatchEvents(events, walk.value);
    if matched.Err? {
      return matched;
    }
    CollectsSorted(matched.value, Expected(g).Keys, events, order);
    r := Ok(Sorted(matched.value, order));
  }

  // ---------------------------------------------------------------- on reachable ledgers

  lemma {:induction false} ExpectedAreAncestors(g: GenId, t: TxnId)
    requires WellFormed(g) && t in Expected(g)
    ensures Expected(g)[t] == NextOf(t) && InChain(NextOf(t), g)
    decreases g
  {
    if t in Expected(g.parent) {
      ExpectedAreAncestors(g.parent, t);
    }
  }

  /** In a well-formed ancestry every generation names its own event, so one event is expected for
      each generation above the empty ledger. */
  lemma {:induction false} ExpectedOnePerGeneration(g: GenId)
    requires WellFormed(g)
    ensures |Expected(g)| == Depth(g)
    decreases g
  {
    if g.Gen? {
      ExpectedOnePerGeneration(g.parent);
      if g.txn in Expected(g.parent) {
        ExpectedAreAncestors(g.parent, g.txn);
        ChildNotInChain(g.txn);
      }
      assert Expected(g).Keys == {g.txn} + Expected(g.parent).Keys;
    }
  }

  lemma ResolvedMeansExpected(events: map<TxnId, Event>, g: GenId)
    requires WellFormed(g) && EventsResolved(events, g)
    ensures EventsAgree(events, g) && EventsPresent(events, g)
    decreases g
  {
    if g.Gen? {
      ResolvedMeansExpected(events, g.parent);
    }
  }

  lemma AncestryPublished(s: Ledger, g: GenId)
    requires Shared(s) && ChainOk(s, g) && WellFormed(g) && Genesis in s.generations
    ensures g in s.generations && AncestorsPublished(s.generations, g)
    decreases g
  {
    if g.Gen? {
      AncestryPublished(s, g.parent);
      assert RowOk(s, g.txn);
    }
  }

  /** Whenever a worker that owns CURRENT materializes it, the walk finds every ancestor and exactly one
      agreeing event for each of them: it reports neither a cycle nor an unresolved event. */
  lemma MaterializationFindsItsEvents(sys: System, w: nat)
    requires Reachable(sys) && w in sys.workers && sys.workers[w].pc == Materialize
    requires sys.ledger.current == NextOf(sys.workers[w].prep)
    ensures
      var s := sys.ledger;
      && AncestorsPublished(s.generations, s.current) && EventsNamed(s.events)
      && EventsAgree(s.events, s.current) && EventsPresent(s.events, s.current)
      && |Expected(s.current)| == Depth(s.current)
  {
    var s := sys.ledger;
    ReachableInv(sys);
    PromotionTheorems.MaterializationResolves(sys, w);
    GenesisPublished(sys);
    AncestryPublished(s, s.current);
    ResolvedMeansExpected(s.events, s.current);
    ExpectedOnePerGeneration(s.current);
  }

  lemma GenesisPublished(sys: System)
    requires Reachable(sys)
    ensures Genesis in sys.ledger.generations
  {
    var epoch :| Reaches(Init(epoch), sys);
    var ls :| Exec(Init(epoch), ls) == Some(sys);
    PromotionTheorems.RunGrows(Init(epoch), ls);
  }
}
