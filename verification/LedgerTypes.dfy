/** Identities of the knowledge ledger.

    Every identifier of the ledger is a SHA-256 digest of canonical material.  The digest is
    modelled by a constructor that carries the material, so equal identifiers have equal material
    and the ancestry of a generation is well founded: its identifier contains its parent's.
 */
module LedgerTypes {

  type ClaimId = nat
  type EvidenceId = nat
  type SourceId = nat

  /** `body` stands for the fields of a claim that a merge copies from the prior claim. */
  datatype Claim = Claim(id: ClaimId, body: nat, evidence: set<EvidenceId>, recordedAt: int)

  datatype Entry = Entry(claim: Claim, tombstone: bool)

  type Records = map<ClaimId, Entry>

  /** An operation key together with the one run that `claim_operation` binds to it.  `input` stands for
      the content and configuration the key is derived from; the run fixes the creation time. */
  datatype Operation = Operation(source: SourceId, input: nat, runCreatedAt: int)

  datatype GenId =
    | Genesis
    | Gen(parent: GenId, records: Records, createdAt: int, txn: TxnId)

  datatype TxnId = Txn(op: Operation, parent: GenId, claim: Claim)

  /** A published promotion event; its identifier is derived from the transaction. */
  datatype Event = Event(txn: TxnId, op: Operation, parent: GenId, newGeneration: GenId, committedAt: int)

  function RecordsOf(g: GenId): Records {
    match g
    case Genesis => map[]
    case Gen(_, records, _, _) => records
  }

  /** The evidence merge of `_merge_claim_with_generation`. */
  function MergeClaim(records: Records, claim: Claim): Claim {
    if claim.id !in records || records[claim.id].tombstone then
      claim
    else
      var prior := records[claim.id].claim;
      prior.(evidence := prior.evidence + claim.evidence,
             recordedAt := if claim.recordedAt < prior.recordedAt then claim.recordedAt else prior.recordedAt)
  }

  /** The generation a transaction proposes: its parent's records with one claim replaced. */
  function NextOf(t: TxnId): GenId {
    Gen(t.parent, RecordsOf(t.parent)[t.claim.id := Entry(t.claim, false)], t.op.runCreatedAt, t)
  }

  function EventOf(t: TxnId): Event {
    Event(t, t.op, t.parent, NextOf(t), t.op.runCreatedAt)
  }

  /** The transaction that `_prepare`, or the import of another proposal, builds for an operation on a
      parent generation. */
  function CandidateTxn(op: Operation, parent: GenId, proposal: Claim): TxnId {
    Txn(op, parent, MergeClaim(RecordsOf(parent), proposal))
  }

  /** The transaction `_rebase_prepared` builds: it merges the claim already prepared. */
  function Rebase(t: TxnId, parent: GenId): TxnId {
    Txn(t.op, parent, MergeClaim(RecordsOf(parent), t.claim))
  }

  /** The claim already contains what its parent holds of it: merging it again changes nothing.  These
      are exactly the transactions that merge some proposal. */
  predicate Canonical(t: TxnId) {
    t.claim == MergeClaim(RecordsOf(t.parent), t.claim)
  }

  /** What `_validate_prepared` establishes for a generation and, inductively, for its ancestors. */
  predicate WellFormed(g: GenId) {
    match g
    case Genesis => true
    case Gen(parent, _, _, txn) =>
      WellFormed(parent) && txn.parent == parent && Canonical(txn) && g == NextOf(txn)
  }

  /** `a` is `g` or one of its ancestors. */
  predicate InChain(a: GenId, g: GenId) {
    a == g || (g.Gen? && InChain(a, g.parent))
  }

  function Depth(g: GenId): nat {
    match g
    case Genesis => 0
    case Gen(parent, _, _, _) => 1 + Depth(parent)
  }

  lemma InChainDepth(a: GenId, g: GenId)
    requires InChain(a, g)
    ensures Depth(a) <= Depth(g)
    ensures Depth(a) == Depth(g) ==> a == g
  {
  }

  lemma InChainTransitive(a: GenId, b: GenId, c: GenId)
    requires InChain(a, b) && InChain(b, c)
    ensures InChain(a, c)
    decreases c
  {
    if b != c {
      InChainTransitive(a, b, c.parent);
    }
  }

  /** A proposal is not in the ancestry of its own parent. */
  lemma ChildNotInChain(t: TxnId)
    ensures !InChain(NextOf(t), t.parent)
  {
    if InChain(NextOf(t), t.parent) {
      InChainDepth(NextOf(t), t.parent);
    }
  }

  /** Two generations in one ancestry are comparable. */
  lemma InChainTotal(a: GenId, b: GenId, g: GenId)
    requires InChain(a, g) && InChain(b, g)
    ensures InChain(a, b) || InChain(b, a)
    decreases g
  {
    if a != g && b != g {
      InChainTotal(a, b, g.parent);
    }
  }

  lemma WellFormedAncestor(a: GenId, g: GenId)
    requires InChain(a, g) && WellFormed(g)
    ensures WellFormed(a)
    ensures a.Gen? ==> a == NextOf(a.txn) && Canonical(a.txn)
  {
  }

  /** A descendant keeps every claim key and its text, only adds evidence and only lowers the recording time. */
  ghost predicate Preserves(a: Records, b: Records) {
    forall id <- a ::
      && id in b
      && !b[id].tombstone
      && b[id].claim.id == id
      && a[id].claim.evidence <= b[id].claim.evidence
      && b[id].claim.recordedAt <= a[id].claim.recordedAt
      && b[id].claim.body == a[id].claim.body
  }

  lemma WellFormedRecords(g: GenId)
    requires WellFormed(g)
    ensures forall id <- RecordsOf(g) :: !RecordsOf(g)[id].tombstone && RecordsOf(g)[id].claim.id == id
  {
  }

  /** Along an ancestry no claim key disappears or changes its text, each live claim's evidence only grows and its
      recording time only falls. */
  lemma {:induction false} AncestryPreservesClaims(a: GenId, g: GenId)
    requires InChain(a, g) && WellFormed(g)
    ensures Preserves(RecordsOf(a), RecordsOf(g))
    decreases g
  {
    WellFormedRecords(g);
    if a != g {
      AncestryPreservesClaims(a, g.parent);
      WellFormedRecords(g.parent);
      forall id <- RecordsOf(a)
        ensures RecordsOf(a)[id].claim.evidence <= RecordsOf(g)[id].claim.evidence
      {
        assert RecordsOf(g.parent)[id].claim.evidence <= RecordsOf(g)[id].claim.evidence;
      }
    }
  }

  lemma CanonicalIffCandidate(t: TxnId)
    requires WellFormed(t.parent)
    ensures Canonical(t) <==> exists proposal :: t == CandidateTxn(t.op, t.parent, proposal)
  {
    WellFormedRecords(t.parent);
    if Canonical(t) {
      assert t == CandidateTxn(t.op, t.parent, t.claim);
    }
    forall proposal | t == CandidateTxn(t.op, t.parent, proposal)
      ensures Canonical(t)
    {
      CandidateIsCanonical(t.op, t.parent, proposal);
    }
  }

  lemma CandidateIsCanonical(op: Operation, parent: GenId, proposal: Claim)
    requires WellFormed(parent)
    ensures
      var t := CandidateTxn(op, parent, proposal);
      && Canonical(t) && t.claim.id == proposal.id
      && proposal.evidence <= t.claim.evidence && t.claim.recordedAt <= proposal.recordedAt
  {
    WellFormedRecords(parent);
    if proposal.id in RecordsOf(parent) {
      var prior := RecordsOf(parent)[proposal.id].claim;
      assert prior.evidence + (prior.evidence + proposal.evidence) == prior.evidence + proposal.evidence;
    }
  }

  /** An operation that was promoted anywhere in an ancestry keeps its evidence at the head. */
  lemma PromotedEvidenceSurvives(t: TxnId, g: GenId)
    requires WellFormed(g) && InChain(NextOf(t), g)
    ensures t.claim.id in RecordsOf(g)
    ensures t.claim.evidence <= RecordsOf(g)[t.claim.id].claim.evidence
    ensures RecordsOf(g)[t.claim.id].claim.recordedAt <= t.claim.recordedAt
  {
    AncestryPreservesClaims(NextOf(t), g);
  }

  /** Rebasing onto a descendant gives exactly the transaction a fresh preparation would: merging
      the already merged claim adds nothing, because the descendant kept all of it. */
  lemma RebaseIsFreshPreparation(op: Operation, base: GenId, proposal: Claim, parent: GenId)
    requires WellFormed(parent) && InChain(base, parent)
    ensures Rebase(CandidateTxn(op, base, proposal), parent) == CandidateTxn(op, parent, proposal)
  {
    WellFormedAncestor(base, parent);
    AncestryPreservesClaims(base, parent);
    WellFormedRecords(parent);
    WellFormedRecords(base);
    if proposal.id in RecordsOf(base) {
      var before, after := RecordsOf(base)[proposal.id].claim, RecordsOf(parent)[proposal.id].claim;
      assert after.evidence + (before.evidence + proposal.evidence) == after.evidence + proposal.evidence;
    }
  }

  lemma RebaseIsCanonical(t: TxnId, parent: GenId)
    requires WellFormed(parent)
    ensures Canonical(Rebase(t, parent))
  {
    CandidateIsCanonical(t.op, parent, t.claim);
  }

  /** What a generation adds to its parent: its claim with exactly the evidence of the parent's and of the proposal, the
      earlier of both times and the parent's text.  Every other claim is the parent's. */
  lemma CandidateAdds(op: Operation, parent: GenId, proposal: Claim)
    requires WellFormed(parent)
    ensures
      var before, after := RecordsOf(parent), RecordsOf(NextOf(CandidateTxn(op, parent, proposal)));
      var id := proposal.id;
      && after.Keys == before.Keys + {id}
      && (forall other <- before | other != id :: after[other] == before[other])
      && !after[id].tombstone && after[id].claim.id == id
      && (id !in before ==> after[id].claim == proposal)
      && (id in before ==>
            && after[id].claim.body == before[id].claim.body
            && after[id].claim.evidence == before[id].claim.evidence + proposal.evidence
            && after[id].claim.recordedAt <= before[id].claim.recordedAt && after[id].claim.recordedAt <= proposal.recordedAt
            && after[id].claim.recordedAt in {before[id].claim.recordedAt, proposal.recordedAt})
  {
    WellFormedRecords(parent);
  }

  /** A generation carries the time of its run, and its event names the generation, its parent, its operation and that
      time. */
  lemma EventNamesGeneration(t: TxnId)
    ensures
      var g, e := NextOf(t), EventOf(t);
      && g.Gen? && g.parent == t.parent && g.txn == t && g.createdAt == t.op.runCreatedAt
      && e.newGeneration == g && e.parent == g.parent && e.txn == t && e.op == t.op && e.committedAt == g.createdAt
  {
  }

  /** Two operations prepared on one parent: when the loser is rebased onto the winner, the result
      keeps the evidence of both. */
  lemma RebaseKeepsBothEvidences(parent: GenId, winner: Operation, p: Claim, loser: Operation, q: Claim)
    requires WellFormed(parent)
    ensures
      var base := NextOf(CandidateTxn(winner, parent, p));
      var merged := RecordsOf(NextOf(Rebase(CandidateTxn(loser, parent, q), base)));
      && p.id in merged && p.evidence <= merged[p.id].claim.evidence
      && q.id in merged && q.evidence <= merged[q.id].claim.evidence
  {
    var first := CandidateTxn(winner, parent, p);
    var base := NextOf(first);
    CandidateIsCanonical(winner, parent, p);
    assert WellFormed(base);
    assert InChain(parent, parent) && InChain(parent, base);
    RebaseIsFreshPreparation(loser, parent, q, base);
    CandidateIsCanonical(loser, base, q);
    var second := CandidateTxn(loser, base, q);
    var head := NextOf(second);
    assert WellFormed(head);
    assert InChain(base, base) && InChain(base, head) && InChain(head, head);
    PromotedEvidenceSurvives(first, head);
    PromotedEvidenceSurvives(second, head);
  }
}
