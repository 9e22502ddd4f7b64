/**
 Where the two halves meet: `on_control_op`, `on_certs_arrived` and `evict_if_spliced` of
 crates/iroh-beekem-core/src/state.rs drive the key plane and then the pending chunks. Proved against
 `IngestConfluence` and `Authority`.
 */
module WorkspaceState {
  import opened Ordered
  import opened Certificates
  import opened Holdings
  import opened CapabilityStore
  import opened MergeMachine
  import opened Authority
  import opened IngestMachine
  import opened IngestConfluence
  import Keyring = CgkaController
  import Mailbox = WorkspaceInbox

  /** Whether an admin asks for the removal of a leaf that a non-member introduced. */
  datatype Splice = Unspliced | EvictUncertified(member: Id)

  class WorkspaceState {
    const me: Id
    const derivable: Op -> bool
    const cgka: Keyring.CgkaController
    const inbox: Mailbox.WorkspaceInbox

    constructor (me: Id, derivable: Op -> bool, cgka: Keyring.CgkaController, inbox: Mailbox.WorkspaceInbox)
      requires cgka.Valid() && inbox.Valid()
      ensures this.me == me && this.derivable == derivable && this.cgka == cgka && this.inbox == inbox && Valid()
    {
      this.me, this.derivable, this.cgka, this.inbox := me, derivable, cgka, inbox;
    }

    ghost predicate Valid()
      reads this, cgka, cgka.certs, inbox
    {
      cgka.Valid() && inbox.Valid()
    }

    /** How this node judges operations under the certificates it holds now. */
    ghost function Judging(): Node
      reads this, cgka, cgka.certs
    {
      Node(CertifiedBy(cgka.certs.View()), derivable)
    }

    ghost function View(effects: seq<Effect>): Workspace
      reads this, cgka, inbox
    {
      Workspace(cgka.Graph(), inbox.View(effects))
    }

    /** Absorb the proof, merge, drain the operations and, if one was applied, the chunks. */
    method OnControlOp(a: AuthorizedOp, ghost issued: Certs)
      returns (outcome: Outcome, effects: seq<Effect>, splice: Splice)
      requires Valid() && Within(cgka.certs.View(), issued) && AllGenuine(issued, a.proof)
      modifies cgka, cgka.certs, inbox
      ensures Valid() && Within(cgka.certs.View(), issued)
      ensures cgka.State() == Receive(old(cgka.State()), ControlOp(a))
      ensures View(effects) == Handle(Judging(), old(View([])), KeyOp(a))
      ensures outcome == if !a.signatureOk then Outcome.BadSignature
                         else Verdict(Judging().ok, old(cgka.Graph()), a.op)
      ensures splice.EvictUncertified? <==>
              && outcome == Applied && a.op.change.Add? && a.op.issuer !in cgka.currentMembers
              && MayAdminister(cgka.certs.derived, me)
      ensures splice.EvictUncertified? ==> splice.member == a.op.change.member
    {
      ghost var before := inbox.View([]);
      outcome := cgka.OnControlOp(a, issued);
      assert inbox.View([]) == before;
      ghost var keys := cgka.State();
      effects := DrainChunksIf(outcome == Applied);
      assert cgka.State() == keys;
      splice := Unspliced;
      if outcome == Applied {
        if a.op.change.Add? && a.op.issuer !in cgka.currentMembers && MayAdminister(cgka.certs.derived, me) {
          splice := EvictUncertified(a.op.change.member);
        }
      }
    }

    method DrainChunksIf(changed: bool) returns (effects: seq<Effect>)
      requires Valid()
      modifies inbox
      ensures Valid()
      ensures inbox.View(effects) == if changed then Drain(Keys(cgka.applied, derivable), old(inbox.View([])))
                                     else old(inbox.View([]))
    {
      effects := [];
      if changed {
        effects := inbox.DrainPending(Keys(cgka.applied, derivable));
      }
    }

    /** Certificates alone: both queues are retried exactly when one of them was new. */
    method OnCertsArrived(xs: seq<Certificate>, ghost issued: Certs) returns (effects: seq<Effect>, ghost added: nat)
      requires Valid() && Within(cgka.certs.View(), issued) && AllGenuine(issued, xs)
      modifies cgka, cgka.certs, inbox
      ensures Valid() && Within(cgka.certs.View(), issued)
      ensures cgka.State() == Receive(old(cgka.State()), CertsArrived(xs))
      ensures Len(cgka.certs.View()) == Len(old(cgka.certs.View())) + added
      ensures inbox.View(effects) == if added > 0 then Drain(Keys(cgka.applied, derivable), old(inbox.View([])))
                                     else old(inbox.View([]))
    {
      ghost var before := inbox.View([]);
      var news := cgka.OnCertsArrived(xs, issued);
      added := news;
      assert inbox.View([]) == before;
      ghost var keys := cgka.State();
      effects := DrainChunksIf(news > 0);
      assert cgka.State() == keys;
    }

    /** A chunk is judged with the keys this node can derive now. */
    method OnChunkArrived(doc: DocId, chunk: Chunk) returns (effects: seq<Effect>)
      requires Valid()
      modifies inbox
      ensures Valid() && View(effects) == Handle(Judging(), old(View([])), ChunkArrived(doc, chunk))
    {
      effects := inbox.OnChunkArrived(Keys(cgka.applied, derivable), doc, chunk);
    }
  }
}
