/** The volume machine updates the list of disk ids in one step; the driver does it with a whole
    call of the RDE protocol, between any steps of others. Here is why that is the same: such a
    call is one step of the machine on the list of one version of the entity. */
module IndexRefinement {
  import opened Wrappers
  import opened Documents
  import opened RdeUpdates
  import opened RdeProtocol
  import RdeGuarantees
  import Volumes

  /** Whether a call has something to do on a list: the machine's conditions in CreateIndexes, where
      the name asked for is that of the disk, and in DeleteIndexes. */
  predicate Needed(op: Op, index: seq<string>)
    requires op.AddPv? || op.RemovePv?
  {
    if op.AddPv? then op.name !in index else op.id in index
  }

  function Updated(op: Op, index: seq<string>): seq<string>
    requires op.AddPv? || op.RemovePv?
  {
    if op.AddPv? then index + [op.id] else RemoveFirst(index, op.id)
  }

  lemma {:induction false} OwnCommit(log: seq<Commit>, c: CallId, from: nat, to: nat) returns (at: nat)
    requires from <= to <= |log| && Owns(log, c, from, to) > 0
    ensures from <= at < to && log[at].Own? && log[at].call == c
  {
    if log[to - 1].Own? && log[to - 1].call == c {
      at := to - 1;
    } else {
      at := OwnCommit(log, c, from, to - 1);
    }
  }

  ghost predicate IsListOp(w: World, c: CallId) {
    c in w.calls && (w.calls[c].op.AddPv? || w.calls[c].op.RemovePv?)
  }

  /** The version that the committed update of a call replaced; the call had been started by then. */
  lemma CommittedVersion(w: World, c: CallId) returns (at: nat)
    requires Reachable(w) && IsListOp(w, c) && Owns(w.log, c, 0, |w.log|) == 1
    ensures w.calls[c].startedAt <= at < |w.log| && w.log[at].Own? && w.log[at].call == c
    ensures w.log[at].op == w.calls[c].op
  {
    RdeGuarantees.ReachableHolds(w);
    RdeGuarantees.NilMeansDone(w, c);
    OwnsSplit(w.log, c, 0, w.calls[c].startedAt, |w.log|);
    at := OwnCommit(w.log, c, w.calls[c].startedAt, |w.log|);
    assert w.calls[w.log[at].call].op == w.log[at].op;
  }

  /** A finished add or removal on a native cluster: at some version `at` during the call the list
      was such that the machine allows a step with the same commit and the same answer, and if the
      call committed, it took that very list to the one that the machine's step makes of it. */
  lemma ListCallIsOneStep(w: World, c: CallId) returns (at: nat, choice: Volumes.Choice)
    requires Reachable(w) && IsListOp(w, c) && w.calls[c].phase.Done?
    requires forall i | w.calls[c].startedAt <= i <= |w.log| :: Version(w, i).kind == Native
    ensures choice.Index? && w.calls[c].startedAt <= at <= |w.log|
    ensures choice.ok <==> w.calls[c].phase.result == Nil
    ensures choice.committed <==> Owns(w.log, c, 0, |w.log|) == 1
    ensures choice.ok || choice.committed ==>
              && NativePvs(Version(w, at)).Ok?
              && Volumes.IndexAllowed(choice, Needed(w.calls[c].op, NativePvs(Version(w, at)).value))
    ensures choice.committed ==>
              && at < |w.log| && w.log[at].Own? && w.log[at].call == c
              && NativePvs(Version(w, at + 1)) == Ok(Updated(w.calls[c].op, NativePvs(Version(w, at)).value))
  {
    RdeGuarantees.NilMeansDone(w, c);
    var owns := Owns(w.log, c, 0, |w.log|);
    choice := Volumes.Index(owns == 1, w.calls[c].phase.result == Nil);
    at := w.calls[c].startedAt;
    if owns == 1 {
      at := CommittedVersion(w, c);
      RdeGuarantees.CommittedListUpdate(w, at);
    } else if choice.ok {
      at := w.calls[c].phase.lastRead;
      assert Version(w, at).kind == Native;
    }
  }
}
