/** Attachment safety: in every run of the controller, with any interleaving of its handlers, any
    failures and any restarts, a disk that is not shareable is attached to at most one VM, and no
    disk is deleted while it is attached. */
module VolumeSafety {
  import opened Wrappers
  import opened Volumes

  ghost predicate NoRepeats(vms: seq<Vm>) {
    forall i, j | 0 <= i < j < |vms| :: vms[i] != vms[j]
  }

  ghost predicate DisksOk(c: Cloud) {
    && c.live.Keys <= c.attached.Keys
    && (forall id | id in c.live :: c.live[id].id == id && (!c.live[id].shareable ==> |c.attached[id]| <= 1))
    && (forall id | id in c.attached && id !in c.live :: c.attached[id] == [])
    && (forall id | id in c.attached :: NoRepeats(c.attached[id]))
  }

  /** A disk that was looked up exists, or did; what cannot change about it has not. */
  ghost predicate Seen(c: Cloud, seen: Disk) {
    && seen.id in c.attached
    && (seen.id in c.live ==> c.live[seen.id].shareable == seen.shareable)
  }

  ghost predicate CreateKnows(c: Cloud, p: Creating) {
    p.CreateIndexes? ==> p.id in c.live
  }

  ghost predicate DeleteKnows(c: Cloud, p: Deleting) {
    match p
    case DeleteWaits(_) => true
    case DeleteLooks(_) => true
    case DeleteReads(id) => id in c.attached
    case DeleteRereads(id) => id in c.attached
    case DeleteIssues(id) => id in c.attached && c.attached[id] == []
    case DeleteIndexes(id) => id in c.attached && id !in c.live
  }

  ghost predicate AttachKnows(c: Cloud, p: Attaching) {
    match p
    case PublishLooks(_, _) => true
    case AttachWaits(seen, _) => Seen(c, seen)
    case AttachReads(seen, _) => Seen(c, seen)
    case AttachIssues(seen, vm) =>
      Seen(c, seen) && vm !in c.attached[seen.id] && (!seen.shareable ==> c.attached[seen.id] == [])
    case AttachRefreshes(id, vm) => id in c.live && id in c.attached && vm in c.attached[id]
  }

  /** What a handler has found out and relies on. */
  ghost predicate Knows(c: Cloud, phase: Phase) {
    match phase
    case Creates(p) => CreateKnows(c, p)
    case Deletes(p) => DeleteKnows(c, p)
    case Attaches(p) => AttachKnows(c, p)
    case _ => true
  }

  // ----- what a call does, and what it leaves to the others -----

  /** No disk comes back, and none changes whether it is shareable. */
  ghost predicate Later(c: Cloud, c': Cloud) {
    && c.attached.Keys <= c'.attached.Keys
    && forall id | id in c.attached && id in c'.live :: id in c.live && c'.live[id].shareable == c.live[id].shareable
  }

  /** The same disks exist, perhaps with new ones, and are attached to the same VMs. */
  ghost predicate SameUse(c: Cloud, c': Cloud) {
    && c.live.Keys <= c'.live.Keys
    && forall id | id in c.attached && id in c'.attached :: c'.attached[id] == c.attached[id]
  }

  /** A call keeps the disks in order; only a holder of the lock changes their use. */
  ghost predicate Sound(c: Cloud, phase: Phase, effect: Effect) {
    effect.Goes? ==>
      && DisksOk(effect.cloud)
      && Knows(effect.cloud, effect.phase)
      && Later(c, effect.cloud)
      && (Locked(phase) || SameUse(c, effect.cloud))
  }

  lemma MakeIsSound(c: Cloud, made: Disk)
    requires DisksOk(c) && made.id !in c.attached
    ensures var c' := c.(live := c.live[made.id := made], attached := c.attached[made.id := []]);
            DisksOk(c') && Later(c, c') && made.id in c'.live
  {
  }

  lemma IndexIsSound(c: Cloud, c': Cloud)
    requires DisksOk(c) && c'.live == c.live && c'.attached == c.attached
    ensures DisksOk(c') && Later(c, c') && SameUse(c, c')
  {
  }

  lemma CreateIsSound(c: Cloud, p: Creating, choice: Choice)
    requires DisksOk(c) && CreateKnows(c, p)
    ensures Sound(c, Creates(p), CreateCall(c, p, choice))
  {
    match p
    case CreateWaits(_) => IndexIsSound(c, c);
    case CreateLooks(_) => IndexIsSound(c, c);
    case CreateMakes(_) =>
      if choice.Make? && choice.made.id !in c.attached {
        MakeIsSound(c, choice.made);
      }
    case CreateIndexes(_, id) =>
      IndexIsSound(c, c);
      IndexIsSound(c, c.(index := c.index + [id], indexed := c.indexed + {id}));
  }

  lemma GoneIsSound(c: Cloud, id: string)
    requires DisksOk(c) && id in c.live && c.attached[id] == []
    ensures var c' := c.(live := c.live - {id});
            DisksOk(c') && Later(c, c') && id !in c'.live
  {
  }

  lemma DeleteIsSound(c: Cloud, p: Deleting, choice: Choice)
    requires DisksOk(c) && DeleteKnows(c, p)
    ensures Sound(c, Deletes(p), DeleteCall(c, p, choice))
  {
    IndexIsSound(c, c);
    match p
    case DeleteIssues(id) =>
      if id in c.live {
        GoneIsSound(c, id);
      }
    case DeleteIndexes(id) =>
      IndexIsSound(c, c.(index := RdeUpdates.RemoveFirst(c.index, id), unindexed := c.unindexed + {id}));
    case _ =>
  }

  lemma AttachedIsSound(c: Cloud, id: string, vms: seq<Vm>)
    requires DisksOk(c) && id in c.live
    requires c.live[id].shareable || |vms| <= 1 || |vms| <= |c.attached[id]|
    requires NoRepeats(vms)
    ensures DisksOk(c.(attached := c.attached[id := vms])) && Later(c, c.(attached := c.attached[id := vms]))
  {
  }

  /** Only the attach call changes anything. */
  lemma AttachEffect(c: Cloud, p: Attaching, choice: Choice)
    requires AttachCall(c, p, choice).Goes?
    ensures var c' := AttachCall(c, p, choice).cloud;
            || c' == c
            || (p.AttachIssues? && p.seen.id in c.live
                && c' == c.(attached := c.attached[p.seen.id := VmsOf(c, p.seen.id) + [p.vm]]))
  {
  }

  lemma AttachStillKnows(c: Cloud, p: Attaching, choice: Choice)
    requires DisksOk(c) && AttachKnows(c, p) && AttachCall(c, p, choice).Goes?
    ensures Knows(AttachCall(c, p, choice).cloud, AttachCall(c, p, choice).phase)
  {
  }

  lemma AttachIsSound(c: Cloud, p: Attaching, choice: Choice)
    requires DisksOk(c) && AttachKnows(c, p)
    ensures Sound(c, Attaches(p), AttachCall(c, p, choice))
  {
    if AttachCall(c, p, choice).Goes? {
      AttachEffect(c, p, choice);
      AttachStillKnows(c, p, choice);
      IndexIsSound(c, c);
      if p.AttachIssues? && p.seen.id in c.live {
        AttachedIsSound(c, p.seen.id, VmsOf(c, p.seen.id) + [p.vm]);
      }
    }
  }

  lemma {:induction false} WithoutIsShorter(vms: seq<Vm>, vm: Vm)
    ensures |Without(vms, vm)| <= |vms|
    ensures forall other :: other in Without(vms, vm) <==> other in vms && other != vm
    ensures NoRepeats(vms) ==> NoRepeats(Without(vms, vm))
  {
    if vms != [] {
      WithoutIsShorter(vms[1..], vm);
      assert vms == [vms[0]] + vms[1..];
      WithoutKeepsDistinct(vms, vm);
    }
  }

  lemma WithoutKeepsDistinct(vms: seq<Vm>, vm: Vm)
    requires vms != [] && (NoRepeats(vms[1..]) ==> NoRepeats(Without(vms[1..], vm)))
    requires forall other :: other in Without(vms[1..], vm) <==> other in vms[1..] && other != vm
    ensures NoRepeats(vms) ==> NoRepeats(Without(vms, vm))
  {
    var rest := Without(vms[1..], vm);
    if NoRepeats(vms) {
      assert forall i | 0 <= i < |vms[1..]| :: vms[1..][i] == vms[i + 1];
      assert vms[0] !in vms[1..];
      assert vms[0] !in rest;
      assert vms[0] != vm ==>
        forall i | 0 < i < |[vms[0]] + rest| :: ([vms[0]] + rest)[i] == rest[i - 1] && rest[i - 1] in rest;
    }
  }

  /** Only the detach call changes anything. */
  lemma DetachEffect(c: Cloud, p: Detaching, choice: Choice)
    requires DetachCall(c, p, choice).Goes?
    ensures var effect := DetachCall(c, p, choice);
            && (effect.phase.Detaches? || effect.phase.Done?)
            && (effect.cloud == c
                || (p.DetachIssues? && p.id in c.live
                    && effect.cloud == c.(attached := c.attached[p.id := Without(VmsOf(c, p.id), p.vm)])))
  {
  }

  lemma DetachIsSound(c: Cloud, p: Detaching, choice: Choice)
    requires DisksOk(c)
    ensures Sound(c, Detaches(p), DetachCall(c, p, choice))
  {
    IndexIsSound(c, c);
    if DetachCall(c, p, choice).Goes? {
      DetachEffect(c, p, choice);
    }
    if p.DetachIssues? && p.id in c.live {
      WithoutIsShorter(VmsOf(c, p.id), p.vm);
      AttachedIsSound(c, p.id, Without(VmsOf(c, p.id), p.vm));
    }
  }

  lemma ResizeIsSound(c: Cloud, live: map<string, Disk>)
    requires DisksOk(c) && live.Keys == c.live.Keys
    requires forall id | id in live :: live[id] == c.live[id].(sizeMb := live[id].sizeMb)
    ensures DisksOk(c.(live := live)) && Later(c, c.(live := live)) && SameUse(c, c.(live := live))
  {
  }

  /** Only the two kinds of PUT change anything. */
  lemma ExpandEffect(c: Cloud, p: Expanding, choice: Choice)
    requires ExpandCall(c, p, choice).Goes?
    ensures var effect := ExpandCall(c, p, choice);
            && (effect.phase.Expands? || effect.phase.Done?)
            && (|| effect.cloud == c
                || (p.OfflinePuts? && p.id in c.live
                    && effect.cloud == c.(live := c.live[p.id := c.live[p.id].(sizeMb := p.newMb)]))
                || (p.OnlinePuts? && effect.cloud == c.(live := Resized(c, p.settings))))
  {
  }

  lemma ExpandIsSound(c: Cloud, p: Expanding, choice: Choice)
    requires DisksOk(c)
    ensures Sound(c, Expands(p), ExpandCall(c, p, choice))
  {
    IndexIsSound(c, c);
    if ExpandCall(c, p, choice).Goes? {
      ExpandEffect(c, p, choice);
      if p.OfflinePuts? && p.id in c.live {
        ResizeIsSound(c, c.live[p.id := c.live[p.id].(sizeMb := p.newMb)]);
      } else if p.OnlinePuts? {
        ResizeIsSound(c, Resized(c, p.settings));
      }
    }
  }

  lemma CallIsSound(c: Cloud, phase: Phase, choice: Choice)
    requires DisksOk(c) && Knows(c, phase)
    ensures Sound(c, phase, Call(c, phase, choice))
  {
    if !choice.Fail? {
      match phase
      case Creates(p) => CreateIsSound(c, p, choice);
      case Deletes(p) => DeleteIsSound(c, p, choice);
      case Attaches(p) => AttachIsSound(c, p, choice);
      case Detaches(p) => DetachIsSound(c, p, choice);
      case Expands(p) => ExpandIsSound(c, p, choice);
      case Done(_) =>
    }
  }

  /** The lock keeps the use of the disks from changing under a handler that relies on it. */
  lemma OthersStillKnow(c: Cloud, c': Cloud, phase: Phase)
    requires Knows(c, phase) && Later(c, c') && (Locked(phase) ==> SameUse(c, c'))
    ensures Knows(c', phase)
  {
  }

  // ----- the invariant -----

  /** The lock is held by exactly the handler that is between locking and unlocking. */
  ghost predicate LockOk(w: World) {
    && (forall t | t in w.threads :: Locked(w.threads[t]) <==> w.lock == Some(t))
    && (w.lock.Some? ==> w.lock.value in w.threads)
  }

  ghost predicate Inv(w: World) {
    && DisksOk(w.cloud)
    && LockOk(w)
    && (forall t | t in w.threads :: Knows(w.cloud, w.threads[t]))
  }

  lemma MoveKeepsLock(w: World, t: Tid, effect: Effect)
    requires LockOk(w) && t in w.threads
    ensures LockOk(Move(w, t, effect))
  {
  }

  lemma MoveKeepsInv(w: World, t: Tid, effect: Effect)
    requires Inv(w) && t in w.threads && Sound(w.cloud, w.threads[t], effect)
    ensures Inv(Move(w, t, effect))
  {
    MoveKeepsLock(w, t, effect);
    var w' := Move(w, t, effect);
    if w' != w {
      forall u | u in w'.threads ensures Knows(w'.cloud, w'.threads[u]) {
        if u != t {
          OthersStillKnow(w.cloud, w'.cloud, w.threads[u]);
        }
      }
    }
  }

  lemma NextKeepsInv(w: World, s: Step)
    requires Inv(w)
    ensures Inv(Next(w, s))
  {
    if s.Step? && s.t in w.threads {
      CallIsSound(w.cloud, w.threads[s.t], s.choice);
      MoveKeepsInv(w, s.t, Call(w.cloud, w.threads[s.t], s.choice));
    }
  }

  lemma {:induction false} RunKeepsInv(w: World, steps: seq<Step>)
    requires Inv(w)
    ensures Inv(Run(w, steps))
    decreases |steps|
  {
    if steps != [] {
      NextKeepsInv(w, steps[0]);
      RunKeepsInv(Next(w, steps[0]), steps[1..]);
    }
  }

  ghost predicate Reachable(w: World) {
    exists zones, indexing, steps :: w == Run(Init(zones, indexing), steps)
  }

  lemma ReachableHolds(w: World)
    requires Reachable(w)
    ensures Inv(w)
  {
    var zones, indexing, steps :| w == Run(Init(zones, indexing), steps);
    RunKeepsInv(Init(zones, indexing), steps);
  }

  /** In every reachable state a non-shareable disk has at most one VM, a disk that is gone has
      none, and at most one handler is in a locked part. */
  lemma AttachmentSafety(w: World)
    requires Reachable(w)
    ensures forall id | id in w.cloud.live && !w.cloud.live[id].shareable :: |VmsOf(w.cloud, id)| <= 1
    ensures forall id | id !in w.cloud.live :: VmsOf(w.cloud, id) == []
    ensures forall t, u | t in w.threads && u in w.threads && Locked(w.threads[t]) && Locked(w.threads[u]) :: t == u
  {
    ReachableHolds(w);
  }

  lemma OnlyDeletesDelete(c: Cloud, phase: Phase, choice: Choice, id: string)
    requires id in c.live && Call(c, phase, choice).Goes? && id !in Call(c, phase, choice).cloud.live
    ensures phase == Deletes(DeleteIssues(id))
  {
  }

  /** No step takes a disk away from a VM it is attached to, other than by detaching it: a delete
      that VCD carries out finds the disk unattached. */
  lemma DeletesOnlyUnattached(w: World, s: Step, id: string)
    requires Reachable(w) && id in w.cloud.live && id !in Next(w, s).cloud.live
    ensures VmsOf(w.cloud, id) == [] && s.Step? && w.lock == Some(s.t)
  {
    ReachableHolds(w);
    assert s.Step? && s.t in w.threads;
    var phase := w.threads[s.t];
    assert Knows(w.cloud, phase) && (Locked(phase) <==> w.lock == Some(s.t));
    OnlyDeletesDelete(w.cloud, phase, s.choice, id);
  }

  // ----- what success means -----

  /** When ControllerPublishVolume reports success, the disk it looked up is attached to the VM. */
  lemma PublishedMeansAttached(w: World, t: Tid, choice: Choice)
    requires Reachable(w) && t in w.threads && w.threads[t].Attaches?
    requires Call(w.cloud, w.threads[t], choice).Goes? && Call(w.cloud, w.threads[t], choice).phase == Done(Success)
    ensures var p, c' := w.threads[t].attaching, Call(w.cloud, w.threads[t], choice).cloud;
            && (p.AttachReads? || p.AttachRefreshes?)
            && var id := if p.AttachReads? then p.seen.id else p.id;
               id in c'.live && p.vm in VmsOf(c', id)
  {
    ReachableHolds(w);
    assert Knows(w.cloud, w.threads[t]);
  }

  /** When ControllerUnpublishVolume reports success, the disk that its last lookup found is not
      attached to the VM, or that lookup found none. */
  lemma UnpublishedMeansDetached(w: World, t: Tid, choice: Choice)
    requires t in w.threads && w.threads[t].Detaches?
    requires Call(w.cloud, w.threads[t], choice).Goes? && Call(w.cloud, w.threads[t], choice).phase == Done(Success)
    ensures var p, c' := w.threads[t].detaching, Call(w.cloud, w.threads[t], choice).cloud;
            match p
            case UnpublishLooks(name, _) => choice.Look? && LookAllowed(w.cloud, name, choice.readable, None)
            case DetachLooks(name, _) => choice.Look? && LookAllowed(w.cloud, name, choice.readable, None)
            case DetachWaits(_, _) => false
            case _ => p.vm !in VmsOf(c', p.id)
  {
    var p := w.threads[t].detaching;
    if p.DetachIssues? {
      WithoutIsShorter(VmsOf(w.cloud, p.id), p.vm);
    }
  }

  // ----- where it is assumed that a call given up has no later effect -----

  /** The attach task of a handler that has given up waiting for it succeeds after all. */
  function LateAttach(c: Cloud, id: string, vm: Vm): Cloud {
    c.(attached := c.attached[id := VmsOf(c, id) + [vm]])
  }

  /** A late attach does no harm exactly if the disk is then free, or shareable and not attached to
      that VM already. */
  lemma LateAttachIsSafeIff(c: Cloud, id: string, vm: Vm)
    requires DisksOk(c) && id in c.live
    ensures DisksOk(LateAttach(c, id, vm)) <==> vm !in VmsOf(c, id) && (c.live[id].shareable || VmsOf(c, id) == [])
  {
    var vms, late := VmsOf(c, id), LateAttach(c, id, vm);
    assert late.attached[id] == vms + [vm] && (vms + [vm])[|vms|] == vm;
    if vm in vms {
      var k :| 0 <= k < |vms| && vms[k] == vm;
      assert (vms + [vm])[k] == vm;
    }
  }

  lemma AttachCalls(c: Cloud, seen: Disk, vm: Vm)
    requires seen.id in c.live && vm !in VmsOf(c, seen.id) && (VmsOf(c, seen.id) == [] || seen.shareable)
    ensures AttachCall(c, AttachWaits(seen, vm), Go) == Goes(c, Attaches(AttachReads(seen, vm)))
    ensures AttachCall(c, AttachReads(seen, vm), Go) == Goes(c, Attaches(AttachIssues(seen, vm)))
    ensures AttachCall(c, AttachIssues(seen, vm), Apply(true))
            == Goes(c.(attached := c.attached[seen.id := VmsOf(c, seen.id) + [vm]]),
              Attaches(AttachRefreshes(seen.id, vm)))
  {
  }

  lemma SecondPublishAttaches(w: World, t: Tid, u: Tid, seen: Disk, vm: Vm, second: Vm)
    requires seen.id in w.cloud.live && VmsOf(w.cloud, seen.id) == [] && w.lock == Some(t) && t != u
    requires t in w.threads && w.threads[t] == Attaches(AttachIssues(seen, vm))
    requires u in w.threads && w.threads[u] == Attaches(AttachWaits(seen, second))
    ensures var w' := Run(w, [Step(t, Fail), Step(u, Go), Step(u, Go), Step(u, Apply(true))]);
            && w'.cloud == w.cloud.(attached := w.cloud.attached[seen.id := [second]])
            && t in w'.threads && w'.threads[t] == Done(Failure)
  {
    var c := w.cloud;
    var c' := c.(attached := c.attached[seen.id := VmsOf(c, seen.id) + [second]]);
    AttachCalls(c, seen, second);
    StepGoes(w, t, Fail, c, Done(Failure));
    var w1 := Moved(w, t, c, Done(Failure));
    assert w1.lock == None && w1.threads[u] == w.threads[u];
    StepGoes(w1, u, Go, c, Attaches(AttachReads(seen, second)));
    var w2 := Moved(w1, u, c, Attaches(AttachReads(seen, second)));
    StepGoes(w2, u, Go, c, Attaches(AttachIssues(seen, second)));
    var w3 := Moved(w2, u, c, Attaches(AttachIssues(seen, second)));
    StepGoes(w3, u, Apply(true), c', Attaches(AttachRefreshes(seen.id, second)));
    var w4 := Moved(w3, u, c', Attaches(AttachRefreshes(seen.id, second)));
    FourSteps(w, [Step(t, Fail), Step(u, Go), Step(u, Go), Step(u, Apply(true))], w1, w2, w3, w4);
    assert [] + [second] == [second];
  }

  /** The run that needs the assumption: the wait for an attach fails, the lock is released, the
      next publish finds the disk free and attaches it to another VM, and then the first task is
      carried out: a disk that is not shareable has two VMs. */
  lemma LateAttachBreaksSafety(w: World, t: Tid, u: Tid, id: string, vm: Vm, second: Vm)
    requires Inv(w) && id in w.cloud.live && !w.cloud.live[id].shareable && VmsOf(w.cloud, id) == [] && vm != second
    requires t in w.threads && w.threads[t] == Attaches(AttachIssues(w.cloud.live[id], vm))
    requires u in w.threads && w.threads[u] == Attaches(AttachWaits(w.cloud.live[id], second))
    ensures var w' := Run(w, [Step(t, Fail), Step(u, Go), Step(u, Go), Step(u, Apply(true))]);
            && t in w'.threads && w'.threads[t] == Done(Failure)
            && VmsOf(w'.cloud, id) == [second]
            && VmsOf(LateAttach(w'.cloud, id, vm), id) == [second, vm]
            && !DisksOk(LateAttach(w'.cloud, id, vm))
  {
    assert Locked(w.threads[t]) <==> w.lock == Some(t);
    SecondPublishAttaches(w, t, u, w.cloud.live[id], vm, second);
  }
}
