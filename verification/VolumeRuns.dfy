/** How a publication, an unpublication, a creation and a deletion end that run by themselves with
    nothing failing: exactly as their request deserves, whatever the disks and attachments are; and
    the runs that get there. Expansions are in VolumeExpansion. */
module VolumeRuns {
  import opened Wrappers
  import opened Volumes
  import Safety = VolumeSafety
  import Index = VolumeIndex
  import RdeUpdates

  /** Nothing fails, and nothing is reported to fail. */
  predicate IsSmooth(choice: Choice) {
    match choice
    case Fail => false
    case Make(_, ok) => ok
    case Index(_, ok) => ok
    case Apply(ok) => ok
    case _ => true
  }

  predicate AllSmooth(steps: seq<Step>) {
    forall i | 0 <= i < |steps| && steps[i].Step? :: IsSmooth(steps[i].choice)
  }

  /** A handler's own calls, in which nothing fails, and whose lookups can read every OVDC. */
  ghost predicate Undisturbed(c: Cloud, t: Tid, steps: seq<Step>) {
    Index.Alone(c.zones, t, steps) && AllSmooth(steps)
  }

  lemma FirstOfUndisturbed(c: Cloud, t: Tid, steps: seq<Step>)
    requires Undisturbed(c, t, steps) && steps != []
    ensures steps[0].Step? && steps[0].t == t && IsSmooth(steps[0].choice)
    ensures steps[0].choice.Look? ==> steps[0].choice.readable == c.zones
    ensures Undisturbed(c, t, steps[1..])
  {
    assert Index.IsOwn(c.zones, t, steps[0]);
  }

  // ----- publishing -----

  /** A disk that is on the VM already is left alone; one that is elsewhere and not shareable is
      refused; any other gets the VM after those it has. */
  function PublishEnd(c: Cloud, id: string, vm: Vm): (Cloud, Outcome)
    requires id in c.live
  {
    if vm in VmsOf(c, id) then (c, Success)
    else if VmsOf(c, id) != [] && !c.live[id].shareable then (c, Failure)
    else (c.(attached := c.attached[id := VmsOf(c, id) + [vm]]), Success)
  }

  ghost predicate Publishing(c: Cloud, c': Cloud, phase: Phase, name: string, id: string, vm: Vm)
    requires id in c.live
  {
    var free := vm !in VmsOf(c, id) && (VmsOf(c, id) == [] || c.live[id].shareable);
    match phase
    case Attaches(p) =>
      (match p
       case PublishLooks(_, _) => p == PublishLooks(name, vm) && c' == c
       case AttachWaits(_, _) => p == AttachWaits(c.live[id], vm) && c' == c
       case AttachReads(_, _) => p == AttachReads(c.live[id], vm) && c' == c
       case AttachIssues(_, _) => p == AttachIssues(c.live[id], vm) && c' == c && free
       case AttachRefreshes(_, _) => p == AttachRefreshes(id, vm) && c' == PublishEnd(c, id, vm).0 && free)
    case Done(outcome) => (c', outcome) == PublishEnd(c, id, vm)
    case _ => false
  }

  lemma PublishCall(c: Cloud, c': Cloud, p: Attaching, choice: Choice, name: string, id: string, vm: Vm)
    requires Index.OnlyOneNamed(c, name, id) && c.live[id].id == id
    requires IsSmooth(choice) && (choice.Look? ==> choice.readable == c.zones)
    requires Publishing(c, c', Attaches(p), name, id, vm)
    ensures var effect := AttachCall(c', p, choice);
            effect.Goes? ==> Publishing(c, effect.cloud, effect.phase, name, id, vm)
  {
    if choice.Look? {
      Index.OnlyOneIsFound(c, name, id, choice.answer);
    }
  }

  lemma {:induction false} PublishEndsAsExpected(
      c: Cloud, w: World, t: Tid, name: string, id: string, vm: Vm, steps: seq<Step>)
    requires Index.OnlyOneNamed(c, name, id) && c.live[id].id == id && Undisturbed(c, t, steps)
    requires t in w.threads && Publishing(c, w.cloud, w.threads[t], name, id, vm)
    ensures t in Run(w, steps).threads
    ensures Publishing(c, Run(w, steps).cloud, Run(w, steps).threads[t], name, id, vm)
    decreases |steps|
  {
    if steps != [] {
      FirstOfUndisturbed(c, t, steps);
      if w.threads[t].Attaches? {
        PublishCall(c, w.cloud, w.threads[t].attaching, steps[0].choice, name, id, vm);
      }
      PublishEndsAsExpected(c, Next(w, steps[0]), t, name, id, vm, steps[1..]);
    }
  }

  function PublishCalls(t: Tid, name: string, id: string, vm: Vm, zones: set<Ovdc>): seq<Step> {
    [Step(t, Begin(Attaches(PublishLooks(name, vm)))), Step(t, Look(zones, Some(id))), Step(t, Go)]
    + [Step(t, Go), Step(t, Apply(true)), Step(t, Go)]
  }

  /** With the lock free it gets to the end. */
  lemma PublishGetsThere(w: World, t: Tid, name: string, id: string, vm: Vm)
    requires Index.OnlyOneNamed(w.cloud, name, id) && w.cloud.live[id].id == id
    requires t !in w.threads && w.lock.None?
    ensures var (c, outcome) := PublishEnd(w.cloud, id, vm);
            Run(w, PublishCalls(t, name, id, vm, w.cloud.zones)) == World(c, None, w.threads[t := Done(outcome)])
  {
    var c, seen := w.cloud, w.cloud.live[id];
    var first := [Step(t, Begin(Attaches(PublishLooks(name, vm)))), Step(t, Look(c.zones, Some(id))), Step(t, Go)];
    var rest := [Step(t, Go), Step(t, Apply(true)), Step(t, Go)];
    Index.OnlyOneIsFound(c, name, id, Some(id));
    RunOfThree(w, first[0], first[1], first[2]);
    var w1 := w.(threads := w.threads[t := Attaches(PublishLooks(name, vm))]);
    StepGoes(w1, t, Look(c.zones, Some(id)), c, Attaches(AttachWaits(seen, vm)));
    var w2 := Moved(w1, t, c, Attaches(AttachWaits(seen, vm)));
    StepGoes(w2, t, Go, c, Attaches(AttachReads(seen, vm)));
    var ready := Moved(w2, t, c, Attaches(AttachReads(seen, vm)));
    assert Run(w, first) == ready;
    PublishFromReads(ready, t, id, vm);
    RunConcat(w, first, rest);
    assert ready.threads[t := Done(PublishEnd(c, id, vm).1)] == w.threads[t := Done(PublishEnd(c, id, vm).1)];
  }

  lemma PublishFromReads(w: World, t: Tid, id: string, vm: Vm)
    requires id in w.cloud.live && w.cloud.live[id].id == id
    requires t in w.threads && w.threads[t] == Attaches(AttachReads(w.cloud.live[id], vm)) && w.lock == Some(t)
    ensures var (c, outcome) := PublishEnd(w.cloud, id, vm);
            Run(w, [Step(t, Go), Step(t, Apply(true)), Step(t, Go)]) == World(c, None, w.threads[t := Done(outcome)])
  {
    var c, seen := w.cloud, w.cloud.live[id];
    var (after, outcome) := PublishEnd(c, id, vm);
    RunOfThree(w, Step(t, Go), Step(t, Apply(true)), Step(t, Go));
    if vm in VmsOf(c, id) || (VmsOf(c, id) != [] && !seen.shareable) {
      StepGoes(w, t, Go, c, Done(outcome));
    } else {
      StepGoes(w, t, Go, c, Attaches(AttachIssues(seen, vm)));
      var w1 := Moved(w, t, c, Attaches(AttachIssues(seen, vm)));
      StepGoes(w1, t, Apply(true), after, Attaches(AttachRefreshes(id, vm)));
      var w2 := Moved(w1, t, after, Attaches(AttachRefreshes(id, vm)));
      StepGoes(w2, t, Go, after, Done(Success));
    }
  }

  // ----- unpublishing -----

  /** A disk that is on the VM is taken off it; then, and if it was not, the call succeeds. */
  function UnpublishEnd(c: Cloud, id: string, vm: Vm): Cloud {
    if vm in VmsOf(c, id) then c.(attached := c.attached[id := Without(VmsOf(c, id), vm)]) else c
  }

  /** Only this VM goes, and the others stay in order; all else in the cloud is as it was. */
  lemma UnpublishedIs(c: Cloud, id: string, vm: Vm)
    requires Safety.NoRepeats(VmsOf(c, id))
    ensures var c', vms := UnpublishEnd(c, id, vm), VmsOf(c, id);
            && vm !in VmsOf(c', id)
            && (if vm in vms then exists k :: 0 <= k < |vms| && vms[k] == vm && VmsOf(c', id) == vms[..k] + vms[k + 1..]
                else c' == c)
            && c' == c.(attached := c'.attached)
            && forall other | other != id :: VmsOf(c', other) == VmsOf(c, other)
  {
    Safety.WithoutIsShorter(VmsOf(c, id), vm);
    if vm in VmsOf(c, id) {
      var k := WithoutOne(VmsOf(c, id), vm);
    }
  }

  lemma {:induction false} WithoutOne(vms: seq<Vm>, vm: Vm) returns (k: nat)
    requires Safety.NoRepeats(vms) && vm in vms
    ensures k < |vms| && vms[k] == vm && Without(vms, vm) == vms[..k] + vms[k + 1..]
  {
    if vms[0] == vm {
      k := 0;
      WithoutNone(vms[1..], vm);
    } else {
      var j := WithoutOne(vms[1..], vm);
      k := j + 1;
      assert vms[..k] == [vms[0]] + vms[1..][..j] && vms[k + 1..] == vms[1..][j + 1..];
    }
  }

  lemma {:induction false} WithoutNone(vms: seq<Vm>, vm: Vm)
    requires vm !in vms
    ensures Without(vms, vm) == vms
  {
    if vms != [] {
      WithoutNone(vms[1..], vm);
    }
  }

  ghost predicate Unpublishing(c: Cloud, c': Cloud, phase: Phase, name: string, id: string, vm: Vm) {
    match phase
    case Detaches(p) =>
      && c' == c
      && (match p
          case UnpublishLooks(_, _) => p == UnpublishLooks(name, vm)
          case UnpublishReads(_, _, _) => p == UnpublishReads(id, name, vm)
          case DetachWaits(_, _) => p == DetachWaits(name, vm)
          case DetachLooks(_, _) => p == DetachLooks(name, vm)
          case DetachReads(_, _) => p == DetachReads(id, vm)
          case DetachIssues(_, _) => p == DetachIssues(id, vm) && vm in VmsOf(c, id))
    case Done(outcome) => c' == UnpublishEnd(c, id, vm) && outcome == Success
    case _ => false
  }

  lemma UnpublishCall(c: Cloud, p: Detaching, choice: Choice, name: string, id: string, vm: Vm)
    requires Index.OnlyOneNamed(c, name, id)
    requires IsSmooth(choice) && (choice.Look? ==> choice.readable == c.zones)
    requires Unpublishing(c, c, Detaches(p), name, id, vm)
    ensures var effect := DetachCall(c, p, choice);
            effect.Goes? ==> Unpublishing(c, effect.cloud, effect.phase, name, id, vm)
  {
    if choice.Look? {
      Index.OnlyOneIsFound(c, name, id, choice.answer);
    }
  }

  lemma {:induction false} UnpublishEndsAsExpected(
      c: Cloud, w: World, t: Tid, name: string, id: string, vm: Vm, steps: seq<Step>)
    requires Index.OnlyOneNamed(c, name, id) && Undisturbed(c, t, steps)
    requires t in w.threads && Unpublishing(c, w.cloud, w.threads[t], name, id, vm)
    ensures t in Run(w, steps).threads
    ensures Unpublishing(c, Run(w, steps).cloud, Run(w, steps).threads[t], name, id, vm)
    decreases |steps|
  {
    if steps != [] {
      FirstOfUndisturbed(c, t, steps);
      if w.threads[t].Detaches? {
        UnpublishCall(c, w.threads[t].detaching, steps[0].choice, name, id, vm);
      }
      UnpublishEndsAsExpected(c, Next(w, steps[0]), t, name, id, vm, steps[1..]);
    }
  }

  function UnpublishCalls(t: Tid, name: string, id: string, vm: Vm, zones: set<Ovdc>): seq<Step> {
    [Step(t, Begin(Detaches(UnpublishLooks(name, vm)))), Step(t, Look(zones, Some(id))), Step(t, Go)]
    + [Step(t, Go), Step(t, Look(zones, Some(id))), Step(t, Go), Step(t, Apply(true))]
  }

  lemma UnpublishGetsThere(w: World, t: Tid, name: string, id: string, vm: Vm)
    requires Index.OnlyOneNamed(w.cloud, name, id) && t !in w.threads && w.lock.None?
    ensures Run(w, UnpublishCalls(t, name, id, vm, w.cloud.zones))
            == World(UnpublishEnd(w.cloud, id, vm), None, w.threads[t := Done(Success)])
  {
    var c := w.cloud;
    var first := [Step(t, Begin(Detaches(UnpublishLooks(name, vm)))), Step(t, Look(c.zones, Some(id))), Step(t, Go)];
    var rest := [Step(t, Go), Step(t, Look(c.zones, Some(id))), Step(t, Go), Step(t, Apply(true))];
    Index.OnlyOneIsFound(c, name, id, Some(id));
    RunOfThree(w, first[0], first[1], first[2]);
    var w1 := w.(threads := w.threads[t := Detaches(UnpublishLooks(name, vm))]);
    StepGoes(w1, t, Look(c.zones, Some(id)), c, Detaches(UnpublishReads(id, name, vm)));
    var w2 := Moved(w1, t, c, Detaches(UnpublishReads(id, name, vm)));
    var next := if VmsOf(c, id) == [] then Done(Success) else Detaches(DetachWaits(name, vm));
    StepGoes(w2, t, Go, c, next);
    var w3 := Moved(w2, t, c, next);
    assert Run(w, first) == w3;
    UnpublishFromWaits(w3, t, name, id, vm);
    RunConcat(w, first, rest);
    assert w3.threads[t := Done(Success)] == w.threads[t := Done(Success)];
  }

  lemma UnpublishFromWaits(w: World, t: Tid, name: string, id: string, vm: Vm)
    requires Index.OnlyOneNamed(w.cloud, name, id) && t in w.threads && w.lock.None?
    requires if VmsOf(w.cloud, id) == [] then w.threads[t] == Done(Success)
             else w.threads[t] == Detaches(DetachWaits(name, vm))
    ensures Run(w, [Step(t, Go), Step(t, Look(w.cloud.zones, Some(id))), Step(t, Go), Step(t, Apply(true))])
            == World(UnpublishEnd(w.cloud, id, vm), None, w.threads[t := Done(Success)])
  {
    if VmsOf(w.cloud, id) == [] {
      var look := Step(t, Look(w.cloud.zones, Some(id)));
      FourSteps(w, [Step(t, Go), look, Step(t, Go), Step(t, Apply(true))], w, w, w, w);
      assert w.threads[t := Done(Success)] == w.threads;
    } else {
      DetachFromWaits(w, t, name, id, vm);
    }
  }

  lemma DetachLookFinds(c: Cloud, name: string, id: string, vm: Vm)
    requires Index.OnlyOneNamed(c, name, id)
    ensures Call(c, Detaches(DetachLooks(name, vm)), Look(c.zones, Some(id))) == Goes(c, Detaches(DetachReads(id, vm)))
  {
    Index.OnlyOneIsFound(c, name, id, Some(id));
  }

  lemma DetachFromWaits(w: World, t: Tid, name: string, id: string, vm: Vm)
    requires Index.OnlyOneNamed(w.cloud, name, id) && w.lock.None?
    requires t in w.threads && w.threads[t] == Detaches(DetachWaits(name, vm))
    ensures Run(w, [Step(t, Go), Step(t, Look(w.cloud.zones, Some(id))), Step(t, Go), Step(t, Apply(true))])
            == World(UnpublishEnd(w.cloud, id, vm), None, w.threads[t := Done(Success)])
  {
    var c, look := w.cloud, Step(t, Look(w.cloud.zones, Some(id)));
    StepGoes(w, t, Go, c, Detaches(DetachLooks(name, vm)));
    var w1 := Moved(w, t, c, Detaches(DetachLooks(name, vm)));
    DetachLookFinds(c, name, id, vm);
    StepGoes(w1, t, look.choice, c, Detaches(DetachReads(id, vm)));
    var w2 := Moved(w1, t, c, Detaches(DetachReads(id, vm)));
    var next := if vm in VmsOf(c, id) then Detaches(DetachIssues(id, vm)) else Done(Success);
    StepGoes(w2, t, Go, c, next);
    var w3 := Moved(w2, t, c, next);
    if vm in VmsOf(c, id) {
      StepGoes(w3, t, Apply(true), UnpublishEnd(c, id, vm), Done(Success));
    }
    FourSteps(w, [Step(t, Go), look, Step(t, Go), Step(t, Apply(true))], w1, w2, w3, Next(w3, Step(t, Apply(true))));
  }

  /** So an unpublication by itself, with the lock free, succeeds and takes the disk off the VM, in
      any state of the disks; the other VMs of the disk, the other attachments, the disks and the list
      stay as they were. */
  lemma UnpublishDetaches(w: World, t: Tid, name: string, id: string, vm: Vm)
    requires Safety.DisksOk(w.cloud) && Index.OnlyOneNamed(w.cloud, name, id) && t !in w.threads && w.lock.None?
    ensures var c, w' := w.cloud, Run(w, UnpublishCalls(t, name, id, vm, w.cloud.zones));
            && t in w'.threads && w'.threads[t] == Done(Success) && w'.lock.None?
            && vm !in VmsOf(w'.cloud, id)
            && (forall other | other != vm :: other in VmsOf(w'.cloud, id) <==> other in VmsOf(c, id))
            && (forall other | other != id :: VmsOf(w'.cloud, other) == VmsOf(c, other))
            && w'.cloud.live == c.live && w'.cloud.index == c.index
  {
    UnpublishGetsThere(w, t, name, id, vm);
    UnpublishedIs(w.cloud, id, vm);
    Safety.WithoutIsShorter(VmsOf(w.cloud, id), vm);
  }

  // ----- deleting -----

  /** A disk that is attached is refused; any other goes, and goes from the list. */
  function DeleteEnd(c: Cloud, id: string): (Cloud, Outcome) {
    if VmsOf(c, id) != [] then (c, Failure) else (Unlisted(Gone(c, id), id), Success)
  }

  function Gone(c: Cloud, id: string): Cloud {
    c.(live := c.live - {id})
  }

  function Unlisted(c: Cloud, id: string): Cloud {
    if c.indexing && id in c.index then
      c.(index := RdeUpdates.RemoveFirst(c.index, id), unindexed := c.unindexed + {id})
    else c
  }

  ghost predicate DeletingBy(c: Cloud, c': Cloud, phase: Phase, name: string, id: string) {
    match phase
    case Deletes(p) =>
      (match p
       case DeleteWaits(_) => p == DeleteWaits(name) && c' == c
       case DeleteLooks(_) => p == DeleteLooks(name) && c' == c
       case DeleteReads(_) => p == DeleteReads(id) && c' == c
       case DeleteRereads(_) => p == DeleteRereads(id) && c' == c && VmsOf(c, id) == []
       case DeleteIssues(_) => p == DeleteIssues(id) && c' == c && VmsOf(c, id) == []
       case DeleteIndexes(_) => p == DeleteIndexes(id) && c' == Gone(c, id) && c.indexing && VmsOf(c, id) == [])
    case Done(outcome) => (c', outcome) == DeleteEnd(c, id)
    case _ => false
  }

  lemma DeleteStep(c: Cloud, c': Cloud, p: Deleting, choice: Choice, name: string, id: string)
    requires Index.OnlyOneNamed(c, name, id)
    requires IsSmooth(choice) && (choice.Look? ==> choice.readable == c.zones)
    requires DeletingBy(c, c', Deletes(p), name, id)
    ensures var effect := DeleteCall(c', p, choice);
            effect.Goes? ==> DeletingBy(c, effect.cloud, effect.phase, name, id)
  {
    if choice.Look? {
      Index.OnlyOneIsFound(c, name, id, choice.answer);
    }
  }

  /** A deletion by itself, of the only disk of its name, ends exactly so, if it ends. */
  lemma {:induction false} DeleteEndsAsExpected(
      c: Cloud, w: World, t: Tid, name: string, id: string, steps: seq<Step>)
    requires Index.OnlyOneNamed(c, name, id) && Undisturbed(c, t, steps)
    requires t in w.threads && DeletingBy(c, w.cloud, w.threads[t], name, id)
    ensures t in Run(w, steps).threads && DeletingBy(c, Run(w, steps).cloud, Run(w, steps).threads[t], name, id)
    decreases |steps|
  {
    if steps != [] {
      FirstOfUndisturbed(c, t, steps);
      if w.threads[t].Deletes? {
        DeleteStep(c, w.cloud, w.threads[t].deleting, steps[0].choice, name, id);
      }
      DeleteEndsAsExpected(c, Next(w, steps[0]), t, name, id, steps[1..]);
    }
  }

  // ----- creating -----

  /** A live disk with the size, the kinds of bus, the sharing and, if one is asked for, the storage
      profile that the request asks for. */
  predicate Fits(disk: Disk, want: Disk) {
    && disk.sizeMb == want.sizeMb && disk.busType == want.busType && disk.busSubType == want.busSubType
    && disk.shareable == want.shareable && (want.profile == "" || disk.profile == want.profile)
  }

  /** The disk that VCD made, and its entry in the list, unless the list has its name as an id. */
  function WithMade(c: Cloud, made: Disk): Cloud {
    c.(live := c.live[made.id := made], attached := c.attached[made.id := []])
  }

  function Listed(c: Cloud, want: Disk, id: string): Cloud {
    if c.indexing && want.name !in c.index then c.(index := c.index + [id], indexed := c.indexed + {id}) else c
  }

  /** A new disk as asked for: with a fresh id, in the OVDC and of the size asked for. */
  predicate IsNew(c: Cloud, made: Disk, want: Disk) {
    && made.id !in c.attached && made.name == want.name && made.ovdc == want.ovdc && want.sizeMb >= 1
    && Fits(made, want)
  }

  /** Without a disk of the name, a new one is made and listed. */
  ghost predicate CreatingNew(c: Cloud, c': Cloud, phase: Phase, want: Disk) {
    match phase
    case Creates(p) =>
      (match p
       case CreateWaits(_) => p == CreateWaits(want) && c' == c
       case CreateLooks(_) => p == CreateLooks(want) && c' == c
       case CreateMakes(_) => p == CreateMakes(want) && c' == c
       case CreateIndexes(_, id) =>
         && p == CreateIndexes(want, id) && c.indexing && id in c'.live
         && IsNew(c, c'.live[id], want) && c'.live[id].id == id && c' == WithMade(c, c'.live[id]))
    case Done(outcome) =>
      && outcome.Volume? && outcome.id in c'.live && c'.live[outcome.id].id == outcome.id
      && IsNew(c, c'.live[outcome.id], want)
      && c' == Listed(WithMade(c, c'.live[outcome.id]), want, outcome.id)
    case _ => false
  }

  ghost predicate NoneNamed(c: Cloud, name: string) {
    forall id | id in c.live :: c.live[id].name != name
  }

  lemma CreateNewStep(c: Cloud, c': Cloud, p: Creating, choice: Choice, want: Disk)
    requires NoneNamed(c, want.name) && IsSmooth(choice) && CreatingNew(c, c', Creates(p), want)
    ensures var effect := CreateCall(c', p, choice);
            effect.Goes? ==> CreatingNew(c, effect.cloud, effect.phase, want)
  {
  }

  lemma {:induction false} CreateEndsWithNew(c: Cloud, w: World, t: Tid, want: Disk, steps: seq<Step>)
    requires NoneNamed(c, want.name) && Undisturbed(c, t, steps)
    requires t in w.threads && CreatingNew(c, w.cloud, w.threads[t], want)
    ensures t in Run(w, steps).threads && CreatingNew(c, Run(w, steps).cloud, Run(w, steps).threads[t], want)
    decreases |steps|
  {
    if steps != [] {
      FirstOfUndisturbed(c, t, steps);
      if w.threads[t].Creates? {
        CreateNewStep(c, w.cloud, w.threads[t].creating, steps[0].choice, want);
      }
      CreateEndsWithNew(c, Next(w, steps[0]), t, want, steps[1..]);
    }
  }

  /** With one disk of the name, nothing is made: the disk is reported if it fits, and refused if it
      does not. */
  ghost predicate CreatingAgain(c: Cloud, c': Cloud, phase: Phase, want: Disk, id: string)
    requires id in c.live
  {
    && c' == c
    && (|| phase == Creates(CreateWaits(want))
        || phase == Creates(CreateLooks(want))
        || phase == Done(if Fits(c.live[id], want) then Volume(id) else Failure))
  }

  lemma {:induction false} CreateEndsWithOld(c: Cloud, w: World, t: Tid, want: Disk, id: string, steps: seq<Step>)
    requires Index.OnlyOneNamed(c, want.name, id) && Undisturbed(c, t, steps)
    requires t in w.threads && CreatingAgain(c, w.cloud, w.threads[t], want, id)
    ensures t in Run(w, steps).threads && CreatingAgain(c, Run(w, steps).cloud, Run(w, steps).threads[t], want, id)
    decreases |steps|
  {
    if steps != [] {
      FirstOfUndisturbed(c, t, steps);
      if steps[0].choice.Look? {
        Index.OnlyOneIsFound(c, want.name, id, steps[0].choice.answer);
      }
      CreateEndsWithOld(c, Next(w, steps[0]), t, want, id, steps[1..]);
    }
  }

  /** The calls of a creation that finds no disk of the name. */
  function CreateCalls(t: Tid, want: Disk, made: Disk, c: Cloud): seq<Step> {
    [Step(t, Begin(Creates(CreateWaits(want)))), Step(t, Go), Step(t, Look(c.zones, None))]
    + [Step(t, Make(made, true)), Step(t, Index(want.name !in c.index, true))]
  }

  lemma CreateGetsThere(w: World, t: Tid, want: Disk, made: Disk)
    requires NoneNamed(w.cloud, want.name) && IsNew(w.cloud, made, want)
    requires made == want.(id := made.id, profile := made.profile)
    requires t !in w.threads && w.lock.None?
    ensures Run(w, CreateCalls(t, want, made, w.cloud))
            == World(Listed(WithMade(w.cloud, made), want, made.id), None, w.threads[t := Done(Volume(made.id))])
  {
    var c := w.cloud;
    CreateUpToMiss(w, t, want);
    var missed := World(c, Some(t), w.threads[t := Creates(CreateMakes(want))]);
    MakeAndList(missed, t, want, made);
    RunConcat(w, CreateCalls(t, want, made, c)[..3], CreateCalls(t, want, made, c)[3..]);
    assert CreateCalls(t, want, made, c)
           == CreateCalls(t, want, made, c)[..3] + CreateCalls(t, want, made, c)[3..];
    assert missed.threads[t := Done(Volume(made.id))] == w.threads[t := Done(Volume(made.id))];
    assert CreateCalls(t, want, made, c)[..3]
           == [Step(t, Begin(Creates(CreateWaits(want)))), Step(t, Go), Step(t, Look(c.zones, None))];
    assert CreateCalls(t, want, made, c)[3..]
           == [Step(t, Make(made, true)), Step(t, Index(want.name !in c.index, true))];
  }

  lemma CreateUpToMiss(w: World, t: Tid, want: Disk)
    requires NoneNamed(w.cloud, want.name) && t !in w.threads && w.lock.None?
    ensures Run(w, [Step(t, Begin(Creates(CreateWaits(want)))), Step(t, Go), Step(t, Look(w.cloud.zones, None))])
            == World(w.cloud, Some(t), w.threads[t := Creates(CreateMakes(want))])
  {
    RunOfThree(w, Step(t, Begin(Creates(CreateWaits(want)))), Step(t, Go), Step(t, Look(w.cloud.zones, None)));
  }

  lemma MakeAndList(w: World, t: Tid, want: Disk, made: Disk)
    requires IsNew(w.cloud, made, want) && made == want.(id := made.id, profile := made.profile)
    requires t in w.threads && w.threads[t] == Creates(CreateMakes(want)) && w.lock == Some(t)
    ensures Run(w, [Step(t, Make(made, true)), Step(t, Index(want.name !in w.cloud.index, true))])
            == World(Listed(WithMade(w.cloud, made), want, made.id), None, w.threads[t := Done(Volume(made.id))])
  {
    var c, id := w.cloud, made.id;
    var make, index := Step(t, Make(made, true)), Step(t, Index(want.name !in c.index, true));
    var next := if c.indexing then Creates(CreateIndexes(want, id)) else Done(Volume(id));
    StepGoes(w, t, make.choice, WithMade(c, made), next);
    var w1 := Moved(w, t, WithMade(c, made), next);
    if c.indexing {
      StepGoes(w1, t, index.choice, Listed(WithMade(c, made), want, id), Done(Volume(id)));
    }
    RunOfOne(w, make);
    RunSnoc(w, [make], index);
    assert [make] + [index] == [make, index];
  }

  // ----- when there is no disk of the name -----

  /** A lookup that finds nothing ends a publication and an expansion with a failure, and an
      unpublication and a deletion with success. */
  lemma MissMeans(c: Cloud, name: string, readable: set<Ovdc>, vm: Vm, newMb: int, online: bool)
    requires LookAllowed(c, name, readable, None)
    ensures var miss := Look(readable, None);
            && Call(c, Attaches(PublishLooks(name, vm)), miss) == End(c, Failure)
            && Call(c, Expands(ExpandLooks(name, newMb, online)), miss) == End(c, Failure)
            && Call(c, Detaches(UnpublishLooks(name, vm)), miss) == End(c, Success)
            && Call(c, Detaches(DetachLooks(name, vm)), miss) == End(c, Success)
            && Call(c, Deletes(DeleteLooks(name)), miss) == End(c, Success)
  {
  }

  // ----- when something fails -----

  /** A call that fails, or whose task is reported to have failed, makes the handler fail, whatever it
      did; and so does a disk that is gone when its VMs are to be read. */
  lemma FailureIsReported(c: Cloud, phase: Phase, choice: Choice)
    requires Call(c, phase, choice).Goes? && !IsSmooth(choice)
    ensures Call(c, phase, choice).phase == Done(Failure)
    ensures choice.Fail? ==> Call(c, phase, choice).cloud == c
  {
  }

  lemma GoneIsReported(c: Cloud, id: string, seen: Disk, name: string, vm: Vm, newMb: int, online: bool)
    requires id !in c.live && seen.id !in c.live
    ensures Call(c, Deletes(DeleteReads(id)), Go) == End(c, Failure)
    ensures Call(c, Deletes(DeleteRereads(id)), Go) == End(c, Failure)
    ensures Call(c, Attaches(AttachReads(seen, vm)), Go) == End(c, Failure)
    ensures Call(c, Detaches(UnpublishReads(id, name, vm)), Go) == End(c, Failure)
    ensures Call(c, Detaches(DetachReads(id, vm)), Go) == End(c, Failure)
    ensures Call(c, Expands(ExpandReads(seen, newMb, online)), Go) == End(c, Failure)
    ensures Call(c, Expands(OfflineReads(id, newMb)), Go) == End(c, Failure)
  {
  }
}
