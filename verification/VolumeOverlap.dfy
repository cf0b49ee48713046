/** What happens to an expansion while it runs: exactly when its PUT shrinks a disk, and exactly
    when an ONLINE one finds more than one VM. Both are told by what others did since it looked. */
module VolumeOverlap {
  import opened Wrappers
  import opened Volumes
  import opened VolumeExpansion
  import Safety = VolumeSafety
  import Index = VolumeIndex

  // ----- the states of a run -----

  /** The state after the first `i` steps. */
  function StateAt(w: World, steps: seq<Step>, i: nat): World
    requires i <= |steps|
  {
    Run(w, steps[..i])
  }

  lemma StateAfter(w: World, steps: seq<Step>, i: nat)
    requires i < |steps|
    ensures StateAt(w, steps, i + 1) == Next(StateAt(w, steps, i), steps[i])
  {
    assert steps[..i + 1] == steps[..i] + [steps[i]];
    RunSnoc(w, steps[..i], steps[i]);
  }

  lemma RestOfRun(w: World, steps: seq<Step>, i: nat)
    requires i <= |steps|
    ensures Run(w, steps) == Run(StateAt(w, steps, i), steps[i..])
  {
    assert steps == steps[..i] + steps[i..];
    RunConcat(w, steps[..i], steps[i..]);
  }

  /** A flag that is off at first and on in the end goes on at some point for good. */
  lemma {:induction false} LastRise(flags: seq<bool>) returns (i: nat)
    requires |flags| > 0 && !flags[0] && flags[|flags| - 1]
    ensures i + 1 < |flags| && !flags[i] && forall j | i < j < |flags| :: flags[j]
  {
    i := |flags| - 2;
    while flags[i]
      invariant i + 1 < |flags| && forall j | i < j < |flags| :: flags[j]
      decreases i
    {
      i := i - 1;
    }
  }

  lemma StepIsLater(w: World, s: Step)
    requires Safety.Inv(w)
    ensures Safety.Later(w.cloud, Next(w, s).cloud)
  {
    if s.Step? && s.t in w.threads {
      Safety.CallIsSound(w.cloud, w.threads[s.t], s.choice);
    }
  }

  lemma {:induction false} RunIsLater(w: World, steps: seq<Step>)
    requires Safety.Inv(w)
    ensures Safety.Inv(Run(w, steps)) && Safety.Later(w.cloud, Run(w, steps).cloud)
    decreases |steps|
  {
    if steps != [] {
      Safety.NextKeepsInv(w, steps[0]);
      StepIsLater(w, steps[0]);
      RunIsLater(Next(w, steps[0]), steps[1..]);
    }
  }

  /** A disk that is live at the start and in the end was live all the time. */
  lemma LiveThroughout(w: World, steps: seq<Step>, i: nat, d: string)
    requires Safety.Inv(w) && i <= |steps| && d in w.cloud.live && d in Run(w, steps).cloud.live
    ensures Safety.Inv(StateAt(w, steps, i)) && d in StateAt(w, steps, i).cloud.live
  {
    RunIsLater(w, steps[..i]);
    RestOfRun(w, steps, i);
    RunIsLater(StateAt(w, steps, i), steps[i..]);
  }

  /** A handler that is done stays done, unless the controller restarts. */
  lemma {:induction false} DoneStaysDone(w: World, t: Tid, steps: seq<Step>)
    requires t in w.threads && w.threads[t].Done? && Restart !in steps
    ensures t in Run(w, steps).threads && Run(w, steps).threads[t].Done?
    decreases |steps|
  {
    if steps != [] {
      assert steps[0] in steps;
      DoneStaysDone(Next(w, steps[0]), t, steps[1..]);
    }
  }

  // ----- when a PUT shrinks a disk -----

  predicate IsPut(phase: Phase) {
    phase.Expands? && (phase.expanding.OfflinePuts? || phase.expanding.OnlinePuts?)
  }

  function SizeOf(c: Cloud, d: string): int {
    if d in c.live then c.live[d].sizeMb else 0
  }

  /** The i-th step is the PUT of another expansion, and takes the disk past `mb`. */
  predicate Overtakes(w: World, steps: seq<Step>, i: nat, t: Tid, d: string, mb: int)
    requires i < |steps|
  {
    var before, after := StateAt(w, steps, i), StateAt(w, steps, i + 1);
    && steps[i].Step? && steps[i].t != t && steps[i].t in before.threads
    && IsPut(before.threads[steps[i].t]) && ReliesOn(before.threads[steps[i].t], d)
    && SizeOf(before.cloud, d) <= mb < SizeOf(after.cloud, d)
  }

  /** Another expansion took the disk past `mb`, and none has taken it back. */
  ghost predicate Overtaken(w: World, steps: seq<Step>, t: Tid, d: string, mb: int) {
    exists i: nat :: i < |steps| && Overtakes(w, steps, i, t, d, mb) && StaysPast(w, steps, i + 1, d, mb)
  }

  ghost predicate StaysPast(w: World, steps: seq<Step>, from: nat, d: string, mb: int) {
    forall j: nat | from <= j <= |steps| :: SizeOf(StateAt(w, steps, j).cloud, d) > mb
  }

  /** A step after which a disk has another size is the PUT of an expansion that relies on it. */
  lemma ResizedByPut(w: World, s: Step, d: string)
    requires Safety.Inv(w) && Resizes(w.cloud, Next(w, s).cloud, d)
    ensures s.Step? && s.t in w.threads && IsPut(w.threads[s.t]) && ReliesOn(w.threads[s.t], d)
    ensures s.t in Next(w, s).threads && Next(w, s).threads[s.t].Done?
  {
    OnlyPutsResize(w.cloud, w.threads[s.t], s.choice, d);
  }

  /** If the disk is larger than the PUT of handler `t` is going to make it, but was not when the run
      began, then another expansion has overtaken it. */
  lemma {:induction false} LargerMeansOvertaken(w: World, steps: seq<Step>, t: Tid, d: string, mb: int)
    requires Safety.Inv(w) && Restart !in steps
    requires t in Run(w, steps).threads && !Run(w, steps).threads[t].Done?
    requires d in w.cloud.live && d in Run(w, steps).cloud.live
    requires SizeOf(w.cloud, d) <= mb < SizeOf(Run(w, steps).cloud, d)
    ensures Overtaken(w, steps, t, d, mb)
  {
    var flags := seq(|steps| + 1, j requires 0 <= j <= |steps| => SizeOf(StateAt(w, steps, j).cloud, d) > mb);
    assert steps[..|steps|] == steps;
    var i := LastRise(flags);
    forall j: nat | i < j <= |steps| ensures SizeOf(StateAt(w, steps, j).cloud, d) > mb {
      assert flags[j];
    }
    assert !flags[i];
    PassedByAnother(w, steps, i, t, d, mb);
  }

  lemma PassedByAnother(w: World, steps: seq<Step>, i: nat, t: Tid, d: string, mb: int)
    requires Safety.Inv(w) && Restart !in steps && i < |steps|
    requires t in Run(w, steps).threads && !Run(w, steps).threads[t].Done?
    requires d in w.cloud.live && d in Run(w, steps).cloud.live
    requires SizeOf(StateAt(w, steps, i).cloud, d) <= mb && StaysPast(w, steps, i + 1, d, mb)
    ensures Overtaken(w, steps, t, d, mb)
  {
    var before, after := StateAt(w, steps, i), StateAt(w, steps, i + 1);
    LiveThroughout(w, steps, i, d);
    LiveThroughout(w, steps, i + 1, d);
    StateAfter(w, steps, i);
    assert SizeOf(after.cloud, d) > mb;
    ResizedByPut(before, steps[i], d);
    if steps[i].t == t {
      RestOfRun(w, steps, i + 1);
      assert Restart !in steps[i + 1..];
      DoneStaysDone(after, t, steps[i + 1..]);
      assert false;
    }
    assert Overtakes(w, steps, i, t, d, mb);
  }

  /** The exact condition, for any run without a restart in which others do what they want: the PUT
      of an expansion shrinks a disk if and only if another expansion has meanwhile taken that disk
      past the size that is sent, and none has taken it back. */
  lemma PutShrinksIff(w: World, steps: seq<Step>, t: Tid, d: string, ok: bool)
    requires Safety.Inv(w) && Restart !in steps && d in w.cloud.live
    requires var w' := Run(w, steps);
             && t in w'.threads && IsPut(w'.threads[t]) && ReliesOn(w'.threads[t], d)
             && Call(w'.cloud, w'.threads[t], Apply(ok)).Goes?
             && w.cloud.live[d].sizeMb <= Aim(w'.threads[t], d)
    ensures var w' := Run(w, steps);
            && d in w'.cloud.live && d in Next(w', Step(t, Apply(ok))).cloud.live
            && (Next(w', Step(t, Apply(ok))).cloud.live[d].sizeMb < w'.cloud.live[d].sizeMb
                <==> Overtaken(w, steps, t, d, Aim(w'.threads[t], d)))
  {
    var w' := Run(w, steps);
    var mb := Aim(w'.threads[t], d);
    PutSetsTheAim(w', t, d, ok);
    if w'.cloud.live[d].sizeMb > mb {
      LargerMeansOvertaken(w, steps, t, d, mb);
    }
    if Overtaken(w, steps, t, d, mb) {
      assert steps[..|steps|] == steps;
      assert SizeOf(StateAt(w, steps, |steps|).cloud, d) > mb;
    }
  }

  lemma PutSetsTheAim(w: World, t: Tid, d: string, ok: bool)
    requires t in w.threads && IsPut(w.threads[t]) && ReliesOn(w.threads[t], d)
    requires Call(w.cloud, w.threads[t], Apply(ok)).Goes?
    ensures d in w.cloud.live && d in Next(w, Step(t, Apply(ok))).cloud.live
    ensures Next(w, Step(t, Apply(ok))).cloud.live[d].sizeMb == Aim(w.threads[t], d)
  {
    var p := w.threads[t].expanding;
    assert p.OnlinePuts? ==> d in SettingsOf(w.cloud, p.vm);
  }

  /** In particular from the moment an ONLINE expansion has read the settings of the VM: what it read
      of the other disks of the VM was their size. */
  lemma OnlinePutShrinksIff(w: World, steps: seq<Step>, t: Tid, d: string, ok: bool)
    requires Safety.Inv(w) && Restart !in steps && t in w.threads && w.threads[t].Expands?
    requires w.threads[t].expanding.OnlineFinds?
    requires var p, read := w.threads[t].expanding, Next(w, Step(t, Go));
             && d in SettingsOf(w.cloud, p.vm) && d != p.id
             && t in read.threads && read.threads[t].Expands? && read.threads[t].expanding.OnlinePuts?
             && t in Run(read, steps).threads && Run(read, steps).threads[t] == read.threads[t]
             && Call(Run(read, steps).cloud, read.threads[t], Apply(ok)).Goes?
    ensures var read := Next(w, Step(t, Go));
            var w' := Run(read, steps);
            && d in w.cloud.live && d in w'.cloud.live && d in Next(w', Step(t, Apply(ok))).cloud.live
            && (Next(w', Step(t, Apply(ok))).cloud.live[d].sizeMb < w'.cloud.live[d].sizeMb
                <==> Overtaken(read, steps, t, d, w.cloud.live[d].sizeMb))
  {
    var read := Next(w, Step(t, Go));
    Safety.NextKeepsInv(w, Step(t, Go));
    assert read.cloud == w.cloud && Aim(read.threads[t], d) == w.cloud.live[d].sizeMb;
    PutShrinksIff(read, steps, t, d, ok);
  }

  // ----- when an ONLINE expansion finds more than one VM -----

  /** The i-th step is an attach of the disk to a VM that takes effect. */
  predicate Attaches(w: World, steps: seq<Step>, i: nat, id: string, vm: Vm)
    requires i < |steps|
  {
    var before, after := StateAt(w, steps, i), StateAt(w, steps, i + 1);
    && steps[i].Step? && steps[i].t in before.threads
    && IsAttachOf(before.threads[steps[i].t], id, vm)
    && vm !in VmsOf(before.cloud, id) && vm in VmsOf(after.cloud, id)
  }

  predicate IsAttachOf(phase: Phase, id: string, vm: Vm) {
    && phase.Attaches? && phase.attaching.AttachIssues?
    && phase.attaching.seen.id == id && phase.attaching.vm == vm
  }

  ghost predicate StaysOn(w: World, steps: seq<Step>, from: nat, id: string, vm: Vm) {
    forall j: nat | from <= j <= |steps| :: vm in VmsOf(StateAt(w, steps, j).cloud, id)
  }

  /** The disk was attached to another VM during the run, and is so still. */
  ghost predicate AttachedMeanwhile(w: World, steps: seq<Step>, id: string, vm: Vm) {
    exists i: nat, other ::
      i < |steps| && other != vm && Attaches(w, steps, i, id, other) && StaysOn(w, steps, i + 1, id, other)
  }

  lemma OnlyAttachesAttach(c: Cloud, phase: Phase, choice: Choice, id: string, vm: Vm)
    requires Call(c, phase, choice).Goes?
    requires vm !in VmsOf(c, id) && vm in VmsOf(Call(c, phase, choice).cloud, id)
    ensures IsAttachOf(phase, id, vm)
  {
    if !choice.Fail? {
      match phase
      case Detaches(p) =>
        if p.DetachIssues? {
          Safety.WithoutIsShorter(VmsOf(c, p.id), p.vm);
        }
      case _ =>
    }
  }

  lemma AttachedByAttach(w: World, s: Step, id: string, vm: Vm)
    requires vm !in VmsOf(w.cloud, id) && vm in VmsOf(Next(w, s).cloud, id)
    ensures s.Step? && s.t in w.threads && IsAttachOf(w.threads[s.t], id, vm)
  {
    OnlyAttachesAttach(w.cloud, w.threads[s.t], s.choice, id, vm);
  }

  lemma {:induction false} NewVmWasAttached(w: World, steps: seq<Step>, id: string, vm: Vm, other: Vm)
    requires other != vm && other !in VmsOf(w.cloud, id) && other in VmsOf(Run(w, steps).cloud, id)
    ensures AttachedMeanwhile(w, steps, id, vm)
  {
    var flags := seq(|steps| + 1, j requires 0 <= j <= |steps| => other in VmsOf(StateAt(w, steps, j).cloud, id));
    assert steps[..|steps|] == steps;
    var i := LastRise(flags);
    forall j: nat | i < j <= |steps| ensures other in VmsOf(StateAt(w, steps, j).cloud, id) {
      assert flags[j];
    }
    assert StaysOn(w, steps, i + 1, id, other);
    assert !flags[i] && flags[i + 1];
    StateAfter(w, steps, i);
    AttachedByAttach(StateAt(w, steps, i), steps[i], id, other);
    assert Attaches(w, steps, i, id, other);
  }

  lemma AnotherVm(vms: seq<Vm>, vm: Vm) returns (other: Vm)
    requires Safety.NoRepeats(vms) && vm in vms && vms != [vm]
    ensures other in vms && other != vm
  {
    other := if vms[0] == vm then vms[1] else vms[0];
  }

  /** What is left of an expansion for which ONLINE was chosen. */
  predicate OnCourse(phase: Phase, id: string, vm: Vm) {
    match phase
    case Expands(p) =>
      (p.OnlineFinds? || p.OnlinePuts?) && p.id == id && p.vm == vm
        && (p.OnlinePuts? ==> id in p.settings && p.settings[id] == p.newMb)
    case Done(_) => true
    case _ => false
  }

  lemma {:induction false} StaysOnCourse(w: World, steps: seq<Step>, t: Tid, id: string, vm: Vm)
    requires Restart !in steps && t in w.threads && OnCourse(w.threads[t], id, vm)
    ensures t in Run(w, steps).threads && OnCourse(Run(w, steps).threads[t], id, vm)
    decreases |steps|
  {
    if steps != [] {
      assert steps[0] in steps;
      StaysOnCourse(Next(w, steps[0]), steps[1..], t, id, vm);
    }
  }

  lemma StillAttached(c: Cloud, p: Expanding, ok: bool)
    requires p.OnlinePuts? && Prepared(Expands(p)) && Call(c, Expands(p), Apply(ok)).Goes?
    ensures p.id in c.live && p.vm in VmsOf(c, p.id)
  {
    assert p.id in SettingsOf(c, p.vm);
  }

  /** At the end of a run a disk that had one VM, and has it still, has no other exactly if none was
      attached that still is. */
  lemma OneVmIff(w: World, steps: seq<Step>, id: string, vm: Vm)
    requires Safety.NoRepeats(VmsOf(Run(w, steps).cloud, id))
    requires VmsOf(w.cloud, id) == [vm] && vm in VmsOf(Run(w, steps).cloud, id)
    ensures VmsOf(Run(w, steps).cloud, id) == [vm] <==> !AttachedMeanwhile(w, steps, id, vm)
  {
    var vms := VmsOf(Run(w, steps).cloud, id);
    if vms != [vm] {
      var other := AnotherVm(vms, vm);
      NewVmWasAttached(w, steps, id, vm, other);
    }
    if AttachedMeanwhile(w, steps, id, vm) {
      var i: nat, other :| i < |steps| && other != vm && Attaches(w, steps, i, id, other)
        && StaysOn(w, steps, i + 1, id, other);
      assert steps[..|steps|] == steps;
      assert other in VmsOf(StateAt(w, steps, |steps|).cloud, id);
    }
  }

  /** An ONLINE expansion is chosen for exactly one VM. From then on, in any run without a restart:
      when its PUT takes effect the disk is still attached to that VM, and to no other if and only if
      it has not meanwhile been attached to another one where it still is. */
  lemma OnlineFindsOneVmIff(w: World, steps: seq<Step>, t: Tid, ok: bool)
    requires Safety.Inv(w) && Restart !in steps && t in w.threads && w.threads[t].Expands?
    requires w.threads[t].expanding.OnlineFinds?
    requires var p, w' := w.threads[t].expanding, Run(w, steps);
             && VmsOf(w.cloud, p.id) == [p.vm]
             && t in w'.threads && w'.threads[t].Expands? && w'.threads[t].expanding.OnlinePuts?
             && Call(w'.cloud, w'.threads[t], Apply(ok)).Goes?
    ensures var p, w' := w.threads[t].expanding, Run(w, steps);
            && p.vm in VmsOf(w'.cloud, p.id)
            && (VmsOf(w'.cloud, p.id) == [p.vm] <==> !AttachedMeanwhile(w, steps, p.id, p.vm))
  {
    var p, w' := w.threads[t].expanding, Run(w, steps);
    RunIsLater(w, steps);
    StaysOnCourse(w, steps, t, p.id, p.vm);
    StillAttached(w'.cloud, w'.threads[t].expanding, ok);
    OneVmIff(w, steps, p.id, p.vm);
  }

  function Publish(u: Tid, name: string, id: string, vm: Vm, zones: set<Ovdc>): seq<Step> {
    [Step(u, Begin(Phase.Attaches(PublishLooks(name, vm)))), Step(u, Look(zones, Some(id))), Step(u, Go), Step(u, Go)]
  }

  /** A publish by itself, up to the attach. */
  lemma PublishUpToAttach(w: World, u: Tid, name: string, id: string, vm: Vm)
    requires Index.OnlyOneNamed(w.cloud, name, id) && w.cloud.live[id].id == id && w.cloud.live[id].shareable
    requires vm !in VmsOf(w.cloud, id) && u !in w.threads && w.lock.None?
    ensures Run(w, Publish(u, name, id, vm, w.cloud.zones))
            == At(w, u, Phase.Attaches(AttachIssues(w.cloud.live[id], vm))).(lock := Some(u))
  {
    var c, disk := w.cloud, w.cloud.live[id];
    var looking, waiting := Phase.Attaches(PublishLooks(name, vm)), Phase.Attaches(AttachWaits(disk, vm));
    var reading, issuing := Phase.Attaches(AttachReads(disk, vm)), Phase.Attaches(AttachIssues(disk, vm));
    Index.OnlyOneIsFound(c, name, id, Some(id));
    Safety.AttachCalls(c, disk, vm);
    var w1 := At(w, u, looking);
    StepGoes(w1, u, Look(c.zones, Some(id)), c, waiting);
    var w2 := Moved(w1, u, c, waiting);
    StepGoes(w2, u, Go, c, reading);
    var w3 := Moved(w2, u, c, reading);
    StepGoes(w3, u, Go, c, issuing);
    FourSteps(w, Publish(u, name, id, vm, c.zones), w1, w2, w3, Moved(w3, u, c, issuing));
  }

  /** With a shareable disk it happens: an expansion has chosen ONLINE for the one VM, the disk is
      published to a second, and the PUT takes effect and reports success with both attached. */
  lemma OnlineWithTwoVms(w: World, t: Tid, u: Tid, name: string, id: string, vm: Vm, second: Vm, newMb: int)
    requires Index.OnlyOneNamed(w.cloud, name, id) && w.cloud.live[id].id == id && w.cloud.live[id].shareable
    requires w.cloud.live[id].sizeMb < newMb && VmsOf(w.cloud, id) == [vm] && second != vm
    requires t != u && t !in w.threads && u !in w.threads && w.lock.None? && id in w.cloud.attached
    ensures var w1 := Run(w, Expand(t, name, id, newMb, w.cloud.zones) + Publish(u, name, id, second, w.cloud.zones));
            var w2 := Next(w1, Step(u, Apply(true)));
            var w3 := Next(w2, Step(t, Apply(true)));
            && VmsOf(w2.cloud, id) == [vm, second]
            && t in w3.threads && w3.threads[t] == Done(Capacity(newMb, true))
            && id in w3.cloud.live && w3.cloud.live[id].sizeMb == newMb && VmsOf(w3.cloud, id) == [vm, second]
  {
    var c, p := w.cloud, OnlinePuts(id, vm, newMb, SettingsOf(w.cloud, vm)[id := newMb]);
    var w0 := At(w, t, Expands(p));
    RunConcat(w, Expand(t, name, id, newMb, c.zones), Publish(u, name, id, second, c.zones));
    ExpandUpToPut(w, t, name, id, vm, newMb);
    PublishUpToAttach(w0, u, name, id, second);
    var w1 := At(w0, u, Phase.Attaches(AttachIssues(c.live[id], second))).(lock := Some(u));
    AttachAtLast(w0, u, id, second);
    SecondVmDoesNotMatter(c, id, vm, second, newMb);
  }

  lemma AttachAtLast(w: World, u: Tid, id: string, vm: Vm)
    requires id in w.cloud.live && w.cloud.live[id].id == id && id in w.cloud.attached
    ensures var issuing := Phase.Attaches(AttachIssues(w.cloud.live[id], vm));
            var w' := Next(At(w, u, issuing).(lock := Some(u)), Step(u, Apply(true)));
            && w'.cloud == w.cloud.(attached := w.cloud.attached[id := w.cloud.attached[id] + [vm]])
            && w'.threads == w.threads[u := Phase.Attaches(AttachRefreshes(id, vm))]
  {
  }

  lemma SecondVmDoesNotMatter(c: Cloud, id: string, vm: Vm, second: Vm, newMb: int)
    requires id in c.live && id in c.attached && VmsOf(c, id) == [vm] && second != vm
    ensures var c' := c.(attached := c.attached[id := [vm, second]]);
            var effect := ExpandCall(c', OnlinePuts(id, vm, newMb, SettingsOf(c, vm)[id := newMb]), Apply(true));
            && effect.Goes? && effect.phase == Done(Capacity(newMb, true))
            && id in effect.cloud.live && effect.cloud.live[id].sizeMb == newMb && effect.cloud.attached == c'.attached
  {
    var c' := c.(attached := c.attached[id := [vm, second]]);
    assert SettingsOf(c', vm).Keys == SettingsOf(c, vm)[id := newMb].Keys;
  }
}
