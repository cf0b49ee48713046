/** Expanding volumes: which updates are sent in which mode, what a success means, when sizes can
    only grow, and what happens when an attach comes between the choice of the mode and the PUT. */
module VolumeExpansion {
  import opened Wrappers
  import opened Volumes
  import Safety = VolumeSafety
  import Index = VolumeIndex
  import VolumeSizes

  // ----- modes, and what success means -----

  /** The settings that an ONLINE expansion sends name its disk, with the new size. */
  ghost predicate Prepared(phase: Phase) {
    phase.Expands? && phase.expanding.OnlinePuts? ==>
      var p := phase.expanding;
      p.id in p.settings && p.settings[p.id] == p.newMb
  }

  lemma CallPrepares(c: Cloud, phase: Phase, choice: Choice)
    requires Prepared(phase) && Call(c, phase, choice).Goes?
    ensures Prepared(Call(c, phase, choice).phase)
  {
    if !choice.Fail? && phase.Expands? {
      ExpandPrepares(c, phase.expanding, choice);
    }
  }

  lemma ExpandPrepares(c: Cloud, p: Expanding, choice: Choice)
    requires ExpandCall(c, p, choice).Goes?
    ensures Prepared(ExpandCall(c, p, choice).phase)
  {
  }

  ghost predicate Inv(w: World) {
    Safety.Inv(w) && forall t | t in w.threads :: Prepared(w.threads[t])
  }

  lemma NextKeepsInv(w: World, s: Step)
    requires Inv(w)
    ensures Inv(Next(w, s))
  {
    Safety.NextKeepsInv(w, s);
    if s.Step? && s.t in w.threads && Call(w.cloud, w.threads[s.t], s.choice).Goes? {
      CallPrepares(w.cloud, w.threads[s.t], s.choice);
    }
  }

  lemma {:induction false} RunKeepsInv(w: World, steps: seq<Step>)
    requires Inv(w)
    ensures Inv(Run(w, steps))
    decreases |steps|
  {
    if steps != [] {
      NextKeepsInv(w, steps[0]);
      RunKeepsInv(Next(w, steps[0]), steps[1..]);
    }
  }

  lemma ReachableHolds(w: World)
    requires Safety.Reachable(w)
    ensures Inv(w)
  {
    var zones, indexing, steps :| w == Run(Init(zones, indexing), steps);
    RunKeepsInv(Init(zones, indexing), steps);
  }

  /** In every reachable state: an OFFLINE update that takes effect finds the disk without VMs, an
      ONLINE one finds it attached to the VM whose settings it puts, and, unless the disk is
      shareable, to no other. Either way the disk gets the size asked for. */
  lemma UpdatesMeetTheirMode(w: World, t: Tid, ok: bool)
    requires Safety.Reachable(w) && t in w.threads && w.threads[t].Expands?
    requires w.threads[t].expanding.OfflinePuts? || w.threads[t].expanding.OnlinePuts?
    requires Call(w.cloud, w.threads[t], Apply(ok)).Goes?
    ensures var c, c', p := w.cloud, Next(w, Step(t, Apply(ok))).cloud, w.threads[t].expanding;
            && p.id in c.live && p.id in c'.live && c'.live[p.id] == c.live[p.id].(sizeMb := p.newMb)
            && (p.OfflinePuts? ==> VmsOf(c, p.id) == [])
            && (p.OnlinePuts? ==> p.vm in VmsOf(c, p.id))
            && (p.OnlinePuts? && !c.live[p.id].shareable ==> VmsOf(c, p.id) == [p.vm])
  {
    ReachableHolds(w);
    var p := w.threads[t].expanding;
    assert Prepared(w.threads[t]);
    PutEffect(w.cloud, p, ok);
    if p.OnlinePuts? && !w.cloud.live[p.id].shareable {
      OnlyVm(VmsOf(w.cloud, p.id), p.vm);
    }
  }

  lemma PutEffect(c: Cloud, p: Expanding, ok: bool)
    requires (p.OfflinePuts? || p.OnlinePuts?) && Prepared(Expands(p)) && ExpandCall(c, p, Apply(ok)).Goes?
    ensures var c' := ExpandCall(c, p, Apply(ok)).cloud;
            && p.id in c.live && p.id in c'.live && c'.live[p.id] == c.live[p.id].(sizeMb := p.newMb)
            && (p.OfflinePuts? ==> VmsOf(c, p.id) == [])
            && (p.OnlinePuts? ==> p.vm in VmsOf(c, p.id))
  {
    assert p.OnlinePuts? ==> p.id in SettingsOf(c, p.vm);
  }

  lemma OnlyVm(vms: seq<Vm>, vm: Vm)
    requires vm in vms && |vms| <= 1
    ensures vms == [vm]
  {
  }

  /** A success reports the size that the disk has at that moment. */
  lemma SuccessReportsTheSize(w: World, t: Tid, choice: Choice, mb: int, onNode: bool)
    requires Safety.Reachable(w) && t in w.threads && w.threads[t].Expands?
    requires Call(w.cloud, w.threads[t], choice).Goes?
    requires Call(w.cloud, w.threads[t], choice).phase == Done(Capacity(mb, onNode))
    ensures var c', p := Call(w.cloud, w.threads[t], choice).cloud, w.threads[t].expanding;
            && mb == p.newMb
            && (onNode <==> p.OnlinePuts?)
            && match p
               case ExpandLooks(name, _, _) => choice.Look? && choice.answer.Some? && choice.answer.value in c'.live
                                               && c'.live[choice.answer.value].name == name
                                               && c'.live[choice.answer.value].sizeMb == mb
               case OfflinePuts(id, _) => id in c'.live && c'.live[id].sizeMb == mb
               case OnlinePuts(id, _, _, _) => id in c'.live && c'.live[id].sizeMb == mb
               case _ => false
  {
    var p := w.threads[t].expanding;
    if p.OfflinePuts? || p.OnlinePuts? {
      UpdatesMeetTheirMode(w, t, true);
    }
  }

  // ----- a disk only grows, unless expansions clash on it -----

  /** Whether a running expansion has read the size of a disk and is going to act on it. */
  predicate ReliesOn(phase: Phase, d: string) {
    phase.Expands? &&
    match phase.expanding
    case ExpandLooks(_, _, _) => false
    case ExpandReads(seen, _, _) => d == seen.id
    case OfflineReads(id, _) => d == id
    case OfflinePuts(id, _) => d == id
    case OnlineFinds(id, _, _) => d == id
    case OnlinePuts(_, _, _, settings) => d in settings
  }

  /** The size that it is going to give the disk. */
  function Aim(phase: Phase, d: string): int
    requires ReliesOn(phase, d)
  {
    if phase.expanding.OnlinePuts? then phase.expanding.settings[d] else phase.expanding.newMb
  }

  /** The disk existed, and is not larger than the expansion is going to make it. */
  ghost predicate Knows(c: Cloud, phase: Phase, d: string) {
    ReliesOn(phase, d) ==> d in c.attached && (d in c.live ==> c.live[d].sizeMb <= Aim(phase, d))
  }

  /** The disk does not come back, and does not shrink. */
  ghost predicate Grown(c: Cloud, c': Cloud, d: string) {
    && (d in c.attached ==> d in c'.attached)
    && (d in c.attached && d in c'.live ==> d in c.live && c.live[d].sizeMb <= c'.live[d].sizeMb)
  }

  predicate Resizes(c: Cloud, c': Cloud, d: string) {
    d in c.live && d in c'.live && c'.live[d].sizeMb != c.live[d].sizeMb
  }

  /** The disk is not resized by one handler while another one relies on its size. */
  ghost predicate NoClash(w: World, s: Step, d: string) {
    s.Step? && Resizes(w.cloud, Next(w, s).cloud, d) ==>
      forall u | u in w.threads && ReliesOn(w.threads[u], d) :: u == s.t
  }

  ghost predicate NoClashRun(w: World, steps: seq<Step>, d: string)
    decreases |steps|
  {
    steps == [] || (NoClash(w, steps[0], d) && NoClashRun(Next(w, steps[0]), steps[1..], d))
  }

  ghost predicate SizeInv(w: World, d: string) {
    Safety.Inv(w) && forall t | t in w.threads :: Knows(w.cloud, w.threads[t], d)
  }

  /** No disk has another size, other than by being new. */
  ghost predicate SameSizes(c: Cloud, c': Cloud) {
    && c.attached.Keys <= c'.attached.Keys
    && forall id | id in c.attached && id in c'.live :: id in c.live && c.live[id].sizeMb == c'.live[id].sizeMb
  }

  lemma CreateKeepsSizes(c: Cloud, p: Creating, choice: Choice)
    requires CreateCall(c, p, choice).Goes?
    ensures SameSizes(c, CreateCall(c, p, choice).cloud) && !CreateCall(c, p, choice).phase.Expands?
  {
  }

  lemma OthersKeepSizes(c: Cloud, phase: Phase, choice: Choice)
    requires phase.Deletes? || phase.Attaches? || phase.Detaches?
    requires Call(c, phase, choice).Goes?
    ensures c.attached.Keys <= Call(c, phase, choice).cloud.attached.Keys
    ensures var live := Call(c, phase, choice).cloud.live; live == c.live || exists id :: live == c.live - {id}
    ensures !Call(c, phase, choice).phase.Expands?
  {
  }

  lemma OnlyExpansionsResize(c: Cloud, phase: Phase, choice: Choice)
    requires !phase.Expands? && Call(c, phase, choice).Goes?
    ensures SameSizes(c, Call(c, phase, choice).cloud) && !Call(c, phase, choice).phase.Expands?
  {
    if choice.Fail? {
      assert SameSizes(c, c);
    } else if phase.Creates? {
      CreateKeepsSizes(c, phase.creating, choice);
    } else {
      OthersKeepSizes(c, phase, choice);
    }
  }

  lemma ExpandGrows(c: Cloud, p: Expanding, choice: Choice, d: string)
    requires Safety.DisksOk(c) && Knows(c, Expands(p), d) && ExpandCall(c, p, choice).Goes?
    ensures Grown(c, ExpandCall(c, p, choice).cloud, d)
    ensures Knows(ExpandCall(c, p, choice).cloud, ExpandCall(c, p, choice).phase, d)
  {
  }

  lemma CallGrows(c: Cloud, phase: Phase, choice: Choice, d: string)
    requires Safety.DisksOk(c) && Knows(c, phase, d) && Call(c, phase, choice).Goes?
    ensures Grown(c, Call(c, phase, choice).cloud, d)
    ensures Knows(Call(c, phase, choice).cloud, Call(c, phase, choice).phase, d)
  {
    if !phase.Expands? {
      OnlyExpansionsResize(c, phase, choice);
    } else if choice.Fail? {
      assert Call(c, phase, choice) == End(c, Failure);
    } else {
      ExpandGrows(c, phase.expanding, choice, d);
    }
  }

  lemma NoClashStep(w: World, s: Step, d: string)
    requires SizeInv(w, d) && NoClash(w, s, d)
    ensures SizeInv(Next(w, s), d) && Grown(w.cloud, Next(w, s).cloud, d)
  {
    Safety.NextKeepsInv(w, s);
    if s.Step? && s.t in w.threads && Call(w.cloud, w.threads[s.t], s.choice).Goes? {
      CallGrows(w.cloud, w.threads[s.t], s.choice, d);
    }
  }

  /** In any run of all handlers a disk never shrinks, as long as it is not resized by one expansion
      while another one relies on its size; whatever happens to other disks. */
  lemma {:induction false} SizesNeverDecrease(w: World, steps: seq<Step>, d: string)
    requires SizeInv(w, d) && NoClashRun(w, steps, d)
    ensures SizeInv(Run(w, steps), d) && Grown(w.cloud, Run(w, steps).cloud, d)
    decreases |steps|
  {
    if steps != [] {
      NoClashStep(w, steps[0], d);
      SizesNeverDecrease(Next(w, steps[0]), steps[1..], d);
    }
  }

  // ----- runs without a clash -----

  lemma ExpandResizes(c: Cloud, p: Expanding, choice: Choice, d: string)
    requires ExpandCall(c, p, choice).Goes? && Resizes(c, ExpandCall(c, p, choice).cloud, d)
    ensures ReliesOn(Expands(p), d) && (p.OfflinePuts? || p.OnlinePuts?)
    ensures ExpandCall(c, p, choice).phase.Done? && ExpandCall(c, p, choice).cloud.live[d].sizeMb == Aim(Expands(p), d)
  {
  }

  /** A disk is resized by the PUT of an expansion that relies on it, and by nothing else. */
  lemma OnlyPutsResize(c: Cloud, phase: Phase, choice: Choice, d: string)
    requires Safety.DisksOk(c) && Call(c, phase, choice).Goes? && Resizes(c, Call(c, phase, choice).cloud, d)
    ensures ReliesOn(phase, d) && (phase.expanding.OfflinePuts? || phase.expanding.OnlinePuts?)
    ensures Call(c, phase, choice).phase.Done? && Call(c, phase, choice).cloud.live[d].sizeMb == Aim(phase, d)
  {
    if !phase.Expands? {
      OnlyExpansionsResize(c, phase, choice);
    } else if !choice.Fail? {
      ExpandResizes(c, phase.expanding, choice, d);
    }
  }

  /** At most one expansion under way relies on the disk: its own one, or an ONLINE one that has read
      the settings of a VM with the disk. */
  ghost predicate Serialised(w: World, d: string) {
    forall t, u | t in w.threads && u in w.threads && ReliesOn(w.threads[t], d) && ReliesOn(w.threads[u], d) :: t == u
  }

  ghost predicate SerialisedRun(w: World, steps: seq<Step>, d: string)
    decreases |steps|
  {
    Serialised(w, d) && (steps == [] || SerialisedRun(Next(w, steps[0]), steps[1..], d))
  }

  lemma SerialisedDoesNotClash(w: World, s: Step, d: string)
    requires Safety.Inv(w) && Serialised(w, d)
    ensures NoClash(w, s, d)
  {
    if s.Step? && Resizes(w.cloud, Next(w, s).cloud, d) {
      OnlyPutsResize(w.cloud, w.threads[s.t], s.choice, d);
    }
  }

  /** While the expansions that rely on a disk are serialised it never shrinks; expansions of other
      disks may overlap with them and with each other in any way. */
  lemma {:induction false} SerialisedDiskNeverShrinks(w: World, steps: seq<Step>, d: string)
    requires SizeInv(w, d) && SerialisedRun(w, steps, d)
    ensures NoClashRun(w, steps, d) && Grown(w.cloud, Run(w, steps).cloud, d)
    decreases |steps|
  {
    if steps != [] {
      SerialisedDoesNotClash(w, steps[0], d);
      NoClashStep(w, steps[0], d);
      SerialisedDiskNeverShrinks(Next(w, steps[0]), steps[1..], d);
    }
    SizesNeverDecrease(w, steps, d);
  }

  /** At most one expansion is under way. */
  ghost predicate OneExpansion(w: World) {
    forall t, u | t in w.threads && u in w.threads && w.threads[t].Expands? && w.threads[u].Expands? :: t == u
  }

  /** An expansion begins only when no other is under way. */
  ghost predicate Alone(w: World, s: Step) {
    s.Step? && s.choice.Begin? && s.choice.phase.Expands? ==> forall t | t in w.threads :: !w.threads[t].Expands?
  }

  ghost predicate AloneRun(w: World, steps: seq<Step>)
    decreases |steps|
  {
    steps == [] || (Alone(w, steps[0]) && AloneRun(Next(w, steps[0]), steps[1..]))
  }

  /** The simplest such runs: those in which no two expansions overlap. */
  lemma {:induction false} AloneIsSerialised(w: World, steps: seq<Step>, d: string)
    requires OneExpansion(w) && AloneRun(w, steps)
    ensures SerialisedRun(w, steps, d)
    decreases |steps|
  {
    if steps != [] {
      if steps[0].Step? && steps[0].t in w.threads && !w.threads[steps[0].t].Expands?
         && Call(w.cloud, w.threads[steps[0].t], steps[0].choice).Goes? {
        OnlyExpansionsResize(w.cloud, w.threads[steps[0].t], steps[0].choice);
      }
      AloneIsSerialised(Next(w, steps[0]), steps[1..], d);
    }
  }

  // ----- a run by itself -----

  function Expand(t: Tid, name: string, id: string, newMb: int, zones: set<Ovdc>): seq<Step> {
    [Step(t, Begin(Expands(ExpandLooks(name, newMb, true)))), Step(t, Look(zones, Some(id))), Step(t, Go), Step(t, Go)]
  }

  function At(w: World, t: Tid, phase: Phase): World {
    w.(threads := w.threads[t := phase])
  }

  lemma CallAt(w: World, t: Tid, p: Expanding, choice: Choice, effect: Effect)
    requires effect == ExpandCall(w.cloud, p, choice) && effect.Goes? && !choice.Fail?
    requires effect.phase.Expands? || effect.phase.Done?
    ensures Next(At(w, t, Expands(p)), Step(t, choice)) == At(w, t, effect.phase).(cloud := effect.cloud)
  {
  }

  lemma ExpandCalls(c: Cloud, name: string, id: string, vm: Vm, newMb: int)
    requires Index.OnlyOneNamed(c, name, id) && c.live[id].sizeMb < newMb && c.live[id].id == id && VmsOf(c, id) == [vm]
    ensures ExpandCall(c, ExpandLooks(name, newMb, true), Look(c.zones, Some(id)))
            == Goes(c, Expands(ExpandReads(c.live[id], newMb, true)))
    ensures ExpandCall(c, ExpandReads(c.live[id], newMb, true), Go) == Goes(c, Expands(OnlineFinds(id, vm, newMb)))
    ensures ExpandCall(c, OnlineFinds(id, vm, newMb), Go)
            == Goes(c, Expands(OnlinePuts(id, vm, newMb, SettingsOf(c, vm)[id := newMb])))
  {
    Index.OnlyOneIsFound(c, name, id, Some(id));
    assert id in SettingsOf(c, vm);
  }

  /** An expansion by itself, up to and including its reading of the settings of the disk's VM. */
  lemma ExpandUpToPut(w: World, t: Tid, name: string, id: string, vm: Vm, newMb: int)
    requires Index.OnlyOneNamed(w.cloud, name, id) && w.cloud.live[id].sizeMb < newMb && w.cloud.live[id].id == id
    requires VmsOf(w.cloud, id) == [vm] && t !in w.threads
    ensures Run(w, Expand(t, name, id, newMb, w.cloud.zones))
            == At(w, t, Expands(OnlinePuts(id, vm, newMb, SettingsOf(w.cloud, vm)[id := newMb])))
  {
    var c := w.cloud;
    var looking, reading := ExpandLooks(name, newMb, true), ExpandReads(c.live[id], newMb, true);
    var finding := OnlineFinds(id, vm, newMb);
    var puts := Expands(OnlinePuts(id, vm, newMb, SettingsOf(c, vm)[id := newMb]));
    ExpandCalls(c, name, id, vm, newMb);
    CallAt(w, t, looking, Look(c.zones, Some(id)), Goes(c, Expands(reading)));
    CallAt(w, t, reading, Go, Goes(c, Expands(finding)));
    CallAt(w, t, finding, Go, Goes(c, puts));
    FourSteps(w, Expand(t, name, id, newMb, c.zones),
              At(w, t, Expands(looking)), At(w, t, Expands(reading)), At(w, t, Expands(finding)), At(w, t, puts));
  }

  function WithSize(c: Cloud, id: string, mb: int): Cloud
    requires id in c.live
  {
    c.(live := c.live[id := c.live[id].(sizeMb := mb)])
  }

  /** Settings that were read when disk `a` still had its old size undo an update of `a` as they
      update `b`. */
  lemma StaleSettings(c: Cloud, vm: Vm, a: string, mbA: int, b: string, mbB: int)
    requires a in SettingsOf(c, vm) && b in SettingsOf(c, vm) && a != b
    ensures ExpandCall(WithSize(c, a, mbA), OnlinePuts(b, vm, mbB, SettingsOf(c, vm)[b := mbB]), Apply(true))
            == End(WithSize(c, b, mbB), Capacity(mbB, true))
  {
    var now := WithSize(c, a, mbA);
    assert SettingsOf(now, vm).Keys == SettingsOf(c, vm).Keys;
    assert Resized(now, SettingsOf(c, vm)[b := mbB]) == WithSize(c, b, mbB).live;
  }

  lemma FreshSettings(c: Cloud, vm: Vm, id: string, mb: int)
    requires id in SettingsOf(c, vm)
    ensures ExpandCall(c, OnlinePuts(id, vm, mb, SettingsOf(c, vm)[id := mb]), Apply(true))
            == End(WithSize(c, id, mb), Capacity(mb, true))
  {
    assert Resized(c, SettingsOf(c, vm)[id := mb]) == WithSize(c, id, mb).live;
  }

  /** The state in which both have read the settings of the VM and neither has put them. */
  function BothRead(w: World, t: Tid, u: Tid, a: string, b: string, vm: Vm, mbA: int, mbB: int): World {
    At(At(w, u, Expands(OnlinePuts(b, vm, mbB, SettingsOf(w.cloud, vm)[b := mbB]))),
       t, Expands(OnlinePuts(a, vm, mbA, SettingsOf(w.cloud, vm)[a := mbA])))
  }

  lemma BothGetThere(w: World, t: Tid, u: Tid, a: string, b: string, vm: Vm, nameA: string, nameB: string,
                     mbA: int, mbB: int)
    requires t != u && t !in w.threads && u !in w.threads
    requires Index.OnlyOneNamed(w.cloud, nameA, a) && VmsOf(w.cloud, a) == [vm] && w.cloud.live[a].sizeMb < mbA
    requires Index.OnlyOneNamed(w.cloud, nameB, b) && VmsOf(w.cloud, b) == [vm] && w.cloud.live[b].sizeMb < mbB
    requires w.cloud.live[a].id == a && w.cloud.live[b].id == b
    ensures Run(w, Expand(u, nameB, b, mbB, w.cloud.zones) + Expand(t, nameA, a, mbA, w.cloud.zones))
            == BothRead(w, t, u, a, b, vm, mbA, mbB)
  {
    var c := w.cloud;
    RunConcat(w, Expand(u, nameB, b, mbB, c.zones), Expand(t, nameA, a, mbA, c.zones));
    ExpandUpToPut(w, u, nameB, b, vm, mbB);
    ExpandUpToPut(At(w, u, Expands(OnlinePuts(b, vm, mbB, SettingsOf(c, vm)[b := mbB]))), t, nameA, a, vm, mbA);
  }

  /** Two expansions of two disks of one VM, each disk expanded only once: both report success,
      and yet the first disk ends up with its old size. */
  lemma ConcurrentExpansionsShrink(w: World, t: Tid, u: Tid, a: string, b: string, vm: Vm, nameA: string, nameB: string,
                                   mbA: int, mbB: int)
    requires Safety.DisksOk(w.cloud) && t != u && t !in w.threads && u !in w.threads && a != b
    requires Index.OnlyOneNamed(w.cloud, nameA, a) && VmsOf(w.cloud, a) == [vm] && w.cloud.live[a].sizeMb < mbA
    requires Index.OnlyOneNamed(w.cloud, nameB, b) && VmsOf(w.cloud, b) == [vm] && w.cloud.live[b].sizeMb < mbB
    ensures var c := w.cloud;
            var w1 := Run(w, Expand(u, nameB, b, mbB, c.zones) + Expand(t, nameA, a, mbA, c.zones));
            var w2 := Next(w1, Step(t, Apply(true)));
            var w3 := Next(w2, Step(u, Apply(true)));
            && w2.cloud == WithSize(c, a, mbA) && t in w2.threads && w2.threads[t] == Done(Capacity(mbA, true))
            && w3.cloud == WithSize(c, b, mbB) && u in w3.threads && w3.threads[u] == Done(Capacity(mbB, true))
  {
    BothGetThere(w, t, u, a, b, vm, nameA, nameB, mbA, mbB);
    PutsInTurn(w, t, u, a, b, vm, mbA, mbB);
  }

  lemma PutsInTurn(w: World, t: Tid, u: Tid, a: string, b: string, vm: Vm, mbA: int, mbB: int)
    requires t != u && a != b && a in SettingsOf(w.cloud, vm) && b in SettingsOf(w.cloud, vm)
    ensures var c := w.cloud;
            var w2 := Next(BothRead(w, t, u, a, b, vm, mbA, mbB), Step(t, Apply(true)));
            var w3 := Next(w2, Step(u, Apply(true)));
            && w2.cloud == WithSize(c, a, mbA) && t in w2.threads && w2.threads[t] == Done(Capacity(mbA, true))
            && w3.cloud == WithSize(c, b, mbB) && u in w3.threads && w3.threads[u] == Done(Capacity(mbB, true))
  {
    var c, w1 := w.cloud, BothRead(w, t, u, a, b, vm, mbA, mbB);
    FreshSettings(c, vm, a, mbA);
    StepGoes(w1, t, Apply(true), WithSize(c, a, mbA), Done(Capacity(mbA, true)));
    var w2 := Moved(w1, t, WithSize(c, a, mbA), Done(Capacity(mbA, true)));
    StaleSettings(c, vm, a, mbA, b, mbB);
    StepGoes(w2, u, Apply(true), WithSize(c, b, mbB), Done(Capacity(mbB, true)));
  }

  // ----- repeating, and racing with an attach -----

  ghost predicate RepeatPhase(phase: Phase, name: string, mb: int, online: bool) {
    || phase == Expands(ExpandLooks(name, mb, online))
    || phase == Done(Capacity(mb, false))
    || phase == Done(Failure)
  }

  lemma RepeatStep(w: World, t: Tid, name: string, id: string, online: bool, choice: Choice)
    requires Index.OnlyOneNamed(w.cloud, name, id) && (choice.Look? ==> choice.readable == w.cloud.zones)
    requires t in w.threads && RepeatPhase(w.threads[t], name, w.cloud.live[id].sizeMb, online)
    ensures var w' := Next(w, Step(t, choice));
            && w'.cloud == w.cloud && t in w'.threads
               && RepeatPhase(w'.threads[t], name, w.cloud.live[id].sizeMb, online)
            && (w'.threads[t] == Done(Failure) && !choice.Fail? ==> w.threads[t] == Done(Failure))
  {
    if choice.Look? {
      Index.OnlyOneIsFound(w.cloud, name, id, choice.answer);
    }
  }

  /** Asking again for the size that the disk has changes nothing and reports the same capacity,
      unless one of its calls fails. */
  lemma {:induction false} RepeatChangesNothing(
      w: World, t: Tid, name: string, id: string, online: bool, steps: seq<Step>)
    requires Index.OnlyOneNamed(w.cloud, name, id) && Index.Alone(w.cloud.zones, t, steps)
    requires t in w.threads && RepeatPhase(w.threads[t], name, w.cloud.live[id].sizeMb, online)
    ensures var w' := Run(w, steps);
            && w'.cloud == w.cloud && t in w'.threads
               && RepeatPhase(w'.threads[t], name, w.cloud.live[id].sizeMb, online)
            && (w'.threads[t] == Done(Failure) && Index.NoneFails(steps) ==> w.threads[t] == Done(Failure))
    decreases |steps|
  {
    if steps != [] {
      assert Index.IsOwn(w.cloud.zones, t, steps[0]) && Index.Alone(w.cloud.zones, t, steps[1..]);
      RepeatStep(w, t, name, id, online, steps[0].choice);
      assert Index.NoneFails(steps) ==> !steps[0].choice.Fail? && Index.NoneFails(steps[1..]);
      RepeatChangesNothing(Next(w, steps[0]), t, name, id, online, steps[1..]);
    }
  }

  ghost predicate OfflinePhase(phase: Phase, id: string, newMb: int) {
    || phase == Expands(OfflineReads(id, newMb))
    || phase == Expands(OfflinePuts(id, newMb))
    || phase == Done(Failure)
  }

  /** Every state of the run has the disk attached. */
  ghost predicate StaysAttached(w: World, id: string, steps: seq<Step>)
    decreases |steps|
  {
    VmsOf(w.cloud, id) != [] && (steps == [] || StaysAttached(Next(w, steps[0]), id, steps[1..]))
  }

  /** Once the mode is OFFLINE, an attach wins: as long as the disk stays attached, whatever others
      do, the expansion changes nothing and can only fail. */
  lemma {:induction false} AttachBeatsOffline(w: World, t: Tid, id: string, newMb: int, steps: seq<Step>)
    requires t in w.threads && OfflinePhase(w.threads[t], id, newMb) && StaysAttached(w, id, steps)
    requires Restart !in steps
    ensures t in Run(w, steps).threads && OfflinePhase(Run(w, steps).threads[t], id, newMb)
    ensures forall choice :: Next(Run(w, steps), Step(t, choice)).cloud == Run(w, steps).cloud
    decreases |steps|
  {
    if steps != [] {
      var s := steps[0];
      assert s in steps;
      if s.t == t {
        OfflineStep(w, t, id, newMb, s.choice);
      }
      AttachBeatsOffline(Next(w, s), t, id, newMb, steps[1..]);
    } else {
      forall choice ensures Next(w, Step(t, choice)).cloud == w.cloud {
        OfflineStep(w, t, id, newMb, choice);
      }
    }
  }

  lemma OfflineStep(w: World, t: Tid, id: string, newMb: int, choice: Choice)
    requires t in w.threads && OfflinePhase(w.threads[t], id, newMb) && VmsOf(w.cloud, id) != []
    ensures var w' := Next(w, Step(t, choice));
            w'.cloud == w.cloud && t in w'.threads && OfflinePhase(w'.threads[t], id, newMb)
  {
  }

  /** The retry that follows finds the VM and succeeds ONLINE: five calls, and only this disk has
      another size. */
  lemma RetrySucceedsOnline(w: World, t: Tid, name: string, id: string, vm: Vm, newMb: int)
    requires Index.OnlyOneNamed(w.cloud, name, id) && w.cloud.live[id].sizeMb < newMb && w.cloud.live[id].id == id
    requires VmsOf(w.cloud, id) == [vm] && t !in w.threads
    ensures Run(w, Expand(t, name, id, newMb, w.cloud.zones) + [Step(t, Apply(true))])
            == At(w, t, Done(Capacity(newMb, true))).(cloud := WithSize(w.cloud, id, newMb))
  {
    var c, steps := w.cloud, Expand(t, name, id, newMb, w.cloud.zones);
    ExpandUpToPut(w, t, name, id, vm, newMb);
    RunConcat(w, steps, [Step(t, Apply(true))]);
    assert id in SettingsOf(c, vm);
    FreshSettings(c, vm, id, newMb);
    CallAt(w, t, OnlinePuts(id, vm, newMb, SettingsOf(c, vm)[id := newMb]), Apply(true),
      End(WithSize(c, id, newMb), Capacity(newMb, true)));
    var w1 := Run(w, steps);
    assert Run(w1, [Step(t, Apply(true))]) == Run(Next(w1, Step(t, Apply(true))), []);
  }

  /** An expansion to no more than the size of the disk is over after the lookup. */
  lemma NothingToExpand(w: World, t: Tid, name: string, id: string, newMb: int, online: bool)
    requires Index.OnlyOneNamed(w.cloud, name, id) && newMb <= w.cloud.live[id].sizeMb && t !in w.threads
    ensures Run(w, [Step(t, Begin(Expands(ExpandLooks(name, newMb, online)))), Step(t, Look(w.cloud.zones, Some(id)))])
            == At(w, t, Done(if newMb == w.cloud.live[id].sizeMb then Capacity(newMb, false) else Failure))
  {
    var begin := Step(t, Begin(Expands(ExpandLooks(name, newMb, online))));
    var look := Step(t, Look(w.cloud.zones, Some(id)));
    Index.OnlyOneIsFound(w.cloud, name, id, Some(id));
    RunOfOne(w, begin);
    CallAt(w, t, ExpandLooks(name, newMb, online), look.choice,
           End(w.cloud, if newMb == w.cloud.live[id].sizeMb then Capacity(newMb, false) else Failure));
    RunSnoc(w, [begin], look);
    assert [begin] + [look] == [begin, look];
  }

  /** A volume created for `b` bytes and expanded to the same `b`: nothing changes, and the call
      succeeds if that is a whole number of MiB, and is refused as a shrink otherwise. */
  lemma ExpandToCreatedSize(w: World, t: Tid, name: string, id: string, b: int, online: bool)
    requires 1 <= b <= VolumeSizes.TWO_TO_53 && t !in w.threads
    requires Index.OnlyOneNamed(w.cloud, name, id) && w.cloud.live[id].sizeMb == VolumeSizes.CreateSizeMb(b)
    ensures var newMb := VolumeSizes.ExpandSizeMb(b);
            Run(w, [Step(t, Begin(Expands(ExpandLooks(name, newMb, online)))), Step(t, Look(w.cloud.zones, Some(id)))])
            == At(w, t, Done(if b % VolumeSizes.MIB == 0 then Capacity(newMb, false) else Failure))
  {
    VolumeSizes.ExpandAfterCreate(b);
    NothingToExpand(w, t, name, id, VolumeSizes.ExpandSizeMb(b), online);
  }

  // ----- how an expansion by itself ends -----

  /** What the request deserves: nothing to do if the disk has that size, refused if it is larger;
      else OFFLINE without VMs, ONLINE with exactly one for volumes that allow it, refused with more
      or for the others. */
  function Expected(c: Cloud, id: string, newMb: int, online: bool): Outcome
    requires id in c.live
  {
    if c.live[id].sizeMb == newMb then Capacity(newMb, false)
    else if c.live[id].sizeMb > newMb then Failure
    else if VmsOf(c, id) == [] then Capacity(newMb, false)
    else if |VmsOf(c, id)| == 1 && online then Capacity(newMb, true)
    else Failure
  }

  function ExpectedCloud(c: Cloud, id: string, newMb: int, online: bool): Cloud
    requires id in c.live
  {
    if Expected(c, id, newMb, online).Failure? then c else WithSize(c, id, newMb)
  }

  /** How far it has got, with the disks as they were when it began. */
  ghost predicate OnTrack(c: Cloud, c': Cloud, phase: Phase, name: string, id: string, newMb: int, online: bool)
    requires id in c.live
  {
    match phase
    case Done(outcome) =>
      outcome == Expected(c, id, newMb, online) && c' == ExpectedCloud(c, id, newMb, online)
    case Expands(p) =>
      && c' == c && (p.ExpandLooks? || c.live[id].sizeMb < newMb)
      && (match p
          case ExpandLooks(_, _, _) => p == ExpandLooks(name, newMb, online)
          case ExpandReads(_, _, _) => p == ExpandReads(c.live[id], newMb, online)
          case OfflineReads(_, _) => p == OfflineReads(id, newMb) && VmsOf(c, id) == []
          case OfflinePuts(_, _) => p == OfflinePuts(id, newMb) && VmsOf(c, id) == []
          case OnlineFinds(_, vm, _) => p == OnlineFinds(id, vm, newMb) && VmsOf(c, id) == [vm] && online
          case OnlinePuts(_, vm, _, _) =>
            p == OnlinePuts(id, vm, newMb, SettingsOf(c, vm)[id := newMb]) && VmsOf(c, id) == [vm] && online)
    case _ => false
  }

  /** Nothing fails, and nothing is reported to fail. */
  predicate Succeeds(choice: Choice) {
    !choice.Fail? && (choice.Apply? ==> choice.ok)
  }

  lemma ExpectedCall(c: Cloud, p: Expanding, choice: Choice, name: string, id: string, newMb: int, online: bool)
    requires Index.OnlyOneNamed(c, name, id) && c.live[id].id == id
    requires Succeeds(choice) && (choice.Look? ==> choice.readable == c.zones)
    requires OnTrack(c, c, Expands(p), name, id, newMb, online)
    ensures var effect := ExpandCall(c, p, choice);
            effect.Goes? ==> OnTrack(c, effect.cloud, effect.phase, name, id, newMb, online)
  {
    match p
    case ExpandLooks(_, _, _) =>
      if choice.Look? {
        Index.OnlyOneIsFound(c, name, id, choice.answer);
        assert c.live[id].sizeMb == newMb ==> WithSize(c, id, newMb) == c;
      }
    case OnlineFinds(_, vm, _) => assert id in SettingsOf(c, vm);
    case OnlinePuts(_, vm, _, _) =>
      assert id in SettingsOf(c, vm);
      FreshSettings(c, vm, id, newMb);
    case _ =>
  }

  /** An expansion by itself in which nothing fails ends, if it ends, exactly as its request deserves,
      with the size of this disk changed and nothing else. */
  lemma {:induction false} ExpansionEndsAsExpected(
      c: Cloud, w: World, t: Tid, name: string, id: string, newMb: int, online: bool, steps: seq<Step>)
    requires Index.OnlyOneNamed(c, name, id) && c.live[id].id == id
    requires Index.Alone(c.zones, t, steps)
    requires forall i | 0 <= i < |steps| :: steps[i].Step? ==> Succeeds(steps[i].choice)
    requires t in w.threads && OnTrack(c, w.cloud, w.threads[t], name, id, newMb, online)
    ensures t in Run(w, steps).threads
    ensures OnTrack(c, Run(w, steps).cloud, Run(w, steps).threads[t], name, id, newMb, online)
    decreases |steps|
  {
    if steps != [] {
      assert Index.IsOwn(c.zones, t, steps[0]) && Succeeds(steps[0].choice);
      if w.threads[t].Expands? {
        ExpectedCall(c, w.threads[t].expanding, steps[0].choice, name, id, newMb, online);
      }
      ExpansionEndsAsExpected(c, Next(w, steps[0]), t, name, id, newMb, online, steps[1..]);
    }
  }
}
