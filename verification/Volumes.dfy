/** The life of volumes as a state machine: disks and attachments in VCD, the list of disk ids in
    the RDE, and the controller's RPC handlers as threads that take one backend call at a time.

    Create, Delete, Attach and Detach hold one lock; Publish looks its disk up before taking it,
    Unpublish looks and reads before, and Expand never takes it. Which thread moves, which OVDCs
    can be read, which calls fail, and which failures are reported for calls that did take effect
    is up to an adversary; the controller may also restart at any time. A backend call that was
    answered, or given up, has no later effect. */
module Volumes {
  import opened Wrappers
  import DiskLookup
  import RdeUpdates

  type Disk = DiskLookup.Disk
  type Ovdc = DiskLookup.Ovdc
  type Vm = string
  type Tid = nat

  datatype Outcome =
    | Volume(id: string)                        // CreateVolume: the disk
    | Success
    | Capacity(sizeMb: int, onNode: bool)       // ControllerExpandVolume
    | Failure

  /** CreateVolume and CreateDisk */
  datatype Creating =
    | CreateWaits(want: Disk)
    | CreateLooks(want: Disk)
    | CreateMakes(want: Disk)
    | CreateIndexes(want: Disk, id: string)

  /** DeleteVolume and DeleteDisk */
  datatype Deleting =
    | DeleteWaits(name: string)
    | DeleteLooks(name: string)
    | DeleteReads(id: string)
    | DeleteRereads(id: string)
    | DeleteIssues(id: string)
    | DeleteIndexes(id: string)

  /** ControllerPublishVolume and AttachVolume */
  datatype Attaching =
    | PublishLooks(name: string, vm: Vm)
    | AttachWaits(seen: Disk, vm: Vm)
    | AttachReads(seen: Disk, vm: Vm)
    | AttachIssues(seen: Disk, vm: Vm)
    | AttachRefreshes(id: string, vm: Vm)

  /** ControllerUnpublishVolume and DetachVolume */
  datatype Detaching =
    | UnpublishLooks(name: string, vm: Vm)
    | UnpublishReads(id: string, name: string, vm: Vm)
    | DetachWaits(name: string, vm: Vm)
    | DetachLooks(name: string, vm: Vm)
    | DetachReads(id: string, vm: Vm)
    | DetachIssues(id: string, vm: Vm)

  /** ControllerExpandVolume and UpdateDisk; `online` says that the volume may be expanded while
      attached: it is neither a block nor a multi-writer volume. */
  datatype Expanding =
    | ExpandLooks(name: string, newMb: int, online: bool)
    | ExpandReads(seen: Disk, newMb: int, online: bool)
    | OfflineReads(id: string, newMb: int)
    | OfflinePuts(id: string, newMb: int)
    | OnlineFinds(id: string, vm: Vm, newMb: int)
    | OnlinePuts(id: string, vm: Vm, newMb: int, settings: map<string, int>)

  datatype Phase =
    | Creates(creating: Creating)
    | Deletes(deleting: Deleting)
    | Attaches(attaching: Attaching)
    | Detaches(detaching: Detaching)
    | Expands(expanding: Expanding)
    | Done(outcome: Outcome)

  /** VCD and the RDE. `attached` also remembers disks that are no longer live; `indexed` and
      `unindexed` are the ids whose addition to, and removal from, the RDE list was committed. */
  datatype Cloud = Cloud(
    zones: set<Ovdc>, indexing: bool,
    live: map<string, Disk>, attached: map<string, seq<Vm>>,
    index: seq<string>, indexed: set<string>, unindexed: set<string>)

  datatype World = World(cloud: Cloud, lock: Option<Tid>, threads: map<Tid, Phase>)

  datatype Choice =
    | Begin(phase: Phase)
    | Fail                                                // the pending call fails without effect
    | Go                                                  // take the lock, or read
    | Look(readable: set<Ovdc>, answer: Option<string>)
    | Make(made: Disk, ok: bool)
    | Index(committed: bool, ok: bool)
    | Apply(ok: bool)                                     // the call takes effect; ok: and says so

  /** What a call does: nothing yet, or it changes the cloud and the handler goes on. */
  datatype Effect = Stay | Goes(cloud: Cloud, phase: Phase)

  datatype Step = Step(t: Tid, choice: Choice) | Restart

  // ----- lookups -----

  /** `id` is the only live disk of that name in that OVDC. */
  predicate SoleId(c: Cloud, ovdc: Ovdc, name: string, id: string) {
    && id in c.live && c.live[id].name == name && c.live[id].ovdc == ovdc
    && forall other | other in c.live && c.live[other].name == name && c.live[other].ovdc == ovdc :: other == id
  }

  /** What a lookup by name may answer when `readable` are the OVDCs it could list. */
  predicate LookAllowed(c: Cloud, name: string, readable: set<Ovdc>, answer: Option<string>) {
    && readable <= c.zones
    && match answer
       case Some(id) => id in c.live && c.live[id].ovdc in readable && SoleId(c, c.live[id].ovdc, name, id)
       case None => forall id | id in c.live && c.live[id].name == name && c.live[id].ovdc in readable ::
                      !SoleId(c, c.live[id].ovdc, name, id)
  }

  /** The comparison CreateDisk makes with a disk that already has the name. */
  predicate SameProperties(disk: Disk, want: Disk) {
    && disk.sizeMb == want.sizeMb
    && disk.busType == want.busType
    && disk.busSubType == want.busSubType
    && (want.profile != "" ==> disk.profile == want.profile)
    && disk.shareable == want.shareable
  }

  /** The disk that VCD makes for a request: a fresh id, and a profile if none was asked for. */
  predicate MadeFor(c: Cloud, made: Disk, want: Disk) {
    && made.id !in c.attached
    && made == want.(id := made.id, profile := made.profile)
    && (want.profile != "" ==> made.profile == want.profile)
    && want.sizeMb >= 1
  }

  // ----- what the calls read and write -----

  predicate IsInitial(phase: Phase) {
    match phase
    case Creates(p) => p.CreateWaits?
    case Deletes(p) => p.DeleteWaits?
    case Attaches(p) => p.PublishLooks?
    case Detaches(p) => p.UnpublishLooks?
    case Expands(p) => p.ExpandLooks?
    case Done(_) => false
  }

  /** The part of a handler between locking and unlocking. */
  predicate Locked(phase: Phase) {
    match phase
    case Creates(p) => !p.CreateWaits?
    case Deletes(p) => !p.DeleteWaits?
    case Attaches(p) => !p.PublishLooks? && !p.AttachWaits?
    case Detaches(p) => p.DetachLooks? || p.DetachReads? || p.DetachIssues?
    case Expands(_) => false
    case Done(_) => false
  }

  function End(c: Cloud, outcome: Outcome): Effect {
    Goes(c, Done(outcome))
  }

  function VmsOf(c: Cloud, id: string): seq<Vm> {
    if id in c.attached then c.attached[id] else []
  }

  function Without(vms: seq<Vm>, vm: Vm): seq<Vm> {
    if vms == [] then [] else (if vms[0] == vm then [] else [vms[0]]) + Without(vms[1..], vm)
  }

  /** The sizes in the disk settings of a VM: of the live disks attached to it. */
  function SettingsOf(c: Cloud, vm: Vm): map<string, int> {
    map id | id in c.live && vm in VmsOf(c, id) :: c.live[id].sizeMb
  }

  /** The disks after disk settings are put: those named get the sizes sent. */
  function Resized(c: Cloud, settings: map<string, int>): map<string, Disk> {
    map id | id in c.live ::
      if id in settings then c.live[id].(sizeMb := settings[id]) else c.live[id]
  }

  // ----- one backend call of each handler -----

  function CreateCall(c: Cloud, p: Creating, choice: Choice): Effect {
    match p
    case CreateWaits(want) => if choice.Go? then Goes(c, Creates(CreateLooks(want))) else Stay
    case CreateLooks(want) =>
      if choice.Look? && LookAllowed(c, want.name, choice.readable, choice.answer) then
        match choice.answer
        case None => Goes(c, Creates(CreateMakes(want)))
        case Some(id) => End(c, if SameProperties(c.live[id], want) then Volume(id) else Failure)
      else Stay
    case CreateMakes(want) =>
      if choice.Make? && MadeFor(c, choice.made, want) then
        var id := choice.made.id;
        var made := c.(live := c.live[id := choice.made], attached := c.attached[id := []]);
        if !choice.ok then End(made, Failure)
        else if c.indexing then Goes(made, Creates(CreateIndexes(want, id)))
        else End(made, Volume(id))
      else Stay
    case CreateIndexes(want, id) =>
      if choice.Index? && IndexAllowed(choice, want.name !in c.index) then
        var after := if choice.committed then c.(index := c.index + [id], indexed := c.indexed + {id}) else c;
        End(after, if choice.ok then Volume(id) else Failure)
      else Stay
  }

  /** A list update commits only if there is something to do, and is reported done only if it was
      committed or not needed (RdeGuarantees.NilMeansDone). */
  predicate IndexAllowed(choice: Choice, needed: bool)
    requires choice.Index?
  {
    (choice.committed ==> needed) && (choice.ok ==> choice.committed || !needed)
  }

  function DeleteCall(c: Cloud, p: Deleting, choice: Choice): Effect {
    match p
    case DeleteWaits(name) => if choice.Go? then Goes(c, Deletes(DeleteLooks(name))) else Stay
    case DeleteLooks(name) =>
      if choice.Look? && LookAllowed(c, name, choice.readable, choice.answer) then
        match choice.answer
        case None => End(c, Success)
        case Some(id) => Goes(c, Deletes(DeleteReads(id)))
      else Stay
    case DeleteReads(id) =>
      if !choice.Go? then Stay
      else if id !in c.live || VmsOf(c, id) != [] then End(c, Failure)
      else Goes(c, Deletes(DeleteRereads(id)))
    case DeleteRereads(id) =>
      if !choice.Go? then Stay
      else if id !in c.live || VmsOf(c, id) != [] then End(c, Failure)
      else Goes(c, Deletes(DeleteIssues(id)))
    case DeleteIssues(id) =>
      if choice.Apply? && id in c.live then
        var gone := c.(live := c.live - {id});
        if !choice.ok then End(gone, Failure)
        else if c.indexing then Goes(gone, Deletes(DeleteIndexes(id)))
        else End(gone, Success)
      else Stay
    case DeleteIndexes(id) =>
      if choice.Index? && IndexAllowed(choice, id in c.index) then
        var after := if choice.committed
                     then c.(index := RdeUpdates.RemoveFirst(c.index, id), unindexed := c.unindexed + {id}) else c;
        End(after, if choice.ok then Success else Failure)
      else Stay
  }

  function AttachCall(c: Cloud, p: Attaching, choice: Choice): Effect {
    match p
    case PublishLooks(name, vm) =>
      if choice.Look? && LookAllowed(c, name, choice.readable, choice.answer) then
        match choice.answer
        case None => End(c, Failure)
        case Some(id) => Goes(c, Attaches(AttachWaits(c.live[id], vm)))
      else Stay
    case AttachWaits(seen, vm) => if choice.Go? then Goes(c, Attaches(AttachReads(seen, vm))) else Stay
    case AttachReads(seen, vm) =>
      if !choice.Go? then Stay
      else if seen.id !in c.live then End(c, Failure)
      else if vm in VmsOf(c, seen.id) then End(c, Success)
      else if VmsOf(c, seen.id) != [] && !seen.shareable then End(c, Failure)
      else Goes(c, Attaches(AttachIssues(seen, vm)))
    case AttachIssues(seen, vm) =>
      if choice.Apply? && seen.id in c.live then
        var after := c.(attached := c.attached[seen.id := VmsOf(c, seen.id) + [vm]]);
        if choice.ok then Goes(after, Attaches(AttachRefreshes(seen.id, vm))) else End(after, Failure)
      else Stay
    case AttachRefreshes(_, _) => if choice.Go? then End(c, Success) else Stay
  }

  function DetachCall(c: Cloud, p: Detaching, choice: Choice): Effect {
    match p
    case UnpublishLooks(name, vm) =>
      if choice.Look? && LookAllowed(c, name, choice.readable, choice.answer) then
        match choice.answer
        case None => End(c, Success)
        case Some(id) => Goes(c, Detaches(UnpublishReads(id, name, vm)))
      else Stay
    case UnpublishReads(id, name, vm) =>
      if !choice.Go? then Stay
      else if id !in c.live then End(c, Failure)
      else if VmsOf(c, id) == [] then End(c, Success)
      else Goes(c, Detaches(DetachWaits(name, vm)))
    case DetachWaits(name, vm) => if choice.Go? then Goes(c, Detaches(DetachLooks(name, vm))) else Stay
    case DetachLooks(name, vm) =>
      if choice.Look? && LookAllowed(c, name, choice.readable, choice.answer) then
        match choice.answer
        case None => End(c, Success)
        case Some(id) => Goes(c, Detaches(DetachReads(id, vm)))
      else Stay
    case DetachReads(id, vm) =>
      if !choice.Go? then Stay
      else if id !in c.live then End(c, Failure)
      else if vm !in VmsOf(c, id) then End(c, Success)
      else Goes(c, Detaches(DetachIssues(id, vm)))
    case DetachIssues(id, vm) =>
      if choice.Apply? && id in c.live then
        End(c.(attached := c.attached[id := Without(VmsOf(c, id), vm)]), if choice.ok then Success else Failure)
      else Stay
  }

  function ExpandCall(c: Cloud, p: Expanding, choice: Choice): Effect {
    match p
    case ExpandLooks(name, newMb, online) =>
      if choice.Look? && LookAllowed(c, name, choice.readable, choice.answer) then
        match choice.answer
        case None => End(c, Failure)
        case Some(id) =>
          if c.live[id].sizeMb == newMb then End(c, Capacity(newMb, false))
          else if c.live[id].sizeMb > newMb then End(c, Failure)
          else Goes(c, Expands(ExpandReads(c.live[id], newMb, online)))
      else Stay
    case ExpandReads(seen, newMb, online) =>
      if !choice.Go? then Stay
      else if seen.id !in c.live then End(c, Failure)
      else
        var vms := VmsOf(c, seen.id);
        if |vms| > 1 then End(c, Failure)
        else if |vms| == 0 then Goes(c, Expands(OfflineReads(seen.id, newMb)))
        else if online then Goes(c, Expands(OnlineFinds(seen.id, vms[0], newMb)))
        else End(c, Failure)
    case OfflineReads(id, newMb) =>
      if !choice.Go? then Stay
      else if id !in c.live || VmsOf(c, id) != [] then End(c, Failure)
      else Goes(c, Expands(OfflinePuts(id, newMb)))
    case OfflinePuts(id, newMb) =>
      // VCD fails the update of a disk that is attached
      if choice.Apply? && id in c.live && VmsOf(c, id) == [] then
        var resized := c.(live := c.live[id := c.live[id].(sizeMb := newMb)]);
        End(resized, if choice.ok then Capacity(newMb, false) else Failure)
      else Stay
    case OnlineFinds(id, vm, newMb) =>
      if !choice.Go? then Stay
      else if id in SettingsOf(c, vm) then Goes(c, Expands(OnlinePuts(id, vm, newMb, SettingsOf(c, vm)[id := newMb])))
      else End(c, Failure)
    case OnlinePuts(id, vm, newMb, settings) =>
      // VCD fails disk settings that name a disk the VM does not have
      if choice.Apply? && settings.Keys <= SettingsOf(c, vm).Keys then
        End(c.(live := Resized(c, settings)), if choice.ok then Capacity(newMb, true) else Failure)
      else Stay
  }

  /** The pending call of a handler: it may always fail without effect. */
  function Call(c: Cloud, phase: Phase, choice: Choice): Effect {
    if choice.Fail? && !phase.Done? then End(c, Failure)
    else
      match phase
      case Creates(p) => CreateCall(c, p, choice)
      case Deletes(p) => DeleteCall(c, p, choice)
      case Attaches(p) => AttachCall(c, p, choice)
      case Detaches(p) => DetachCall(c, p, choice)
      case Expands(p) => ExpandCall(c, p, choice)
      case Done(_) => Stay
  }

  // ----- the machine -----

  /** The lock is taken on the way into the locked phases, and released on the way out of them by
      the deferred unlock. */
  function LockAfter(w: World, t: Tid, from: Phase, to: Phase): Option<Tid> {
    if Locked(to) then Some(t) else if Locked(from) then None else w.lock
  }

  function Move(w: World, t: Tid, effect: Effect): World
    requires t in w.threads
  {
    match effect
    case Stay => w
    case Goes(cloud, phase) =>
      if Locked(phase) && !Locked(w.threads[t]) && w.lock.Some? then w  // waits
      else World(cloud, LockAfter(w, t, w.threads[t], phase), w.threads[t := phase])
  }

  /** A step that is not enabled changes nothing, so every sequence of steps is a run. */
  function Next(w: World, s: Step): World {
    match s
    case Restart => w.(threads := map[], lock := None)
    case Step(t, choice) =>
      if t in w.threads then Move(w, t, Call(w.cloud, w.threads[t], choice))
      else if choice.Begin? && IsInitial(choice.phase) then w.(threads := w.threads[t := choice.phase])
      else w
  }

  function Run(w: World, steps: seq<Step>): World
    decreases |steps|
  {
    if steps == [] then w else Run(Next(w, steps[0]), steps[1..])
  }

  /** A controller that has just started, on an organisation without disks. */
  function Init(zones: set<Ovdc>, indexing: bool): World {
    World(Cloud(zones, indexing, map[], map[], [], {}, {}), None, map[])
  }

  lemma {:induction false} RunConcat(w: World, a: seq<Step>, b: seq<Step>)
    ensures Run(w, a + b) == Run(Run(w, a), b)
    decreases |a|
  {
    if a == [] {
      assert a + b == b;
    } else {
      assert (a + b)[1..] == a[1..] + b;
      RunConcat(Next(w, a[0]), a[1..], b);
    }
  }

  lemma RunOfOne(w: World, s: Step)
    ensures Run(w, [s]) == Next(w, s)
  {
    assert Run(w, [s]) == Run(Next(w, s), []);
  }

  lemma RunSnoc(w: World, steps: seq<Step>, s: Step)
    ensures Run(w, steps + [s]) == Next(Run(w, steps), s)
  {
    RunConcat(w, steps, [s]);
    RunOfOne(Run(w, steps), s);
  }

  lemma RunOfThree(w: World, s0: Step, s1: Step, s2: Step)
    ensures Run(w, [s0, s1, s2]) == Next(Next(Next(w, s0), s1), s2)
  {
    RunOfOne(w, s0);
    RunSnoc(w, [s0], s1);
    RunSnoc(w, [s0, s1], s2);
    assert [s0] + [s1] == [s0, s1] && [s0, s1] + [s2] == [s0, s1, s2];
  }

  lemma FourSteps(w: World, steps: seq<Step>, w1: World, w2: World, w3: World, w4: World)
    requires |steps| == 4
    requires Next(w, steps[0]) == w1 && Next(w1, steps[1]) == w2 && Next(w2, steps[2]) == w3 && Next(w3, steps[3]) == w4
    ensures Run(w, steps) == w4
  {
    RunOfThree(w, steps[0], steps[1], steps[2]);
    RunSnoc(w, [steps[0], steps[1], steps[2]], steps[3]);
    assert steps == [steps[0], steps[1], steps[2]] + [steps[3]];
  }

  function Moved(w: World, t: Tid, cloud: Cloud, phase: Phase): World
    requires t in w.threads
  {
    World(cloud, LockAfter(w, t, w.threads[t], phase), w.threads[t := phase])
  }

  lemma StepGoes(w: World, t: Tid, choice: Choice, cloud: Cloud, phase: Phase)
    requires t in w.threads && Call(w.cloud, w.threads[t], choice) == Goes(cloud, phase)
    requires Locked(phase) ==> Locked(w.threads[t]) || w.lock.None?
    ensures Next(w, Step(t, choice)) == Moved(w, t, cloud, phase)
  {
  }
}
