/** The controller's RPC handlers, step by step: every method is a run of the state machine in
    Volumes, with any steps of other handlers between its own backend calls, and returns what the
    machine's thread is done with. */
module VolumeController {
  import opened Wrappers
  import opened Capabilities
  import opened Volumes
  import opened VolumeScripts
  import Safety = VolumeSafety
  import VolumeSizes
  import DiskLookup
  import Index = VolumeIndex
  import ControllerRuns

  // ----- requests -----

  const BUS_TYPE_SCSI := "6"
  const BUS_SUB_TYPE_VIRTUAL_SCSI := "VirtualSCSI"

  datatype Capability = Capability(mode: AccessMode, block: bool)

  /** No capacity range counts as a required size of zero; a missing parameter is empty. */
  datatype CreateRequest = CreateRequest(
    name: string, capabilities: seq<Capability>, requiredBytes: int, profile: string, zone: string)

  datatype CreateResponse = Created(volumeId: string, capacityBytes: int, diskId: string) | CreateInvalid | CreateFailed

  /** A missing access mode counts as a missing capability. */
  datatype CapacityRange = CapacityRange(requiredBytes: int, limitBytes: int)

  /** Both ExpandInvalid and ExpandShrinks are answered as invalid arguments; without a capacity range
      the call crashes. */
  datatype ExpandResponse =
    | Expanded(capacityBytes: int, onNode: bool) | ExpandInvalid | ExpandShrinks | ExpandFailed | ExpandCrashed

  datatype ExpandEnd = Grew(onNode: bool) | Shrinks | Refused

  /** What a volume is published as; a mount may lack its details. */
  datatype PublishKind = PublishBlock | PublishMount(fsType: Option<string>)

  datatype ExpansionMode = Unknown | Offline | Online

  /** A capability decides that the volume is a block volume; one of an unknown mode before it is
      an error, one after it goes unnoticed. */
  function BlockOf(capabilities: seq<Capability>): Result<bool> {
    if capabilities == [] then Ok(false)
    else if capabilities[0].mode.OtherMode? then Err
    else if capabilities[0].block then Ok(true)
    else BlockOf(capabilities[1..])
  }

  method IsDiskShareable(capabilities: seq<Capability>) returns (shareable: bool)
    ensures shareable <==>
            exists i :: 0 <= i < |capabilities|
                        && capabilities[i].mode in {MultiNodeReaderOnly, MultiNodeSingleWriter, MultiNodeMultiWriter}
  {
    for i := 0 to |capabilities|
      invariant forall j :: 0 <= j < i ==> !IsMultiNode(capabilities[j].mode)
    {
      if IsMultiNode(capabilities[i].mode) {
        return true;
      }
    }
    return false;
  }

  predicate UnknownDecides(capabilities: seq<Capability>, i: nat)
    requires i < |capabilities|
  {
    capabilities[i].mode == OtherMode && forall j | 0 <= j < i :: !capabilities[j].block
  }

  predicate BlockDecides(capabilities: seq<Capability>, i: nat)
    requires i < |capabilities|
  {
    capabilities[i].block && forall j | 0 <= j <= i :: capabilities[j].mode != OtherMode
  }

  /** The first capability that is of an unknown mode, or for a block volume, decides. */
  lemma {:induction false} BlockOfIs(capabilities: seq<Capability>)
    ensures BlockOf(capabilities).Err? <==>
            exists i :: 0 <= i < |capabilities| && UnknownDecides(capabilities, i)
    ensures BlockOf(capabilities) == Ok(true) <==>
            exists i :: 0 <= i < |capabilities| && BlockDecides(capabilities, i)
  {
    if capabilities != [] && capabilities[0].mode != OtherMode && !capabilities[0].block {
      var rest := capabilities[1..];
      BlockOfIs(rest);
      forall i | 0 <= i < |rest|
        ensures UnknownDecides(rest, i) <==> UnknownDecides(capabilities, i + 1)
        ensures BlockDecides(rest, i) <==> BlockDecides(capabilities, i + 1)
      {
        DecidesInRest(capabilities, i);
      }
      assert forall i | 0 < i < |capabilities| :: UnknownDecides(capabilities, i) ==> UnknownDecides(rest, i - 1);
      assert forall i | 0 < i < |capabilities| :: BlockDecides(capabilities, i) ==> BlockDecides(rest, i - 1);
    } else if capabilities != [] {
      assert UnknownDecides(capabilities, 0) || BlockDecides(capabilities, 0);
    }
  }

  lemma DecidesInRest(capabilities: seq<Capability>, i: nat)
    requires i + 1 < |capabilities| && capabilities[0].mode != OtherMode && !capabilities[0].block
    ensures UnknownDecides(capabilities[1..], i) <==> UnknownDecides(capabilities, i + 1)
    ensures BlockDecides(capabilities[1..], i) <==> BlockDecides(capabilities, i + 1)
  {
    var rest := capabilities[1..];
    assert forall j | 0 <= j <= i :: rest[j] == capabilities[j + 1];
    assert forall j | 0 < j <= i + 1 :: capabilities[j] == rest[j - 1];
  }

  method IsBlockVolume(capabilities: seq<Capability>) returns (block: Result<bool>)
    ensures block == BlockOf(capabilities)
    ensures block.Err? <==>
            exists i :: 0 <= i < |capabilities| && UnknownDecides(capabilities, i)
    ensures block == Ok(true) <==>
            exists i :: 0 <= i < |capabilities| && BlockDecides(capabilities, i)
  {
    BlockOfIs(capabilities);
    for i := 0 to |capabilities|
      invariant BlockOf(capabilities) == BlockOf(capabilities[i..])
    {
      if capabilities[i].mode.OtherMode? {
        return Err;
      }
      if capabilities[i].block {
        return Ok(true);
      }
    }
    return Ok(false);
  }

  /** The OVDC of a zone: the last one of that zone in the order in which Go visits the map, and
      the empty name if there is none. */
  method OvdcOfZone(order: seq<Ovdc>, zoneMap: map<Ovdc, string>, zone: string) returns (ovdc: Ovdc)
    requires DiskLookup.IsOrderOf(order, zoneMap.Keys)
    ensures ovdc != "" ==> ovdc in zoneMap && zoneMap[ovdc] == zone
    ensures ovdc == "" ==> forall v | v in zoneMap && zoneMap[v] == zone :: v == "" || "" in zoneMap
  {
    ovdc := "";
    for i := 0 to |order|
      invariant ovdc != "" ==> ovdc in zoneMap && zoneMap[ovdc] == zone
      invariant ovdc == "" ==>
                forall j | 0 <= j < i && order[j] in zoneMap && zoneMap[order[j]] == zone ::
                  order[j] == "" || "" in zoneMap
    {
      if zoneMap[order[i]] == zone {
        ovdc := order[i];
      }
    }
  }

  // ----- disk settings of a VM -----

  /** An entry of the disk section of a VM; internal disks have no independent disk. */
  datatype DiskSetting = DiskSetting(disk: Option<string>, sizeMb: int)

  /** The entries with an independent disk are the pairs of the map, each once. */
  predicate Represents(settings: seq<DiskSetting>, sizes: map<string, int>) {
    && (forall i | 0 <= i < |settings| && settings[i].disk.Some? ::
          settings[i].disk.value in sizes && sizes[settings[i].disk.value] == settings[i].sizeMb)
    && (forall i, j | 0 <= i < j < |settings| && settings[i].disk.Some? :: settings[i].disk != settings[j].disk)
    && (forall id | id in sizes :: exists i :: 0 <= i < |settings| && settings[i].disk == Some(id))
  }

  /** Whether a volume may be expanded while it is attached. */
  predicate AllowsOnline(capability: Capability) {
    capability.mode != MultiNodeMultiWriter && !capability.block
  }

  /** What a larger size is granted for a disk on these VMs, by the capability that is sent along: in
      place without VMs, with the node to follow on exactly one VM if the volume is neither block nor
      for several writers, and else nothing. */
  function Deserved(vms: seq<Vm>, capability: Capability): Option<bool> {
    match |vms|
    case 0 => Some(false)
    case 1 => if capability.mode == MultiNodeMultiWriter || capability.block then None else Some(true)
    case _ => None
  }

  function ExpandedCloud(c: Cloud, id: string, newMb: int, capability: Capability): Cloud
    requires id in c.live
  {
    if Deserved(VmsOf(c, id), capability).None? then c
    else c.(live := c.live[id := c.live[id].(sizeMb := newMb)])
  }

  /** An expansion by itself in which nothing fails gets what its request deserves. */
  lemma ExpandDeserves(w: World, t: Tid, script: seq<Env>, name: string, newMb: int, capability: Capability)
    requires t !in w.threads
    ensures forall id | Index.OnlyOneNamed(w.cloud, name, id) && w.cloud.live[id].id == id ::
              w.cloud.live[id].sizeMb < newMb && ControllerRuns.QuietExpansion(script, 0, w.cloud.zones, id) ==>
                GetsDeserved(w, t, script, name, id, newMb, capability)
  {
    forall id | Index.OnlyOneNamed(w.cloud, name, id) && w.cloud.live[id].id == id
                && w.cloud.live[id].sizeMb < newMb && ControllerRuns.QuietExpansion(script, 0, w.cloud.zones, id)
      ensures GetsDeserved(w, t, script, name, id, newMb, capability)
    {
      var phase := Expands(ExpandLooks(name, newMb, AllowsOnline(capability)));
      ControllerRuns.ExpansionByItself(
        Begun(w, t, phase), t, script, 0, name, id, newMb, AllowsOnline(capability));
    }
  }

  ghost predicate GetsDeserved(
      w: World, t: Tid, script: seq<Env>, name: string, id: string, newMb: int, capability: Capability)
    requires id in w.cloud.live
  {
    var begun := Begun(w, t, Expands(ExpandLooks(name, newMb, AllowsOnline(capability))));
    var deserved := Deserved(VmsOf(w.cloud, id), capability);
    var w' := Play(begun, t, script, 0);
    && w'.cloud == ExpandedCloud(w.cloud, id, newMb, capability)
    && t in w'.threads
    && w'.threads[t] == Done(if deserved.None? then Failure else Capacity(newMb, deserved.value))
  }

  /** The loop of ControllerExpandVolume over the disk settings: the first entry of the disk is
      overwritten in place. */
  method SetSize(settings: array<DiskSetting>, id: string, newMb: int) returns (found: bool)
    modifies settings
    ensures found <==> exists i :: 0 <= i < settings.Length && old(settings[i].disk) == Some(id)
    ensures !found ==> settings[..] == old(settings[..])
    ensures forall sizes | Represents(old(settings[..]), sizes) ::
              (found <==> id in sizes) && (found ==> Represents(settings[..], sizes[id := newMb]))
  {
    ghost var before := settings[..];
    for idx := 0 to settings.Length
      invariant settings[..] == before
      invariant forall i :: 0 <= i < idx ==> settings[i].disk != Some(id)
    {
      if settings[idx].disk.None? {
        continue;
      }
      if settings[idx].disk.value == id {
        settings[idx] := settings[idx].(sizeMb := newMb);
        SetSizeRepresents(before, idx, id, newMb);
        assert settings[..] == before[idx := before[idx].(sizeMb := newMb)];
        return true;
      }
    }
    NotRepresented(before, id);
    return false;
  }

  /** Some layout of the sizes; a call whose layout does not fit is given this one. */
  method AnyLayout(sizes: map<string, int>) returns (settings: seq<DiskSetting>)
    ensures Represents(settings, sizes)
  {
    settings := [];
    var rest := sizes.Keys;
    while rest != {}
      invariant rest <= sizes.Keys
      invariant Represents(settings, map id | id in sizes && id !in rest :: sizes[id])
      decreases |rest|
    {
      var id :| id in rest;
      ghost var before := settings;
      settings := settings + [DiskSetting(Some(id), sizes[id])];
      rest := rest - {id};
      assert settings[|before|].disk == Some(id);
      assert forall i | 0 <= i < |before| :: settings[i] == before[i];
    }
    assert (map id | id in sizes && id !in rest :: sizes[id]) == sizes;
  }

  lemma NotRepresented(settings: seq<DiskSetting>, id: string)
    requires forall i | 0 <= i < |settings| :: settings[i].disk != Some(id)
    ensures forall sizes | Represents(settings, sizes) :: id !in sizes
  {
  }

  lemma SetSizeRepresents(before: seq<DiskSetting>, k: nat, id: string, newMb: int)
    requires k < |before| && before[k].disk == Some(id)
    ensures forall sizes | Represents(before, sizes) ::
              id in sizes && Represents(before[k := before[k].(sizeMb := newMb)], sizes[id := newMb])
  {
    var after := before[k := before[k].(sizeMb := newMb)];
    forall sizes | Represents(before, sizes) ensures id in sizes && Represents(after, sizes[id := newMb]) {
      forall other | other in sizes[id := newMb] ensures exists i :: 0 <= i < |after| && after[i].disk == Some(other) {
        var i :| 0 <= i < |before| && before[i].disk == Some(if other == id then id else other);
        assert after[i].disk == Some(other);
      }
      forall i | 0 <= i < |after| && after[i].disk.Some?
        ensures after[i].disk.value in sizes[id := newMb] && sizes[id := newMb][after[i].disk.value] == after[i].sizeMb
      {
        assert i < k ==> before[i].disk != before[k].disk;
        assert k < i ==> before[k].disk != before[i].disk;
      }
    }
  }

  class Controller {
    const indexing: bool
    const zones: set<Ovdc>
    var world: World
    ghost var trace: seq<Step>

    /** The world is where the recorded steps lead from a controller that has just started. */
    ghost predicate Valid()
      reads this
    {
      && world == Run(Init(zones, indexing), trace)
      && world.cloud.indexing == indexing && world.cloud.zones == zones
    }

    constructor (zones: set<Ovdc>, indexing: bool)
      ensures Valid() && world == Init(zones, indexing)
    {
      this.zones, this.indexing := zones, indexing;
      world := Init(zones, indexing);
      trace := [];
    }

    /** Whatever the handlers and their environment did to get here, attachments are safe. */
    lemma IsSafe()
      requires Valid()
      ensures Safety.Reachable(world)
      ensures forall id | id in world.cloud.live && !world.cloud.live[id].shareable :: |VmsOf(world.cloud, id)| <= 1
    {
      assert Safety.Reachable(world);
      Safety.AttachmentSafety(world);
    }

    twostate predicate Continues()
      reads this
    {
      Valid() && old(trace) <= trace
    }

    /** The handler has returned `r`, or is still waiting for the lock. */
    ghost predicate Returned(t: Tid, r: Option<Outcome>)
      reads this
    {
      && t in world.threads
      && match r
         case Some(outcome) => world.threads[t] == Done(outcome)
         case None => Waits(world.threads[t])
    }

    method Advance(steps: seq<Step>)
      requires Valid()
      modifies this
      ensures Continues() && world == Run(old(world), steps) && trace == old(trace) + steps
    {
      RunConcat(Init(zones, indexing), trace, steps);
      RunKeepsPlace(world, steps);
      world := Run(world, steps);
      trace := trace + steps;
    }

    /** The RPC begins, on a thread of its own. */
    method Start(t: Tid, phase: Phase)
      requires Valid() && t !in world.threads && IsInitial(phase)
      modifies this
      ensures Continues() && t in world.threads && world.threads[t] == phase
      ensures world == Begun(old(world), t, phase)
    {
      var s := Step(t, Begin(phase));
      assert Run(world, [s]) == Run(Next(world, s), []) == Next(world, s);
      Advance([s]);
    }

    /** One backend call: others run, and then it comes out as the environment wants, if the cloud
        that it meets allows that, and fails otherwise. */
    method Issue(t: Tid, script: seq<Env>, i: nat) returns (choice: Choice, ghost c: Cloud)
      requires Valid() && t in world.threads && !Waits(world.threads[t]) && !world.threads[t].Done? && i < |script|
      modifies this
      ensures Continues() && t in world.threads && Play(old(world), t, script, i) == Play(world, t, script, i + 1)
      ensures Safety.DisksOk(c) && c.indexing == indexing && (choice == script[i].choice || choice == Fail)
      ensures Goes(world.cloud, world.threads[t]) == Call(c, old(world.threads[t]), choice)
      ensures c == Met(old(world), t, script[i])
      ensures choice == if Call(c, old(world.threads[t]), script[i].choice).Goes? then script[i].choice else Fail
    {
      ghost var phase := world.threads[t];
      var env := script[i];
      OthersLeaveThread(world, t, OthersOf(t, env.before));
      Advance(OthersOf(t, env.before));
      c := world.cloud;
      Safety.RunKeepsInv(Init(zones, indexing), trace);
      choice := if Call(world.cloud, world.threads[t], env.choice).Goes? then env.choice else Fail;
      if Locked(Call(c, phase, choice).phase) {
        OnlyWaitersWait(c, phase, choice);
      }
      var s := Step(t, choice);
      assert Run(world, [s]) == Run(Next(world, s), []) == Next(world, s);
      Advance([s]);
    }

    /** Takes the lock if it is free by the time the others are through; else it waits for ever. */
    method Lock(t: Tid, script: seq<Env>, i: nat) returns (locked: bool)
      requires Valid() && t in world.threads && Waits(world.threads[t]) && i < |script|
      modifies this
      ensures Continues() && t in world.threads
      ensures !locked ==> world.threads[t] == old(world.threads[t]) && world == Play(old(world), t, script, i)
      ensures locked ==> Play(old(world), t, script, i) == Play(world, t, script, i + 1)
      ensures locked ==> exists c :: Goes(c, world.threads[t]) == Call(c, old(world.threads[t]), Go)
    {
      OthersLeaveThread(world, t, OthersOf(t, script[i].before));
      Advance(OthersOf(t, script[i].before));
      locked := world.lock.None?;
      if locked {
        var s := Step(t, Go);
        ghost var c := world.cloud;
        assert Run(world, [s]) == Run(Next(world, s), []) == Next(world, s);
        Advance([s]);
        assert Goes(c, world.threads[t]) == Call(c, old(world.threads[t]), Go);
      }
    }

    /** A handler that has learnt that it cannot go on returns an error. */
    method GiveUp(t: Tid)
      requires Valid() && t in world.threads && !world.threads[t].Done?
      modifies this
      ensures Continues() && Returned(t, Some(Failure)) && world == GivenUp(old(world), t)
    {
      var s := Step(t, Fail);
      assert Run(world, [s]) == Run(Next(world, s), []) == Next(world, s);
      Advance([s]);
    }

    // ----- the backend calls -----

    method GetDiskByNameOrId(t: Tid, name: string, script: seq<Env>, i: nat)
        returns (found: Lookup, ghost c: Cloud, ghost choice: Choice)
      requires Valid() && t in world.threads && LooksUp(world.threads[t], name) && i < |script|
      modifies this
      ensures Continues() && Play(old(world), t, script, i) == Play(world, t, script, i + 1)
      ensures t in world.threads && Safety.DisksOk(c)
      ensures Goes(world.cloud, world.threads[t]) == Call(c, old(world.threads[t]), choice)
      ensures found == LookupOf(c, choice) == Answer(old(world), t, script[i])
      ensures found.Broken? ==> choice.Fail?
    {
      var out;
      out, c := Issue(t, script, i);
      choice := out;
      found := if !out.Look? then Broken
               else if out.answer.None? then Missing
               else Got(world.cloud.live[out.answer.value]);
    }

    /** The VMs a disk is attached to; an error if it is gone. */
    method GovcdAttachedVM(t: Tid, id: string, script: seq<Env>, i: nat)
        returns (vms: Option<seq<Vm>>, ghost c: Cloud, ghost choice: Choice)
      requires Valid() && t in world.threads && ReadsVms(world.threads[t], id) && i < |script|
      modifies this
      ensures Continues() && t in world.threads && Play(old(world), t, script, i) == Play(world, t, script, i + 1)
      ensures Goes(world.cloud, world.threads[t]) == Call(c, old(world.threads[t]), choice)
      ensures vms == if choice.Go? && id in c.live then Some(VmsOf(c, id)) else None
      ensures choice.Go? || choice.Fail?
    {
      var out;
      out, c := Issue(t, script, i);
      choice := out;
      vms := if out.Go? && id in world.cloud.live then Some(VmsOf(world.cloud, id)) else None;
    }

    /** A request that starts a task, and the wait for the task. */
    method RunTask(t: Tid, script: seq<Env>, i: nat) returns (ok: bool, ghost c: Cloud, ghost choice: Choice)
      requires Valid() && t in world.threads && !Waits(world.threads[t]) && !world.threads[t].Done? && i < |script|
      modifies this
      ensures Continues() && Play(old(world), t, script, i) == Play(world, t, script, i + 1)
      ensures t in world.threads && c.indexing == indexing
      ensures Goes(world.cloud, world.threads[t]) == Call(c, old(world.threads[t]), choice)
      ensures choice == script[i].choice || choice == Fail
      ensures ok == Succeeded(choice)
    {
      var out;
      out, c := Issue(t, script, i);
      choice := out;
      ok := Succeeded(out);
    }

    // ----- the locked operations of the disk manager -----

    /** CreateDisk */
    method CreateDisk(t: Tid, want: Disk, script: seq<Env>, i: nat) returns (r: Option<Outcome>)
      requires Valid() && i + 4 <= |script| && t in world.threads && world.threads[t] == Creates(CreateWaits(want))
      modifies this
      ensures Continues() && world == Play(old(world), t, script, i)
      ensures Returned(t, r) && (r.Some? ==> r.value.Volume? || r.value.Failure?)
    {
      var locked := Lock(t, script, i);
      if !locked {
        return None;
      }
      var found, _, _ := GetDiskByNameOrId(t, want.name, script, i + 1);
      match found
      case Broken => return Some(Failure);
      case Got(disk) =>
        if || disk.sizeMb != want.sizeMb
           || disk.busType != want.busType
           || disk.busSubType != want.busSubType
           || (want.profile != "" && disk.profile != want.profile)
           || disk.shareable != want.shareable {
          return Some(Failure);
        }
        return Some(Volume(disk.id));
      case Missing =>
        var id := CreateMissing(t, want, script, i + 2);
        return Some(if id.None? then Failure else Volume(id.value));
    }

    /** CreateDisk once it has found that there is no disk of that name */
    method CreateMissing(t: Tid, want: Disk, script: seq<Env>, i: nat) returns (id: Option<string>)
      requires Valid() && i + 2 <= |script| && t in world.threads && world.threads[t] == Creates(CreateMakes(want))
      modifies this
      ensures Continues() && world == Play(old(world), t, script, i)
      ensures Returned(t, Some(if id.None? then Failure else Volume(id.value)))
    {
      id := MakeDisk(t, want, script, i);
      if id.Some? && indexing {
        var added := UpdateList(t, script, i + 1);
        if !added {
          return None;
        }
      }
    }

    /** addPvToRDE or removePvFromRDE; the call is done either way. */
    method UpdateList(t: Tid, script: seq<Env>, i: nat) returns (ok: bool)
      requires Valid() && i < |script| && t in world.threads
      requires world.threads[t].Creates? || world.threads[t].Deletes?
      requires world.threads[t].Creates? ==> world.threads[t].creating.CreateIndexes?
      requires world.threads[t].Deletes? ==> world.threads[t].deleting.DeleteIndexes?
      modifies this
      ensures Continues() && world == Play(old(world), t, script, i)
      ensures Returned(t, Some(if !ok then Failure
                               else if old(world.threads[t].Creates?) then Volume(old(world.threads[t]).creating.id)
                               else Success))
    {
      var done, _, _ := RunTask(t, script, i);
      return done;
    }

    /** createDisk, its task, and the reading of the new disk */
    method MakeDisk(t: Tid, want: Disk, script: seq<Env>, i: nat) returns (id: Option<string>)
      requires Valid() && i < |script| && t in world.threads && world.threads[t] == Creates(CreateMakes(want))
      modifies this
      ensures Continues() && t in world.threads && Play(old(world), t, script, i) == Play(world, t, script, i + 1)
      ensures world.threads[t] == match id
                                  case None => Done(Failure)
                                  case Some(id) =>
                                    if indexing then Creates(CreateIndexes(want, id)) else Done(Volume(id))
    {
      if want.sizeMb < 1 {
        var failed, _, _ := RunTask(t, script, i);
        return None;
      }
      var made, _, choice := RunTask(t, script, i);
      return if made && script[i].choice.Make? then Some(script[i].choice.made.id) else None;
    }

    /** DeleteDisk */
    method DeleteDisk(t: Tid, name: string, script: seq<Env>, i: nat) returns (r: Option<Outcome>)
      requires Valid() && i + 6 <= |script| && t in world.threads && world.threads[t] == Deletes(DeleteWaits(name))
      modifies this
      ensures Continues() && world == Play(old(world), t, script, i)
      ensures Returned(t, r)
    {
      var locked := Lock(t, script, i);
      if !locked {
        return None;
      }
      var found, _, _ := GetDiskByNameOrId(t, name, script, i + 1);
      match found
      case Broken => return Some(Failure);
      case Missing => return Some(Success);
      case Got(disk) =>
        var deleted := DeleteFound(t, disk.id, script, i + 2);
        return Some(if deleted then Success else Failure);
    }

    /** DeleteDisk once it has found the disk */
    method DeleteFound(t: Tid, id: string, script: seq<Env>, i: nat) returns (ok: bool)
      requires Valid() && i + 4 <= |script| && t in world.threads && world.threads[t] == Deletes(DeleteReads(id))
      modifies this
      ensures Continues() && world == Play(old(world), t, script, i)
      ensures Returned(t, Some(if ok then Success else Failure))
    {
      var attachedVms, _, _ := GovcdAttachedVM(t, id, script, i);
      if attachedVms.None? || attachedVms.value != [] {
        return false;
      }
      var deleted := GovcdDelete(t, id, script, i + 1);
      if !deleted {
        return false;
      }
      if indexing {
        ok := UpdateList(t, script, i + 3);
        return;
      }
      return true;
    }

    /** govcdDelete and its task */
    method GovcdDelete(t: Tid, id: string, script: seq<Env>, i: nat) returns (ok: bool)
      requires Valid() && i + 2 <= |script| && t in world.threads && world.threads[t] == Deletes(DeleteRereads(id))
      modifies this
      ensures Continues() && t in world.threads
      ensures ok ==> Play(old(world), t, script, i) == Play(world, t, script, i + 2)
      ensures !ok ==> world == Play(old(world), t, script, i)
      ensures !ok ==> world.threads[t] == Done(Failure)
      ensures ok ==> world.threads[t] == if indexing then Deletes(DeleteIndexes(id)) else Done(Success)
    {
      var vmRefs, _, _ := GovcdAttachedVM(t, id, script, i);
      if vmRefs.None? || vmRefs.value != [] {
        return false;
      }
      var done := DeleteTask(t, id, script, i + 1);
      return done;
    }

    /** The request that deletes the disk, and its task */
    method DeleteTask(t: Tid, id: string, script: seq<Env>, i: nat) returns (ok: bool)
      requires Valid() && i < |script| && t in world.threads && world.threads[t] == Deletes(DeleteIssues(id))
      modifies this
      ensures Continues() && t in world.threads && Play(old(world), t, script, i) == Play(world, t, script, i + 1)
      ensures world.threads[t] == if !ok then Done(Failure)
                                  else if indexing then Deletes(DeleteIndexes(id)) else Done(Success)
    {
      var done, _, _ := RunTask(t, script, i);
      return done;
    }

    /** AttachVolume, with the disk as it was found before the lock was taken */
    method AttachVolume(t: Tid, disk: Disk, vm: Vm, script: seq<Env>, i: nat) returns (r: Option<Outcome>)
      requires Valid() && i + 4 <= |script| && t in world.threads && world.threads[t] == Attaches(AttachWaits(disk, vm))
      modifies this
      ensures Continues() && world == Play(old(world), t, script, i)
      ensures Returned(t, r)
    {
      var locked := Lock(t, script, i);
      if !locked {
        return None;
      }
      var attachedVms, _, _ := GovcdAttachedVM(t, disk.id, script, i + 1);
      if attachedVms.None? {
        return Some(Failure);
      }
      if |attachedVms.value| > 0 {
        var already := IsAmong(attachedVms.value, vm);
        if already {
          return Some(Success);
        }
        if !disk.shareable {
          return Some(Failure);
        }
      }
      var attached := AttachDisk(t, disk, vm, script, i + 2);
      return Some(if attached then Success else Failure);
    }

    /** The attach task, and the refresh that follows it */
    method AttachDisk(t: Tid, disk: Disk, vm: Vm, script: seq<Env>, i: nat) returns (ok: bool)
      requires Valid() && i + 2 <= |script| && t in world.threads
      requires world.threads[t] == Attaches(AttachIssues(disk, vm))
      modifies this
      ensures Continues() && world == Play(old(world), t, script, i)
      ensures Returned(t, Some(if ok then Success else Failure))
    {
      var attached, _, _ := RunTask(t, script, i);
      if !attached {
        return false;
      }
      var refreshed, _, _ := RunTask(t, script, i + 1);
      return refreshed;
    }

    method IsAmong(vms: seq<Vm>, vm: Vm) returns (found: bool)
      ensures found <==> vm in vms
    {
      for i := 0 to |vms|
        invariant vm !in vms[..i]
      {
        if vms[i] == vm {
          return true;
        }
      }
      return false;
    }

    /** DetachVolume, with a lookup of its own */
    method DetachVolume(t: Tid, name: string, vm: Vm, script: seq<Env>, i: nat) returns (r: Option<Outcome>)
      requires Valid() && i + 4 <= |script| && t in world.threads && world.threads[t] == Detaches(DetachWaits(name, vm))
      modifies this
      ensures Continues() && world == Play(old(world), t, script, i)
      ensures Returned(t, r)
    {
      var locked := Lock(t, script, i);
      if !locked {
        return None;
      }
      var found, _, _ := GetDiskByNameOrId(t, name, script, i + 1);
      match found
      case Broken => return Some(Failure);
      case Missing => return Some(Success);
      case Got(disk) =>
        var detached := DetachFound(t, disk.id, vm, script, i + 2);
        return Some(if detached then Success else Failure);
    }

    /** DetachVolume once it has found the disk */
    method DetachFound(t: Tid, id: string, vm: Vm, script: seq<Env>, i: nat) returns (ok: bool)
      requires Valid() && i + 2 <= |script| && t in world.threads && world.threads[t] == Detaches(DetachReads(id, vm))
      modifies this
      ensures Continues() && world == Play(old(world), t, script, i)
      ensures Returned(t, Some(if ok then Success else Failure))
    {
      var attachedVms, _, _ := GovcdAttachedVM(t, id, script, i);
      if attachedVms.None? {
        return false;
      }
      var vmAttached := IsAmong(attachedVms.value, vm);
      if !vmAttached {
        return true;
      }
      var detached := DetachDisk(t, id, vm, script, i + 1);
      return detached;
    }

    /** The detach task */
    method DetachDisk(t: Tid, id: string, vm: Vm, script: seq<Env>, i: nat) returns (ok: bool)
      requires Valid() && i < |script| && t in world.threads && world.threads[t] == Detaches(DetachIssues(id, vm))
      modifies this
      ensures Continues() && world == Play(old(world), t, script, i)
      ensures Returned(t, Some(if ok then Success else Failure))
    {
      var detached, _, _ := RunTask(t, script, i);
      return detached;
    }

    // ----- the RPCs -----

    /** CreateVolume. The disk asked for has the rounded size, and is in the OVDC of the zone, or in
        that of the cluster; the capacity answered is the rounded size in bytes. Lookups cover the
        zone map, or, if that is empty, the OVDC of the cluster; the disk is in an OVDC that they
        cover unless a cluster that is not zone-enabled has a zone map without its own OVDC. */
    method CreateVolume(t: Tid, req: CreateRequest, zoneEnabled: bool, zoneMap: map<Ovdc, string>, order: seq<Ovdc>,
                        clusterOvdc: Ovdc, vdcFound: bool, script: seq<Env>)
      returns (r: Option<CreateResponse>, ghost want: Disk)
      requires Valid() && |script| == 4 && t !in world.threads && DiskLookup.IsOrderOf(order, zoneMap.Keys)
      requires zones == if zoneMap == map[] then {clusterOvdc} else zoneMap.Keys
      modifies this
      ensures Continues()
      ensures "" !in zoneMap ==>
                (r == Some(CreateInvalid) <==>
                   || req.name == "" || req.capabilities == [] || BlockOf(req.capabilities).Err?
                   || (zoneEnabled && (req.zone == "" || forall v | v in zoneMap :: zoneMap[v] != req.zone)))
      ensures r == Some(CreateInvalid) || !vdcFound ==>
              world == old(world) && (r == Some(CreateInvalid) || r == Some(CreateFailed))
      ensures r != Some(CreateInvalid) && vdcFound ==>
                && world == Play(Begun(old(world), t, Creates(CreateWaits(want))), t, script, 0)
                && want == DiskLookup.Disk.Disk("", req.name, want.ovdc, VolumeSizes.CreateSizeMb(req.requiredBytes),
                                                BUS_TYPE_SCSI, BUS_SUB_TYPE_VIRTUAL_SCSI, req.profile, want.shareable)
                && (want.shareable <==>
                   exists i :: 0 <= i < |req.capabilities|
                               && req.capabilities[i].mode
                                  in {MultiNodeReaderOnly, MultiNodeSingleWriter, MultiNodeMultiWriter})
                && (if zoneEnabled then want.ovdc in zoneMap && zoneMap[want.ovdc] == req.zone && req.zone != ""
                    else want.ovdc == clusterOvdc)
                && (want.ovdc in zones <==> zoneEnabled || zoneMap == map[] || clusterOvdc in zoneMap)
                && (r == Some(CreateFailed) ==> Returned(t, Some(Failure)))
      ensures r.None? ==> t in world.threads && Waits(world.threads[t])
      ensures r.Some? && r.value.Created? ==>
                && t in world.threads && world.threads[t] == Done(Volume(r.value.diskId))
                   && r.value.volumeId == req.name
                && r.value.capacityBytes == VolumeSizes.CreateCapacity(req.requiredBytes)
    {
      want := DiskLookup.Disk.Disk("", req.name, "", 0, "", "", "", false);
      if req.name == "" || |req.capabilities| == 0 {
        return Some(CreateInvalid), want;
      }
      var isBlock := IsBlockVolume(req.capabilities);
      if isBlock.Err? {
        return Some(CreateInvalid), want;
      }
      var shareable := IsDiskShareable(req.capabilities);
      var sizeMb := VolumeSizes.CreateSizeMb(req.requiredBytes);
      var ovdc := clusterOvdc;
      if zoneEnabled {
        if req.zone == "" {
          return Some(CreateInvalid), want;
        }
        ovdc := OvdcOfZone(order, zoneMap, req.zone);
        if ovdc == "" {
          return Some(CreateInvalid), want;
        }
      }
      if !vdcFound {
        return Some(CreateFailed), want;
      }
      var asked := DiskLookup.Disk.Disk(
        "", req.name, ovdc, sizeMb, BUS_TYPE_SCSI, BUS_SUB_TYPE_VIRTUAL_SCSI, req.profile, shareable);
      want := asked;
      Start(t, Creates(CreateWaits(asked)));
      var outcome := CreateDisk(t, asked, script, 0);
      if outcome.None? {
        return None, want;
      }
      if !outcome.value.Volume? {
        return Some(CreateFailed), want;
      }
      return Some(Created(req.name, VolumeSizes.Wrap64(sizeMb * VolumeSizes.MIB), outcome.value.id)), want;
    }

    /** DeleteVolume */
    method DeleteVolume(t: Tid, volumeId: string, script: seq<Env>) returns (r: Option<Outcome>)
      requires Valid() && |script| == 6 && t !in world.threads
      modifies this
      ensures Continues()
      ensures volumeId == "" ==> r == Some(Failure) && world == old(world)
      ensures volumeId != "" ==>
                && Returned(t, r)
                && world == Play(Begun(old(world), t, Deletes(DeleteWaits(volumeId))), t, script, 0)
    {
      if volumeId == "" {
        return Some(Failure);
      }
      Start(t, Deletes(DeleteWaits(volumeId)));
      r := DeleteDisk(t, volumeId, script, 0);
    }

    /** ControllerPublishVolume; `vmFound` says whether the search for the node's VM succeeds. */
    method ControllerPublishVolume(
        t: Tid, volumeId: string, vm: Vm, kind: Option<PublishKind>, vmFound: bool, script: seq<Env>)
      returns (r: Option<Outcome>)
      requires Valid() && |script| == 5 && t !in world.threads
      modifies this
      ensures Continues()
      ensures volumeId == "" || vm == "" || kind in {None, Some(PublishMount(None))} || !vmFound ==>
                r == Some(Failure) && world == old(world)
      ensures volumeId != "" && vm != "" && kind !in {None, Some(PublishMount(None))} && vmFound ==>
                && Returned(t, r)
                && world == Play(Begun(old(world), t, Attaches(PublishLooks(volumeId, vm))), t, script, 0)
    {
      if vm == "" {
        return Some(Failure);
      }
      if volumeId == "" {
        return Some(Failure);
      }
      if kind.None? {
        return Some(Failure);
      }
      if kind.value.PublishMount? {
        if kind.value.fsType.None? {
          return Some(Failure);
        }
      }
      if !vmFound {
        return Some(Failure);
      }
      Start(t, Attaches(PublishLooks(volumeId, vm)));
      r := PublishTo(t, volumeId, vm, script, 0);
    }

    /** ControllerPublishVolume from its lookup on */
    method PublishTo(t: Tid, name: string, vm: Vm, script: seq<Env>, i: nat) returns (r: Option<Outcome>)
      requires Valid() && i + 5 <= |script| && t in world.threads
      requires world.threads[t] == Attaches(PublishLooks(name, vm))
      modifies this
      ensures Continues() && world == Play(old(world), t, script, i)
      ensures Returned(t, r)
    {
      var found, _, _ := GetDiskByNameOrId(t, name, script, i);
      if !found.Got? {
        return Some(Failure);
      }
      r := AttachVolume(t, found.disk, vm, script, i + 1);
    }

    /** ControllerUnpublishVolume: the node matters only once the disk is known to be attached, after
        two calls; without it the handler gives up there. */
    method ControllerUnpublishVolume(t: Tid, volumeId: string, vm: Vm, vmFound: bool, script: seq<Env>)
        returns (r: Option<Outcome>)
      requires Valid() && |script| == 6 && t !in world.threads
      modifies this
      ensures Continues()
      ensures volumeId == "" ==> r == Some(Failure) && world == old(world)
      ensures volumeId != "" ==>
                var begun := Begun(old(world), t, Detaches(UnpublishLooks(volumeId, vm)));
                && Returned(t, r)
                && (vm != "" && vmFound ==> world == Play(begun, t, script, 0))
                && (vm == "" || !vmFound ==> world == GivenUp(Play(begun, t, script[..2], 0), t))
    {
      if volumeId == "" {
        return Some(Failure);
      }
      Start(t, Detaches(UnpublishLooks(volumeId, vm)));
      if vm != "" && vmFound {
        r := UnpublishFrom(t, volumeId, vm, script, 0);
      } else {
        r := UnpublishNowhere(t, volumeId, vm, script[..2]);
      }
    }

    /** ControllerUnpublishVolume from its lookup on */
    method UnpublishFrom(t: Tid, name: string, vm: Vm, script: seq<Env>, i: nat) returns (r: Option<Outcome>)
      requires Valid() && i + 6 <= |script| && t in world.threads
      requires world.threads[t] == Detaches(UnpublishLooks(name, vm))
      modifies this
      ensures Continues() && world == Play(old(world), t, script, i)
      ensures Returned(t, r)
    {
      var found, _, _ := GetDiskByNameOrId(t, name, script, i);
      match found
      case Broken => return Some(Failure);
      case Missing => return Some(Success);
      case Got(disk) => r := UnpublishFound(t, disk.id, name, vm, script, i + 1);
    }

    /** ControllerUnpublishVolume once it has found the disk */
    method UnpublishFound(t: Tid, id: string, name: string, vm: Vm, script: seq<Env>, i: nat)
        returns (r: Option<Outcome>)
      requires Valid() && i + 5 <= |script| && t in world.threads
      requires world.threads[t] == Detaches(UnpublishReads(id, name, vm))
      modifies this
      ensures Continues() && world == Play(old(world), t, script, i)
      ensures Returned(t, r)
    {
      var attachedVms, _, _ := GovcdAttachedVM(t, id, script, i);
      if attachedVms.None? {
        return Some(Failure);
      }
      if |attachedVms.value| == 0 {
        return Some(Success);
      }
      r := DetachVolume(t, name, vm, script, i + 1);
    }

    /** ControllerUnpublishVolume without a node id, or when its VM is not found */
    method UnpublishNowhere(t: Tid, name: string, vm: Vm, script: seq<Env>) returns (r: Option<Outcome>)
      requires Valid() && |script| == 2 && t in world.threads && world.threads[t] == Detaches(UnpublishLooks(name, vm))
      modifies this
      ensures Continues() && world == GivenUp(Play(old(world), t, script, 0), t)
      ensures Returned(t, r)
    {
      var found, _, _ := GetDiskByNameOrId(t, name, script, 0);
      assert world.threads[t].Done? ==> Play(world, t, script, 1) == world;
      match found
      case Broken => return Some(Failure);
      case Missing => return Some(Success);
      case Got(disk) =>
        r := UnpublishFoundNowhere(t, disk.id, name, vm, script);
    }

    method UnpublishFoundNowhere(t: Tid, id: string, name: string, vm: Vm, script: seq<Env>)
      returns (r: Option<Outcome>)
      requires Valid() && |script| == 2 && t in world.threads
      requires world.threads[t] == Detaches(UnpublishReads(id, name, vm))
      modifies this
      ensures Continues() && world == GivenUp(Play(old(world), t, script, 1), t)
      ensures Returned(t, r)
    {
      var attachedVms, _, _ := GovcdAttachedVM(t, id, script, 1);
      if attachedVms.None? {
        return Some(Failure);
      }
      if |attachedVms.value| == 0 {
        return Some(Success);
      }
      GiveUp(t);
      return Some(Failure);
    }

    /** ControllerExpandVolume. The size asked for comes from an integer division, so that its ceil
        has nothing to round; the capacity answered is that size in bytes. */
    method ControllerExpandVolume(
        t: Tid, volumeId: string, range: Option<CapacityRange>, capability: Option<Capability>,
        script: seq<Env>, layout: seq<DiskSetting>)
      returns (r: ExpandResponse)
      requires Valid() && |script| == 4 && t !in world.threads
      modifies this
      ensures Continues()
      ensures r.ExpandCrashed? <==> volumeId != "" && range.None?
      ensures r.ExpandInvalid? <==>
                || volumeId == ""
                || (range.Some? && range.value.requiredBytes > range.value.limitBytes > 0)
                || (range.Some? && capability.None?)
      ensures r.ExpandInvalid? || r.ExpandCrashed? ==> world == old(world)
      ensures !r.ExpandInvalid? && !r.ExpandCrashed? ==>
                var newMb := VolumeSizes.ExpandSizeMb(range.value.requiredBytes);
                forall id | Index.OnlyOneNamed(old(world).cloud, volumeId, id) && old(world).cloud.live[id].id == id ::
                  old(world).cloud.live[id].sizeMb < newMb && ControllerRuns.QuietExpansion(script, 0, zones, id) ==>
                    world.cloud == ExpandedCloud(old(world).cloud, id, newMb, capability.value)
                    && match Deserved(VmsOf(old(world).cloud, id), capability.value)
                       case Some(onNode) => r.Expanded? && r.onNode == onNode
                       case None => r == ExpandFailed
      ensures !r.ExpandInvalid? && !r.ExpandCrashed? ==>
                var newMb := VolumeSizes.ExpandSizeMb(range.value.requiredBytes);
                var phase := Expands(ExpandLooks(volumeId, newMb, AllowsOnline(capability.value)));
                && world == Play(Begun(old(world), t, phase), t, script, 0)
                && Returned(t, Some(if r.Expanded? then Capacity(newMb, r.onNode) else Failure))
                && (r.Expanded? ==> r.capacityBytes == VolumeSizes.ExpandCapacity(range.value.requiredBytes))
                && var found := Answer(Begun(old(world), t, phase), t, script[0]);
                   r.ExpandShrinks? <==> found.Got? && found.disk.sizeMb > newMb
    {
      if |volumeId| == 0 {
        return ExpandInvalid;
      }
      if range.None? {
        return ExpandCrashed;
      }
      if range.value.limitBytes > 0 && range.value.requiredBytes > range.value.limitBytes {
        return ExpandInvalid;
      }
      if capability.None? {
        return ExpandInvalid;
      }
      var newMb := VolumeSizes.ExpandSizeMb(range.value.requiredBytes);
      ExpandDeserves(world, t, script, volumeId, newMb, capability.value);
      Start(t, Expands(ExpandLooks(volumeId, newMb, AllowsOnline(capability.value))));
      var end := ExpandTo(t, volumeId, newMb, capability.value, script, 0, layout);
      match end
      case Grew(onNode) => return Expanded(VolumeSizes.Wrap64(newMb * VolumeSizes.MIB), onNode);
      case Shrinks => return ExpandShrinks;
      case Refused => return ExpandFailed;
    }

    /** ControllerExpandVolume from its lookup on. */
    method ExpandTo(t: Tid, name: string, newMb: int, capability: Capability, script: seq<Env>, i: nat,
        layout: seq<DiskSetting>)
      returns (end: ExpandEnd)
      requires Valid() && i + 4 <= |script| && t in world.threads
      requires world.threads[t] == Expands(ExpandLooks(name, newMb, AllowsOnline(capability)))
      modifies this
      ensures Continues() && world == Play(old(world), t, script, i)
      ensures Returned(t, Some(if end.Grew? then Capacity(newMb, end.onNode) else Failure))
      ensures var found := Answer(old(world), t, script[i]);
              end.Shrinks? <==> found.Got? && found.disk.sizeMb > newMb
    {
      var found, _, _ := GetDiskByNameOrId(t, name, script, i);
      if !found.Got? {
        return Refused;
      }
      var disk := found.disk;
      if disk.sizeMb == newMb {
        return Grew(false);
      }
      if disk.sizeMb > newMb {
        return Shrinks;
      }
      end := ExpandFound(t, disk, newMb, capability, script, i + 1, layout);
    }

    /** ControllerExpandVolume once it has found a smaller disk: the choice of the mode, and the
        update; the answer is whether the node has to expand the file system. */
    method ExpandFound(t: Tid, disk: Disk, newMb: int, capability: Capability, script: seq<Env>, i: nat,
        layout: seq<DiskSetting>)
      returns (end: ExpandEnd)
      requires Valid() && i + 3 <= |script| && t in world.threads
      requires world.threads[t] == Expands(ExpandReads(disk, newMb, AllowsOnline(capability)))
      modifies this
      ensures Continues() && world == Play(old(world), t, script, i)
      ensures Returned(t, Some(if end.Grew? then Capacity(newMb, end.onNode) else Failure)) && !end.Shrinks?
    {
      var attachedVms, _, _ := GovcdAttachedVM(t, disk.id, script, i);
      if attachedVms.None? || |attachedVms.value| > 1 {
        return Refused;
      }
      var vms := attachedVms.value;
      var mode := Unknown;
      if capability.mode != MultiNodeMultiWriter && !capability.block {
        mode := Online;
        if |vms| == 0 {
          mode := Offline;
        }
      } else {
        mode := Offline;
      }
      match mode
      case Offline =>
        if |vms| > 0 {
          return Refused;
        }
        var updated := UpdateDisk(t, disk.id, newMb, script, i + 1);
        return if updated then Grew(false) else Refused;
      case Online =>
        var resized := UpdateSettings(t, disk.id, vms[0], newMb, script, i + 1, layout);
        return if resized then Grew(true) else Refused;
      case Unknown =>
        assert false;
    }

    /** UpdateDisk and its task */
    method UpdateDisk(t: Tid, id: string, newMb: int, script: seq<Env>, i: nat) returns (ok: bool)
      requires Valid() && i + 2 <= |script| && t in world.threads
      requires world.threads[t] == Expands(OfflineReads(id, newMb))
      modifies this
      ensures Continues() && world == Play(old(world), t, script, i)
      ensures Returned(t, Some(if ok then Capacity(newMb, false) else Failure))
    {
      var vmRefs, _, _ := GovcdAttachedVM(t, id, script, i);
      if vmRefs.None? || |vmRefs.value| > 0 {
        return false;
      }
      var done, _, _ := RunTask(t, script, i + 1);
      return done;
    }

    /** The ONLINE branch: the settings of the VM are read, overwritten in place, and put back. */
    method UpdateSettings(t: Tid, id: string, vm: Vm, newMb: int, script: seq<Env>, i: nat, layout: seq<DiskSetting>)
        returns (ok: bool)
      requires Valid() && i + 2 <= |script| && t in world.threads
      requires world.threads[t] == Expands(OnlineFinds(id, vm, newMb))
      modifies this
      ensures Continues() && world == Play(old(world), t, script, i)
      ensures Returned(t, Some(if ok then Capacity(newMb, true) else Failure))
    {
      var settings, sizes := SearchVm(t, id, vm, newMb, script, i, layout);
      if settings.None? {
        return false;
      }
      var diskFound := SetSize(settings.value, id, newMb);
      if !diskFound {
        return false;
      }
      ok := UpdateInternalDisks(t, id, vm, newMb, settings.value, sizes[id := newMb], script, i + 1);
    }

    /** Finds the VM and reads its disk section: the sizes of its disks, in whatever layout the
        environment gives them. */
    method SearchVm(t: Tid, id: string, vm: Vm, newMb: int, script: seq<Env>, i: nat, layout: seq<DiskSetting>)
      returns (settings: Option<array<DiskSetting>>, ghost sizes: map<string, int>)
      requires Valid() && i < |script| && t in world.threads && world.threads[t] == Expands(OnlineFinds(id, vm, newMb))
      modifies this
      ensures Continues() && t in world.threads && Play(old(world), t, script, i) == Play(world, t, script, i + 1)
      ensures settings.None? || id !in sizes ==> world.threads[t] == Done(Failure)
      ensures settings.Some? ==> fresh(settings.value) && Represents(settings.value[..], sizes)
      ensures settings.Some? && id in sizes ==>
              world.threads[t] == Expands(OnlinePuts(id, vm, newMb, sizes[id := newMb]))
    {
      var choice, c := Issue(t, script, i);
      sizes := SettingsOf(c, vm);
      if !choice.Go? {
        return None, sizes;
      }
      var list := layout;
      if !Represents(layout, SettingsOf(world.cloud, vm)) {
        list := AnyLayout(SettingsOf(world.cloud, vm));
      }
      var section := new DiskSetting[|list|](i requires 0 <= i < |list| => list[i]);
      assert section[..] == list;
      return Some(section), sizes;
    }

    /** Puts all disk settings of the VM. */
    method UpdateInternalDisks(
        t: Tid, id: string, vm: Vm, newMb: int, settings: array<DiskSetting>, ghost sizes: map<string, int>,
        script: seq<Env>, i: nat)
      returns (ok: bool)
      requires Valid() && i < |script| && t in world.threads
      requires world.threads[t] == Expands(OnlinePuts(id, vm, newMb, sizes))
      requires Represents(settings[..], sizes)
      modifies this
      ensures Continues() && world == Play(old(world), t, script, i)
      ensures Returned(t, Some(if ok then Capacity(newMb, true) else Failure))
    {
      var done, _, _ := RunTask(t, script, i);
      return done;
    }
  }
}
