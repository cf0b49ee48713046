/** What the controller's RPCs come to when nobody interferes and nothing fails: the scripts under
    which a handler runs by itself, and where it ends. */
module ControllerRuns {
  import opened Wrappers
  import opened Volumes
  import opened VolumeScripts
  import opened VolumeRuns
  import Expansion = VolumeExpansion
  import Safety = VolumeSafety
  import Index = VolumeIndex

  // ----- a script, call by call -----

  /** A call comes out as the script wants when the cloud that it meets allows that, and fails
      otherwise; a handler that waits for the lock takes it if it is free. */
  lemma PlayIs(w: World, t: Tid, script: seq<Env>, i: nat)
    requires i < |script| && t in w.threads && !w.threads[t].Done?
    ensures var met, choice := Run(w, OthersOf(t, script[i].before)), script[i].choice;
            && t in met.threads && met.threads[t] == w.threads[t]
            && Play(w, t, script, i) ==
               if !Waits(w.threads[t]) then
                 Play(Next(met, Step(t, if Call(met.cloud, w.threads[t], choice).Goes? then choice else Fail)),
                      t, script, i + 1)
               else if met.lock.None? then Play(Next(met, Step(t, Go)), t, script, i + 1)
               else met
  {
    OthersLeaveThread(w, t, OthersOf(t, script[i].before));
  }

  lemma PlayIsOver(w: World, t: Tid, script: seq<Env>, i: nat)
    requires i <= |script| && t in w.threads && w.threads[t].Done?
    ensures Play(w, t, script, i) == w
  {
  }

  /** The i-th entry of the script lets the handler run by itself, and its call come out so. */
  predicate Quiet(script: seq<Env>, i: nat, choice: Choice) {
    i < |script| && script[i] == Env([], choice)
  }

  lemma QuietCall(w: World, t: Tid, script: seq<Env>, i: nat, choice: Choice, cloud: Cloud, phase: Phase)
    requires Quiet(script, i, choice)
    requires t in w.threads && !w.threads[t].Done? && !Waits(w.threads[t])
    requires Call(w.cloud, w.threads[t], choice) == Goes(cloud, phase)
    requires Locked(phase) ==> Locked(w.threads[t])
    ensures Play(w, t, script, i) == Play(Moved(w, t, cloud, phase), t, script, i + 1)
  {
    PlayIs(w, t, script, i);
    assert OthersOf(t, []) == [] && Run(w, []) == w;
  }

  lemma QuietEnd(w: World, t: Tid, script: seq<Env>, i: nat, choice: Choice, cloud: Cloud, outcome: Outcome)
    requires Quiet(script, i, choice)
    requires t in w.threads && !w.threads[t].Done? && !Waits(w.threads[t])
    requires Call(w.cloud, w.threads[t], choice) == End(cloud, outcome)
    ensures Play(w, t, script, i) == Moved(w, t, cloud, Done(outcome))
  {
    QuietCall(w, t, script, i, choice, cloud, Done(outcome));
    PlayIsOver(Moved(w, t, cloud, Done(outcome)), t, script, i + 1);
  }

  lemma QuietLock(w: World, t: Tid, script: seq<Env>, i: nat, phase: Phase)
    requires i < |script| && script[i].before == [] && t in w.threads && Waits(w.threads[t]) && w.lock.None?
    requires Call(w.cloud, w.threads[t], Go) == Goes(w.cloud, phase)
    ensures Play(w, t, script, i) == Play(Moved(w, t, w.cloud, phase), t, script, i + 1)
  {
    PlayIs(w, t, script, i);
    assert OthersOf(t, []) == [] && Run(w, []) == w;
  }

  /** The lookups of a name that one disk has, all OVDCs being readable. */
  lemma LookCalls(c: Cloud, name: string, id: string, vm: Vm, newMb: int, online: bool)
    requires Index.OnlyOneNamed(c, name, id)
    ensures var look := Look(c.zones, Some(id));
            && Call(c, Attaches(PublishLooks(name, vm)), look) == Goes(c, Attaches(AttachWaits(c.live[id], vm)))
            && Call(c, Detaches(UnpublishLooks(name, vm)), look) == Goes(c, Detaches(UnpublishReads(id, name, vm)))
            && Call(c, Detaches(DetachLooks(name, vm)), look) == Goes(c, Detaches(DetachReads(id, vm)))
            && (c.live[id].sizeMb < newMb ==>
                  Call(c, Expands(ExpandLooks(name, newMb, online)), look)
                  == Goes(c, Expands(ExpandReads(c.live[id], newMb, online))))
  {
    Index.OnlyOneIsFound(c, name, id, Some(id));
  }

  // ----- expansion -----

  predicate QuietExpansion(script: seq<Env>, i: nat, zones: set<Ovdc>, id: string) {
    && Quiet(script, i, Look(zones, Some(id)))
    && Quiet(script, i + 1, Go) && Quiet(script, i + 2, Go) && Quiet(script, i + 3, Apply(true))
  }

  /** Where an expansion by itself ends: as its request deserves. */
  lemma ExpansionByItself(w: World, t: Tid, script: seq<Env>, i: nat,
                          name: string, id: string, newMb: int, online: bool)
    requires Index.OnlyOneNamed(w.cloud, name, id) && w.cloud.live[id].id == id && w.cloud.live[id].sizeMb < newMb
    requires t in w.threads && w.threads[t] == Expands(ExpandLooks(name, newMb, online))
    requires QuietExpansion(script, i, w.cloud.zones, id)
    ensures Play(w, t, script, i)
            == w.(cloud := Expansion.ExpectedCloud(w.cloud, id, newMb, online),
                  threads := w.threads[t := Done(Expansion.Expected(w.cloud, id, newMb, online))])
  {
    var c, seen := w.cloud, w.cloud.live[id];
    var look := Look(c.zones, Some(id));
    LookCalls(c, name, id, "", newMb, online);
    QuietCall(w, t, script, i, look, c, Expands(ExpandReads(seen, newMb, online)));
    ResizeByItself(Moved(w, t, c, Expands(ExpandReads(seen, newMb, online))), t, script, i + 1, id, newMb, online);
  }

  lemma ResizeByItself(w: World, t: Tid, script: seq<Env>, i: nat, id: string, newMb: int, online: bool)
    requires id in w.cloud.live && w.cloud.live[id].id == id && w.cloud.live[id].sizeMb < newMb
    requires t in w.threads && w.threads[t] == Expands(ExpandReads(w.cloud.live[id], newMb, online))
    requires Quiet(script, i, Go) && Quiet(script, i + 1, Go) && Quiet(script, i + 2, Apply(true))
    ensures Play(w, t, script, i)
            == w.(cloud := Expansion.ExpectedCloud(w.cloud, id, newMb, online),
                  threads := w.threads[t := Done(Expansion.Expected(w.cloud, id, newMb, online))])
  {
    var c, vms := w.cloud, VmsOf(w.cloud, id);
    if vms == [] {
      QuietCall(w, t, script, i, Go, c, Expands(OfflineReads(id, newMb)));
      OfflineByItself(Moved(w, t, c, Expands(OfflineReads(id, newMb))), t, script, i + 1, id, newMb);
    } else if |vms| == 1 && online {
      QuietCall(w, t, script, i, Go, c, Expands(OnlineFinds(id, vms[0], newMb)));
      OnlineByItself(Moved(w, t, c, Expands(OnlineFinds(id, vms[0], newMb))), t, script, i + 1, id, vms[0], newMb);
    } else {
      QuietEnd(w, t, script, i, Go, c, Failure);
    }
  }

  lemma OfflineByItself(w: World, t: Tid, script: seq<Env>, i: nat, id: string, newMb: int)
    requires Quiet(script, i, Go) && Quiet(script, i + 1, Apply(true)) && id in w.cloud.live && VmsOf(w.cloud, id) == []
    requires t in w.threads && w.threads[t] == Expands(OfflineReads(id, newMb))
    ensures Play(w, t, script, i)
            == w.(cloud := Expansion.WithSize(w.cloud, id, newMb),
                  threads := w.threads[t := Done(Capacity(newMb, false))])
  {
    QuietCall(w, t, script, i, Go, w.cloud, Expands(OfflinePuts(id, newMb)));
    var w1 := Moved(w, t, w.cloud, Expands(OfflinePuts(id, newMb)));
    QuietEnd(w1, t, script, i + 1, Apply(true), Expansion.WithSize(w.cloud, id, newMb), Capacity(newMb, false));
  }

  lemma OnlineByItself(w: World, t: Tid, script: seq<Env>, i: nat, id: string, vm: Vm, newMb: int)
    requires Quiet(script, i, Go) && Quiet(script, i + 1, Apply(true)) && id in w.cloud.live && vm in VmsOf(w.cloud, id)
    requires t in w.threads && w.threads[t] == Expands(OnlineFinds(id, vm, newMb))
    ensures Play(w, t, script, i)
            == w.(cloud := Expansion.WithSize(w.cloud, id, newMb),
                  threads := w.threads[t := Done(Capacity(newMb, true))])
  {
    var c := w.cloud;
    var puts := Expands(OnlinePuts(id, vm, newMb, SettingsOf(c, vm)[id := newMb]));
    assert id in SettingsOf(c, vm);
    QuietCall(w, t, script, i, Go, c, puts);
    Expansion.FreshSettings(c, vm, id, newMb);
    var w1 := Moved(w, t, c, puts);
    QuietEnd(w1, t, script, i + 1, Apply(true), Expansion.WithSize(c, id, newMb), Capacity(newMb, true));
  }

  // ----- publication -----

  predicate QuietPublication(script: seq<Env>, i: nat, zones: set<Ovdc>, id: string) {
    && Quiet(script, i, Look(zones, Some(id))) && Quiet(script, i + 1, Go)
    && Quiet(script, i + 2, Go) && Quiet(script, i + 3, Apply(true)) && Quiet(script, i + 4, Go)
  }

  /** Where a publication by itself ends. */
  lemma PublicationByItself(w: World, t: Tid, script: seq<Env>, i: nat, name: string, id: string, vm: Vm)
    requires Index.OnlyOneNamed(w.cloud, name, id) && w.cloud.live[id].id == id && w.lock.None?
    requires t in w.threads && w.threads[t] == Attaches(PublishLooks(name, vm))
    requires QuietPublication(script, i, w.cloud.zones, id)
    ensures var (c, outcome) := PublishEnd(w.cloud, id, vm);
            Play(w, t, script, i) == World(c, None, w.threads[t := Done(outcome)])
  {
    var c, seen := w.cloud, w.cloud.live[id];
    LookCalls(c, name, id, vm, 0, false);
    QuietCall(w, t, script, i, Look(c.zones, Some(id)), c, Attaches(AttachWaits(seen, vm)));
    var w1 := Moved(w, t, c, Attaches(AttachWaits(seen, vm)));
    QuietLock(w1, t, script, i + 1, Attaches(AttachReads(seen, vm)));
    AttachByItself(Moved(w1, t, c, Attaches(AttachReads(seen, vm))), t, script, i + 2, id, vm);
  }

  lemma AttachByItself(w: World, t: Tid, script: seq<Env>, i: nat, id: string, vm: Vm)
    requires Quiet(script, i, Go) && Quiet(script, i + 1, Apply(true)) && Quiet(script, i + 2, Go)
    requires id in w.cloud.live && w.cloud.live[id].id == id && w.lock == Some(t)
    requires t in w.threads && w.threads[t] == Attaches(AttachReads(w.cloud.live[id], vm))
    ensures var (c, outcome) := PublishEnd(w.cloud, id, vm);
            Play(w, t, script, i) == World(c, None, w.threads[t := Done(outcome)])
  {
    var c, seen := w.cloud, w.cloud.live[id];
    var (_, outcome) := PublishEnd(c, id, vm);
    if vm in VmsOf(c, id) || (VmsOf(c, id) != [] && !seen.shareable) {
      QuietEnd(w, t, script, i, Go, c, outcome);
    } else {
      QuietCall(w, t, script, i, Go, c, Attaches(AttachIssues(seen, vm)));
      AttachTaskByItself(Moved(w, t, c, Attaches(AttachIssues(seen, vm))), t, script, i + 1, id, vm);
    }
  }

  lemma AttachTaskByItself(w: World, t: Tid, script: seq<Env>, i: nat, id: string, vm: Vm)
    requires Quiet(script, i, Apply(true)) && Quiet(script, i + 1, Go)
    requires id in w.cloud.live && w.cloud.live[id].id == id && w.lock == Some(t)
    requires t in w.threads && w.threads[t] == Attaches(AttachIssues(w.cloud.live[id], vm))
    ensures var after := w.cloud.(attached := w.cloud.attached[id := VmsOf(w.cloud, id) + [vm]]);
            Play(w, t, script, i) == World(after, None, w.threads[t := Done(Success)])
  {
    var after := w.cloud.(attached := w.cloud.attached[id := VmsOf(w.cloud, id) + [vm]]);
    QuietCall(w, t, script, i, Apply(true), after, Attaches(AttachRefreshes(id, vm)));
    QuietEnd(Moved(w, t, after, Attaches(AttachRefreshes(id, vm))), t, script, i + 1, Go, after, Success);
  }

  // ----- unpublication -----

  predicate QuietUnpublication(script: seq<Env>, i: nat, zones: set<Ovdc>, id: string) {
    && Quiet(script, i, Look(zones, Some(id))) && Quiet(script, i + 1, Go)
    && Quiet(script, i + 2, Go) && Quiet(script, i + 3, Look(zones, Some(id)))
    && Quiet(script, i + 4, Go) && Quiet(script, i + 5, Apply(true))
  }

  /** Where an unpublication by itself ends. */
  lemma UnpublicationByItself(w: World, t: Tid, script: seq<Env>, i: nat, name: string, id: string, vm: Vm)
    requires Index.OnlyOneNamed(w.cloud, name, id) && w.lock.None?
    requires t in w.threads && w.threads[t] == Detaches(UnpublishLooks(name, vm))
    requires QuietUnpublication(script, i, w.cloud.zones, id)
    ensures Play(w, t, script, i) == World(UnpublishEnd(w.cloud, id, vm), None, w.threads[t := Done(Success)])
  {
    var c := w.cloud;
    LookCalls(c, name, id, vm, 0, false);
    QuietCall(w, t, script, i, Look(c.zones, Some(id)), c, Detaches(UnpublishReads(id, name, vm)));
    var w1 := Moved(w, t, c, Detaches(UnpublishReads(id, name, vm)));
    if VmsOf(c, id) == [] {
      QuietEnd(w1, t, script, i + 1, Go, c, Success);
    } else {
      QuietCall(w1, t, script, i + 1, Go, c, Detaches(DetachWaits(name, vm)));
      DetachByItself(Moved(w1, t, c, Detaches(DetachWaits(name, vm))), t, script, i + 2, name, id, vm);
    }
  }

  lemma DetachByItself(w: World, t: Tid, script: seq<Env>, i: nat, name: string, id: string, vm: Vm)
    requires Quiet(script, i, Go) && Quiet(script, i + 1, Look(w.cloud.zones, Some(id)))
    requires Quiet(script, i + 2, Go) && Quiet(script, i + 3, Apply(true))
    requires Index.OnlyOneNamed(w.cloud, name, id) && w.lock.None?
    requires t in w.threads && w.threads[t] == Detaches(DetachWaits(name, vm))
    ensures Play(w, t, script, i) == World(UnpublishEnd(w.cloud, id, vm), None, w.threads[t := Done(Success)])
  {
    var c := w.cloud;
    QuietLock(w, t, script, i, Detaches(DetachLooks(name, vm)));
    var w1 := Moved(w, t, c, Detaches(DetachLooks(name, vm)));
    LookCalls(c, name, id, vm, 0, false);
    QuietCall(w1, t, script, i + 1, Look(c.zones, Some(id)), c, Detaches(DetachReads(id, vm)));
    DetachReadByItself(Moved(w1, t, c, Detaches(DetachReads(id, vm))), t, script, i + 2, id, vm);
  }

  lemma DetachReadByItself(w: World, t: Tid, script: seq<Env>, i: nat, id: string, vm: Vm)
    requires Quiet(script, i, Go) && Quiet(script, i + 1, Apply(true)) && id in w.cloud.live && w.lock == Some(t)
    requires t in w.threads && w.threads[t] == Detaches(DetachReads(id, vm))
    ensures Play(w, t, script, i) == World(UnpublishEnd(w.cloud, id, vm), None, w.threads[t := Done(Success)])
  {
    var c := w.cloud;
    if vm in VmsOf(c, id) {
      QuietCall(w, t, script, i, Go, c, Detaches(DetachIssues(id, vm)));
      var w1 := Moved(w, t, c, Detaches(DetachIssues(id, vm)));
      QuietEnd(w1, t, script, i + 1, Apply(true), UnpublishEnd(c, id, vm), Success);
    } else {
      QuietEnd(w, t, script, i, Go, c, Success);
    }
  }

  // ----- deletion -----

  predicate QuietDeletion(script: seq<Env>, i: nat, c: Cloud, id: string) {
    && Quiet(script, i, Go) && Quiet(script, i + 1, Look(c.zones, Some(id)))
    && Quiet(script, i + 2, Go) && Quiet(script, i + 3, Go) && Quiet(script, i + 4, Apply(true))
    && Quiet(script, i + 5, Index(id in c.index, true))
  }

  /** Where a deletion by itself ends. */
  lemma DeletionByItself(w: World, t: Tid, script: seq<Env>, i: nat, name: string, id: string)
    requires Index.OnlyOneNamed(w.cloud, name, id) && w.lock.None?
    requires t in w.threads && w.threads[t] == Deletes(DeleteWaits(name))
    requires QuietDeletion(script, i, w.cloud, id)
    ensures var (c, outcome) := DeleteEnd(w.cloud, id);
            Play(w, t, script, i) == World(c, None, w.threads[t := Done(outcome)])
  {
    var c := w.cloud;
    QuietLock(w, t, script, i, Deletes(DeleteLooks(name)));
    var w1 := Moved(w, t, c, Deletes(DeleteLooks(name)));
    Index.OnlyOneIsFound(c, name, id, Some(id));
    QuietCall(w1, t, script, i + 1, Look(c.zones, Some(id)), c, Deletes(DeleteReads(id)));
    DeleteFoundByItself(Moved(w1, t, c, Deletes(DeleteReads(id))), t, script, i + 2, id);
  }

  lemma DeleteFoundByItself(w: World, t: Tid, script: seq<Env>, i: nat, id: string)
    requires Quiet(script, i, Go) && Quiet(script, i + 1, Go) && Quiet(script, i + 2, Apply(true))
    requires Quiet(script, i + 3, Index(id in w.cloud.index, true)) && id in w.cloud.live && w.lock == Some(t)
    requires t in w.threads && w.threads[t] == Deletes(DeleteReads(id))
    ensures var (c, outcome) := DeleteEnd(w.cloud, id);
            Play(w, t, script, i) == World(c, None, w.threads[t := Done(outcome)])
  {
    var c := w.cloud;
    if VmsOf(c, id) != [] {
      QuietEnd(w, t, script, i, Go, c, Failure);
    } else {
      QuietCall(w, t, script, i, Go, c, Deletes(DeleteRereads(id)));
      var w1 := Moved(w, t, c, Deletes(DeleteRereads(id)));
      QuietCall(w1, t, script, i + 1, Go, c, Deletes(DeleteIssues(id)));
      DeleteTaskByItself(Moved(w1, t, c, Deletes(DeleteIssues(id))), t, script, i + 2, id);
    }
  }

  lemma DeleteTaskByItself(w: World, t: Tid, script: seq<Env>, i: nat, id: string)
    requires Quiet(script, i, Apply(true)) && Quiet(script, i + 1, Index(id in w.cloud.index, true))
    requires id in w.cloud.live && w.lock == Some(t)
    requires t in w.threads && w.threads[t] == Deletes(DeleteIssues(id))
    ensures Play(w, t, script, i) == World(Unlisted(Gone(w.cloud, id), id), None, w.threads[t := Done(Success)])
  {
    var gone := Gone(w.cloud, id);
    if w.cloud.indexing {
      QuietCall(w, t, script, i, Apply(true), gone, Deletes(DeleteIndexes(id)));
      var w1 := Moved(w, t, gone, Deletes(DeleteIndexes(id)));
      QuietEnd(w1, t, script, i + 1, Index(id in w.cloud.index, true), Unlisted(gone, id), Success);
    } else {
      QuietEnd(w, t, script, i, Apply(true), gone, Success);
    }
  }

  // ----- creation -----

  predicate QuietCreation(script: seq<Env>, i: nat, c: Cloud, want: Disk, made: Disk) {
    && Quiet(script, i, Go) && Quiet(script, i + 1, Look(c.zones, None))
    && Quiet(script, i + 2, Make(made, true)) && Quiet(script, i + 3, Index(want.name !in c.index, true))
  }

  /** Where a creation by itself ends when there is no disk of the name. */
  lemma CreationByItself(w: World, t: Tid, script: seq<Env>, i: nat, want: Disk, made: Disk)
    requires NoneNamed(w.cloud, want.name) && IsNew(w.cloud, made, want) && w.lock.None?
    requires made == want.(id := made.id, profile := made.profile)
    requires t in w.threads && w.threads[t] == Creates(CreateWaits(want))
    requires QuietCreation(script, i, w.cloud, want, made)
    ensures Play(w, t, script, i)
            == World(Listed(WithMade(w.cloud, made), want, made.id), None, w.threads[t := Done(Volume(made.id))])
  {
    var c := w.cloud;
    QuietLock(w, t, script, i, Creates(CreateLooks(want)));
    var w1 := Moved(w, t, c, Creates(CreateLooks(want)));
    QuietCall(w1, t, script, i + 1, Look(c.zones, None), c, Creates(CreateMakes(want)));
    MakeByItself(Moved(w1, t, c, Creates(CreateMakes(want))), t, script, i + 2, want, made);
  }

  lemma MakeByItself(w: World, t: Tid, script: seq<Env>, i: nat, want: Disk, made: Disk)
    requires Quiet(script, i, Make(made, true)) && Quiet(script, i + 1, Index(want.name !in w.cloud.index, true))
    requires IsNew(w.cloud, made, want) && made == want.(id := made.id, profile := made.profile)
    requires t in w.threads && w.threads[t] == Creates(CreateMakes(want)) && w.lock == Some(t)
    ensures Play(w, t, script, i)
            == World(Listed(WithMade(w.cloud, made), want, made.id), None, w.threads[t := Done(Volume(made.id))])
  {
    var c := WithMade(w.cloud, made);
    if c.indexing {
      QuietCall(w, t, script, i, Make(made, true), c, Creates(CreateIndexes(want, made.id)));
      var w1 := Moved(w, t, c, Creates(CreateIndexes(want, made.id)));
      QuietEnd(w1, t, script, i + 1, Index(want.name !in c.index, true), Listed(c, want, made.id), Volume(made.id));
    } else {
      QuietEnd(w, t, script, i, Make(made, true), c, Volume(made.id));
    }
  }

  /** Where it ends when one disk has the name: with that disk, if it is as asked for. */
  lemma CreationAgain(w: World, t: Tid, script: seq<Env>, i: nat, want: Disk, id: string)
    requires Index.OnlyOneNamed(w.cloud, want.name, id) && w.lock.None?
    requires t in w.threads && w.threads[t] == Creates(CreateWaits(want))
    requires Quiet(script, i, Go) && Quiet(script, i + 1, Look(w.cloud.zones, Some(id)))
    ensures Play(w, t, script, i)
            == w.(threads := w.threads[t := Done(if Fits(w.cloud.live[id], want) then Volume(id) else Failure)])
  {
    var c := w.cloud;
    QuietLock(w, t, script, i, Creates(CreateLooks(want)));
    var w1 := Moved(w, t, c, Creates(CreateLooks(want)));
    Index.OnlyOneIsFound(c, want.name, id, Some(id));
    QuietEnd(w1, t, script, i + 1, Look(c.zones, Some(id)), c, if Fits(c.live[id], want) then Volume(id) else Failure);
  }
}
