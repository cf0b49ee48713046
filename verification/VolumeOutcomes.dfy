/** What the success of a CreateVolume or a DeleteVolume says about the disks, over runs of all
    handlers: the disk reported exists and is as it was asked for; and a deletion leaves a disk of
    the name exactly when its lookup could overlook one. */
module VolumeOutcomes {
  import opened Wrappers
  import opened Volumes
  import Safety = VolumeSafety
  import Index = VolumeIndex
  import Names = VolumeNames
  import Overlap = VolumeOverlap

  // ----- what stays put under the lock -----

  /** While a handler holds the lock, the others change no more of the disks than their sizes. */
  lemma OthersKeepDisks(w: World, t: Tid, s: Step)
    requires Safety.Inv(w) && t in w.threads && Locked(w.threads[t])
    requires s.Step? && s.t != t
    ensures var w' := Next(w, s);
            && Index.SameDisks(w.cloud, w'.cloud)
            && t in w'.threads && w'.threads[t] == w.threads[t]
  {
    assert w.lock == Some(t);
    if s.t in w.threads {
      assert !Locked(w.threads[s.t]);
      assert !Index.MayTouchDisks(w.threads[s.t]);
      Index.QuietCall(w.cloud, w.threads[s.t], s.choice);
    }
  }

  /** The disk that a Create has made and not yet listed is the one it was asked for; only its size
      may be another one by now. */
  ghost predicate AsAsked(c: Cloud, id: string, want: Disk) {
    && id in c.live
    && c.live[id] == want.(id := id, sizeMb := c.live[id].sizeMb, profile := c.live[id].profile)
    && (want.profile != "" ==> c.live[id].profile == want.profile)
  }

  ghost predicate Made(c: Cloud, phase: Phase) {
    phase.Creates? && phase.creating.CreateIndexes? ==> AsAsked(c, phase.creating.id, phase.creating.want)
  }

  ghost predicate Inv(w: World) {
    Safety.Inv(w) && forall t | t in w.threads :: Made(w.cloud, w.threads[t])
  }

  lemma CallMakes(c: Cloud, phase: Phase, choice: Choice)
    requires Made(c, phase) && Call(c, phase, choice).Goes?
    ensures Made(Call(c, phase, choice).cloud, Call(c, phase, choice).phase)
  {
  }

  lemma NextKeepsInv(w: World, s: Step)
    requires Inv(w)
    ensures Inv(Next(w, s))
  {
    Safety.NextKeepsInv(w, s);
    var w' := Next(w, s);
    forall t | t in w'.threads ensures Made(w'.cloud, w'.threads[t]) {
      if s.Step? && t != s.t {
        assert Made(w.cloud, w.threads[t]);
        if Locked(w.threads[t]) {
          OthersKeepDisks(w, t, s);
        }
      } else if s.Step? && t in w.threads && Call(w.cloud, w.threads[t], s.choice).Goes? {
        assert Made(w.cloud, w.threads[t]);
        CallMakes(w.cloud, w.threads[t], s.choice);
      }
    }
  }

  lemma {:induction false} RunKeepsInv(w: World, steps: seq<Step>)
    requires Inv(w)
    ensures Inv(Run(w, steps))
    decreases |steps|
  {
    if steps != [] {
      NextKeepsInv(w, steps[0]);
      RunKeepsInv(Next(w, steps[0]), steps[1..]);
    }
  }

  /** When CreateVolume reports a disk, there is a live disk of that id and of the name asked for.
      Either its lookup found it, with the properties asked for; or it made it, and then the disk
      is as asked, but for an expansion meanwhile, and is listed, unless there is no list or the
      list had its name as an id. */
  lemma CreatedMeansThere(w: World, t: Tid, choice: Choice, id: string)
    requires Safety.Reachable(w) && t in w.threads && w.threads[t].Creates?
    requires Call(w.cloud, w.threads[t], choice).Goes? && Call(w.cloud, w.threads[t], choice).phase == Done(Volume(id))
    ensures var p, c' := w.threads[t].creating, Call(w.cloud, w.threads[t], choice).cloud;
            && id in c'.live && c'.live[id].id == id && c'.live[id].name == p.want.name
            && match p
               case CreateLooks(want) => c' == w.cloud && SameProperties(c'.live[id], want)
               case CreateMakes(want) => !c'.indexing && id !in w.cloud.attached && SameProperties(c'.live[id], want)
               case CreateIndexes(want, made) =>
                 && id == made && AsAsked(c', id, want)
                 && (id in c'.index || want.name in c'.index)
               case CreateWaits(_) => false
  {
    var zones, indexing, steps :| w == Run(Init(zones, indexing), steps);
    RunKeepsInv(Init(zones, indexing), steps);
    assert Made(w.cloud, w.threads[t]);
  }

  // ----- what a successful deletion leaves -----

  ghost predicate HasDisk(c: Cloud, name: string) {
    exists id :: id in c.live && c.live[id].name == name
  }

  /** A disk of that name that a deletion by name need not find: its OVDC cannot be read, or it is
      not the only one of the name. */
  ghost predicate Overlooked(c: Cloud, name: string, readable: set<Ovdc>, id: string) {
    && id in c.live && c.live[id].name == name
    && (c.live[id].ovdc !in readable || exists other :: other in c.live && c.live[other].name == name && other != id)
  }

  ghost predicate Picked(c: Cloud, name: string, readable: set<Ovdc>, id: string) {
    id in c.live && c.live[id].name == name && c.live[id].ovdc in readable
  }

  /** The disks are those of `c0` but for `id`, and at most the sizes of the others have changed. */
  ghost predicate AllBut(c0: Cloud, c: Cloud, id: string) {
    && c.live.Keys == c0.live.Keys - {id}
    && forall other | other in c.live :: c.live[other].name == c0.live[other].name
  }

  /** How far a deletion by name has got that took the lock when the disks were those of `c0`. */
  ghost predicate DeletingFrom(c0: Cloud, c: Cloud, phase: Phase, name: string, readable: set<Ovdc>) {
    match phase
    case Deletes(p) =>
      (match p
       case DeleteWaits(_) => false
       case DeleteLooks(n) => n == name && Same(c0, c)
       case DeleteReads(id) => Picked(c0, name, readable, id) && Same(c0, c)
       case DeleteRereads(id) => Picked(c0, name, readable, id) && Same(c0, c)
       case DeleteIssues(id) => Picked(c0, name, readable, id) && Same(c0, c)
       case DeleteIndexes(id) => Picked(c0, name, readable, id) && AllBut(c0, c, id))
    case Done(outcome) =>
      outcome == Success ==> (HasDisk(c, name) <==> exists id :: Overlooked(c0, name, readable, id))
    case _ => false
  }

  /** The same disks, up to their sizes. */
  ghost predicate Same(c0: Cloud, c: Cloud) {
    && c.live.Keys == c0.live.Keys
    && forall id | id in c.live :: c.live[id].name == c0.live[id].name && c.live[id].ovdc == c0.live[id].ovdc
  }

  lemma OthersKeepDeleting(c0: Cloud, c: Cloud, c': Cloud, phase: Phase, name: string, readable: set<Ovdc>)
    requires DeletingFrom(c0, c, phase, name, readable) && phase.Deletes? && Index.SameDisks(c, c')
    ensures DeletingFrom(c0, c', phase, name, readable)
  {
  }

  /** A lookup that finds nothing leaves what it overlooked, which is all there is. */
  lemma MissLeavesAll(c0: Cloud, c: Cloud, name: string, readable: set<Ovdc>)
    requires Same(c0, c) && LookAllowed(c, name, readable, None)
    ensures HasDisk(c, name) <==> exists id :: Overlooked(c0, name, readable, id)
  {
    if HasDisk(c, name) {
      var id :| id in c.live && c.live[id].name == name;
      assert c.live[id].ovdc in readable ==> !SoleId(c, c.live[id].ovdc, name, id);
      assert Overlooked(c0, name, readable, id);
    }
  }

  lemma PickLeavesOthers(c0: Cloud, c: Cloud, name: string, readable: set<Ovdc>, id: string)
    requires Picked(c0, name, readable, id) && AllBut(c0, c, id)
    ensures HasDisk(c, name) <==> exists other :: Overlooked(c0, name, readable, other)
  {
    if HasDisk(c, name) {
      var other :| other in c.live && c.live[other].name == name;
      assert Overlooked(c0, name, readable, other);
    }
    if other :| Overlooked(c0, name, readable, other) {
      var left :| left in c0.live && c0.live[left].name == name && left != id;
      assert left in c.live && c.live[left].name == name;
    }
  }

  lemma OwnCallKeepsDeleting(c0: Cloud, c: Cloud, phase: Phase, choice: Choice, name: string, readable: set<Ovdc>)
    requires DeletingFrom(c0, c, phase, name, readable) && phase.Deletes?
    requires choice.Look? ==> choice.readable == readable
    requires Call(c, phase, choice).Goes?
    ensures DeletingFrom(c0, Call(c, phase, choice).cloud, Call(c, phase, choice).phase, name, readable)
  {
    var effect := Call(c, phase, choice);
    if effect.phase == Done(Success) {
      match phase.deleting
      case DeleteLooks(_) => MissLeavesAll(c0, c, name, readable);
      case DeleteIssues(id) => PickLeavesOthers(c0, effect.cloud, name, readable, id);
      case DeleteIndexes(id) => PickLeavesOthers(c0, effect.cloud, name, readable, id);
    }
  }

  /** All lookups of handler `t` can read these OVDCs. */
  predicate Reads(t: Tid, readable: set<Ovdc>, steps: seq<Step>) {
    forall i | 0 <= i < |steps| && steps[i].Step? && steps[i].t == t && steps[i].choice.Look? ::
      steps[i].choice.readable == readable
  }

  lemma {:induction false} RunKeepsDeleting(c0: Cloud, w: World, t: Tid, name: string, readable: set<Ovdc>,
                                            steps: seq<Step>)
    requires Safety.Inv(w) && Restart !in steps && Reads(t, readable, steps)
    requires t in w.threads && w.threads[t].Deletes? && Locked(w.threads[t])
    requires DeletingFrom(c0, w.cloud, w.threads[t], name, readable)
    ensures var w' := Run(w, steps);
            && Safety.Inv(w') && t in w'.threads
            && (w'.threads[t].Done? ||
                (Locked(w'.threads[t]) && w'.threads[t].Deletes?
                 && DeletingFrom(c0, w'.cloud, w'.threads[t], name, readable)))
    decreases |steps|
  {
    if steps != [] {
      var w1 := Next(w, steps[0]);
      assert steps[0] in steps;
      Safety.NextKeepsInv(w, steps[0]);
      DeletingStep(c0, w, t, name, readable, steps[0]);
      assert Reads(t, readable, steps[1..]);
      if w1.threads[t].Done? {
        Overlap.DoneStaysDone(w1, t, steps[1..]);
        Safety.RunKeepsInv(w1, steps[1..]);
      } else {
        RunKeepsDeleting(c0, w1, t, name, readable, steps[1..]);
      }
    }
  }

  lemma DeletingStep(c0: Cloud, w: World, t: Tid, name: string, readable: set<Ovdc>, s: Step)
    requires Safety.Inv(w) && s.Step? && (s.t == t && s.choice.Look? ==> s.choice.readable == readable)
    requires t in w.threads && w.threads[t].Deletes? && Locked(w.threads[t])
    requires DeletingFrom(c0, w.cloud, w.threads[t], name, readable)
    ensures var w' := Next(w, s);
            && t in w'.threads && DeletingFrom(c0, w'.cloud, w'.threads[t], name, readable)
            && (w'.threads[t].Done? || (Locked(w'.threads[t]) && w'.threads[t].Deletes?))
  {
    if s.t != t {
      OthersKeepDisks(w, t, s);
      OthersKeepDeleting(c0, w.cloud, Next(w, s).cloud, w.threads[t], name, readable);
    } else if Call(w.cloud, w.threads[t], s.choice).Goes? {
      OwnCallKeepsDeleting(c0, w.cloud, w.threads[t], s.choice, name, readable);
      DeleteGoesOn(w.cloud, w.threads[t].deleting, s.choice);
    }
  }

  lemma DeleteGoesOn(c: Cloud, p: Deleting, choice: Choice)
    requires Call(c, Deletes(p), choice).Goes?
    ensures var phase := Call(c, Deletes(p), choice).phase; phase.Done? || (phase.Deletes? && Locked(phase))
  {
  }

  /** Exactly when a DeleteVolume that reports success leaves a disk of the name, whatever the other
      handlers do meanwhile: when, at the time it took the lock, there were two disks of the name,
      or the one there was lay in an OVDC that its lookup could not read. */
  lemma SuccessfulDeleteLeavesIff(w: World, t: Tid, name: string, readable: set<Ovdc>, steps: seq<Step>, last: Choice)
    requires Safety.Inv(w) && t in w.threads && w.threads[t] == Deletes(DeleteLooks(name))
    requires Restart !in steps && Reads(t, readable, steps + [Step(t, last)])
    requires t in Run(w, steps).threads && !Run(w, steps).threads[t].Done?
    requires Next(Run(w, steps), Step(t, last)).threads[t] == Done(Success)
    ensures HasDisk(Next(Run(w, steps), Step(t, last)).cloud, name) <==>
            exists id :: Overlooked(w.cloud, name, readable, id)
  {
    var all := steps + [Step(t, last)];
    assert all[..|steps|] == steps && all[|steps|] == Step(t, last);
    assert Reads(t, readable, steps) by {
      assert forall i | 0 <= i < |steps| :: all[i] == steps[i];
    }
    RunKeepsDeleting(w.cloud, w, t, name, readable, steps);
    DeletingStep(w.cloud, Run(w, steps), t, name, readable, Step(t, last));
  }

  /** So with every OVDC readable and names unique, success means that no disk of the name is left. */
  lemma DeletedMeansNoneLeft(w: World, t: Tid, name: string, steps: seq<Step>, last: Choice)
    requires Safety.Inv(w) && Names.NamesOk(w.cloud) && t in w.threads && w.threads[t] == Deletes(DeleteLooks(name))
    requires Restart !in steps && Reads(t, w.cloud.zones, steps + [Step(t, last)])
    requires t in Run(w, steps).threads && !Run(w, steps).threads[t].Done?
    requires Next(Run(w, steps), Step(t, last)).threads[t] == Done(Success)
    ensures !HasDisk(Next(Run(w, steps), Step(t, last)).cloud, name)
  {
    SuccessfulDeleteLeavesIff(w, t, name, w.cloud.zones, steps, last);
  }

  // ----- the runs in which a deletion leaves one -----

  /** A deletion whose lookup may answer "not found" succeeds with nothing deleted; so do one that
      cannot read the OVDC of the disk, and one that finds the name twice in each OVDC. */
  lemma DeleteOfMissedSucceeds(w: World, t: Tid, name: string, readable: set<Ovdc>)
    requires t !in w.threads && w.lock.None? && readable <= w.cloud.zones
    requires forall id | id in w.cloud.live && w.cloud.live[id].name == name ::
               w.cloud.live[id].ovdc in readable ==> !SoleId(w.cloud, w.cloud.live[id].ovdc, name, id)
    ensures Run(w, [Step(t, Begin(Deletes(DeleteWaits(name)))), Step(t, Go), Step(t, Look(readable, None))])
            == w.(threads := w.threads[t := Done(Success)])
  {
    RunOfThree(w, Step(t, Begin(Deletes(DeleteWaits(name)))), Step(t, Go), Step(t, Look(readable, None)));
  }

  /** The calls of a deletion that finds the disk `id`, when nothing fails. */
  function DeleteCalls(t: Tid, name: string, id: string, c: Cloud): seq<Step> {
    [Step(t, Begin(Deletes(DeleteWaits(name)))), Step(t, Go), Step(t, Look(c.zones, Some(id)))]
    + [Step(t, Go), Step(t, Go), Step(t, Apply(true)), Step(t, Index(id in c.index, true))]
  }

  lemma DeleteUpToFound(w: World, t: Tid, name: string, id: string)
    requires t !in w.threads && w.lock.None? && LookAllowed(w.cloud, name, w.cloud.zones, Some(id))
    ensures Run(w, DeleteCalls(t, name, id, w.cloud)[..3])
            == World(w.cloud, Some(t), w.threads[t := Deletes(DeleteReads(id))])
  {
    var begin, look := Step(t, Begin(Deletes(DeleteWaits(name)))), Step(t, Look(w.cloud.zones, Some(id)));
    RunOfThree(w, begin, Step(t, Go), look);
    assert DeleteCalls(t, name, id, w.cloud)[..3] == [begin, Step(t, Go), look];
  }

  lemma DeleteFromFound(w: World, t: Tid, id: string)
    requires t in w.threads && w.threads[t] == Deletes(DeleteReads(id)) && w.lock == Some(t)
    requires id in w.cloud.live && VmsOf(w.cloud, id) == []
    ensures var index := Step(t, Index(id in w.cloud.index, true));
            var w' := Run(w, [Step(t, Go), Step(t, Go), Step(t, Apply(true)), index]);
            && w'.threads == w.threads[t := Done(Success)] && w'.lock == None
            && w'.cloud.live == w.cloud.live - {id}
  {
    var c, gone := w.cloud, w.cloud.(live := w.cloud.live - {id});
    StepGoes(w, t, Go, c, Deletes(DeleteRereads(id)));
    var w1 := Moved(w, t, c, Deletes(DeleteRereads(id)));
    StepGoes(w1, t, Go, c, Deletes(DeleteIssues(id)));
    var w2 := Moved(w1, t, c, Deletes(DeleteIssues(id)));
    var after := if c.indexing then Deletes(DeleteIndexes(id)) else Done(Success);
    StepGoes(w2, t, Apply(true), gone, after);
    var w3 := Moved(w2, t, gone, after);
    var index := Step(t, Index(id in c.index, true));
    FourSteps(w, [Step(t, Go), Step(t, Go), Step(t, Apply(true)), index], w1, w2, w3, Next(w3, index));
  }

  /** With one disk of the name in each of two OVDCs, a deletion by itself, in which nothing fails,
      deletes the one that it finds first and succeeds; the other stays. */
  lemma DeleteTakesOneOfTwo(w: World, t: Tid, name: string, a: string, b: string)
    requires t !in w.threads && w.lock.None? && a in w.cloud.live && b in w.cloud.live && a != b
    requires SoleId(w.cloud, w.cloud.live[a].ovdc, name, a) && w.cloud.live[a].ovdc in w.cloud.zones
    requires SoleId(w.cloud, w.cloud.live[b].ovdc, name, b) && VmsOf(w.cloud, a) == []
    ensures var w' := Run(w, DeleteCalls(t, name, a, w.cloud));
            && w'.threads == w.threads[t := Done(Success)]
            && a !in w'.cloud.live && b in w'.cloud.live && w'.cloud.live[b].name == name
  {
    var steps := DeleteCalls(t, name, a, w.cloud);
    DeleteUpToFound(w, t, name, a);
    var found := Run(w, steps[..3]);
    DeleteFromFound(found, t, a);
    RunConcat(w, steps[..3], steps[3..]);
    assert steps == steps[..3] + steps[3..];
    assert steps[3..] == [Step(t, Go), Step(t, Go), Step(t, Apply(true)), Step(t, Index(a in w.cloud.index, true))];
    assert found.threads[t := Done(Success)] == w.threads[t := Done(Success)];
  }
}
