/** The list of disk ids in the RDE agrees with the disks over whole runs: it holds, without
    repetition, the live disks whose addition was committed and the deleted ones whose removal
    was not; and retrying a call whose list update failed changes neither side. */
module VolumeIndex {
  import opened Wrappers
  import opened Volumes
  import Safety = VolumeSafety
  import RdeUpdates

  ghost predicate NoRepeats(ids: seq<string>) {
    forall i, j | 0 <= i < j < |ids| :: ids[i] != ids[j]
  }

  /** The list against the disks that were ever made, and those that are live. */
  ghost predicate Agrees(c: Cloud) {
    && NoRepeats(c.index)
    && (forall id :: id in c.index <==> id in c.indexed && id !in c.unindexed)
    && c.unindexed <= c.indexed <= c.attached.Keys
    && c.unindexed !! c.live.Keys
  }

  /** A handler that is about to add an id to the list is the first to do so. */
  ghost predicate NotYetIndexed(c: Cloud, phase: Phase) {
    phase.Creates? && phase.creating.CreateIndexes? ==> phase.creating.id !in c.indexed
  }

  ghost predicate Inv(w: World) {
    && Safety.Inv(w)
    && Agrees(w.cloud)
    && forall t | t in w.threads :: NotYetIndexed(w.cloud, w.threads[t])
  }

  // ----- what the calls do to the list -----

  /** Nothing happens to the list, and at most the sizes of the disks change. */
  predicate SameDisks(c: Cloud, c': Cloud) {
    && c' == c.(live := c'.live, attached := c'.attached)
    && c'.attached.Keys == c.attached.Keys && c'.live.Keys == c.live.Keys
    && forall id | id in c.live :: c'.live[id] == c.live[id].(sizeMb := c'.live[id].sizeMb)
  }

  /** Only a Create that makes or adds, and a Delete that deletes or removes, do more than that. */
  predicate MayTouchDisks(phase: Phase) {
    match phase
    case Creates(p) => p.CreateMakes? || p.CreateIndexes?
    case Deletes(p) => p.DeleteIssues? || p.DeleteIndexes?
    case _ => false
  }

  lemma QuietCall(c: Cloud, phase: Phase, choice: Choice)
    requires c.live.Keys <= c.attached.Keys && !MayTouchDisks(phase)
    ensures var effect := Call(c, phase, choice);
            effect.Goes? ==> SameDisks(c, effect.cloud) && NotYetIndexed(effect.cloud, effect.phase)
  {
    if !choice.Fail? {
      match phase
      case Attaches(p) => QuietAttach(c, p, choice);
      case Detaches(p) => QuietDetach(c, p, choice);
      case Expands(p) => QuietExpand(c, p, choice);
      case _ =>
    }
  }

  lemma QuietAttach(c: Cloud, p: Attaching, choice: Choice)
    requires c.live.Keys <= c.attached.Keys
    ensures var effect := AttachCall(c, p, choice);
            effect.Goes? ==> SameDisks(c, effect.cloud) && !effect.phase.Creates?
  {
  }

  lemma QuietDetach(c: Cloud, p: Detaching, choice: Choice)
    requires c.live.Keys <= c.attached.Keys
    ensures var effect := DetachCall(c, p, choice);
            effect.Goes? ==> SameDisks(c, effect.cloud) && !effect.phase.Creates?
  {
  }

  lemma QuietExpand(c: Cloud, p: Expanding, choice: Choice)
    requires c.live.Keys <= c.attached.Keys
    ensures var effect := ExpandCall(c, p, choice);
            effect.Goes? ==> SameDisks(c, effect.cloud) && !effect.phase.Creates?
  {
    match p
    case OfflinePuts(id, newMb) =>
    case OnlinePuts(_, _, _, settings) => ResizedIsTheSame(c, settings);
    case _ => assert SameDisks(c, c);
  }

  lemma ResizedIsTheSame(c: Cloud, settings: map<string, int>)
    ensures SameDisks(c, c.(live := Resized(c, settings)))
  {
  }

  lemma {:induction false} AppendAgrees(c: Cloud, id: string)
    requires Agrees(c) && id in c.live && id in c.attached && id !in c.indexed
    ensures Agrees(c.(index := c.index + [id], indexed := c.indexed + {id}))
  {
    assert id !in c.index;
    assert id !in c.unindexed;
  }

  lemma {:induction false} RemoveFirstOfNoRepeats(ids: seq<string>, id: string)
    requires NoRepeats(ids) && id in ids
    ensures NoRepeats(RdeUpdates.RemoveFirst(ids, id))
    ensures forall x :: x in RdeUpdates.RemoveFirst(ids, id) <==> x in ids && x != id
  {
    var k := RdeUpdates.RemoveFirstSplits(ids, id);
    var rest := RdeUpdates.RemoveFirst(ids, id);
    forall x ensures x in rest <==> x in ids && x != id {
      if x in ids && x != id {
        var i :| 0 <= i < |ids| && ids[i] == x;
        assert rest[if i < k then i else i - 1] == x;
      }
    }
  }

  lemma RemoveAgrees(c: Cloud, id: string)
    requires Agrees(c) && id !in c.live && id in c.index
    ensures Agrees(c.(index := RdeUpdates.RemoveFirst(c.index, id), unindexed := c.unindexed + {id}))
  {
    RemoveFirstOfNoRepeats(c.index, id);
  }

  /** A call keeps the agreement; only a holder of the lock adds an id. */
  ghost predicate Agreeable(c: Cloud, phase: Phase, effect: Effect) {
    effect.Goes? ==>
      && Agrees(effect.cloud)
      && NotYetIndexed(effect.cloud, effect.phase)
      && (Locked(phase) || effect.cloud.indexed == c.indexed)
  }

  lemma CreateIsAgreeable(c: Cloud, p: Creating, choice: Choice)
    requires Safety.DisksOk(c) && Safety.CreateKnows(c, p) && Agrees(c) && NotYetIndexed(c, Creates(p))
    requires p.CreateMakes? || p.CreateIndexes?
    ensures Agreeable(c, Creates(p), CreateCall(c, p, choice))
  {
    if p.CreateIndexes? {
      AppendAgrees(c, p.id);
    }
  }

  lemma DeleteIsAgreeable(c: Cloud, p: Deleting, choice: Choice)
    requires Safety.DisksOk(c) && Safety.DeleteKnows(c, p) && Agrees(c)
    requires p.DeleteIssues? || p.DeleteIndexes?
    ensures Agreeable(c, Deletes(p), DeleteCall(c, p, choice))
  {
    if p.DeleteIndexes? && p.id in c.index {
      RemoveAgrees(c, p.id);
    }
  }

  lemma CallIsAgreeable(c: Cloud, phase: Phase, choice: Choice)
    requires Safety.DisksOk(c) && Safety.Knows(c, phase) && Agrees(c) && NotYetIndexed(c, phase)
    ensures Agreeable(c, phase, Call(c, phase, choice))
  {
    if !MayTouchDisks(phase) {
      QuietCall(c, phase, choice);
    } else if !choice.Fail? {
      if phase.Creates? {
        CreateIsAgreeable(c, phase.creating, choice);
      } else {
        DeleteIsAgreeable(c, phase.deleting, choice);
      }
    }
  }

  // ----- the invariant -----

  lemma NextKeepsInv(w: World, s: Step)
    requires Inv(w)
    ensures Inv(Next(w, s))
  {
    Safety.NextKeepsInv(w, s);
    if s.Step? && s.t in w.threads {
      CallIsAgreeable(w.cloud, w.threads[s.t], s.choice);
      MoveKeepsInv(w, s.t, Call(w.cloud, w.threads[s.t], s.choice));
    }
  }

  lemma MoveKeepsInv(w: World, t: Tid, effect: Effect)
    requires Inv(w) && t in w.threads && Agreeable(w.cloud, w.threads[t], effect)
    ensures var w' := Move(w, t, effect);
            Agrees(w'.cloud) && forall u | u in w'.threads :: NotYetIndexed(w'.cloud, w'.threads[u])
  {
    var w' := Move(w, t, effect);
    if w' != w {
      forall u | u in w'.threads ensures NotYetIndexed(w'.cloud, w'.threads[u]) {
        if u != t {
          assert NotYetIndexed(w.cloud, w.threads[u]);
          assert Locked(w.threads[t]) && Locked(w.threads[u]) ==> t == u;
        }
      }
    }
  }

  lemma {:induction false} RunKeepsInv(w: World, steps: seq<Step>)
    requires Inv(w)
    ensures Inv(Run(w, steps))
    decreases |steps|
  {
    if steps != [] {
      NextKeepsInv(w, steps[0]);
      RunKeepsInv(Next(w, steps[0]), steps[1..]);
    }
  }

  lemma ReachableHolds(w: World)
    requires Safety.Reachable(w)
    ensures Inv(w)
  {
    var zones, indexing, steps :| w == Run(Init(zones, indexing), steps);
    RunKeepsInv(Init(zones, indexing), steps);
  }

  /** In every reachable state the list holds, once each, exactly the live disks that were ever
      added to it and the deleted ones that were added and never removed. */
  lemma IndexAgreement(w: World)
    requires Safety.Reachable(w)
    ensures NoRepeats(w.cloud.index)
    ensures forall id :: id in w.cloud.index <==>
                         id in w.cloud.indexed && (id in w.cloud.live || id !in w.cloud.unindexed)
    ensures w.cloud.unindexed <= w.cloud.indexed <= w.cloud.attached.Keys && w.cloud.unindexed !! w.cloud.live.Keys
  {
    ReachableHolds(w);
  }

  /** When DeleteVolume reports success, the disk that its lookup found is gone, and gone from the
      list, or the lookup found none. */
  lemma DeletedMeansGone(w: World, t: Tid, choice: Choice)
    requires Safety.Reachable(w) && t in w.threads && w.threads[t].Deletes?
    requires Call(w.cloud, w.threads[t], choice).Goes? && Call(w.cloud, w.threads[t], choice).phase == Done(Success)
    ensures var p, c' := w.threads[t].deleting, Call(w.cloud, w.threads[t], choice).cloud;
            match p
            case DeleteLooks(name) => choice.Look? && LookAllowed(w.cloud, name, choice.readable, None)
            case DeleteIssues(id) => id !in c'.live
            case DeleteIndexes(id) => id !in c'.live && id !in c'.index
            case _ => false
  {
    ReachableHolds(w);
    var p := w.threads[t].deleting;
    assert Safety.Knows(w.cloud, w.threads[t]);
    if p.DeleteIndexes? && p.id in w.cloud.index {
      RemoveFirstOfNoRepeats(w.cloud.index, p.id);
    }
  }

  // ----- retries -----

  /** Thread `t` runs by itself, and its lookups can read every OVDC. */
  predicate Alone(zones: set<Ovdc>, t: Tid, steps: seq<Step>) {
    forall i | 0 <= i < |steps| :: IsOwn(zones, t, steps[i])
  }

  predicate IsOwn(zones: set<Ovdc>, t: Tid, s: Step) {
    s.Step? && s.t == t && (s.choice.Look? ==> s.choice.readable == zones)
  }

  predicate NoneFails(steps: seq<Step>) {
    forall i | 0 <= i < |steps| :: steps[i].Step? ==> !steps[i].choice.Fail?
  }

  /** `id` is the only live disk of its name. */
  ghost predicate OnlyDiskNamed(c: Cloud, name: string, id: string) {
    && id in c.live && c.live[id].name == name
    && forall other | other in c.live && c.live[other].name == name :: other == id
  }

  /** ... and in an OVDC that lookups cover. */
  ghost predicate OnlyOneNamed(c: Cloud, name: string, id: string) {
    OnlyDiskNamed(c, name, id) && c.live[id].ovdc in c.zones
  }

  lemma OnlyOneIsFound(c: Cloud, name: string, id: string, answer: Option<string>)
    requires OnlyOneNamed(c, name, id)
    ensures LookAllowed(c, name, c.zones, answer) <==> answer == Some(id)
  {
    assert SoleId(c, c.live[id].ovdc, name, id);
  }

  ghost predicate CreateRetryPhase(phase: Phase, want: Disk, id: string) {
    || phase == Creates(CreateWaits(want))
    || phase == Creates(CreateLooks(want))
    || phase == Done(Volume(id))
    || phase == Done(Failure)
  }

  /** However far a repeated Create gets, it changes nothing; when it is done it reports the disk
      that is there, unless one of its calls failed. */
  lemma {:induction false} CreateRetryChangesNothing(w: World, t: Tid, want: Disk, id: string, steps: seq<Step>)
    requires OnlyOneNamed(w.cloud, want.name, id) && SameProperties(w.cloud.live[id], want)
    requires Alone(w.cloud.zones, t, steps) && t in w.threads && CreateRetryPhase(w.threads[t], want, id)
    ensures var w' := Run(w, steps);
            && w'.cloud == w.cloud && t in w'.threads && CreateRetryPhase(w'.threads[t], want, id)
            && (w'.threads[t] == Done(Failure) && NoneFails(steps) ==> w.threads[t] == Done(Failure))
    decreases |steps|
  {
    if steps != [] {
      assert IsOwn(w.cloud.zones, t, steps[0]) && Alone(w.cloud.zones, t, steps[1..]);
      CreateRetryStep(w, t, want, id, steps[0].choice);
      assert NoneFails(steps) ==> !steps[0].choice.Fail? && NoneFails(steps[1..]);
      CreateRetryChangesNothing(Next(w, steps[0]), t, want, id, steps[1..]);
    }
  }

  lemma CreateRetryStep(w: World, t: Tid, want: Disk, id: string, choice: Choice)
    requires OnlyOneNamed(w.cloud, want.name, id) && SameProperties(w.cloud.live[id], want)
    requires choice.Look? ==> choice.readable == w.cloud.zones
    requires t in w.threads && CreateRetryPhase(w.threads[t], want, id)
    ensures var w' := Next(w, Step(t, choice));
            && w'.cloud == w.cloud && t in w'.threads && CreateRetryPhase(w'.threads[t], want, id)
            && (w'.threads[t] == Done(Failure) && !choice.Fail? ==> w.threads[t] == Done(Failure))
  {
    if choice.Look? {
      OnlyOneIsFound(w.cloud, want.name, id, choice.answer);
    }
  }

  /** With the lock free, three steps are enough. */
  lemma CreateRetrySucceeds(w: World, t: Tid, want: Disk, id: string)
    requires OnlyOneNamed(w.cloud, want.name, id) && SameProperties(w.cloud.live[id], want)
    requires t !in w.threads && w.lock.None?
    ensures Run(w, [Step(t, Begin(Creates(CreateWaits(want)))), Step(t, Go), Step(t, Look(w.cloud.zones, Some(id)))])
            == w.(threads := w.threads[t := Done(Volume(id))])
  {
    OnlyOneIsFound(w.cloud, want.name, id, Some(id));
    RunOfThree(w, Step(t, Begin(Creates(CreateWaits(want)))), Step(t, Go), Step(t, Look(w.cloud.zones, Some(id))));
  }

  ghost predicate DeleteRetryPhase(phase: Phase, name: string) {
    || phase == Deletes(DeleteWaits(name))
    || phase == Deletes(DeleteLooks(name))
    || phase == Done(Success)
    || phase == Done(Failure)
  }

  /** A repeated Delete of a name that no live disk has changes nothing and reports success,
      unless one of its calls failed; so an id whose removal was never committed stays listed. */
  lemma {:induction false} DeleteRetryChangesNothing(w: World, t: Tid, name: string, steps: seq<Step>)
    requires forall id | id in w.cloud.live :: w.cloud.live[id].name != name
    requires Alone(w.cloud.zones, t, steps) && t in w.threads && DeleteRetryPhase(w.threads[t], name)
    ensures var w' := Run(w, steps);
            && w'.cloud == w.cloud && t in w'.threads && DeleteRetryPhase(w'.threads[t], name)
            && (w'.threads[t] == Done(Failure) && NoneFails(steps) ==> w.threads[t] == Done(Failure))
    decreases |steps|
  {
    if steps != [] {
      assert IsOwn(w.cloud.zones, t, steps[0]) && Alone(w.cloud.zones, t, steps[1..]);
      DeleteRetryStep(w, t, name, steps[0].choice);
      assert NoneFails(steps) ==> !steps[0].choice.Fail? && NoneFails(steps[1..]);
      DeleteRetryChangesNothing(Next(w, steps[0]), t, name, steps[1..]);
    }
  }

  lemma DeleteRetryStep(w: World, t: Tid, name: string, choice: Choice)
    requires forall id | id in w.cloud.live :: w.cloud.live[id].name != name
    requires t in w.threads && DeleteRetryPhase(w.threads[t], name)
    ensures var w' := Next(w, Step(t, choice));
            && w'.cloud == w.cloud && t in w'.threads && DeleteRetryPhase(w'.threads[t], name)
            && (w'.threads[t] == Done(Failure) && !choice.Fail? ==> w.threads[t] == Done(Failure))
  {
  }

  lemma DeleteRetrySucceeds(w: World, t: Tid, name: string)
    requires forall id | id in w.cloud.live :: w.cloud.live[id].name != name
    requires t !in w.threads && w.lock.None?
    ensures Run(w, [Step(t, Begin(Deletes(DeleteWaits(name)))), Step(t, Go), Step(t, Look(w.cloud.zones, None))])
            == w.(threads := w.threads[t := Done(Success)])
  {
    RunOfThree(w, Step(t, Begin(Deletes(DeleteWaits(name)))), Step(t, Go), Step(t, Look(w.cloud.zones, None)));
  }
}
