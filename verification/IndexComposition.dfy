/** Both machines at once: volume handlers whose list updates are calls of the RDE protocol, step by
    step, between commits by others. The list in the entity agrees with the disks in every state of
    every such run in which the others leave the list alone. */
module IndexComposition {
  import opened Wrappers
  import opened Documents
  import opened RdeUpdates
  import V = Volumes
  import P = RdeProtocol
  import RdeGuarantees
  import Safety = VolumeSafety
  import Index = VolumeIndex
  import IndexRefinement
  import Migration

  /** `calls` are the list updates under way, by the handler that waits for them. The list of `vols`
      is what the entity lists; see Agree. */
  datatype World = World(vols: V.World, rde: P.World, calls: map<V.Tid, P.CallId>)

  datatype Step =
    | Volume(volume: V.Step)                // any step of a handler but a list update, or a restart
    | StartUpdate(t: V.Tid, call: P.CallId)
    | Update(t: V.Tid, step: P.Step)        // a GET or PUT of the update that handler `t` waits for
    | Other(step: P.Step)                   // a step of any other party on the entity

  predicate UpdatesList(phase: V.Phase) {
    || (phase.Creates? && phase.creating.CreateIndexes?)
    || (phase.Deletes? && phase.deleting.DeleteIndexes?)
  }

  /** The update that a handler waits for. */
  function OpOf(phase: V.Phase): Op
    requires UpdatesList(phase)
  {
    if phase.Creates? then AddPv(phase.creating.id, phase.creating.want.name) else RemovePv(phase.deleting.id)
  }

  predicate IsOf(c: P.CallId, s: P.Step) {
    (s.Get? || s.Put?) && s.call == c
  }

  /** A call that is done ends the handler's update, with what it committed in that step. */
  function Settled(w: World, t: V.Tid, c: P.CallId, rde: P.World): World {
    if c in rde.calls && rde.calls[c].phase.Done? then
      var choice := V.Index(|rde.log| > |w.rde.log|, rde.calls[c].phase.result == Nil);
      World(V.Next(w.vols, V.Step(t, choice)), rde, w.calls - {t})
    else World(w.vols, rde, w.calls[t := c])
  }

  /** A step that is not enabled changes nothing. A handler that gives up, or is restarted, abandons
      its update. */
  function Next(w: World, s: Step): World {
    match s
    case Volume(Restart) => World(V.Next(w.vols, V.Restart), w.rde, map[])
    case Volume(Step(t, choice)) =>
      if choice.Index? then w else World(V.Next(w.vols, V.Step(t, choice)), w.rde, w.calls - {t})
    case StartUpdate(t, c) =>
      if t !in w.vols.threads || !UpdatesList(w.vols.threads[t]) || t in w.calls || c in w.rde.calls then w
      else Settled(w, t, c, P.Next(w.rde, P.Start(c, OpOf(w.vols.threads[t]))))
    case Update(t, step) =>
      if t !in w.calls || !IsOf(w.calls[t], step) then w else Settled(w, t, w.calls[t], P.Next(w.rde, step))
    case Other(step) => w.(rde := P.Next(w.rde, step))
  }

  function Run(w: World, steps: seq<Step>): World
    decreases |steps|
  {
    if steps == [] then w else Run(Next(w, steps[0]), steps[1..])
  }

  /** The others take no part in the updates of handlers, and leave the list alone. */
  ghost predicate Considerate(w: World, s: Step) {
    s.Other? ==>
      && (forall t | t in w.calls :: !IsOf(w.calls[t], s.step))
      && NativePvs(P.Next(w.rde, s.step).rde) == NativePvs(w.rde.rde)
  }

  ghost predicate ConsiderateRun(w: World, steps: seq<Step>)
    decreases |steps|
  {
    steps == [] || (Considerate(w, steps[0]) && ConsiderateRun(Next(w, steps[0]), steps[1..]))
  }

  // ----- the invariant -----

  /** The entity lists what the volume machine says. */
  ghost predicate Agree(w: World) {
    NativePvs(w.rde.rde) == Ok(w.vols.cloud.index)
  }

  /** A call under way is the update of the handler that waits for it. */
  ghost predicate Owned(w: World, t: V.Tid) {
    && t in w.calls
    && t in w.vols.threads && UpdatesList(w.vols.threads[t])
    && w.calls[t] in w.rde.calls && !w.rde.calls[w.calls[t]].phase.Done?
    && w.rde.calls[w.calls[t]].op == OpOf(w.vols.threads[t])
  }

  ghost predicate Inv(w: World) {
    && Index.Inv(w.vols)
    && P.Inv(w.rde)
    && Agree(w)
    && forall t | t in w.calls :: Owned(w, t)
  }

  /** Only one handler at a time has an update under way. */
  lemma OneUpdate(w: World, t: V.Tid)
    requires Inv(w) && t in w.vols.threads && UpdatesList(w.vols.threads[t])
    ensures forall u | u in w.calls :: u == t
  {
    forall u | u in w.calls ensures u == t {
      assert Owned(w, u);
      assert V.Locked(w.vols.threads[t]) && V.Locked(w.vols.threads[u]);
    }
  }

  // ----- one step of a call on a list -----

  /** What a step of an add or removal does on a native cluster: it commits nothing and goes on, or
      the call is done, and it has committed its update exactly if the list has changed by it. */
  lemma CallStep(w: P.World, c: P.CallId, s: P.Step)
    requires P.Inv(w) && c in w.calls && !w.calls[c].phase.Done? && IsOf(c, s)
    requires (w.calls[c].op.AddPv? || w.calls[c].op.RemovePv?) && NativePvs(w.rde).Ok?
    ensures var w', op, list := P.Next(w, s), w.calls[c].op, NativePvs(w.rde).value;
            && c in w'.calls && w'.calls[c].op == op
            && |w.log| <= |w'.log|
            && (!w'.calls[c].phase.Done? ==> w'.rde == w.rde && w'.log == w.log)
            && (|w'.log| == |w.log| ==> w'.rde == w.rde)
            && (|w'.log| > |w.log| ==>
                  IndexRefinement.Needed(op, list) && NativePvs(w'.rde) == Ok(IndexRefinement.Updated(op, list)))
            && (w'.calls[c].phase.Done? && w'.calls[c].phase.result == Nil ==>
                  |w'.log| > |w.log| || !IndexRefinement.Needed(op, list))
  {
    if s.Put? && w.calls[c].phase.Writes? && P.Allowed(w, w.calls[c].phase.readAt, s.applied, s.answer) {
      P.PutFrame(w, c, s.applied, s.answer);
      if s.applied {
        UpdateSent(w, c);
      }
    }
  }

  /** What a PUT that is applied writes. */
  lemma UpdateSent(w: P.World, c: P.CallId)
    requires P.Inv(w) && c in w.calls && w.calls[c].phase.Writes? && w.calls[c].phase.readAt == |w.log|
    requires (w.calls[c].op.AddPv? || w.calls[c].op.RemovePv?) && NativePvs(w.rde).Ok?
    ensures var op, list := w.calls[c].op, NativePvs(w.rde).value;
            IndexRefinement.Needed(op, list)
            && NativePvs(w.calls[c].phase.next) == Ok(IndexRefinement.Updated(op, list))
  {
    RdeGuarantees.CurrentPut(w, c);
    NativeUpdateEffect(w.calls[c].op, w.rde, w.calls[c].phase.found, true);
  }

  // ----- every step keeps the invariant -----

  lemma QuietCall(c: V.Cloud, phase: V.Phase, choice: V.Choice)
    requires c.live.Keys <= c.attached.Keys && !choice.Index? && V.Call(c, phase, choice).Goes?
    ensures V.Call(c, phase, choice).cloud.index == c.index
  {
    if !Index.MayTouchDisks(phase) {
      Index.QuietCall(c, phase, choice);
    }
  }

  lemma QuietStep(w: V.World, s: V.Step)
    requires Index.Inv(w) && (s.Step? ==> !s.choice.Index?)
    ensures V.Next(w, s).cloud.index == w.cloud.index
    ensures s.Step? ==> forall t | t != s.t ::
              && (t in w.threads <==> t in V.Next(w, s).threads)
              && (t in w.threads ==> V.Next(w, s).threads[t] == w.threads[t])
  {
    if s.Step? && s.t in w.threads && V.Call(w.cloud, w.threads[s.t], s.choice).Goes? {
      QuietCall(w.cloud, w.threads[s.t], s.choice);
    }
  }

  lemma VolumeKeepsInv(w: World, s: V.Step)
    requires Inv(w)
    ensures Inv(Next(w, Volume(s)))
  {
    if s.Restart? || !s.choice.Index? {
      var w' := Next(w, Volume(s));
      Index.NextKeepsInv(w.vols, s);
      QuietStep(w.vols, s);
      forall t | t in w'.calls ensures Owned(w', t) {
        assert Owned(w, t);
      }
    }
  }

  /** The handler's step when its update is done. */
  lemma IndexStep(w: V.World, t: V.Tid, committed: bool, ok: bool)
    requires t in w.threads && UpdatesList(w.threads[t])
    requires V.IndexAllowed(V.Index(committed, ok), IndexRefinement.Needed(OpOf(w.threads[t]), w.cloud.index))
    ensures var w' := V.Next(w, V.Step(t, V.Index(committed, ok)));
            && t in w'.threads && w'.threads[t].Done? && (w'.threads[t] != V.Done(V.Failure) <==> ok)
            && w'.cloud.index
               == (if committed then IndexRefinement.Updated(OpOf(w.threads[t]), w.cloud.index) else w.cloud.index)
            && forall u | u in w'.threads && u != t :: u in w.threads && w'.threads[u] == w.threads[u]
  {
  }

  /** What the call of a handler has done in a step agrees with what the handler makes of it. */
  lemma SettledKeepsInv(w: World, t: V.Tid, c: P.CallId, rde: P.World)
    requires Inv(w) && P.Inv(rde) && t in w.vols.threads && UpdatesList(w.vols.threads[t])
    requires c in rde.calls && rde.calls[c].op == OpOf(w.vols.threads[t]) && |w.rde.log| <= |rde.log|
    requires forall u | u in w.calls :: u == t
    requires !rde.calls[c].phase.Done? ==> rde.rde == w.rde.rde
    requires var op, list, committed := rde.calls[c].op, w.vols.cloud.index, |rde.log| > |w.rde.log|;
             && (committed ==> IndexRefinement.Needed(op, list))
             && NativePvs(rde.rde) == Ok(if committed then IndexRefinement.Updated(op, list) else list)
             && (rde.calls[c].phase.Done? && rde.calls[c].phase.result == Nil ==>
                   committed || !IndexRefinement.Needed(op, list))
    ensures Inv(Settled(w, t, c, rde))
  {
    if rde.calls[c].phase.Done? {
      var committed, ok := |rde.log| > |w.rde.log|, rde.calls[c].phase.result == Nil;
      IndexStep(w.vols, t, committed, ok);
      Index.NextKeepsInv(w.vols, V.Step(t, V.Index(committed, ok)));
    } else {
      var w' := Settled(w, t, c, rde);
      assert Owned(w', t);
    }
  }

  lemma StartKeepsInv(w: World, t: V.Tid, c: P.CallId)
    requires Inv(w)
    ensures Inv(Next(w, StartUpdate(t, c)))
  {
    if t in w.vols.threads && UpdatesList(w.vols.threads[t]) && t !in w.calls && c !in w.rde.calls {
      var s := P.Start(c, OpOf(w.vols.threads[t]));
      P.NextKeepsInv(w.rde, s);
      OneUpdate(w, t);
      SettledKeepsInv(w, t, c, P.Next(w.rde, s));
    }
  }

  lemma UpdateKeepsInv(w: World, t: V.Tid, s: P.Step)
    requires Inv(w)
    ensures Inv(Next(w, Update(t, s)))
  {
    if t in w.calls && IsOf(w.calls[t], s) {
      assert Owned(w, t);
      P.NextKeepsInv(w.rde, s);
      CallStep(w.rde, w.calls[t], s);
      OneUpdate(w, t);
      SettledKeepsInv(w, t, w.calls[t], P.Next(w.rde, s));
    }
  }

  lemma OtherCallsStay(w: P.World, c: P.CallId, s: P.Step)
    requires c in w.calls && !IsOf(c, s)
    ensures c in P.Next(w, s).calls && P.Next(w, s).calls[c] == w.calls[c]
  {
  }

  lemma OtherKeepsInv(w: World, s: P.Step)
    requires Inv(w) && Considerate(w, Other(s))
    ensures Inv(Next(w, Other(s)))
  {
    var w' := Next(w, Other(s));
    P.NextKeepsInv(w.rde, s);
    forall t | t in w'.calls ensures Owned(w', t) {
      assert Owned(w, t);
      OtherCallsStay(w.rde, w.calls[t], s);
    }
  }

  lemma NextKeepsInv(w: World, s: Step)
    requires Inv(w) && Considerate(w, s)
    ensures Inv(Next(w, s))
  {
    match s
    case Volume(step) => VolumeKeepsInv(w, step);
    case StartUpdate(t, c) => StartKeepsInv(w, t, c);
    case Update(t, step) => UpdateKeepsInv(w, t, step);
    case Other(step) => OtherKeepsInv(w, step);
  }

  lemma {:induction false} RunKeepsInv(w: World, steps: seq<Step>)
    requires Inv(w) && ConsiderateRun(w, steps)
    ensures Inv(Run(w, steps))
    decreases |steps|
  {
    if steps != [] {
      NextKeepsInv(w, steps[0]);
      RunKeepsInv(Next(w, steps[0]), steps[1..]);
    }
  }

  // ----- whole runs -----

  /** What each machine does in a step of both is a step of it, or nothing. */
  lemma StepOfBoth(w: World, s: Step) returns (volume: seq<V.Step>, protocol: seq<P.Step>)
    ensures Next(w, s).vols == V.Run(w.vols, volume) && Next(w, s).rde == P.Run(w.rde, protocol)
  {
    volume, protocol := [], [];
    if Next(w, s).vols != w.vols {
      var step := VolumeStep(w, s);
      volume := [step];
      V.RunOfOne(w.vols, step);
    }
    if Next(w, s).rde != w.rde {
      var step := match s
        case StartUpdate(t, c) => P.Start(c, OpOf(w.vols.threads[t]))
        case Update(_, step) => step
        case Other(step) => step;
      protocol := [step];
      assert P.Run(w.rde, protocol) == P.Run(P.Next(w.rde, step), []);
    }
  }

  lemma VolumeStep(w: World, s: Step) returns (step: V.Step)
    requires Next(w, s).vols != w.vols
    ensures Next(w, s).vols == V.Next(w.vols, step)
  {
    match s
    case Volume(v) => step := v;
    case StartUpdate(t, _) =>
      var rde := Next(w, s).rde;
      step := V.Step(t, V.Index(|rde.log| > |w.rde.log|, rde.calls[s.call].phase.result == Nil));
    case Update(t, _) =>
      var rde := Next(w, s).rde;
      step := V.Step(t, V.Index(|rde.log| > |w.rde.log|, rde.calls[w.calls[t]].phase.result == Nil));
    case Other(_) =>
  }

  /** Every run of both machines is a run of each, so that what holds over the runs of either holds
      here. */
  lemma {:induction false} RunOfBoth(w: World, steps: seq<Step>) returns (volume: seq<V.Step>, protocol: seq<P.Step>)
    ensures Run(w, steps).vols == V.Run(w.vols, volume) && Run(w, steps).rde == P.Run(w.rde, protocol)
    decreases |steps|
  {
    volume, protocol := [], [];
    if steps != [] {
      var volume0, protocol0 := StepOfBoth(w, steps[0]);
      volume, protocol := RunOfBoth(Next(w, steps[0]), steps[1..]);
      V.RunConcat(w.vols, volume0, volume);
      P.RunConcat(w.rde, protocol0, protocol);
      volume, protocol := volume0 + volume, protocol0 + protocol;
    }
  }

  /** A controller without disks, on an entity. */
  function Init(zones: set<V.Ovdc>, limit: nat, rde: Rde): World {
    World(V.Init(zones, true), P.Init(limit, rde), map[])
  }

  /** In every run of both machines, whatever the handlers, their retries and the other parties do,
      as long as those leave the list alone, the entity lists, once each, exactly the live disks
      that were added to it and the deleted ones that were added and never removed. */
  lemma EntityListsTheDisks(zones: set<V.Ovdc>, limit: nat, rde: Rde, steps: seq<Step>)
    requires NativePvs(rde) == Ok([]) && ConsiderateRun(Init(zones, limit, rde), steps)
    ensures var w := Run(Init(zones, limit, rde), steps);
            && Safety.Reachable(w.vols) && P.Reachable(w.rde)
            && NativePvs(w.rde.rde).Ok?
            && var list, c := NativePvs(w.rde.rde).value, w.vols.cloud;
               && Index.NoRepeats(list)
               && (forall id :: id in list <==> id in c.indexed && (id in c.live || id !in c.unindexed))
  {
    var first := Init(zones, limit, rde);
    var w := Run(first, steps);
    var volume, protocol := RunOfBoth(first, steps);
    assert Safety.Reachable(w.vols) && P.Reachable(w.rde);
    assert V.Run(V.Init(zones, true), []) == V.Init(zones, true);
    Index.ReachableHolds(V.Init(zones, true));
    RdeGuarantees.InitHolds(limit, rde);
    RunKeepsInv(first, steps);
    Index.IndexAgreement(w.vols);
  }

  // ----- who is considerate -----

  lemma ConversionKeepsTheList(rde: Rde, version: string)
    ensures NativePvs(Migration.Applied(ConvertPlan(rde, version), rde)) == NativePvs(rde)
  {
    if ConvertPlan(rde, version).Send? {
      Migration.ConvertEffect(rde, version);
      Migration.LegacySurvivesConversion(rde, version);
    }
  }

  /** The conversions that a startup runs leave the list alone, whatever they race with. */
  lemma ConversionIsConsiderate(w: P.World, s: P.Step)
    requires P.Inv(w) && !s.Write? && (s.Put? && s.call in w.calls ==> w.calls[s.call].op.Convert?)
    ensures NativePvs(P.Next(w, s).rde) == NativePvs(w.rde)
  {
    if s.Put? {
      RdeGuarantees.PutWrites(w, s.call, s.applied, s.answer);
      if P.Next(w, s).rde != w.rde {
        RdeGuarantees.CurrentPut(w, s.call);
        ConversionKeepsTheList(w.rde, w.calls[s.call].op.version);
      }
    }
  }
}
