/** The driver's side of the RDE protocol, as the loops it runs: read, update in memory, put,
    and retry. Every method is a run of the state machine in RdeProtocol, under any interference
    between its requests. */
module RdeClients {
  import opened Wrappers
  import opened Documents
  import opened RdeUpdates
  import Migration
  import opened RdeProtocol
  import RdeOutcomes

  /** What the environment does in one pass of a retry loop: what others do before the GET and
      before the PUT, which requests get through, and how the PUT is to be answered. */
  datatype Round = Round(
    beforeGet: seq<Step>, orgOk: bool, getOk: bool, found: seq<Lookup>, managerOk: bool,
    beforePut: seq<Step>, orgStillOk: bool, applied: bool, answer: Answer)

  /** The steps of the others: whatever the environment wants, except to act for call `c`. */
  function OthersOf(c: CallId, steps: seq<Step>): (others: seq<Step>)
    ensures NoneBy(c, others)
  {
    if steps == [] then [] else (if By(c, steps[0]) then [] else [steps[0]]) + OthersOf(c, steps[1..])
  }

  /** An outcome that the server may give: the one the environment wants, if that is allowed. */
  function Outcome(w: World, readAt: nat, applied: bool, answer: Answer): (o: (bool, Answer))
    ensures Allowed(w, readAt, o.0, o.1)
    ensures Allowed(w, readAt, applied, answer) ==> o == (applied, answer)
  {
    if Allowed(w, readAt, applied, answer) then (applied, answer)
    else if readAt == |w.log| then (true, Answered(200, false))
    else (false, Answered(412, true))
  }

  // ----- what the environment makes of a call -----

  function Getting(w: World, c: CallId, round: Round): World {
    Next(Run(w, OthersOf(c, round.beforeGet)), Get(c, round.orgOk && round.getOk, round.found, round.managerOk))
  }

  /** Add and remove look up the organisation again before the PUT. */
  predicate Reaches(op: Op, round: Round) {
    op.Upgrade? || op.Convert? || round.orgStillOk
  }

  function PutStep(w: World, c: CallId, round: Round): Step
    requires c in w.calls && w.calls[c].phase.Writes?
  {
    var o := if Reaches(w.calls[c].op, round) then Outcome(w, w.calls[c].phase.readAt, round.applied, round.answer)
             else (false, Unanswered);
    Put(c, o.0, o.1)
  }

  function Putting(w: World, c: CallId, round: Round): World {
    var ready := Run(w, OthersOf(c, round.beforePut));
    if c in ready.calls && ready.calls[c].phase.Writes? then Next(ready, PutStep(ready, c, round)) else ready
  }

  /** One pass of a retry loop: a GET, and a PUT if the call has something to put. */
  function PlayRound(w: World, c: CallId, round: Round): World {
    var read := Getting(w, c, round);
    if c in read.calls && read.calls[c].phase.Writes? then Putting(read, c, round) else read
  }

  /** The passes from the i-th on, until the call is done. */
  function Play(w: World, c: CallId, script: seq<Round>, i: nat): World
    requires i <= |script|
    decreases |script| - i
  {
    if i == |script| || (c in w.calls && w.calls[c].phase.Done?) then w
    else Play(PlayRound(w, c, script[i]), c, script, i + 1)
  }

  lemma PlayGoesOn(w: World, c: CallId, script: seq<Round>, i: nat)
    requires i < |script| && c in w.calls && !w.calls[c].phase.Done?
    ensures Play(w, c, script, i) == Play(PlayRound(w, c, script[i]), c, script, i + 1)
  {
  }

  lemma PlayIsOver(w: World, c: CallId, script: seq<Round>, i: nat)
    requires i <= |script| && c in w.calls && w.calls[c].phase.Done?
    ensures Play(w, c, script, i) == w
  {
  }

  /** A call that is done stays as it is. */
  lemma {:induction false} DoneStays(w: World, c: CallId, steps: seq<Step>)
    requires c in w.calls && w.calls[c].phase.Done?
    ensures c in Run(w, steps).calls && Run(w, steps).calls[c] == w.calls[c]
    decreases |steps|
  {
    if steps != [] {
      DoneStays(Next(w, steps[0]), c, steps[1..]);
    }
  }

  /** A pass in which nobody interferes and nothing fails. */
  predicate Smooth(round: Round) {
    && round.beforeGet == [] && round.orgOk && round.getOk
    && round.beforePut == [] && round.applied && round.answer == Answered(200, false)
  }

  /** An undisturbed migration is over after one pass, and has made its update to the entity. */
  lemma SmoothMigration(w: World, c: CallId, op: Op, script: seq<Round>)
    requires c !in w.calls && (op.Upgrade? || op.Convert?) && w.limit > 0
    requires |script| > 0 && Smooth(script[0])
    ensures var w', plan := Play(Next(w, Start(c, op)), c, script, 0), PlanFor(op, w.rde, script[0].found, true);
            && w'.rde == Migration.Applied(plan, w.rde)
            && c in w'.calls && w'.calls[c].phase.Done?
            && !plan.Again? && w'.calls[c].phase.result == (if plan.Stop? then plan.result else Nil)
  {
    var started := Next(w, Start(c, op));
    var read := Getting(started, c, script[0]);
    assert read == Next(started, Get(c, true, script[0].found, script[0].managerOk));
    if op.Upgrade? {
      UpgradeSendsIff(w.rde, op.version, script[0].found);
    }
    if PlanFor(op, w.rde, script[0].found, true).Send? {
      assert Run(read, OthersOf(c, [])) == read;
      assert PutStep(read, c, script[0]) == Put(c, true, Answered(200, false));
    }
    var after := PlayRound(started, c, script[0]);
    assert after.calls[c].phase.Done?;
    assert Play(started, c, script, 0) == Play(after, c, script, 1) == after;
  }

  // ----- passes that are overtaken -----

  /** A pass in which others run between the GET and the PUT, and the PUT is answered with a 412. */
  function Overtaken(found: seq<Lookup>, others: seq<Step>): Round {
    Round([], true, true, found, true, others, true, false, Answered(412, true))
  }

  function LeftAlone(found: seq<Lookup>): Round {
    Round([], true, true, found, true, [], true, true, Answered(200, false))
  }

  lemma {:induction false} AllOthers(c: CallId, steps: seq<Step>)
    requires NoneBy(c, steps)
    ensures OthersOf(c, steps) == steps
  {
    if steps != [] {
      assert !By(c, steps[0]);
      AllOthers(c, steps[1..]);
    }
  }

  lemma OvertakenPass(w: World, c: CallId, op: Op, found: seq<Lookup>, others: seq<Step>, tries: nat)
    requires c in w.calls && w.calls[c].op == op && w.calls[c].phase == Reads(tries)
    requires RdeOutcomes.HasWork(op, w.rde) && RdeOutcomes.Answers(found) && NoneBy(c, others)
    requires |Run(Next(w, Get(c, true, found, true)), others).log| > |w.log|
    ensures PlayRound(w, c, Overtaken(found, others)) == Run(w, RdeOutcomes.Try(c, found, others))
  {
    RdeOutcomes.ReadForWork(w, c, op, found, tries);
    RdeOutcomes.TryIs(w, c, found, others);
    AllOthers(c, others);
    var read := Next(w, Get(c, true, found, true));
    assert Getting(w, c, Overtaken(found, others)) == read;
    OthersLeaveCall(read, c, others);
    assert PutStep(Run(read, others), c, Overtaken(found, others)) == Put(c, false, Answered(412, true));
  }

  lemma LastPass(w: World, c: CallId, op: Op, found: seq<Lookup>, tries: nat)
    requires c in w.calls && w.calls[c].op == op && w.calls[c].phase == Reads(tries)
    requires RdeOutcomes.HasWork(op, w.rde) && RdeOutcomes.Answers(found)
    ensures PlayRound(w, c, LeftAlone(found)) == Run(w, [Get(c, true, found, true), Put(c, true, Answered(200, false))])
  {
    var get, put := Get(c, true, found, true), Put(c, true, Answered(200, false));
    RdeOutcomes.ReadForWork(w, c, op, found, tries);
    var read := Next(w, get);
    assert Getting(w, c, LeftAlone(found)) == read;
    assert PutStep(read, c, LeftAlone(found)) == put;
    assert [get, put][1..] == [put] && [put][1..] == [];
    assert Run(w, [get, put]) == Run(read, [put]) == Run(Next(read, put), []);
  }

  lemma OvertakenPassPlays(w: World, c: CallId, op: Op, found: seq<Lookup>, others: seq<Step>,
                           script: seq<Round>, i: nat)
    requires c in w.calls && w.calls[c].op == op && w.calls[c].phase == Reads(i)
    requires RdeOutcomes.HasWork(op, w.rde) && RdeOutcomes.Answers(found) && NoneBy(c, others)
    requires |Run(Next(w, Get(c, true, found, true)), others).log| > |w.log|
    requires i + 1 < |script| == w.limit && script[i] == Overtaken(found, others)
    ensures var w1 := Run(w, RdeOutcomes.Try(c, found, others));
            && Play(w, c, script, i) == Play(w1, c, script, i + 1)
            && c in w1.calls && w1.calls[c].op == op && w1.calls[c].phase == Reads(i + 1) && w1.limit == w.limit
  {
    OvertakenPass(w, c, op, found, others, i);
    RdeOutcomes.OvertakenTry(w, c, op, found, others, i);
    PlayGoesOn(w, c, script, i);
  }

  /** From the i-th pass on, the script has these rounds in which the call is overtaken. */
  predicate HasRounds(script: seq<Round>, i: nat, found: seq<Lookup>, rounds: seq<seq<Step>>) {
    i + |rounds| < |script| && forall j: nat | j < |rounds| :: script[i + j] == Overtaken(found, rounds[j])
  }

  lemma RoundsGoOn(script: seq<Round>, i: nat, found: seq<Lookup>, rounds: seq<seq<Step>>)
    requires HasRounds(script, i, found, rounds) && rounds != []
    ensures script[i] == Overtaken(found, rounds[0]) && HasRounds(script, i + 1, found, rounds[1..])
  {
    assert script[i + 0] == Overtaken(found, rounds[0]);
    forall j: nat | j < |rounds[1..]| ensures script[i + 1 + j] == Overtaken(found, rounds[1..][j]) {
      assert script[i + (j + 1)] == Overtaken(found, rounds[j + 1]);
    }
  }

  lemma {:induction false} OvertakenPasses(w: World, c: CallId, op: Op, found: seq<Lookup>, rounds: seq<seq<Step>>,
                                           script: seq<Round>, i: nat, late: World, k: nat)
    requires c in w.calls && w.calls[c].op == op && w.calls[c].phase == Reads(i)
    requires RdeOutcomes.Overtakes(w, c, op, found, rounds) && RdeOutcomes.Answers(found)
    requires |script| == w.limit && HasRounds(script, i, found, rounds)
    requires late == Run(w, RdeOutcomes.Tries(c, found, rounds)) && k == i + |rounds|
    ensures Play(w, c, script, i) == Play(late, c, script, k)
    decreases |rounds|
  {
    if rounds == [] {
      assert late == w;
    } else {
      var w1 := Run(w, RdeOutcomes.Try(c, found, rounds[0]));
      RdeOutcomes.FirstRound(w, c, op, found, rounds);
      RdeOutcomes.RunOfTries(w, c, found, rounds);
      RoundsGoOn(script, i, found, rounds);
      OvertakenPassPlays(w, c, op, found, rounds[0], script, i);
      OvertakenPasses(w1, c, op, found, rounds[1..], script, i + 1, late, k);
    }
  }

  /** What the retry loops of an add, a removal and an upgrade come to when their first passes, fewer
      than the limit, are overtaken and the next is left alone: success, with one commit. */
  lemma LoopSucceedsAtLast(w: World, c: CallId, op: Op, found: seq<Lookup>, rounds: seq<seq<Step>>, script: seq<Round>)
    requires c !in w.calls && |rounds| < w.limit == |script| && RdeOutcomes.Answers(found)
    requires RdeOutcomes.Overtakes(Next(w, Start(c, op)), c, op, found, rounds)
    requires HasRounds(script, 0, found, rounds) && script[|rounds|] == LeftAlone(found)
    ensures var late := Run(Next(w, Start(c, op)), RdeOutcomes.Tries(c, found, rounds));
            var w' := Play(Next(w, Start(c, op)), c, script, 0);
            && c in w'.calls && w'.calls[c].phase == Done(Nil, |late.log|)
            && w.log <= late.log && w'.log == late.log + [Own(c, op, found)]
            && forall i | |w.log| <= i < |w'.log| :: CommittedAt(w', c, i) <==> i == |late.log|
  {
    var started := Next(w, Start(c, op));
    RdeOutcomes.OvertakenTries(started, c, op, found, rounds, 0);
    var late := Run(started, RdeOutcomes.Tries(c, found, rounds));
    OvertakenPasses(started, c, op, found, rounds, script, 0, late, |rounds|);
    RdeOutcomes.RetriesSucceed(w, c, op, found, rounds);
    LastPass(late, c, op, found, |rounds|);
    PlayGoesOn(late, c, script, |rounds|);
    PlayIsOver(PlayRound(late, c, LeftAlone(found)), c, script, |rounds| + 1);
  }

  /** A JSON object that is updated in place. */
  class JsonObject {
    var fields: Fields

    constructor (fields: Fields)
      ensures this.fields == fields
    {
      this.fields := fields;
    }
  }

  // ----- the utilities of defined_entity_util.go -----

  method PvStrings(items: seq<Json>) returns (pvs: Result<array<string>>)
    ensures pvs.Ok? <==> AllStrings(items)
    ensures pvs.Ok? ==> fresh(pvs.value) && pvs.value[..] == Strings(items)
  {
    var strs := new string[|items|];
    for idx := 0 to |items|
      invariant forall i :: 0 <= i < idx ==> items[i].Str? && strs[i] == items[i].s
    {
      if !items[idx].Str? {
        return Err;
      }
      strs[idx] := items[idx].s;
    }
    assert strs[..] == Strings(items);
    return Ok(strs);
  }

  /** GetOldPVsFromRDE, and the last part of GetPVsFromRDE */
  method GetListedPvs(status: Fields) returns (pvs: Result<array<string>>)
    ensures pvs.Ok? <==> ListedPvs(status).Ok?
    ensures pvs.Ok? ==> fresh(pvs.value) && pvs.value[..] == ListedPvs(status).value
  {
    if PERSISTENT_VOLUMES !in status || status[PERSISTENT_VOLUMES].Null? {
      var none := new string[0];
      assert none[..] == [];
      return Ok(none);
    }
    if !status[PERSISTENT_VOLUMES].Arr? {
      return Err;
    }
    pvs := PvStrings(status[PERSISTENT_VOLUMES].items);
  }

  /** GetPVsFromRDE */
  method GetNativePvs(rde: Rde) returns (pvs: Result<array<string>>)
    ensures pvs.Ok? <==> NativePvs(rde).Ok?
    ensures pvs.Ok? ==> fresh(pvs.value) && pvs.value[..] == NativePvs(rde).value
  {
    if STATUS !in rde.entity || !rde.entity[STATUS].Obj? || !rde.kind.Native? {
      return Err;
    }
    pvs := GetListedPvs(rde.entity[STATUS].fields);
  }

  /** The first index of `x`, or the length if it is not there. */
  method FirstIndex(pvs: array<string>, x: string) returns (idx: nat)
    ensures idx <= pvs.Length && x !in pvs[..idx]
    ensures idx < pvs.Length ==> pvs[idx] == x
  {
    idx := 0;
    while idx < pvs.Length
      invariant idx <= pvs.Length && x !in pvs[..idx]
    {
      if pvs[idx] == x {
        return;
      }
      idx := idx + 1;
    }
  }

  /** append(pvs[:k], pvs[k+1:]...): the tail moves down by one in the backing array, whose last
      slot falls outside the slice. */
  method RemoveInPlace(pvs: array<string>, k: nat)
    requires k < pvs.Length
    modifies pvs
    ensures pvs[..pvs.Length - 1] == old(pvs[..k] + pvs[k + 1..])
  {
    var i := k;
    while i + 1 < pvs.Length
      invariant k <= i < pvs.Length
      invariant forall j :: 0 <= j < k ==> pvs[j] == old(pvs[j])
      invariant forall j :: k <= j < i ==> pvs[j] == old(pvs[j + 1])
      invariant forall j :: i < j < pvs.Length ==> pvs[j] == old(pvs[j])
    {
      pvs[i] := pvs[i + 1];
      i := i + 1;
    }
    assert |pvs[..pvs.Length - 1]| == |old(pvs[..k] + pvs[k + 1..])|;
  }

  lemma {:induction false} RemoveFirstAt(s: seq<string>, x: string, k: nat)
    requires k < |s| && s[k] == x && x !in s[..k]
    ensures RemoveFirst(s, x) == s[..k] + s[k + 1..]
  {
    if k > 0 {
      assert s[0] in s[..k];
      assert s[1..][..k - 1] == s[..k][1..];
      RemoveFirstAt(s[1..], x, k - 1);
      assert s[..k] == [s[0]] + s[1..][..k - 1];
    }
  }

  /** addToVCDResourceSet works on the status map in place. When it fails on an unreadable section
      it has already overwritten the section's name and version, in memory only. */
  method AddToVcdResourceSet(status: JsonObject, version: string, resources: seq<Resource>) returns (ok: bool)
    modifies status
    ensures ok <==> AddToResourceSet(old(status.fields), version, resources).Ok?
    ensures ok ==> status.fields == AddToResourceSet(old(status.fields), version, resources).value
    ensures !ok && !old(status.fields)[CSI].Obj? ==> status.fields == old(status.fields)
    ensures !ok && old(status.fields)[CSI].Obj? ==>
              var section := old(status.fields)[CSI].fields[NAME := Str(CSI_NAME)][VERSION := Str(version)];
              status.fields == old(status.fields)[CSI := Obj(section)]
  {
    if CSI !in status.fields {
      var created := map[NAME := Str(CSI_NAME), VERSION := Str(version), RESOURCE_SET := EncodeResources(resources)];
      status.fields := status.fields[CSI := Obj(created)];
      return true;
    }
    if !status.fields[CSI].Obj? {
      return false;
    }
    ghost var before := status.fields[CSI].fields;
    var section := new JsonObject(status.fields[CSI].fields);
    section.fields := section.fields[NAME := Str(CSI_NAME)];
    section.fields := section.fields[VERSION := Str(version)];
    var component := DecodeComponent(section.fields);
    NamesDoNotMatter(before, version);
    if component.Ok? {
      if component.value == [] {
        section.fields := section.fields[RESOURCE_SET := EncodeResources(resources)];
        assert [] + resources == resources;
      } else {
        section.fields := section.fields[RESOURCE_SET := EncodeResources(component.value + resources)];
      }
    }
    status.fields := status.fields[CSI := Obj(section.fields)];
    ok := component.Ok?;
  }

  lemma NamesDoNotMatter(section: Fields, version: string)
    ensures DecodeComponent(section[NAME := Str(CSI_NAME)][VERSION := Str(version)]) == DecodeComponent(section)
  {
    KeysDiffer();
    var after := section[NAME := Str(CSI_NAME)][VERSION := Str(version)];
    assert ListField(after, RESOURCE_SET) == ListField(section, RESOURCE_SET);
    assert ListField(after, ERROR_SET) == ListField(section, ERROR_SET);
    assert ListField(after, EVENT_SET) == ListField(section, EVENT_SET);
  }

  /** The disk manager's view of the RDE server, shared with every other party. */
  class DiskManager {
    var world: World
    ghost var trace: seq<Step>

    /** The world is where the recorded steps lead from a fresh server. */
    ghost predicate Valid()
      reads this
    {
      world == Run(Init(world.limit, world.first), trace)
    }

    lemma KeepsInv()
      requires Valid()
      ensures Inv(world)
    {
      assert Inv(Init(world.limit, world.first));
      RunKeepsInv(Init(world.limit, world.first), trace);
    }

    constructor (limit: nat, rde: Rde)
      ensures Valid() && world == Init(limit, rde)
    {
      world := Init(limit, rde);
      trace := [];
    }

    method Take(s: Step)
      requires Valid()
      modifies this
      ensures Valid() && world == Next(old(world), s) && trace == old(trace) + [s]
    {
      RunConcat(Init(world.limit, world.first), trace, [s]);
      assert Run(world, [s]) == Next(world, s);
      world := Next(world, s);
      trace := trace + [s];
    }

    /** Others run, between two requests of call `c`. */
    method Interfere(c: CallId, steps: seq<Step>)
      requires Valid() && c in world.calls
      modifies this
      ensures Valid() && world == Run(old(world), OthersOf(c, steps)) && trace == old(trace) + OthersOf(c, steps)
      ensures Continues(c, old(world.calls[c].op)) && world.calls[c] == old(world.calls[c])
    {
      var others := OthersOf(c, steps);
      RunConcat(Init(world.limit, world.first), trace, others);
      OthersLeaveCall(world, c, others);
      world := Run(world, others);
      trace := trace + others;
    }

    /** The call is still `op`, and the world has only moved on. */
    twostate predicate Continues(c: CallId, op: Op)
      reads this
    {
      && c in world.calls && world.calls[c].op == op
      && world.limit == old(world.limit) && world.first == old(world.first)
      && old(trace) <= trace
    }

    /** After `i` passes a call either has tries left or has given up. */
    ghost predicate Pass(c: CallId, i: nat)
      requires c in world.calls
      reads this
    {
      if i < world.limit then world.calls[c].phase == Reads(i)
      else world.calls[c].phase.Done? && world.calls[c].phase.result == Exhausted
    }

    ghost predicate AfterRead(c: CallId, tries: nat, rde: Rde, etag: nat, round: Round)
      requires c in world.calls
      reads this
    {
      match PlanFor(world.calls[c].op, rde, round.found, round.managerOk)
      case Stop(result) => world.calls[c].phase.Done? && world.calls[c].phase.result == result
      case Again => Pass(c, tries + 1)
      case Send(next) => world.calls[c].phase == Writes(tries, etag, rde, round.found, next)
    }

    ghost predicate AfterPut(c: CallId, verdict: Verdict, tries: nat)
      requires c in world.calls
      reads this
    {
      match verdict
      case Finish(result) => world.calls[c].phase.Done? && world.calls[c].phase.result == result
      case Retry => Pass(c, tries + 1)
    }

    method StartCall(c: CallId, op: Op)
      requires Valid() && c !in world.calls
      modifies this
      ensures Valid() && Continues(c, op) && Pass(c, 0)
      ensures world == Next(old(world), Start(c, op))
    {
      Take(Start(c, op));
    }

    /** An identifier that no call has yet. */
    method FreshCall() returns (c: CallId)
      ensures c !in world.calls
    {
      c := 0;
      ghost var seen: set<CallId> := {};
      while c in world.calls
        invariant forall i: CallId :: i in seen <==> i < c
        invariant seen <= world.calls.Keys
        decreases world.calls.Keys - seen
      {
        seen := seen + {c};
        c := c + 1;
      }
    }

    /** Looks up the organisation and reads the entity with its etag. */
    method GetDefinedEntity(c: CallId, round: Round) returns (got: Option<(Rde, nat)>)
      requires Valid() && c in world.calls && world.calls[c].phase.Reads?
      modifies this
      ensures Valid() && Continues(c, old(world.calls[c].op))
      ensures got.Some? <==> round.orgOk && round.getOk
      ensures world == Next(old(world), Get(c, round.orgOk && round.getOk, round.found, round.managerOk))
      ensures got.None? ==> world.calls[c].phase.Done? && world.calls[c].phase.result == Error
      ensures got.Some? ==> AfterRead(c, old(world.calls[c].phase.tries), got.value.0, got.value.1, round)
    {
      got := if round.orgOk && round.getOk then Some((world.rde, |world.log|)) else None;
      KeepsInv();
      assert CallInv(world, c, world.calls[c]);
      Take(Get(c, got.Some?, round.found, round.managerOk));
    }

    /** Puts the entity back under the etag it was read with. Without a second organisation
        lookup there is no request, hence no response. */
    method UpdateDefinedEntity(c: CallId, rde: Rde, etag: nat, reached: bool, round: Round) returns (answer: Answer)
      requires Valid() && c in world.calls && world.calls[c].phase.Writes?
      requires world.calls[c].phase.next == rde && world.calls[c].phase.readAt == etag
      requires reached <==> Reaches(world.calls[c].op, round)
      modifies this
      ensures Valid() && Continues(c, old(world.calls[c].op))
      ensures world == Next(old(world), PutStep(old(world), c, round))
      ensures !reached ==> answer == Unanswered && world.rde == old(world.rde) && world.log == old(world.log)
      ensures AfterPut(c, Judge(old(world.calls[c].op), answer), old(world.calls[c].phase.tries))
    {
      var o := if reached then Outcome(world, etag, round.applied, round.answer) else (false, Unanswered);
      answer := o.1;
      KeepsInv();
      assert CallInv(world, c, world.calls[c]);
      PassAfterPut(world, c, o.0, o.1);
      Take(Put(c, o.0, o.1));
    }

    method Read(c: CallId, round: Round) returns (got: Option<(Rde, nat)>)
      requires Valid() && c in world.calls && world.calls[c].phase.Reads?
      modifies this
      ensures Valid() && Continues(c, old(world.calls[c].op))
      ensures got.None? ==> world.calls[c].phase.Done? && world.calls[c].phase.result == Error
      ensures got.Some? ==> AfterRead(c, old(world.calls[c].phase.tries), got.value.0, got.value.1, round)
      ensures world == Getting(old(world), c, round)
    {
      Interfere(c, round.beforeGet);
      got := GetDefinedEntity(c, round);
    }

    method PutBack(c: CallId, rde: Rde, etag: nat, reached: bool, round: Round) returns (answer: Answer)
      requires Valid() && c in world.calls && world.calls[c].phase.Writes?
      requires world.calls[c].phase.next == rde && world.calls[c].phase.readAt == etag
      requires reached <==> Reaches(world.calls[c].op, round)
      modifies this
      ensures Valid() && Continues(c, old(world.calls[c].op))
      ensures world == Putting(old(world), c, round)
      ensures !reached ==> answer == Unanswered
      ensures AfterPut(c, Judge(old(world.calls[c].op), answer), old(world.calls[c].phase.tries))
    {
      Interfere(c, round.beforePut);
      answer := UpdateDefinedEntity(c, rde, etag, reached, round);
    }

    /** What a pass of a retry loop leaves behind. */
    twostate predicate Passed(c: CallId, op: Op, script: seq<Round>, i: nat, verdict: Verdict)
      requires i < |script|
      reads this
    {
      && Valid() && Continues(c, op)
      && Play(old(world), c, script, i) == Play(world, c, script, i + 1)
      && AfterPut(c, verdict, i)
    }

    /** One pass of addPvToRDE: a retry only on 412. */
    method TryAddPv(c: CallId, id: string, name: string, script: seq<Round>, i: nat) returns (verdict: Verdict)
      requires Valid() && c in world.calls && world.calls[c].op == AddPv(id, name)
      requires i < |script| == world.limit && Pass(c, i)
      modifies this
      ensures Passed(c, AddPv(id, name), script, i, verdict)
    {
      var round := script[i];
      PlayGoesOn(world, c, script, i);
      var got := Read(c, round);
      if got.None? {
        return Finish(Error);
      }
      var (rde, etag) := got.value;
      match rde.kind
      case Native =>
        var plan := NativeAdd(rde, id, name);
        if plan.Stop? {
          return Finish(plan.result);
        }
        var answer := PutBack(c, plan.rde, etag, round.orgStillOk, round);
        if answer.Unanswered? {
          return Finish(Panic);
        }
        if answer.err {
          return if answer.status == 412 then Retry else Finish(Error);
        }
        return Finish(Nil);
      case Capvcd => return Finish(if round.managerOk then Nil else Error);
      case Unsupported => return Finish(Error);
    }

    /** addPvToRDE */
    method AddPvToRde(c: CallId, id: string, name: string, script: seq<Round>) returns (result: CallResult)
      requires Valid() && c !in world.calls && |script| == world.limit
      modifies this
      ensures Valid() && Continues(c, AddPv(id, name))
      ensures world.calls[c].phase.Done? && world.calls[c].phase.result == result
      ensures world == Play(Next(old(world), Start(c, AddPv(id, name))), c, script, 0)
    {
      StartCall(c, AddPv(id, name));
      for i := 0 to |script|
        invariant Valid() && Continues(c, AddPv(id, name)) && Pass(c, i)
        invariant Play(Next(old(world), Start(c, AddPv(id, name))), c, script, 0) == Play(world, c, script, i)
      {
        var verdict := TryAddPv(c, id, name, script, i);
        if verdict.Finish? {
          return verdict.result;
        }
      }
      return Exhausted;
    }

    /** One pass of removePvFromRDE: an entity of an unknown type goes round the loop as well. */
    method TryRemovePv(c: CallId, id: string, script: seq<Round>, i: nat) returns (verdict: Verdict)
      requires Valid() && c in world.calls && world.calls[c].op == RemovePv(id)
      requires i < |script| == world.limit && Pass(c, i)
      modifies this
      ensures Passed(c, RemovePv(id), script, i, verdict)
    {
      var round := script[i];
      PlayGoesOn(world, c, script, i);
      var got := Read(c, round);
      if got.None? {
        return Finish(Error);
      }
      var (rde, etag) := got.value;
      match rde.kind
      case Native =>
        var plan := NativeRemove(rde, id);
        if plan.Stop? {
          return Finish(plan.result);
        }
        var answer := PutBack(c, plan.rde, etag, round.orgStillOk, round);
        if answer.Answered? && !answer.err {
          return Finish(Nil);
        }
        if answer.Unanswered? {
          return Finish(Panic);
        }
        return if answer.status != 412 then Finish(Error) else Retry;
      case Capvcd => return Finish(if round.managerOk then Nil else Error);
      case Unsupported => return Retry;
    }

    /** removePvFromRDE */
    method RemovePvFromRde(c: CallId, id: string, script: seq<Round>) returns (result: CallResult)
      requires Valid() && c !in world.calls && |script| == world.limit
      modifies this
      ensures Valid() && Continues(c, RemovePv(id))
      ensures world.calls[c].phase.Done? && world.calls[c].phase.result == result
      ensures world == Play(Next(old(world), Start(c, RemovePv(id))), c, script, 0)
    {
      StartCall(c, RemovePv(id));
      for i := 0 to |script|
        invariant Valid() && Continues(c, RemovePv(id)) && Pass(c, i)
        invariant Play(Next(old(world), Start(c, RemovePv(id))), c, script, 0) == Play(world, c, script, i)
      {
        var verdict := TryRemovePv(c, id, script, i);
        if verdict.Finish? {
          return verdict.result;
        }
      }
      return Exhausted;
    }

    /** One pass of UpgradeRDEPersistentVolumes: a retry on any answer but 200. */
    method TryUpgrade(c: CallId, version: string, script: seq<Round>, i: nat) returns (verdict: Verdict)
      requires Valid() && c in world.calls && world.calls[c].op == Upgrade(version)
      requires i < |script| == world.limit && Pass(c, i)
      modifies this
      ensures Passed(c, Upgrade(version), script, i, verdict)
    {
      var round := script[i];
      PlayGoesOn(world, c, script, i);
      var got := Read(c, round);
      if got.None? {
        return Finish(Error);
      }
      var (rde, etag) := got.value;
      var plan := UpgradeInMemory(rde, version, round.found);
      if plan.Stop? {
        return Finish(plan.result);
      }
      var answer := PutBack(c, plan.rde, etag, true, round);
      return if answer.Answered? && answer.status != 200 then Retry else Finish(Nil);
    }

    /** UpgradeRDEPersistentVolumes */
    method UpgradeRdePersistentVolumes(c: CallId, version: string, script: seq<Round>) returns (result: CallResult)
      requires Valid() && c !in world.calls && |script| == world.limit
      modifies this
      ensures Valid() && Continues(c, Upgrade(version))
      ensures world.calls[c].phase.Done? && world.calls[c].phase.result == result
      ensures world == Play(Next(old(world), Start(c, Upgrade(version))), c, script, 0)
    {
      StartCall(c, Upgrade(version));
      for i := 0 to |script|
        invariant Valid() && Continues(c, Upgrade(version)) && Pass(c, i)
        invariant Play(Next(old(world), Start(c, Upgrade(version))), c, script, 0) == Play(world, c, script, i)
      {
        var verdict := TryUpgrade(c, version, script, i);
        if verdict.Finish? {
          return verdict.result;
        }
      }
      return Exhausted;
    }

    /** One pass of ConvertToLatestCSIVersionFormat: an error ends it, even a 412. */
    method TryConvert(c: CallId, version: string, script: seq<Round>, i: nat) returns (verdict: Verdict)
      requires Valid() && c in world.calls && world.calls[c].op == Convert(version)
      requires i < |script| == world.limit && Pass(c, i)
      modifies this
      ensures Passed(c, Convert(version), script, i, verdict)
    {
      var round := script[i];
      PlayGoesOn(world, c, script, i);
      var got := Read(c, round);
      if got.None? {
        return Finish(Error);
      }
      var (rde, etag) := got.value;
      var plan := ConvertInMemory(rde, version);
      if plan.Stop? {
        return Finish(plan.result);
      }
      var answer := PutBack(c, plan.rde, etag, true, round);
      if answer.Unanswered? || answer.err {
        return Finish(Error);
      }
      return if answer.status != 200 then Retry else Finish(Nil);
    }

    /** ConvertToLatestCSIVersionFormat */
    method ConvertToLatestCsiVersionFormat(c: CallId, version: string, script: seq<Round>) returns (result: CallResult)
      requires Valid() && c !in world.calls && |script| == world.limit
      modifies this
      ensures Valid() && Continues(c, Convert(version))
      ensures world.calls[c].phase.Done? && world.calls[c].phase.result == result
      ensures world == Play(Next(old(world), Start(c, Convert(version))), c, script, 0)
    {
      StartCall(c, Convert(version));
      for i := 0 to |script|
        invariant Valid() && Continues(c, Convert(version)) && Pass(c, i)
        invariant Play(Next(old(world), Start(c, Convert(version))), c, script, 0) == Play(world, c, script, i)
      {
        var verdict := TryConvert(c, version, script, i);
        if verdict.Finish? {
          return verdict.result;
        }
      }
      return Exhausted;
    }

    /** Setup: upgrade first, on a CAPVCD cluster, and convert unless that failed. The result is
        that of the last call made. */
    method Setup(upgradeRde: bool, validId: bool, isCapvcd: bool, version: string,
                 upgradeScript: seq<Round>, convertScript: seq<Round>)
      returns (result: CallResult, ghost upgrade: CallId, ghost convert: CallId)
      requires Valid() && |upgradeScript| == |convertScript| == world.limit
      modifies this
      ensures Valid() && world.limit == old(world.limit) && old(trace) <= trace
      ensures !upgradeRde || !validId ==> result == Nil && world == old(world)
      ensures upgradeRde && validId && isCapvcd ==> upgrade !in old(world.calls) && Finished(upgrade, Upgrade(version))
      ensures upgradeRde && validId ==>
                if isCapvcd && world.calls[upgrade].phase.result != Nil then
                  result == world.calls[upgrade].phase.result
                else
                  && convert !in old(world.calls) && Finished(convert, Convert(version))
                  && result == world.calls[convert].phase.result
      ensures upgradeRde && validId && world.limit > 0 && Smooth(upgradeScript[0]) && Smooth(convertScript[0]) ==>
                world.rde == Migration.Startup(old(world.rde), isCapvcd, version, upgradeScript[0].found)
    {
      result, upgrade, convert := Nil, 0, 0;
      if !upgradeRde {
        return;
      }
      if !validId {
        return;
      }
      if isCapvcd {
        var first := FreshCall();
        upgrade := first;
        if world.limit > 0 && Smooth(upgradeScript[0]) {
          SmoothMigration(world, first, Upgrade(version), upgradeScript);
          UpgradeSendsIff(world.rde, version, upgradeScript[0].found);
        }
        result := UpgradeRdePersistentVolumes(first, version, upgradeScript);
        if result != Nil {
          return;
        }
      }
      ghost var upgraded, soFar := world, trace;
      var last := FreshCall();
      assert isCapvcd ==> upgrade in world.calls;
      convert := last;
      assert convert !in old(world.calls) by {
        OldCallsRemain(old(world), old(trace));
      }
      if world.limit > 0 && Smooth(convertScript[0]) {
        SmoothMigration(world, last, Convert(version), convertScript);
      }
      result := ConvertToLatestCsiVersionFormat(last, version, convertScript);
      if isCapvcd {
        UpgradeIsRemembered(upgraded, soFar, upgrade);
      }
    }

    ghost predicate Finished(c: CallId, op: Op)
      reads this
    {
      c in world.calls && world.calls[c].op == op && world.calls[c].phase.Done?
    }

    /** Nothing is ever forgotten of a call that was done at some earlier point of the trace. */
    lemma UpgradeIsRemembered(before: World, soFar: seq<Step>, c: CallId)
      requires Valid() && soFar <= trace && before == Run(Init(world.limit, world.first), soFar)
      requires c in before.calls && before.calls[c].phase.Done?
      ensures c in world.calls && world.calls[c] == before.calls[c]
    {
      var rest := trace[|soFar|..];
      assert trace == soFar + rest;
      RunConcat(Init(world.limit, world.first), soFar, rest);
      DoneStays(before, c, rest);
    }

    lemma OldCallsRemain(before: World, soFar: seq<Step>)
      requires Valid() && soFar <= trace && before == Run(Init(world.limit, world.first), soFar)
      ensures before.calls.Keys <= world.calls.Keys
    {
      var rest := trace[|soFar|..];
      assert trace == soFar + rest;
      RunConcat(Init(world.limit, world.first), soFar, rest);
      CallsRemain(before, rest);
    }
  }

  lemma {:induction false} CallsRemain(w: World, steps: seq<Step>)
    ensures w.calls.Keys <= Run(w, steps).calls.Keys
    decreases |steps|
  {
    if steps != [] {
      CallsRemain(Next(w, steps[0]), steps[1..]);
    }
  }

  /** The body of ConvertToLatestCSIVersionFormat between its GET and its PUT. */
  method ConvertInMemory(rde: Rde, version: string) returns (plan: Plan)
    ensures !plan.Again? && plan == ConvertPlan(rde, version)
  {
    if STATUS !in rde.entity || !rde.entity[STATUS].Obj? {
      return Stop(Error);
    }
    var newStatus := new JsonObject(rde.entity[STATUS].fields);
    if CSI !in newStatus.fields || !newStatus.fields[CSI].Obj? {
      return Stop(Nil);
    }
    var decoded := DecodeStatus(newStatus.fields[CSI].fields);
    if decoded.Err? {
      return Stop(Error);
    }
    var csiStatus := decoded.value.(version := version);
    newStatus.fields := newStatus.fields[CSI := Obj(EncodeStatus(csiStatus))];
    return Send(WithStatus(rde, newStatus.fields));
  }

  method NativeAdd(rde: Rde, id: string, name: string) returns (plan: Plan)
    requires rde.kind.Native?
    ensures !plan.Again? && plan == AddPlan(rde, id, name, true)
  {
    var currPvs := GetNativePvs(rde);
    if currPvs.Err? {
      return Stop(Error);
    }
    var idx := FirstIndex(currPvs.value, name);
    if idx < currPvs.value.Length {
      return Stop(Nil);
    }
    assert currPvs.value[..idx] == currPvs.value[..];
    return Send(WithPvs(rde, currPvs.value[..] + [id]));
  }

  method NativeRemove(rde: Rde, id: string) returns (plan: Plan)
    requires rde.kind.Native?
    ensures !plan.Again? && plan == RemovePlan(rde, id, true)
  {
    var currPvs := GetNativePvs(rde);
    if currPvs.Err? {
      return Stop(Error);
    }
    var pvs := currPvs.value;
    var foundIdx := FirstIndex(pvs, id);
    if foundIdx == pvs.Length {
      assert pvs[..foundIdx] == pvs[..];
      return Stop(Nil);
    }
    RemoveFirstAt(pvs[..], id, foundIdx);
    assert pvs[..][..foundIdx] == pvs[..foundIdx] && pvs[..][foundIdx + 1..] == pvs[foundIdx + 1..];
    RemoveInPlace(pvs, foundIdx);
    return Send(WithPvs(rde, pvs[..pvs.Length - 1]));
  }

  /** The body of UpgradeRDEPersistentVolumes between its GET and its PUT. */
  method UpgradeInMemory(rde: Rde, version: string, found: seq<Lookup>) returns (plan: Plan)
    ensures !plan.Again? && plan == UpgradePlan(rde, version, found)
  {
    if STATUS !in rde.entity || !rde.entity[STATUS].Obj? {
      return Stop(Nil);
    }
    var status := new JsonObject(rde.entity[STATUS].fields);
    var oldPvs := GetListedPvs(status.fields);
    if oldPvs.Err? {
      return Stop(Nil);
    }
    if oldPvs.value.Length > 0 {
      var entries := PvDetails(oldPvs.value, found);
      if entries.Err? {
        return Stop(Panic);
      }
      var ok := AddToVcdResourceSet(status, version, entries.value);
      if !ok {
        return Stop(Nil);
      }
    }
    status.fields := status.fields - {PERSISTENT_VOLUMES};
    return Send(WithStatus(rde, status.fields));
  }

  /** One disk lookup per legacy id; the error is a lookup that crashes. */
  method PvDetails(oldPvs: array<string>, found: seq<Lookup>) returns (details: Result<seq<Resource>>)
    ensures details.Err? <==> exists i | 0 <= i < oldPvs.Length :: LookupAt(found, i).Crashes?
    ensures details.Ok? ==> details.value == Entries(oldPvs[..], found)
  {
    var list := new Resource[oldPvs.Length](_ => Resource("", "", "", map[]));
    for idx := 0 to oldPvs.Length
      invariant fresh(list) && list.Length == oldPvs.Length
      invariant forall i :: 0 <= i < idx ==>
                !LookupAt(found, i).Crashes? && list[i] == EntryFor(oldPvs[i], LookupAt(found, i))
    {
      var diskName, diskId := "", oldPvs[idx];
      match LookupAt(found, idx) {
        case Crashes => return Err;
        case Miss =>
        case Hit(id, name) => diskName, diskId := name, id;
      }
      list[idx] := Resource(NAMED_DISK, diskId, diskName, map[]);
    }
    return Ok(list[..]);
  }

  /** The machine's view of a judged answer: done, or one try further. */
  lemma PassAfterPut(w: World, c: CallId, applied: bool, answer: Answer)
    requires c in w.calls && w.calls[c].phase.Writes? && Allowed(w, w.calls[c].phase.readAt, applied, answer)
    ensures var w', tries := NextPut(w, c, applied, answer), w.calls[c].phase.tries;
            && c in w'.calls && w'.calls[c].op == w.calls[c].op && w'.limit == w.limit && w'.first == w.first
            && match Judge(w.calls[c].op, answer)
               case Finish(result) => w'.calls[c].phase == Done(result, w.calls[c].phase.readAt)
               case Retry => if tries + 1 < w.limit then w'.calls[c].phase == Reads(tries + 1)
                             else w'.calls[c].phase.Done? && w'.calls[c].phase.result == Exhausted
  {
  }
}
