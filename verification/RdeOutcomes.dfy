/** How the calls on the RDE end, told from the entity they read and the answers they get: what an
    add or a removal does with each kind of entity, how each call takes each answer to its PUT, and
    what becomes of one whose etag goes stale again and again. */
module RdeOutcomes {
  import opened Wrappers
  import opened Documents
  import opened RdeUpdates
  import opened Migration
  import opened RdeProtocol

  // ----- the list, read from the JSON -----

  /** A status section lists these ids: an array of strings, or nothing at all. */
  predicate ListsIn(status: Fields, ids: seq<string>) {
    if "persistentVolumes" !in status || status["persistentVolumes"] == Null then ids == []
    else
      && status["persistentVolumes"].Arr? && |status["persistentVolumes"].items| == |ids|
      && forall i | 0 <= i < |ids| :: status["persistentVolumes"].items[i] == Str(ids[i])
  }

  /** A native entity that lists these ids. */
  predicate Lists(rde: Rde, ids: seq<string>) {
    && rde.kind == Native
    && "status" in rde.entity && rde.entity["status"].Obj?
    && ListsIn(rde.entity["status"].fields, ids)
  }

  lemma ListedPvsIff(status: Fields, ids: seq<string>)
    ensures ListedPvs(status) == Ok(ids) <==> ListsIn(status, ids)
  {
    if ListsIn(status, ids) && ListedPvs(status).Ok? {
      assert ListedPvs(status).value == ids;
    }
  }

  lemma NativePvsIff(rde: Rde, ids: seq<string>)
    ensures NativePvs(rde) == Ok(ids) <==> Lists(rde, ids)
  {
    if StatusOf(rde).Some? {
      ListedPvsIff(StatusOf(rde).value, ids);
    }
  }

  predicate IsListOp(op: Op) {
    op.AddPv? || op.RemovePv?
  }

  /** Whether the list is not yet as the call wants it: an add looks for the name, a removal for the
      id. */
  predicate Wanted(op: Op, ids: seq<string>)
    requires IsListOp(op)
  {
    if op.AddPv? then op.name !in ids else op.id in ids
  }

  /** What it makes of the list: the id at the end, or without its first occurrence. */
  ghost predicate Makes(op: Op, ids: seq<string>, after: seq<string>)
    requires IsListOp(op)
  {
    if op.AddPv? then after == ids + [op.id]
    else exists k | 0 <= k < |ids| :: ids[k] == op.id && op.id !in ids[..k] && after == ids[..k] + ids[k + 1..]
  }

  /** What an add or a removal does with each entity that it may read. */
  lemma ListPlanIs(op: Op, rde: Rde, found: seq<Lookup>, managerOk: bool)
    requires IsListOp(op)
    ensures var plan := PlanFor(op, rde, found, managerOk);
            && (forall ids | Lists(rde, ids) :: if Wanted(op, ids) then plan.Send? else plan == Stop(Nil))
            && (rde.kind == Native && (forall ids :: !Lists(rde, ids)) ==> plan == Stop(Error))
            && (rde.kind == Capvcd ==> plan == Stop(if managerOk then Nil else Error))
            && (rde.kind == Unsupported ==> plan == if op.AddPv? then Stop(Error) else Again)
  {
    forall ids | Lists(rde, ids) ensures NativePvs(rde) == Ok(ids) {
      NativePvsIff(rde, ids);
    }
    if NativePvs(rde).Ok? {
      NativePvsIff(rde, NativePvs(rde).value);
    }
  }

  /** What an add or a removal sends lists what it makes of the list it read. */
  lemma SentListIs(op: Op, rde: Rde, found: seq<Lookup>, ids: seq<string>) returns (after: seq<string>)
    requires IsListOp(op) && Lists(rde, ids) && Wanted(op, ids)
    ensures PlanFor(op, rde, found, true).Send?
    ensures Makes(op, ids, after) && Lists(PlanFor(op, rde, found, true).rde, after)
  {
    NativePvsIff(rde, ids);
    ListPlanIs(op, rde, found, true);
    NativeUpdateEffect(op, rde, found, true);
    after := NativePvs(PlanFor(op, rde, found, true).rde).value;
    NativePvsIff(PlanFor(op, rde, found, true).rde, after);
    if op.RemovePv? {
      var k := RemoveFirstSplits(ids, op.id);
    }
  }

  // ----- the answers -----

  /** How each call takes each answer to its PUT. A 412 is one of the errors: an add or a removal
      reads again after it, and after no other; an upgrade does so after everything but a 200 and
      no response at all; a conversion gives up after every error. */
  lemma AnswersMean(w: World, c: CallId, applied: bool, answer: Answer)
    requires c in w.calls && w.calls[c].phase.Writes? && Allowed(w, w.calls[c].phase.readAt, applied, answer)
    ensures var w', call := Next(w, Put(c, applied, answer)), w.calls[c];
            && c in w'.calls
            && w'.calls[c].phase ==
               match call.op
               case Upgrade(_) =>
                 if answer.Unanswered? || answer.status == 200 then Done(Nil, call.phase.readAt)
                 else ReadsAgain(w', call)
               case Convert(_) =>
                 if answer.Unanswered? || answer.err then Done(Error, call.phase.readAt)
                 else if answer.status == 200 then Done(Nil, call.phase.readAt)
                 else ReadsAgain(w', call)
               case _ =>
                 if answer.Unanswered? then Done(Panic, call.phase.readAt)
                 else if !answer.err then Done(Nil, call.phase.readAt)
                 else if answer.status == 412 then ReadsAgain(w', call)
                 else Done(Error, call.phase.readAt)
  {
  }

  /** A GET that fails ends every call with an error. */
  lemma ReadFails(w: World, c: CallId, found: seq<Lookup>, managerOk: bool)
    requires c in w.calls && w.calls[c].phase.Reads?
    ensures var w' := Next(w, Get(c, false, found, managerOk));
            && c in w'.calls && w'.calls[c].phase == Done(Error, |w.log|) && w'.rde == w.rde && w'.log == w.log
  {
  }

  /** Another try, unless this was the last one. */
  function ReadsAgain(w: World, call: Call): Phase
    requires call.phase.Writes?
  {
    if call.phase.tries + 1 < w.limit then Reads(call.phase.tries + 1) else Done(Exhausted, |w.log|)
  }

  // ----- a first pass that nobody disturbs -----

  /** An add or a removal on its own, whose requests succeed, on an entity that lists these ids: nil,
      without a commit if the list is as wanted, and with the one commit if it is not. */
  lemma FirstPassOnList(w: World, c: CallId, op: Op, managerOk: bool, status: nat, ids: seq<string>)
    requires c !in w.calls && w.limit > 0 && IsListOp(op) && status < 300 && Lists(w.rde, ids)
    ensures var w' := Run(w, [Start(c, op), Get(c, true, [], managerOk), Put(c, true, Answered(status, false))]);
            && c in w'.calls && w'.calls[c].phase == Done(Nil, |w.log|)
            && (if Wanted(op, ids) then
                  w'.log == w.log + [Own(c, op, [])] && exists after :: Makes(op, ids, after) && Lists(w'.rde, after)
                else w'.log == w.log && w'.rde == w.rde)
  {
    RunOfThree(w, Start(c, op), Get(c, true, [], managerOk), Put(c, true, Answered(status, false)));
    ListPlanIs(op, w.rde, [], managerOk);
    if Wanted(op, ids) {
      var after := SentListIs(op, w.rde, [], ids);
      assert PlanFor(op, w.rde, [], managerOk) == PlanFor(op, w.rde, [], true);
    }
  }

  /** On any other entity it commits nothing: it fails, or leaves the list to the RDE manager; only a
      removal on an entity of an unknown type goes on reading. */
  lemma FirstPassElsewhere(w: World, c: CallId, op: Op, managerOk: bool)
    requires c !in w.calls && w.limit > 0 && IsListOp(op) && forall ids :: !Lists(w.rde, ids)
    ensures var w' := Next(Next(w, Start(c, op)), Get(c, true, [], managerOk));
            && c in w'.calls && w'.log == w.log && w'.rde == w.rde
            && w'.calls[c].phase ==
               match w.rde.kind
               case Native => Done(Error, |w.log|)
               case Capvcd => Done(if managerOk then Nil else Error, |w.log|)
               case Unsupported =>
                 if op.AddPv? then Done(Error, |w.log|)
                 else if w.limit > 1 then Reads(1) else Done(Exhausted, |w.log|)
  {
    ListPlanIs(op, w.rde, [], managerOk);
  }

  lemma RunOfThree(w: World, s0: Step, s1: Step, s2: Step)
    ensures Run(w, [s0, s1, s2]) == Next(Next(Next(w, s0), s1), s2)
  {
    var w1 := Next(w, s0);
    assert [s0, s1, s2][1..] == [s1, s2] && [s1, s2][1..] == [s2] && [s2][1..] == [];
    assert Run(w, [s0, s1, s2]) == Run(w1, [s1, s2]) == Run(Next(w1, s1), [s2]);
  }

  // ----- overtaken again and again -----

  /** There is something for the call to send, whatever lookups an upgrade makes, as long as none of
      them crashes. */
  ghost predicate HasWork(op: Op, rde: Rde) {
    if IsListOp(op) then exists ids :: Lists(rde, ids) && Wanted(op, ids)
    else op.Upgrade? && !CannotUpgrade(rde)
  }

  /** None of these lookups crashes. */
  predicate Answers(found: seq<Lookup>) {
    forall i | 0 <= i < |found| :: !found[i].Crashes?
  }

  lemma WorkIsSent(op: Op, rde: Rde, found: seq<Lookup>)
    requires HasWork(op, rde) && Answers(found)
    ensures PlanFor(op, rde, found, true).Send?
  {
    if IsListOp(op) {
      var ids :| Lists(rde, ids) && Wanted(op, ids);
      ListPlanIs(op, rde, found, true);
    } else {
      UpgradeSendsIff(rde, op.version, found);
    }
  }

  /** The call has committed nothing since the version `from`. */
  predicate QuietSince(w: World, c: CallId, from: nat) {
    forall i | from <= i < |w.log| :: !CommittedAt(w, c, i)
  }

  /** What happens between the GET and the PUT of one try. */
  type Round = seq<Step>

  /** One try whose etag goes stale: others run between its GET and its PUT. */
  function Try(c: CallId, found: seq<Lookup>, others: Round): seq<Step> {
    [Get(c, true, found, true)] + others + [Put(c, false, Answered(412, true))]
  }

  /** In every round others commit something, and leave the call something to do. */
  ghost predicate Overtakes(w: World, c: CallId, op: Op, found: seq<Lookup>, rounds: seq<Round>)
    decreases |rounds|
  {
    HasWork(op, w.rde) &&
    (rounds == [] ||
     (var read := Next(w, Get(c, true, found, true));
      && NoneBy(c, rounds[0])
      && |Run(read, rounds[0]).log| > |w.log|
      && Overtakes(Run(w, Try(c, found, rounds[0])), c, op, found, rounds[1..])))
  }

  lemma FirstRound(w: World, c: CallId, op: Op, found: seq<Lookup>, rounds: seq<Round>)
    requires Overtakes(w, c, op, found, rounds) && rounds != []
    ensures HasWork(op, w.rde) && NoneBy(c, rounds[0])
    ensures |Run(Next(w, Get(c, true, found, true)), rounds[0]).log| > |w.log|
    ensures Overtakes(Run(w, Try(c, found, rounds[0])), c, op, found, rounds[1..])
  {
  }

  function Tries(c: CallId, found: seq<Lookup>, rounds: seq<Round>): seq<Step> {
    if rounds == [] then [] else Try(c, found, rounds[0]) + Tries(c, found, rounds[1..])
  }

  lemma OtherLeavesCall(w: World, c: CallId, s: Step)
    requires c in w.calls && !By(c, s)
    ensures var w' := Next(w, s);
            && c in w'.calls && w'.calls[c] == w.calls[c] && w'.limit == w.limit
            && w.log <= w'.log && QuietSince(w', c, |w.log|)
  {
  }

  lemma SameLogIsQuiet(w1: World, w2: World, c: CallId, from: nat)
    requires w2.log == w1.log && QuietSince(w1, c, from)
    ensures QuietSince(w2, c, from)
  {
    forall i | from <= i < |w2.log| ensures !CommittedAt(w2, c, i) {
      assert !CommittedAt(w1, c, i);
    }
  }

  lemma QuietGoesOn(w1: World, w2: World, c: CallId, from: nat)
    requires from <= |w1.log| && w1.log <= w2.log && QuietSince(w1, c, from) && QuietSince(w2, c, |w1.log|)
    ensures QuietSince(w2, c, from)
  {
    forall i | from <= i < |w2.log| ensures !CommittedAt(w2, c, i) {
      assert i < |w1.log| ==> w2.log[i] == w1.log[i] && !CommittedAt(w1, c, i);
    }
  }

  lemma {:induction false} OthersGoOn(w: World, c: CallId, steps: seq<Step>)
    requires c in w.calls && NoneBy(c, steps)
    ensures c in Run(w, steps).calls && Run(w, steps).calls[c] == w.calls[c]
    ensures Run(w, steps).limit == w.limit && w.log <= Run(w, steps).log
    ensures QuietSince(Run(w, steps), c, |w.log|)
    decreases |steps|
  {
    if steps != [] {
      var w1, w' := Next(w, steps[0]), Run(w, steps);
      assert !By(c, steps[0]);
      OtherLeavesCall(w, c, steps[0]);
      OthersGoOn(w1, c, steps[1..]);
      QuietGoesOn(w1, w', c, |w.log|);
    }
  }

  lemma TryIs(w: World, c: CallId, found: seq<Lookup>, others: Round)
    ensures Run(w, Try(c, found, others))
            == Next(Run(Next(w, Get(c, true, found, true)), others), Put(c, false, Answered(412, true)))
  {
    var get, put := Get(c, true, found, true), Put(c, false, Answered(412, true));
    var late := Run(Next(w, get), others);
    assert Run(w, [get]) == Run(Next(w, get), []);
    assert Run(late, [put]) == Run(Next(late, put), []);
    RunConcat(w, [get], others);
    RunConcat(w, [get] + others, [put]);
  }

  /** The GET of a try with something to send. */
  lemma ReadForWork(w: World, c: CallId, op: Op, found: seq<Lookup>, tries: nat)
    requires c in w.calls && w.calls[c].op == op && w.calls[c].phase == Reads(tries)
    requires HasWork(op, w.rde) && Answers(found)
    ensures var read, plan := Next(w, Get(c, true, found, true)), PlanFor(op, w.rde, found, true);
            && plan.Send?
            && read == WithCall(w, c, w.calls[c].(phase := Writes(tries, |w.log|, w.rde, found, plan.rde)))
  {
    WorkIsSent(op, w.rde, found);
  }

  /** A PUT that is not applied, and answered with a 412. */
  lemma Refused(w: World, c: CallId)
    requires c in w.calls && w.calls[c].phase.Writes? && w.calls[c].phase.readAt < |w.log|
    requires IsListOp(w.calls[c].op) || w.calls[c].op.Upgrade?
    ensures var w' := Next(w, Put(c, false, Answered(412, true)));
            && w'.log == w.log && w'.rde == w.rde && w'.limit == w.limit
            && c in w'.calls && w'.calls[c].op == w.calls[c].op
            && w'.calls[c].phase == ReadsAgain(w, w.calls[c])
  {
    AnswersMean(w, c, false, Answered(412, true));
    PutFrame(w, c, false, Answered(412, true));
  }

  /** A try that is overtaken commits nothing, and is followed by another one while there are any
      left. */
  lemma OvertakenTry(w: World, c: CallId, op: Op, found: seq<Lookup>, others: Round, tries: nat)
    requires c in w.calls && w.calls[c].op == op && w.calls[c].phase == Reads(tries)
    requires HasWork(op, w.rde) && Answers(found)
    requires NoneBy(c, others)
    requires |Run(Next(w, Get(c, true, found, true)), others).log| > |w.log|
    ensures var w' := Run(w, Try(c, found, others));
            && c in w'.calls && w'.calls[c].op == op && w'.limit == w.limit && w.log <= w'.log
            && QuietSince(w', c, |w.log|)
            && w'.calls[c].phase == if tries + 1 < w.limit then Reads(tries + 1) else Done(Exhausted, |w'.log|)
  {
    var read := Next(w, Get(c, true, found, true));
    ReadForWork(w, c, op, found, tries);
    OthersGoOn(read, c, others);
    TryIs(w, c, found, others);
    var late := Run(read, others);
    Refused(late, c);
    SameLogIsQuiet(late, Next(late, Put(c, false, Answered(412, true))), c, |w.log|);
  }

  lemma RunOfTries(w: World, c: CallId, found: seq<Lookup>, rounds: seq<Round>)
    requires rounds != []
    ensures Run(w, Tries(c, found, rounds)) == Run(Run(w, Try(c, found, rounds[0])), Tries(c, found, rounds[1..]))
  {
    RunConcat(w, Try(c, found, rounds[0]), Tries(c, found, rounds[1..]));
  }

  lemma {:induction false} OvertakenTries(
      w: World, c: CallId, op: Op, found: seq<Lookup>, rounds: seq<Round>, tries: nat)
    requires c in w.calls && w.calls[c].op == op && w.calls[c].phase == Reads(tries)
    requires Overtakes(w, c, op, found, rounds) && Answers(found) && tries + |rounds| <= w.limit && tries < w.limit
    ensures var w' := Run(w, Tries(c, found, rounds));
            && c in w'.calls && w'.calls[c].op == op && w'.limit == w.limit && w.log <= w'.log
            && HasWork(op, w'.rde)
            && QuietSince(w', c, |w.log|)
            && w'.calls[c].phase
               == if tries + |rounds| < w.limit then Reads(tries + |rounds|) else Done(Exhausted, |w'.log|)
    decreases |rounds|
  {
    if rounds != [] {
      var w1 := Run(w, Try(c, found, rounds[0]));
      OvertakenTry(w, c, op, found, rounds[0], tries);
      RunOfTries(w, c, found, rounds);
      if |rounds| > 1 {
        OvertakenTries(w1, c, op, found, rounds[1..], tries + 1);
        var w' := Run(w, Tries(c, found, rounds));
        QuietGoesOn(w1, w', c, |w.log|);
      } else {
        assert Tries(c, found, rounds[1..]) == [];
      }
    }
  }

  /** The try that nobody overtakes. */
  lemma LastTry(w: World, c: CallId, op: Op, found: seq<Lookup>, tries: nat)
    requires c in w.calls && w.calls[c].op == op && w.calls[c].phase == Reads(tries)
    requires HasWork(op, w.rde) && Answers(found)
    ensures var w' := Run(w, [Get(c, true, found, true), Put(c, true, Answered(200, false))]);
            && c in w'.calls && w'.calls[c].phase == Done(Nil, |w.log|)
            && w'.log == w.log + [Own(c, op, found)]
            && w'.rde == PlanFor(op, w.rde, found, true).rde
  {
    var get, put := Get(c, true, found, true), Put(c, true, Answered(200, false));
    var read := Next(w, get);
    ReadForWork(w, c, op, found, tries);
    AnswersMean(read, c, true, Answered(200, false));
    PutFrame(read, c, true, Answered(200, false));
    assert [get, put][1..] == [put] && [put][1..] == [];
    assert Run(w, [get, put]) == Run(read, [put]) == Run(Next(read, put), []);
  }

  /** An add, a removal or an upgrade whose etag goes stale any number of times below the limit, and
      which is then left alone, returns nil, having committed exactly once: the update of the version
      that it read last. */
  lemma RetriesSucceed(w: World, c: CallId, op: Op, found: seq<Lookup>, rounds: seq<Round>)
    requires c !in w.calls && |rounds| < w.limit && Answers(found)
    requires Overtakes(Next(w, Start(c, op)), c, op, found, rounds)
    ensures var late := Run(Next(w, Start(c, op)), Tries(c, found, rounds));
            var w' := Run(late, [Get(c, true, found, true), Put(c, true, Answered(200, false))]);
            && c in w'.calls && w'.calls[c].phase == Done(Nil, |late.log|)
            && w.log <= late.log && w'.log == late.log + [Own(c, op, found)]
            && (forall i | |w.log| <= i < |w'.log| :: CommittedAt(w', c, i) <==> i == |late.log|)
            && (IsListOp(op) ==> exists ids, after ::
                  Lists(late.rde, ids) && Wanted(op, ids) && Makes(op, ids, after) && Lists(w'.rde, after))
            && (op.Upgrade? ==> UpgradePlan(late.rde, op.version, found) == Send(w'.rde))
  {
    var started := Next(w, Start(c, op));
    OvertakenTries(started, c, op, found, rounds, 0);
    var late := Run(started, Tries(c, found, rounds));
    LastTry(late, c, op, found, |rounds|);
    var w' := Run(late, [Get(c, true, found, true), Put(c, true, Answered(200, false))]);
    forall i | |w.log| <= i < |w'.log| ensures CommittedAt(w', c, i) <==> i == |late.log| {
      assert i < |late.log| ==> w'.log[i] == late.log[i] && !CommittedAt(late, c, i);
    }
    if IsListOp(op) {
      var ids :| Lists(late.rde, ids) && Wanted(op, ids);
      var after := SentListIs(op, late.rde, found, ids);
    }
  }

  /** One that is overtaken on all its tries returns the error that blames the etag, with nothing
      committed. */
  lemma RetriesRunOut(w: World, c: CallId, op: Op, found: seq<Lookup>, rounds: seq<Round>)
    requires c !in w.calls && |rounds| == w.limit && w.limit > 0 && Answers(found)
    requires Overtakes(Next(w, Start(c, op)), c, op, found, rounds)
    ensures var w' := Run(Next(w, Start(c, op)), Tries(c, found, rounds));
            && c in w'.calls && w'.calls[c].phase == Done(Exhausted, |w'.log|)
            && w.log <= w'.log && QuietSince(w', c, |w.log|)
  {
    OvertakenTries(Next(w, Start(c, op)), c, op, found, rounds, 0);
  }

  /** A conversion does not try again: the first commit by others between its GET and its PUT makes it
      fail, with nothing committed. */
  lemma ConversionGivesUp(w: World, c: CallId, version: string, others: Round)
    requires c !in w.calls && w.limit > 0 && ConvertPlan(w.rde, version).Send?
    requires NoneBy(c, others)
    requires |Run(Next(Next(w, Start(c, Convert(version))), Get(c, true, [], true)), others).log| > |w.log|
    ensures var w' := Run(Next(w, Start(c, Convert(version))), Try(c, [], others));
            && c in w'.calls && w'.calls[c].phase == Done(Error, |w.log|)
            && w.log <= w'.log && QuietSince(w', c, |w.log|)
  {
    var started := Next(w, Start(c, Convert(version)));
    var read := Next(started, Get(c, true, [], true));
    OthersGoOn(read, c, others);
    TryIs(started, c, [], others);
    var late := Run(read, others);
    AnswersMean(late, c, false, Answered(412, true));
    PutFrame(late, c, false, Answered(412, true));
    SameLogIsQuiet(late, Next(late, Put(c, false, Answered(412, true))), c, |w.log|);
  }
}
