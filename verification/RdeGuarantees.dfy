/** What the RDE protocol guarantees over whole runs: no update is lost, no call commits twice,
    success and exhaustion mean what they say, and migration neither loses nor repeats a volume. */
module RdeGuarantees {
  import opened Wrappers
  import opened Documents
  import opened RdeUpdates
  import opened Migration
  import opened RdeProtocol

  lemma InitHolds(limit: nat, rde: Rde)
    ensures Inv(Init(limit, rde))
  {
  }

  lemma ReachableHolds(w: World)
    requires Reachable(w)
    ensures Inv(w)
  {
    var limit, rde, steps :| w == Run(Init(limit, rde), steps);
    InitHolds(limit, rde);
    RunKeepsInv(Init(limit, rde), steps);
  }

  // ----- no lost update -----

  /** Whatever the interleaving, the entity is the fold of the committed updates in commit order,
      each made to the version that the commit before it left. */
  lemma NoLostUpdate(w: World)
    requires Reachable(w)
    ensures w.rde == Replay(w.first, w.log)
    ensures forall i | 0 <= i < |w.log| :: Version(w, i + 1) == Redo(w.log[i], Version(w, i))
  {
    ReachableHolds(w);
    forall i | 0 <= i < |w.log| ensures Version(w, i + 1) == Redo(w.log[i], Version(w, i)) {
      assert w.log[..i + 1][..i] == w.log[..i];
    }
  }

  /** A committed add appends its id to the list as it stood, and a committed removal takes out
      its first occurrence; neither touches anything else. */
  lemma CommittedListUpdate(w: World, i: nat)
    requires Reachable(w) && i < |w.log| && w.log[i].Own? && (w.log[i].op.AddPv? || w.log[i].op.RemovePv?)
    ensures var before, after, op := Version(w, i), Version(w, i + 1), w.log[i].op;
            && NativePvs(before).Ok?
            && NativePvs(after) == Ok(if op.AddPv? then NativePvs(before).value + [op.id]
                                      else RemoveFirst(NativePvs(before).value, op.id))
            && (op.AddPv? ==> op.name !in NativePvs(before).value)
            && (op.RemovePv? ==> op.id in NativePvs(before).value)
            && after.kind == before.kind && after.entity - {STATUS} == before.entity - {STATUS}
            && StatusOf(after).value - {PERSISTENT_VOLUMES} == StatusOf(before).value - {PERSISTENT_VOLUMES}
  {
    ReachableHolds(w);
    NoLostUpdate(w);
    NativeUpdateEffect(w.log[i].op, Version(w, i), w.log[i].found, true);
  }

  // ----- what the result of an add or a removal means -----

  /** An add or a removal commits at most once; if it returns nil it committed, or the list that it
      read during the call already was as wanted, or the entity is one whose list the RDE manager
      keeps. */
  lemma NilMeansDone(w: World, c: CallId)
    requires Reachable(w) && c in w.calls && (w.calls[c].op.AddPv? || w.calls[c].op.RemovePv?)
    ensures Owns(w.log, c, 0, |w.log|) <= 1
    ensures w.calls[c].startedAt <= |w.log| && Owns(w.log, c, 0, w.calls[c].startedAt) == 0
    ensures w.calls[c].phase.Done? && w.calls[c].phase.result == Nil && Owns(w.log, c, 0, |w.log|) == 0 ==>
              && w.calls[c].startedAt <= w.calls[c].phase.lastRead <= |w.log|
              && var op, read := w.calls[c].op, Version(w, w.calls[c].phase.lastRead);
                 read.kind == Capvcd
                 || (NativePvs(read).Ok?
                     && (if op.AddPv? then op.name in NativePvs(read).value else op.id !in NativePvs(read).value))
  {
    ReachableHolds(w);
    assert CallInv(w, c, w.calls[c]);
  }

  /** Giving up after `limit` tries means that the call never committed, and that others committed
      at least `limit` times during it; unless it is a removal, and the entity was of a type that
      a removal does not know at some time during the call. */
  lemma ExhaustionIsHonest(w: World, c: CallId)
    requires Reachable(w) && c in w.calls && (w.calls[c].op.AddPv? || w.calls[c].op.RemovePv?)
    requires w.calls[c].phase.Done? && w.calls[c].phase.result == Exhausted
    ensures w.calls[c].startedAt <= |w.log|
    ensures Owns(w.log, c, 0, |w.log|) == 0
    ensures || Others(w.log, c, w.calls[c].startedAt, |w.log|) >= w.limit
            || (w.calls[c].op.RemovePv?
                && exists i :: w.calls[c].startedAt <= i <= |w.log| && Version(w, i).kind == Unsupported)
  {
    ReachableHolds(w);
    assert CallInv(w, c, w.calls[c]);
  }

  /** What an undisturbed add or removal, all of whose reads succeed, is in while it runs. */
  ghost predicate Undisturbed(w: World, c: CallId, op: Op, rde: Rde) {
    && c in w.calls && w.calls[c].op == op
    && var stuck := op.RemovePv? && rde.kind == Unsupported;
       match w.calls[c].phase
       case Reads(tries) => w.rde == rde && (tries > 0 ==> stuck)
       case Writes(_, readAt, _, _, _) => w.rde == rde && readAt == |w.log| && !stuck
       case Done(result, _) => result == Exhausted <==> stuck
  }

  predicate IsOwnStep(c: CallId, s: Step) {
    By(c, s) && (s.Get? ==> s.ok)
  }

  lemma UndisturbedStart(w: World, c: CallId, op: Op)
    requires c !in w.calls && w.limit > 0
    ensures Undisturbed(Next(w, Start(c, op)), c, op, w.rde) && Next(w, Start(c, op)).limit == w.limit
  {
  }

  lemma UndisturbedStep(w: World, c: CallId, op: Op, rde: Rde, s: Step)
    requires (op.AddPv? || op.RemovePv?) && w.limit > 0 && Undisturbed(w, c, op, rde) && IsOwnStep(c, s)
    ensures Undisturbed(Next(w, s), c, op, rde) && Next(w, s).limit == w.limit
  {
  }

  lemma {:induction false} UndisturbedRun(w: World, c: CallId, op: Op, rde: Rde, steps: seq<Step>)
    requires (op.AddPv? || op.RemovePv?) && w.limit > 0 && Undisturbed(w, c, op, rde)
    requires forall i | 0 <= i < |steps| :: IsOwnStep(c, steps[i])
    ensures Undisturbed(Run(w, steps), c, op, rde)
    decreases |steps|
  {
    if steps != [] {
      UndisturbedStep(w, c, op, rde, steps[0]);
      UndisturbedRun(Next(w, steps[0]), c, op, rde, steps[1..]);
    }
  }

  /** The exception is exact: a call that nobody disturbs, and whose reads all succeed, ends by
      blaming the etag if and only if it is a removal from an entity of an unknown type. */
  lemma UndisturbedExhaustionIff(w: World, c: CallId, op: Op, steps: seq<Step>)
    requires c !in w.calls && w.limit > 0 && (op.AddPv? || op.RemovePv?)
    requires forall i | 0 <= i < |steps| :: IsOwnStep(c, steps[i])
    ensures var w' := Run(Next(w, Start(c, op)), steps);
            && c in w'.calls
            && (w'.calls[c].phase.Done? ==>
                  (w'.calls[c].phase.result == Exhausted <==> op.RemovePv? && w.rde.kind == Unsupported))
  {
    UndisturbedStart(w, c, op);
    UndisturbedRun(Next(w, Start(c, op)), c, op, w.rde, steps);
  }

  function Repeat(s: Step, n: nat): (steps: seq<Step>)
    ensures |steps| == n
  {
    if n == 0 then [] else [s] + Repeat(s, n - 1)
  }

  /** The run that does it: a removal reads `limit` times, sends nothing, and blames the etag; an add
      says what is wrong at once. */
  lemma UnsupportedKindMisreported(w: World, c: CallId, id: string, name: string)
    requires c !in w.calls && w.rde.kind == Unsupported && w.limit > 0
    ensures var w' := Run(w, [Start(c, RemovePv(id))] + Repeat(Get(c, true, [], true), w.limit));
            w'.calls[c := Call(RemovePv(id), |w.log|, 0, w.limit, false, Done(Exhausted, |w.log|))] == w'.calls
              && w'.log == w.log
    ensures var w' := Run(w, [Start(c, AddPv(id, name)), Get(c, true, [], true)]);
            w'.calls[c := Call(AddPv(id, name), |w.log|, 0, 0, false, Done(Error, |w.log|))] == w'.calls
              && w'.log == w.log
  {
    var get := Get(c, true, [], true);
    var started := Next(w, Start(c, RemovePv(id)));
    var steps := [Start(c, RemovePv(id))] + Repeat(get, w.limit);
    assert steps[1..] == Repeat(get, w.limit);
    SkipsToTheEnd(started, c, w.limit);
    var adding := Next(w, Start(c, AddPv(id, name)));
    assert [Start(c, AddPv(id, name)), get][1..] == [get];
    assert Run(adding, [get]) == Next(adding, get);
  }

  lemma {:induction false} SkipsToTheEnd(w: World, c: CallId, n: nat)
    requires c in w.calls && w.calls[c].op.RemovePv? && w.rde.kind == Unsupported
    requires w.calls[c].phase.Reads? && n > 0 && w.calls[c].phase.tries + n == w.limit
    ensures var w' := Run(w, Repeat(Get(c, true, [], true), n));
            && c in w'.calls && w'.log == w.log
            && w'.calls[c] == w.calls[c].(skips := w.calls[c].skips + n, phase := Done(Exhausted, |w.log|))
    decreases n
  {
    var get := Get(c, true, [], true);
    var next := Next(w, get);
    assert Repeat(get, n)[1..] == Repeat(get, n - 1);
    if n > 1 {
      SkipsToTheEnd(next, c, n - 1);
    } else {
      assert Run(next, []) == next;
    }
  }

  /** Without interference the first attempt is the last: no answer to it can be a 412, and a
      success commits the update. */
  lemma FirstAttemptDecides(w: World, c: CallId, op: Op, found: seq<Lookup>, applied: bool, answer: Answer)
    requires c !in w.calls && w.limit > 0 && (op.AddPv? || op.RemovePv?)
    requires PlanFor(op, w.rde, found, true).Send?
    requires Allowed(w, |w.log|, applied, answer)
    ensures var w' := Run(w, [Start(c, op), Get(c, true, found, true), Put(c, applied, answer)]);
            && c in w'.calls && w'.calls[c].phase.Done? && w'.calls[c].phase.result != Exhausted
            && (answer.Answered? && !answer.err ==>
                  w'.calls[c].phase.result == Nil && w'.rde == PlanFor(op, w.rde, found, true).rde
                    && |w'.log| == |w.log| + 1)
            && (!applied ==> w'.rde == w.rde && w'.log == w.log)
  {
    var s0, s1, s2 := Start(c, op), Get(c, true, found, true), Put(c, applied, answer);
    var w1 := Next(w, s0);
    var w2 := Next(w1, s1);
    assert [s0, s1, s2][1..] == [s1, s2] && [s1, s2][1..] == [s2] && [s2][1..] == [];
    assert Run(w, [s0, s1, s2]) == Run(w1, [s1, s2]) == Run(w2, [s2]) == Run(Next(w2, s2), []) == Next(w2, s2);
  }

  // ----- migration -----

  /** Every upgrade that commits appends one entry per legacy id of the version it replaces, in
      legacy order, and drops the legacy list; no retry can drop or repeat an id, because each
      attempt works on the entity it has just read. */
  lemma MigrationIsExactlyOnce(w: World, i: nat)
    requires Reachable(w) && i < |w.log| && w.log[i].Own? && w.log[i].op.Upgrade?
    ensures var before, after := Version(w, i), Version(w, i + 1);
            && StatusOf(before).Some? && StatusOf(after).Some?
            && ResourcesOf(StatusOf(after).value)
               == ResourcesOf(StatusOf(before).value) + Entries(LegacyOf(StatusOf(before).value), w.log[i].found)
            && PERSISTENT_VOLUMES !in StatusOf(after).value
            && StatusOf(after).value - {CSI} == StatusOf(before).value - {CSI, PERSISTENT_VOLUMES}
  {
    ReachableHolds(w);
    NoLostUpdate(w);
    UpgradeEffect(Version(w, i), w.log[i].op.version, w.log[i].found);
  }

  predicate IsMigration(op: Op) {
    op.Upgrade? || op.Convert?
  }

  predicate HonestFor(rde: Rde, found: seq<Lookup>) {
    StatusOf(rde).Some? ==> Honest(LegacyOf(StatusOf(rde).value), found)
  }

  /** Only migrations run, their lookups are honest, and foreign writers keep the volumes. */
  ghost predicate Careful(w: World, s: Step) {
    match s
    case Start(_, op) => IsMigration(op)
    case Get(_, _, found, _) => HonestFor(w.rde, found)
    case Put(_, _, _) => true
    case Write(rde) => Pvs(rde) == Pvs(w.rde)
  }

  ghost predicate CarefulRun(w: World, steps: seq<Step>)
    decreases |steps|
  {
    steps == [] || (Careful(w, steps[0]) && CarefulRun(Next(w, steps[0]), steps[1..]))
  }

  ghost predicate MigrationsOnly(w: World) {
    forall c | c in w.calls ::
      IsMigration(w.calls[c].op)
        && (w.calls[c].phase.Writes? ==> HonestFor(w.calls[c].phase.read, w.calls[c].phase.found))
  }

  /** What a call is about to put was made from the entity as it is, if its etag is current. */
  lemma CurrentPut(w: World, c: CallId)
    requires Inv(w) && c in w.calls && w.calls[c].phase.Writes? && w.calls[c].phase.readAt == |w.log|
    ensures w.calls[c].phase.read == w.rde
    ensures PlanFor(w.calls[c].op, w.rde, w.calls[c].phase.found, true) == Send(w.calls[c].phase.next)
  {
    assert CallInv(w, c, w.calls[c]);
    VersionNow(w);
  }

  lemma MigrationKeepsPvs(op: Op, rde: Rde, found: seq<Lookup>)
    requires IsMigration(op) && HonestFor(rde, found)
    ensures Pvs(Applied(PlanFor(op, rde, found, true), rde)) == Pvs(rde)
  {
    if op.Upgrade? {
      UpgradeKeepsPvs(rde, op.version, found);
    } else {
      ConvertKeepsTheRest(rde, op.version);
    }
  }

  /** A PUT leaves the entity alone, or writes what its call was about to put. */
  lemma PutWrites(w: World, c: CallId, applied: bool, answer: Answer)
    ensures var after := NextPut(w, c, applied, answer).rde;
            || after == w.rde
            || (c in w.calls && w.calls[c].phase.Writes? && w.calls[c].phase.readAt == |w.log|
               && after == w.calls[c].phase.next)
  {
  }

  lemma CarefulPutKeepsPvs(w: World, c: CallId, applied: bool, answer: Answer)
    requires Inv(w) && MigrationsOnly(w)
    ensures Pvs(NextPut(w, c, applied, answer).rde) == Pvs(w.rde)
  {
    PutWrites(w, c, applied, answer);
    if NextPut(w, c, applied, answer).rde != w.rde {
      CurrentPut(w, c);
      MigrationKeepsPvs(w.calls[c].op, w.rde, w.calls[c].phase.found);
    }
  }

  lemma CarefulStepKeepsMigrations(w: World, s: Step)
    requires MigrationsOnly(w) && Careful(w, s)
    ensures MigrationsOnly(Next(w, s))
  {
  }

  lemma ReadsKeepRde(w: World, s: Step)
    requires s.Start? || s.Get?
    ensures Next(w, s).rde == w.rde
  {
  }

  lemma CarefulStepKeepsPvs(w: World, s: Step)
    requires Inv(w) && MigrationsOnly(w) && Careful(w, s)
    ensures Pvs(Next(w, s).rde) == Pvs(w.rde)
  {
    if s.Put? {
      CarefulPutKeepsPvs(w, s.call, s.applied, s.answer);
    } else if !s.Write? {
      ReadsKeepRde(w, s);
    }
  }

  lemma {:induction false} CarefulRunKeepsPvs(w: World, steps: seq<Step>)
    requires Inv(w) && MigrationsOnly(w) && CarefulRun(w, steps)
    ensures Pvs(Run(w, steps).rde) == Pvs(w.rde)
    decreases |steps|
  {
    if steps != [] {
      CarefulStepKeepsPvs(w, steps[0]);
      CarefulStepKeepsMigrations(w, steps[0]);
      NextKeepsInv(w, steps[0]);
      CarefulRunKeepsPvs(Next(w, steps[0]), steps[1..]);
    }
  }

  /** Conservation over whole runs: any number of upgrades and conversions, interleaved with each
      other and with foreign commits that keep the volumes, with PUTs that fail, or succeed but
      are answered otherwise, leave the multiset of persistent volumes as it was. */
  lemma MigrationConservesPvs(limit: nat, rde: Rde, steps: seq<Step>)
    requires CarefulRun(Init(limit, rde), steps)
    ensures Pvs(Run(Init(limit, rde), steps).rde) == Pvs(rde)
  {
    InitHolds(limit, rde);
    CarefulRunKeepsPvs(Init(limit, rde), steps);
  }

  /** What a nil from an upgrade means, in any run: if its last PUT was answered, the call committed
      what it made of the version that it last read, exactly unless that version had nothing that
      could be upgraded; and it read that version during the call. */
  lemma UpgradeNilMeans(w: World, c: CallId)
    requires Reachable(w) && c in w.calls && w.calls[c].op.Upgrade?
    requires w.calls[c].phase.Done? && w.calls[c].phase.result == Nil
    ensures w.calls[c].startedAt <= w.calls[c].phase.lastRead <= |w.log|
    ensures CommittedAt(w, c, w.calls[c].phase.lastRead) ==> !CannotUpgrade(Version(w, w.calls[c].phase.lastRead))
    ensures !w.calls[c].silent ==>
              (CommittedAt(w, c, w.calls[c].phase.lastRead) <==> !CannotUpgrade(Version(w, w.calls[c].phase.lastRead)))
  {
    ReachableHolds(w);
    assert CallInv(w, c, w.calls[c]);
    var at := w.calls[c].phase.lastRead;
    if CommittedAt(w, c, at) {
      assert w.log[at].op == w.calls[c].op;
      UpgradeSendsIff(Version(w, at), w.log[at].op.version, w.log[at].found);
    }
  }

  /** What a nil from a conversion means, in any run: it committed what it made of the version that it
      last read, exactly unless that version has no CSI section; and it read that version during the
      call. */
  lemma ConvertNilMeans(w: World, c: CallId)
    requires Reachable(w) && c in w.calls && w.calls[c].op.Convert?
    requires w.calls[c].phase.Done? && w.calls[c].phase.result == Nil
    ensures var at := w.calls[c].phase.lastRead;
            && w.calls[c].startedAt <= at <= |w.log|
            && (CommittedAt(w, c, at) <==> !NoCsiSection(Version(w, at)))
            && (CommittedAt(w, c, at) ==>
                  && ConvertPlan(Version(w, at), w.calls[c].op.version).Send?
                  && Version(w, at + 1) == ConvertPlan(Version(w, at), w.calls[c].op.version).rde)
  {
    ReachableHolds(w);
    NoLostUpdate(w);
    assert CallInv(w, c, w.calls[c]);
    var at := w.calls[c].phase.lastRead;
    if CommittedAt(w, c, at) {
      assert w.log[at].op == w.calls[c].op;
    }
  }

  /** Any other version than one without a CSI section makes a conversion fail, or send what it makes
      of that section. */
  lemma ConvertPlanIs(rde: Rde, version: string)
    ensures ConvertPlan(rde, version) == Stop(Nil) <==> NoCsiSection(rde)
    ensures ConvertPlan(rde, version).Send? <==>
            && STATUS in rde.entity && rde.entity[STATUS].Obj?
            && CSI in rde.entity[STATUS].fields && rde.entity[STATUS].fields[CSI].Obj?
            && DecodeStatus(rde.entity[STATUS].fields[CSI].fields).Ok?
    ensures ConvertPlan(rde, version) in {Stop(Nil), Stop(Error)} || ConvertPlan(rde, version).Send?
  {
  }

  /** Without a response nothing is known: from any state in which there is something to upgrade,
      an upgrade may return nil having committed, and having committed nothing. */
  lemma SilentUpgrade(w: World, c: CallId, version: string, found: seq<Lookup>, applied: bool)
    requires c !in w.calls && w.limit > 0 && UpgradePlan(w.rde, version, found).Send?
    ensures var w' := Run(w, [Start(c, Upgrade(version)), Get(c, true, found, true), Put(c, applied, Unanswered)]);
            && c in w'.calls && w'.calls[c].phase == Done(Nil, |w.log|)
            && |w'.log| == |w.log| + (if applied then 1 else 0)
            && w'.rde == (if applied then UpgradePlan(w.rde, version, found).rde else w.rde)
  {
    var s0, s1, s2 := Start(c, Upgrade(version)), Get(c, true, found, true), Put(c, applied, Unanswered);
    var w1 := Next(w, s0);
    var w2 := Next(w1, s1);
    assert [s0, s1, s2][1..] == [s1, s2] && [s1, s2][1..] == [s2] && [s2][1..] == [];
    assert Run(w, [s0, s1, s2]) == Run(w1, [s1, s2]) == Run(w2, [s2]) == Run(Next(w2, s2), []) == Next(w2, s2);
  }
}
