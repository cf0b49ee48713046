/** The optimistic-concurrency protocol on one RDE, as a state machine.

    Any number of calls (add, remove, upgrade, convert) and any number of foreign writers share
    the entity. A call reads the entity with its etag, computes an update in memory and puts it
    back under If-Match (section 13.1.1 of RFC 9110); the server applies a PUT only if the etag
    is still current, and answers 412 (section 15.5.13 of RFC 9110) only if it is not. The steps
    of all parties interleave freely, and the outcome of every request is chosen by an adversary. */
module RdeProtocol {
  import opened Documents
  import opened RdeUpdates
  import opened Migration

  type CallId = nat

  /** How a PUT came back: without any response, or with a status and, possibly, an error. */
  datatype Answer = Unanswered | Answered(status: nat, err: bool)

  datatype Phase =
    | Reads(tries: nat)
    | Writes(tries: nat, readAt: nat, read: Rde, found: seq<Lookup>, next: Rde)
    | Done(result: CallResult, lastRead: nat)

  /** `conflicts` counts the 412 answers of a call, `skips` its reads of an entity that it could
      neither update nor refuse; `silent` says that its last PUT brought no response. */
  datatype Call = Call(op: Op, startedAt: nat, conflicts: nat, skips: nat, silent: bool, phase: Phase)

  datatype Commit = Own(call: CallId, op: Op, found: seq<Lookup>) | Foreign(rde: Rde)

  /** The etag of an entity is the number of commits so far, so it is fresh for every commit. */
  datatype World = World(limit: nat, first: Rde, rde: Rde, log: seq<Commit>, calls: map<CallId, Call>)

  datatype Step =
    | Start(call: CallId, op: Op)
    | Get(call: CallId, ok: bool, found: seq<Lookup>, managerOk: bool)
    | Put(call: CallId, applied: bool, answer: Answer)
    | Write(rde: Rde)

  /** What the server and the generated client promise about a PUT under the etag `readAt`: it is
      applied only to the version it names, 412 means that this version is gone, a status below
      300 means that it was applied, and any other status comes with an error. */
  predicate Allowed(w: World, readAt: nat, applied: bool, answer: Answer) {
    && (applied ==> readAt == |w.log|)
    && (answer.Answered? ==>
          && (answer.status == 412 ==> readAt != |w.log|)
          && (answer.status < 300 ==> applied)
          && (answer.status >= 300 ==> answer.err))
  }

  datatype Verdict = Finish(result: CallResult) | Retry

  /** How each call reads the answer to its PUT. */
  function Judge(op: Op, answer: Answer): Verdict {
    match op
    case AddPv(_, _) => JudgeList(answer)
    case RemovePv(_) => JudgeList(answer)
    case Upgrade(_) =>
      // a missing response is logged and taken for success
      if answer.Answered? && answer.status != 200 then Retry else Finish(Nil)
    case Convert(_) =>
      if answer.Unanswered? || answer.err then Finish(Error)
      else if answer.status != 200 then Retry
      else Finish(Nil)
  }

  function JudgeList(answer: Answer): Verdict {
    match answer
    case Unanswered => Finish(Panic)  // the status of a nil response is read
    case Answered(status, err) =>
      if !err then Finish(Nil) else if status == 412 then Retry else Finish(Error)
  }

  // ----- the steps -----

  function WithCall(w: World, c: CallId, call: Call): World {
    w.(calls := w.calls[c := call])
  }

  function Retried(w: World, call: Call, tries: nat): Phase {
    if tries + 1 >= w.limit then Done(Exhausted, |w.log|) else Reads(tries + 1)
  }

  function NextStart(w: World, c: CallId, op: Op): World {
    if c in w.calls then w
    else WithCall(w, c, Call(op, |w.log|, 0, 0, false, if w.limit == 0 then Done(Exhausted, |w.log|) else Reads(0)))
  }

  function NextGet(w: World, c: CallId, ok: bool, found: seq<Lookup>, managerOk: bool): World {
    if c !in w.calls || !w.calls[c].phase.Reads? then w
    else
      var call := w.calls[c];
      if !ok then WithCall(w, c, call.(phase := Done(Error, |w.log|)))
      else
        match PlanFor(call.op, w.rde, found, managerOk)
        case Stop(result) => WithCall(w, c, call.(phase := Done(result, |w.log|)))
        case Again => WithCall(w, c, call.(skips := call.skips + 1, phase := Retried(w, call, call.phase.tries)))
        case Send(next) => WithCall(w, c, call.(phase := Writes(call.phase.tries, |w.log|, w.rde, found, next)))
  }

  function NextPut(w: World, c: CallId, applied: bool, answer: Answer): World {
    if c !in w.calls || !w.calls[c].phase.Writes? || !Allowed(w, w.calls[c].phase.readAt, applied, answer) then w
    else
      var call := w.calls[c];
      var after := if applied then w.(rde := call.phase.next, log := w.log + [Own(c, call.op, call.phase.found)])
                   else w;
      var judged := call.(conflicts := call.conflicts + (if answer == Answered(412, true) then 1 else 0),
                          silent := answer.Unanswered?);
      match Judge(call.op, answer)
      case Finish(result) => WithCall(after, c, judged.(phase := Done(result, call.phase.readAt)))
      case Retry => WithCall(after, c, judged.(phase := Retried(after, call, call.phase.tries)))
  }

  /** A step that is not enabled changes nothing, so every sequence of steps is a run. */
  function Next(w: World, s: Step): World {
    match s
    case Start(c, op) => NextStart(w, c, op)
    case Get(c, ok, found, managerOk) => NextGet(w, c, ok, found, managerOk)
    case Put(c, applied, answer) => NextPut(w, c, applied, answer)
    case Write(rde) => w.(rde := rde, log := w.log + [Foreign(rde)])
  }

  function Run(w: World, steps: seq<Step>): World
    decreases |steps|
  {
    if steps == [] then w else Run(Next(w, steps[0]), steps[1..])
  }

  function Init(limit: nat, rde: Rde): World {
    World(limit, rde, rde, [], map[])
  }

  // ----- the history -----

  /** A committed update, made anew to the entity it is given. */
  function Redo(commit: Commit, rde: Rde): Rde {
    match commit
    case Own(_, op, found) => Applied(PlanFor(op, rde, found, true), rde)
    case Foreign(written) => written
  }

  /** The committed updates, folded over the first entity in commit order. */
  function Replay(first: Rde, log: seq<Commit>): Rde {
    if log == [] then first else Redo(log[|log| - 1], Replay(first, log[..|log| - 1]))
  }

  function Version(w: World, i: nat): Rde
    requires i <= |w.log|
  {
    Replay(w.first, w.log[..i])
  }

  /** How many of the commits from `from` up to `to` are the call's own. */
  function Owns(log: seq<Commit>, c: CallId, from: nat, to: nat): (n: nat)
    requires from <= to <= |log|
    ensures n <= to - from
  {
    if from == to then 0
    else Owns(log, c, from, to - 1) + (if log[to - 1].Own? && log[to - 1].call == c then 1 else 0)
  }

  function Others(log: seq<Commit>, c: CallId, from: nat, to: nat): nat
    requires from <= to <= |log|
  {
    to - from - Owns(log, c, from, to)
  }

  // ----- the invariant -----

  ghost predicate ListCallInv(w: World, c: CallId, call: Call)
    requires call.startedAt <= |w.log|
  {
    var owns := Owns(w.log, c, 0, |w.log|);
    match call.phase
    case Reads(tries) => owns == 0 && tries == call.conflicts + call.skips
    case Writes(tries, _, _, _, _) => owns == 0 && tries == call.conflicts + call.skips
    case Done(result, lastRead) =>
      && owns <= 1
      && (result == Exhausted ==> owns == 0 && call.conflicts + call.skips >= w.limit)
      && (result == Nil ==> owns == 1 || Needless(w, call.op, lastRead))
  }

  /** At the version it read, the call had nothing to put. */
  ghost predicate Needless(w: World, op: Op, lastRead: nat) {
    && lastRead <= |w.log|
    && PlanFor(op, Version(w, lastRead), [], true) == Stop(Nil)
  }

  /** Somewhere since the call started, the entity was of a kind that a removal does not know. */
  ghost predicate SawUnsupported(w: World, call: Call) {
    exists i :: call.startedAt <= i <= |w.log| && Version(w, i).kind == Unsupported
  }

  /** What a call knows, and how many commits by others its conflicts vouch for. */
  ghost predicate CountsInv(w: World, c: CallId, call: Call) {
    && call.startedAt <= |w.log|
    && Owns(w.log, c, 0, call.startedAt) == 0
    && (call.phase.Done? ==> call.startedAt <= call.phase.lastRead <= |w.log|)
    && (call.phase.Writes? ==>
          && call.startedAt <= call.phase.readAt <= |w.log|
          && call.phase.read == Version(w, call.phase.readAt)
          && PlanFor(call.op, call.phase.read, call.phase.found, true) == Send(call.phase.next)
          && Owns(w.log, c, call.phase.readAt, |w.log|) == 0
          && call.conflicts <= Others(w.log, c, call.startedAt, call.phase.readAt))
    && (!call.phase.Writes? ==> call.conflicts <= Others(w.log, c, call.startedAt, |w.log|))
    && (call.skips > 0 ==> call.op.RemovePv? && SawUnsupported(w, call))
  }

  /** The update made to version `at` is one that the call committed. */
  predicate CommittedAt(w: World, c: CallId, at: nat) {
    at < |w.log| && w.log[at].Own? && w.log[at].call == c
  }

  /** An upgrade that returned nil committed what it made of the version it last read, or its last
      PUT brought no response, or there was nothing in that version that it could upgrade. */
  ghost predicate UpgradeCallInv(w: World, c: CallId, call: Call)
    requires call.startedAt <= |w.log|
    requires call.phase.Done? ==> call.phase.lastRead <= |w.log|
  {
    call.phase.Done? && call.phase.result == Nil ==>
      || CommittedAt(w, c, call.phase.lastRead)
      || call.silent
      || CannotUpgrade(Version(w, call.phase.lastRead))
  }

  /** A conversion that returned nil committed what it made of the version it last read, or found no
      CSI section in it. */
  ghost predicate ConvertCallInv(w: World, c: CallId, call: Call)
    requires call.phase.Done? ==> call.phase.lastRead <= |w.log|
  {
    call.phase.Done? && call.phase.result == Nil ==>
      CommittedAt(w, c, call.phase.lastRead) || NoCsiSection(Version(w, call.phase.lastRead))
  }

  ghost predicate CallInv(w: World, c: CallId, call: Call) {
    && CountsInv(w, c, call)
    && (call.op.Convert? ==> ConvertCallInv(w, c, call))
    && (call.op.AddPv? || call.op.RemovePv? ==> ListCallInv(w, c, call))
    && (call.op.Upgrade? ==> UpgradeCallInv(w, c, call))
  }

  /** Every committed update of a call was one that its plan, at that version, asked for. */
  ghost predicate CommitsInv(w: World) {
    forall i | 0 <= i < |w.log| && w.log[i].Own? ::
      PlanFor(w.log[i].op, Version(w, i), w.log[i].found, true).Send?
  }

  ghost predicate Inv(w: World) {
    && w.rde == Replay(w.first, w.log)
    && CommitsInv(w)
    && (forall c | c in w.calls :: CallInv(w, c, w.calls[c]))
    && (forall i | 0 <= i < |w.log| && w.log[i].Own? ::
       w.log[i].call in w.calls && w.calls[w.log[i].call].op == w.log[i].op)
  }

  // ----- facts about a growing log -----

  lemma {:induction false} OwnsSplit(log: seq<Commit>, c: CallId, from: nat, mid: nat, to: nat)
    requires from <= mid <= to <= |log|
    ensures Owns(log, c, from, to) == Owns(log, c, from, mid) + Owns(log, c, mid, to)
  {
    if mid < to {
      OwnsSplit(log, c, from, mid, to - 1);
    }
  }

  lemma {:induction false} OwnsPrefix(log: seq<Commit>, more: seq<Commit>, c: CallId, from: nat, to: nat)
    requires from <= to <= |log|
    ensures Owns(log + more, c, from, to) == Owns(log, c, from, to)
  {
    if from < to {
      OwnsPrefix(log, more, c, from, to - 1);
    }
  }

  lemma {:induction false} NoneOfACallThatIsNotThere(log: seq<Commit>, c: CallId, to: nat)
    requires to <= |log| && forall i | 0 <= i < |log| :: log[i].Own? ==> log[i].call != c
    ensures Owns(log, c, 0, to) == 0
  {
    if to > 0 {
      NoneOfACallThatIsNotThere(log, c, to - 1);
    }
  }

  lemma VersionStays(w: World, w': World, i: nat)
    requires w.first == w'.first && w.log <= w'.log && i <= |w.log|
    ensures Version(w', i) == Version(w, i)
  {
    assert w'.log[..i] == w.log[..i];
  }

  lemma VersionNow(w: World)
    ensures Version(w, |w.log|) == Replay(w.first, w.log)
  {
    assert w.log[..|w.log|] == w.log;
  }

  /** A commit by somebody else, or none at all, keeps what is known of a call. */
  lemma CallInvUnderOthers(w: World, w': World, c: CallId, call: Call)
    requires CallInv(w, c, call)
    requires w'.first == w.first && w'.limit == w.limit
    requires w'.log == w.log || exists e: Commit :: w'.log == w.log + [e] && !(e.Own? && e.call == c)
    ensures CallInv(w', c, call)
  {
    CountsUnderOthers(w, w', c, call);
    if w'.log != w.log {
      var e: Commit :| w'.log == w.log + [e] && !(e.Own? && e.call == c);
      OwnsPrefix(w.log, [e], c, 0, |w.log|);
    }
    if call.phase.Done? {
      VersionStays(w, w', call.phase.lastRead);
    }
  }

  lemma CountsUnderOthers(w: World, w': World, c: CallId, call: Call)
    requires CountsInv(w, c, call)
    requires w'.first == w.first && w'.limit == w.limit
    requires w'.log == w.log || exists e: Commit :: w'.log == w.log + [e] && !(e.Own? && e.call == c)
    ensures CountsInv(w', c, call)
  {
    if w'.log != w.log {
      var e: Commit :| w'.log == w.log + [e] && !(e.Own? && e.call == c);
      var n := |w.log|;
      OwnsPrefix(w.log, [e], c, 0, call.startedAt);
      OwnsPrefix(w.log, [e], c, call.startedAt, n);
      if call.phase.Writes? {
        OwnsPrefix(w.log, [e], c, call.phase.readAt, n);
        OwnsPrefix(w.log, [e], c, call.startedAt, call.phase.readAt);
        VersionStays(w, w', call.phase.readAt);
      }
    }
    SawUnsupportedStays(w, w', call);
  }

  // ----- every step keeps the invariant -----

  /** Only calls other than `c` are untouched by a step of `c`, and the log grew by `c` at most. */
  lemma OthersKeepInv(w: World, w': World, c: CallId)
    requires Inv(w) && c in w'.calls && CallInv(w', c, w'.calls[c])
    requires w'.first == w.first && w'.limit == w.limit
    requires w'.calls == w.calls[c := w'.calls[c]]
    requires c in w.calls ==> w.calls[c].op == w'.calls[c].op
    requires w'.log == w.log || exists found :: w'.log == w.log + [Own(c, w'.calls[c].op, found)]
    requires w'.rde == Replay(w'.first, w'.log) && CommitsInv(w')
    ensures Inv(w')
  {
    forall d | d in w'.calls ensures CallInv(w', d, w'.calls[d]) {
      if d != c {
        CallInvUnderOthers(w, w', d, w.calls[d]);
      }
    }
  }

  lemma CommitsInvGrows(w: World, w': World)
    requires CommitsInv(w) && w'.first == w.first && w.log <= w'.log && |w'.log| <= |w.log| + 1
    requires |w'.log| == |w.log| + 1 && w'.log[|w.log|].Own?
             ==> PlanFor(w'.log[|w.log|].op, Version(w, |w.log|), w'.log[|w.log|].found, true).Send?
    ensures CommitsInv(w')
  {
    forall i | 0 <= i < |w'.log| && w'.log[i].Own?
      ensures PlanFor(w'.log[i].op, Version(w', i), w'.log[i].found, true).Send?
    {
      VersionStays(w, w', i);
    }
  }

  lemma StartKeepsInv(w: World, c: CallId, op: Op)
    requires Inv(w)
    ensures Inv(NextStart(w, c, op))
  {
    if c !in w.calls {
      NoneOfACallThatIsNotThere(w.log, c, |w.log|);
      CommitsInvGrows(w, NextStart(w, c, op));
      OthersKeepInv(w, NextStart(w, c, op), c);
    }
  }

  lemma GetKeepsCounts(w: World, c: CallId, ok: bool, found: seq<Lookup>, managerOk: bool)
    requires c in w.calls && w.calls[c].phase.Reads? && CountsInv(w, c, w.calls[c])
    requires w.rde == Replay(w.first, w.log)
    ensures var w' := NextGet(w, c, ok, found, managerOk);
            c in w'.calls && CountsInv(w', c, w'.calls[c])
  {
    var call := w.calls[c];
    var w' := NextGet(w, c, ok, found, managerOk);
    VersionNow(w);
    VersionStays(w, w', |w.log|);
    SawUnsupportedStays(w, w', call);
    if ok && PlanFor(call.op, w.rde, found, managerOk).Again? {
      assert Version(w', |w'.log|).kind == Unsupported;
    }
    assert w'.calls[c].skips > 0 ==> SawUnsupported(w', w'.calls[c]);
  }

  lemma GetKeepsUpgradeCall(w: World, c: CallId, ok: bool, found: seq<Lookup>, managerOk: bool)
    requires c in w.calls && w.calls[c].phase.Reads? && w.calls[c].op.Upgrade? && CountsInv(w, c, w.calls[c])
    requires w.rde == Replay(w.first, w.log)
    ensures var w' := NextGet(w, c, ok, found, managerOk);
            c in w'.calls && CountsInv(w', c, w'.calls[c]) && UpgradeCallInv(w', c, w'.calls[c])
  {
    var w' := NextGet(w, c, ok, found, managerOk);
    GetKeepsCounts(w, c, ok, found, managerOk);
    UpgradeSendsIff(w.rde, w.calls[c].op.version, found);
    VersionNow(w);
    VersionStays(w, w', |w.log|);
  }

  lemma GetKeepsConvertCall(w: World, c: CallId, ok: bool, found: seq<Lookup>, managerOk: bool)
    requires c in w.calls && w.calls[c].phase.Reads? && w.calls[c].op.Convert? && CountsInv(w, c, w.calls[c])
    requires w.rde == Replay(w.first, w.log)
    ensures var w' := NextGet(w, c, ok, found, managerOk);
            c in w'.calls && CountsInv(w', c, w'.calls[c]) && ConvertCallInv(w', c, w'.calls[c])
  {
    var w' := NextGet(w, c, ok, found, managerOk);
    GetKeepsCounts(w, c, ok, found, managerOk);
    VersionNow(w);
    VersionStays(w, w', |w.log|);
  }

  lemma GetKeepsListCall(w: World, c: CallId, ok: bool, found: seq<Lookup>, managerOk: bool)
    requires c in w.calls && w.calls[c].phase.Reads? && w.rde == Replay(w.first, w.log)
    requires w.calls[c].startedAt <= |w.log| && ListCallInv(w, c, w.calls[c])
    requires w.calls[c].op.AddPv? || w.calls[c].op.RemovePv?
    ensures var w' := NextGet(w, c, ok, found, managerOk);
            c in w'.calls && w'.calls[c].startedAt <= |w'.log| && ListCallInv(w', c, w'.calls[c])
  {
    var w' := NextGet(w, c, ok, found, managerOk);
    VersionNow(w);
    VersionStays(w, w', |w.log|);
  }

  lemma GetKeepsCall(w: World, c: CallId, ok: bool, found: seq<Lookup>, managerOk: bool)
    requires c in w.calls && w.calls[c].phase.Reads? && CallInv(w, c, w.calls[c])
    requires w.rde == Replay(w.first, w.log)
    ensures var w' := NextGet(w, c, ok, found, managerOk);
            c in w'.calls && CallInv(w', c, w'.calls[c])
  {
    GetKeepsCounts(w, c, ok, found, managerOk);
    match w.calls[c].op
    case AddPv(_, _) => GetKeepsListCall(w, c, ok, found, managerOk);
    case RemovePv(_) => GetKeepsListCall(w, c, ok, found, managerOk);
    case Upgrade(_) => GetKeepsUpgradeCall(w, c, ok, found, managerOk);
    case Convert(_) => GetKeepsConvertCall(w, c, ok, found, managerOk);
  }

  /** A GET touches nothing but the call that sends it. */
  lemma GetFrame(w: World, c: CallId, ok: bool, found: seq<Lookup>, managerOk: bool)
    requires c in w.calls && w.calls[c].phase.Reads?
    ensures var w' := NextGet(w, c, ok, found, managerOk);
            && c in w'.calls && w' == w.(calls := w.calls[c := w'.calls[c]]) && w'.calls[c].op == w.calls[c].op
  {
  }

  lemma GetKeepsInv(w: World, c: CallId, ok: bool, found: seq<Lookup>, managerOk: bool)
    requires Inv(w)
    ensures Inv(NextGet(w, c, ok, found, managerOk))
  {
    if c in w.calls && w.calls[c].phase.Reads? {
      var w' := NextGet(w, c, ok, found, managerOk);
      GetFrame(w, c, ok, found, managerOk);
      GetKeepsCall(w, c, ok, found, managerOk);
      CommitsInvGrows(w, w');
      OthersKeepInv(w, w', c);
    }
  }

  /** If-Match at work: what is put was computed from the very version that it replaces. */
  lemma CommitReplays(w: World, c: CallId)
    requires Inv(w) && c in w.calls && w.calls[c].phase.Writes? && w.calls[c].phase.readAt == |w.log|
    ensures var call := w.calls[c];
            Replay(w.first, w.log + [Own(c, call.op, call.phase.found)]) == call.phase.next
  {
    var call := w.calls[c];
    VersionNow(w);
    assert CallInv(w, c, call);
    var log := w.log + [Own(c, call.op, call.phase.found)];
    assert log[..|log| - 1] == w.log;
  }

  /** What a PUT leaves alone, and what it may add to the log. */
  lemma PutFrame(w: World, c: CallId, applied: bool, answer: Answer)
    requires c in w.calls && w.calls[c].phase.Writes? && Allowed(w, w.calls[c].phase.readAt, applied, answer)
    ensures var w', call := NextPut(w, c, applied, answer), w.calls[c];
            && w'.first == w.first && w'.limit == w.limit
            && c in w'.calls && w'.calls == w.calls[c := w'.calls[c]] && w'.calls[c].op == call.op
            && w'.log == (if applied then w.log + [Own(c, call.op, call.phase.found)] else w.log)
            && w'.rde == (if applied then call.phase.next else w.rde)
  {
  }

  lemma PutKeepsInv(w: World, c: CallId, applied: bool, answer: Answer)
    requires Inv(w)
    ensures Inv(NextPut(w, c, applied, answer))
  {
    if c in w.calls && w.calls[c].phase.Writes? && Allowed(w, w.calls[c].phase.readAt, applied, answer) {
      var call := w.calls[c];
      assert CallInv(w, c, call);
      var w' := NextPut(w, c, applied, answer);
      PutFrame(w, c, applied, answer);
      if applied {
        CommitReplays(w, c);
        VersionNow(w);
      }
      PutKeepsCall(w, c, applied, answer);
      CommitsInvGrows(w, w');
      OthersKeepInv(w, w', c);
    }
  }

  lemma PutKeepsCall(w: World, c: CallId, applied: bool, answer: Answer)
    requires c in w.calls && w.calls[c].phase.Writes? && CallInv(w, c, w.calls[c])
    requires Allowed(w, w.calls[c].phase.readAt, applied, answer)
    ensures var w' := NextPut(w, c, applied, answer);
            c in w'.calls && CallInv(w', c, w'.calls[c])
  {
    PutKeepsCounts(w, c, applied, answer);
    if w.calls[c].op.AddPv? || w.calls[c].op.RemovePv? {
      PutKeepsListCall(w, c, applied, answer);
    }
  }

  /** A 412 vouches for one more commit by others: the one that made the etag stale. */
  lemma PutCountsConflicts(w: World, c: CallId, applied: bool, answer: Answer)
    requires c in w.calls && w.calls[c].phase.Writes? && CountsInv(w, c, w.calls[c])
    requires Allowed(w, w.calls[c].phase.readAt, applied, answer)
    ensures var log := if applied then w.log + [Own(c, w.calls[c].op, w.calls[c].phase.found)] else w.log;
            && Owns(log, c, 0, w.calls[c].startedAt) == 0
            && w.calls[c].conflicts + (if answer == Answered(412, true) then 1 else 0)
               <= Others(log, c, w.calls[c].startedAt, |log|)
  {
    var call := w.calls[c];
    var n := |w.log|;
    OwnsSplit(w.log, c, call.startedAt, call.phase.readAt, n);
    if applied {
      OwnsPrefix(w.log, [Own(c, call.op, call.phase.found)], c, 0, call.startedAt);
      OwnsPrefix(w.log, [Own(c, call.op, call.phase.found)], c, call.startedAt, n);
    }
  }

  lemma PutKeepsCounts(w: World, c: CallId, applied: bool, answer: Answer)
    requires c in w.calls && w.calls[c].phase.Writes? && CountsInv(w, c, w.calls[c])
    requires Allowed(w, w.calls[c].phase.readAt, applied, answer)
    ensures var w' := NextPut(w, c, applied, answer);
            c in w'.calls && CountsInv(w', c, w'.calls[c])
  {
    var w' := NextPut(w, c, applied, answer);
    PutCountsConflicts(w, c, applied, answer);
    SawUnsupportedStays(w, w', w.calls[c]);
    assert w.calls[c].skips > 0 ==> SawUnsupported(w', w'.calls[c]);
  }

  lemma SawUnsupportedStays(w: World, w': World, call: Call)
    requires w'.first == w.first && w.log <= w'.log
    ensures SawUnsupported(w, call) ==> SawUnsupported(w', call)
  {
    if SawUnsupported(w, call) {
      var i :| call.startedAt <= i <= |w.log| && Version(w, i).kind == Unsupported;
      VersionStays(w, w', i);
      assert Version(w', i).kind == Unsupported;
    }
  }

  lemma PutKeepsListCall(w: World, c: CallId, applied: bool, answer: Answer)
    requires c in w.calls && w.calls[c].phase.Writes? && CallInv(w, c, w.calls[c])
    requires w.calls[c].op.AddPv? || w.calls[c].op.RemovePv?
    requires Allowed(w, w.calls[c].phase.readAt, applied, answer)
    ensures var w' := NextPut(w, c, applied, answer);
            c in w'.calls && w'.calls[c].startedAt <= |w'.log| && ListCallInv(w', c, w'.calls[c])
  {
    if applied {
      OwnsPrefix(w.log, [Own(c, w.calls[c].op, w.calls[c].phase.found)], c, 0, |w.log|);
    }
  }

  lemma WriteKeepsInv(w: World, rde: Rde)
    requires Inv(w)
    ensures Inv(Next(w, Write(rde)))
  {
    var w' := Next(w, Write(rde));
    assert w'.log[..|w'.log| - 1] == w.log;
    CommitsInvGrows(w, w');
    forall c | c in w'.calls ensures CallInv(w', c, w'.calls[c]) {
      assert w'.log == w.log + [Foreign(rde)];
      CallInvUnderOthers(w, w', c, w.calls[c]);
    }
  }

  lemma NextKeepsInv(w: World, s: Step)
    requires Inv(w)
    ensures Inv(Next(w, s))
  {
    match s
    case Start(c, op) => StartKeepsInv(w, c, op);
    case Get(c, ok, found, managerOk) => GetKeepsInv(w, c, ok, found, managerOk);
    case Put(c, applied, answer) => PutKeepsInv(w, c, applied, answer);
    case Write(rde) => WriteKeepsInv(w, rde);
  }

  lemma {:induction false} RunKeepsInv(w: World, steps: seq<Step>)
    requires Inv(w)
    ensures Inv(Run(w, steps))
    decreases |steps|
  {
    if steps != [] {
      NextKeepsInv(w, steps[0]);
      RunKeepsInv(Next(w, steps[0]), steps[1..]);
    }
  }

  // ----- runs -----

  ghost predicate Reachable(w: World) {
    exists limit, rde, steps :: w == Run(Init(limit, rde), steps)
  }

  lemma {:induction false} RunConcat(w: World, a: seq<Step>, b: seq<Step>)
    ensures Run(w, a + b) == Run(Run(w, a), b)
    decreases |a|
  {
    if a == [] {
      assert a + b == b;
    } else {
      assert (a + b)[1..] == a[1..] + b;
      RunConcat(Next(w, a[0]), a[1..], b);
    }
  }

  predicate By(c: CallId, s: Step) {
    match s
    case Start(d, _) => d == c
    case Get(d, _, _, _) => d == c
    case Put(d, _, _) => d == c
    case Write(_) => false
  }

  predicate NoneBy(c: CallId, steps: seq<Step>) {
    forall i | 0 <= i < |steps| :: !By(c, steps[i])
  }

  /** What others do leaves a call as it is. */
  lemma {:induction false} OthersLeaveCall(w: World, c: CallId, steps: seq<Step>)
    requires NoneBy(c, steps) && c in w.calls
    ensures var w' := Run(w, steps);
            c in w'.calls && w'.calls[c] == w.calls[c] && w'.limit == w.limit && w'.first == w.first
    decreases |steps|
  {
    if steps != [] {
      assert !By(c, steps[0]);
      OthersLeaveCall(Next(w, steps[0]), c, steps[1..]);
    }
  }
}
