/** What a handler does under a script of its environment: for each of its backend calls, what other
    handlers do before it and how it is to come out. */
module VolumeScripts {
  import opened Wrappers
  import opened Volumes

  // ----- the environment -----

  /** What the environment does about one backend call: what other handlers do before it, and how
      it is to come out. */
  datatype Env = Env(before: seq<Step>, choice: Choice)

  predicate IsOther(t: Tid, s: Step) {
    s.Step? && s.t != t
  }

  function OthersOf(t: Tid, steps: seq<Step>): (others: seq<Step>)
    ensures forall i | 0 <= i < |others| :: IsOther(t, others[i])
  {
    if steps == [] then [] else (if IsOther(t, steps[0]) then [steps[0]] else []) + OthersOf(t, steps[1..])
  }

  lemma {:induction false} OthersLeaveThread(w: World, t: Tid, steps: seq<Step>)
    requires t in w.threads && forall i | 0 <= i < |steps| :: IsOther(t, steps[i])
    ensures t in Run(w, steps).threads && Run(w, steps).threads[t] == w.threads[t]
    decreases |steps|
  {
    if steps != [] {
      assert IsOther(t, steps[0]);
      OthersLeaveThread(Next(w, steps[0]), t, steps[1..]);
    }
  }

  lemma {:induction false} RunKeepsPlace(w: World, steps: seq<Step>)
    ensures Run(w, steps).cloud.zones == w.cloud.zones && Run(w, steps).cloud.indexing == w.cloud.indexing
    decreases |steps|
  {
    if steps != [] {
      StepKeepsPlace(w, steps[0]);
      RunKeepsPlace(Next(w, steps[0]), steps[1..]);
    }
  }

  lemma StepKeepsPlace(w: World, s: Step)
    ensures Next(w, s).cloud.zones == w.cloud.zones && Next(w, s).cloud.indexing == w.cloud.indexing
  {
    if s.Step? && s.t in w.threads && !s.choice.Fail? {
      match w.threads[s.t]
      case Creates(p) => CreateKeepsPlace(w.cloud, p, s.choice);
      case Deletes(p) => DeleteKeepsPlace(w.cloud, p, s.choice);
      case Attaches(p) => AttachKeepsPlace(w.cloud, p, s.choice);
      case Detaches(p) => DetachKeepsPlace(w.cloud, p, s.choice);
      case Expands(p) => ExpandKeepsPlace(w.cloud, p, s.choice);
      case Done(_) =>
    }
  }

  predicate KeepsPlace(c: Cloud, effect: Effect) {
    effect.Goes? ==> effect.cloud.zones == c.zones && effect.cloud.indexing == c.indexing
  }

  lemma CreateKeepsPlace(c: Cloud, p: Creating, choice: Choice)
    ensures KeepsPlace(c, CreateCall(c, p, choice))
  {
  }

  lemma DeleteKeepsPlace(c: Cloud, p: Deleting, choice: Choice)
    ensures KeepsPlace(c, DeleteCall(c, p, choice))
  {
  }

  lemma AttachKeepsPlace(c: Cloud, p: Attaching, choice: Choice)
    ensures KeepsPlace(c, AttachCall(c, p, choice))
  {
  }

  lemma DetachKeepsPlace(c: Cloud, p: Detaching, choice: Choice)
    ensures KeepsPlace(c, DetachCall(c, p, choice))
  {
  }

  lemma ExpandKeepsPlace(c: Cloud, p: Expanding, choice: Choice)
    ensures KeepsPlace(c, ExpandCall(c, p, choice))
  {
  }

  /** Waiting for the lock. */
  predicate Waits(phase: Phase) {
    match phase
    case Creates(p) => p.CreateWaits?
    case Deletes(p) => p.DeleteWaits?
    case Attaches(p) => p.AttachWaits?
    case Detaches(p) => p.DetachWaits?
    case _ => false
  }

  lemma OnlyWaitersWait(c: Cloud, phase: Phase, choice: Choice)
    requires !Waits(phase) && Call(c, phase, choice).Goes? && Locked(Call(c, phase, choice).phase)
    ensures Locked(phase)
  {
  }

  // ----- what the environment makes of a handler -----

  function PlayCall(w: World, t: Tid, choice: Choice): World
    requires t in w.threads
  {
    if Waits(w.threads[t]) then (if w.lock.None? then Next(w, Step(t, Go)) else w)
    else Next(w, Step(t, if Call(w.cloud, w.threads[t], choice).Goes? then choice else Fail))
  }

  /** The handler begins on a thread of its own. */
  function Begun(w: World, t: Tid, phase: Phase): World {
    Next(w, Step(t, Begin(phase)))
  }

  /** The handler's calls from the i-th of the script on, until it is done or has to wait. */
  function Play(w: World, t: Tid, script: seq<Env>, i: nat): World
    requires i <= |script|
    decreases |script| - i
  {
    if i == |script| || t !in w.threads || w.threads[t].Done? then w
    else
      var ready := Run(w, OthersOf(t, script[i].before));
      if t !in ready.threads || (Waits(ready.threads[t]) && ready.lock.Some?) then ready
      else Play(PlayCall(ready, t, script[i].choice), t, script, i + 1)
  }

  /** The handler returns an error without another call, if it has not returned yet. */
  function GivenUp(w: World, t: Tid): World {
    if t in w.threads && !w.threads[t].Done? then Next(w, Step(t, Fail)) else w
  }

  /** The answer to a request, or of its task. */
  predicate Succeeded(choice: Choice) {
    choice.Go? || ((choice.Apply? || choice.Make? || choice.Index?) && choice.ok)
  }

  datatype Lookup = Broken | Missing | Got(disk: Disk)

  /** The cloud that the next call of a handler meets, when others have run. */
  function Met(w: World, t: Tid, env: Env): Cloud {
    Run(w, OthersOf(t, env.before)).cloud
  }

  /** What the handler's next lookup answers. */
  function Answer(w: World, t: Tid, env: Env): Lookup
    requires t in w.threads
  {
    if Call(Met(w, t, env), w.threads[t], env.choice).Goes? then LookupOf(Met(w, t, env), env.choice) else Broken
  }

  function LookupOf(c: Cloud, choice: Choice): Lookup {
    if !choice.Look? then Broken
    else if choice.answer.None? then Missing
    else if choice.answer.value in c.live then Got(c.live[choice.answer.value])
    else Broken
  }

  /** The names by which, and the disks about which, handlers ask. */
  predicate LooksUp(phase: Phase, name: string) {
    match phase
    case Creates(p) => p.CreateLooks? && p.want.name == name
    case Deletes(p) => p.DeleteLooks? && p.name == name
    case Attaches(p) => p.PublishLooks? && p.name == name
    case Detaches(p) => (p.UnpublishLooks? || p.DetachLooks?) && p.name == name
    case Expands(p) => p.ExpandLooks? && p.name == name
    case Done(_) => false
  }

  predicate ReadsVms(phase: Phase, id: string) {
    match phase
    case Creates(_) => false
    case Deletes(p) => (p.DeleteReads? || p.DeleteRereads?) && p.id == id
    case Attaches(p) => p.AttachReads? && p.seen.id == id
    case Detaches(p) => (p.UnpublishReads? || p.DetachReads?) && p.id == id
    case Expands(p) => (p.ExpandReads? && p.seen.id == id) || (p.OfflineReads? && p.id == id)
    case Done(_) => false
  }
}
