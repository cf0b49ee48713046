/** One disk per name: kept over whole runs as long as every lookup that a Create relies on could
    read every OVDC, and lost with a single one that could not. */
module VolumeNames {
  import opened Wrappers
  import opened Volumes
  import Safety = VolumeSafety
  import Index = VolumeIndex
  import DiskLookup

  ghost predicate UniqueNames(c: Cloud) {
    forall a, b | a in c.live && b in c.live && c.live[a].name == c.live[b].name :: a == b
  }

  ghost predicate NoDiskNamed(c: Cloud, name: string) {
    forall id | id in c.live :: c.live[id].name != name
  }

  ghost predicate NamesOk(c: Cloud) {
    && UniqueNames(c)
    && forall id | id in c.live :: c.live[id].ovdc in c.zones
  }

  /** A disk about to be made is for an OVDC that lookups cover, under a name that nobody has. */
  ghost predicate MayMake(c: Cloud, phase: Phase) {
    phase.Creates? ==>
      && phase.creating.want.ovdc in c.zones
      && (phase.creating.CreateMakes? ==> NoDiskNamed(c, phase.creating.want.name))
  }

  ghost predicate Inv(w: World) {
    && Safety.Inv(w)
    && NamesOk(w.cloud)
    && forall t | t in w.threads :: MayMake(w.cloud, w.threads[t])
  }

  /** A Create asks for an OVDC of the zone map, and its lookup can read them all. */
  ghost predicate Careful(w: World, s: Step) {
    s.Step? ==>
      && (s.choice.Begin? && s.choice.phase.Creates? ==> s.choice.phase.creating.want.ovdc in w.cloud.zones)
      && (s.choice.Look? && s.t in w.threads && w.threads[s.t].Creates? ==> s.choice.readable == w.cloud.zones)
  }

  ghost predicate CarefulRun(w: World, steps: seq<Step>)
    decreases |steps|
  {
    steps == [] || (Careful(w, steps[0]) && CarefulRun(Next(w, steps[0]), steps[1..]))
  }

  /** While names are unique, a lookup that can read every OVDC finds whatever has the name. */
  lemma MissMeansNoDisk(c: Cloud, name: string)
    requires NamesOk(c) && LookAllowed(c, name, c.zones, None)
    ensures NoDiskNamed(c, name)
  {
    forall id | id in c.live && c.live[id].name == name ensures false {
      assert SoleId(c, c.live[id].ovdc, name, id);
    }
  }

  /** A call keeps names unique; only a holder of the lock adds one. */
  ghost predicate NamesKept(c: Cloud, phase: Phase, effect: Effect) {
    effect.Goes? ==>
      && NamesOk(effect.cloud)
      && effect.cloud.zones == c.zones
      && MayMake(effect.cloud, effect.phase)
      && (Locked(phase) || Index.SameDisks(c, effect.cloud))
  }

  lemma NewNameKeepsNames(c: Cloud, made: Disk)
    requires NamesOk(c) && NoDiskNamed(c, made.name) && made.ovdc in c.zones
    ensures NamesOk(c.(live := c.live[made.id := made], attached := c.attached[made.id := []]))
  {
  }

  lemma CreateKeepsNames(c: Cloud, p: Creating, choice: Choice)
    requires NamesOk(c) && MayMake(c, Creates(p)) && Safety.DisksOk(c)
    requires choice.Look? ==> choice.readable == c.zones
    ensures NamesKept(c, Creates(p), CreateCall(c, p, choice))
  {
    match p
    case CreateWaits(_) => assert Index.SameDisks(c, c);
    case CreateLooks(want) =>
      if choice.Look? && LookAllowed(c, want.name, choice.readable, None) {
        MissMeansNoDisk(c, want.name);
      }
    case CreateMakes(_) =>
      if choice.Make? && MadeFor(c, choice.made, p.want) {
        NewNameKeepsNames(c, choice.made);
      }
    case CreateIndexes(_, _) =>
  }

  lemma DeleteKeepsNames(c: Cloud, p: Deleting, choice: Choice)
    requires NamesOk(c)
    ensures NamesKept(c, Deletes(p), DeleteCall(c, p, choice))
  {
  }

  lemma SameDisksKeepNames(c: Cloud, c': Cloud)
    requires NamesOk(c) && Index.SameDisks(c, c')
    ensures NamesOk(c')
  {
  }

  lemma CallKeepsNames(c: Cloud, phase: Phase, choice: Choice)
    requires Safety.DisksOk(c) && Safety.Knows(c, phase) && NamesOk(c) && MayMake(c, phase)
    requires choice.Look? && phase.Creates? ==> choice.readable == c.zones
    ensures NamesKept(c, phase, Call(c, phase, choice))
  {
    if !choice.Fail? {
      match phase
      case Creates(p) => CreateKeepsNames(c, p, choice);
      case Deletes(p) => DeleteKeepsNames(c, p, choice);
      case Done(_) =>
      case _ => QuietCallKeepsNames(c, phase, choice);
    }
  }

  lemma QuietCallKeepsNames(c: Cloud, phase: Phase, choice: Choice)
    requires Safety.DisksOk(c) && NamesOk(c) && (phase.Attaches? || phase.Detaches? || phase.Expands?)
    ensures NamesKept(c, phase, Call(c, phase, choice))
  {
    Index.QuietCall(c, phase, choice);
    if Call(c, phase, choice).Goes? {
      SameDisksKeepNames(c, Call(c, phase, choice).cloud);
      OthersDoNotMake(c, phase, choice);
    }
  }

  lemma OthersDoNotMake(c: Cloud, phase: Phase, choice: Choice)
    requires !phase.Creates? && Call(c, phase, choice).Goes?
    ensures !Call(c, phase, choice).phase.Creates?
  {
  }

  lemma MoveKeepsInv(w: World, t: Tid, effect: Effect)
    requires Inv(w) && t in w.threads && NamesKept(w.cloud, w.threads[t], effect)
    ensures var w' := Move(w, t, effect);
            NamesOk(w'.cloud) && forall u | u in w'.threads :: MayMake(w'.cloud, w'.threads[u])
  {
    var w' := Move(w, t, effect);
    if w' != w {
      forall u | u in w'.threads ensures MayMake(w'.cloud, w'.threads[u]) {
        if u != t {
          assert MayMake(w.cloud, w.threads[u]);
          assert Locked(w.threads[t]) && Locked(w.threads[u]) ==> t == u;
        }
      }
    }
  }

  lemma NextKeepsInv(w: World, s: Step)
    requires Inv(w) && Careful(w, s)
    ensures Inv(Next(w, s))
  {
    Safety.NextKeepsInv(w, s);
    if s.Step? && s.t in w.threads {
      CallKeepsNames(w.cloud, w.threads[s.t], s.choice);
      MoveKeepsInv(w, s.t, Call(w.cloud, w.threads[s.t], s.choice));
    }
  }

  /** From unique names, any run of any handlers keeps at most one disk per name across all OVDCs,
      provided that the lookups of its Creates could read every OVDC. */
  lemma {:induction false} NamesStayUnique(w: World, steps: seq<Step>)
    requires Inv(w) && CarefulRun(w, steps)
    ensures Inv(Run(w, steps)) && UniqueNames(Run(w, steps).cloud)
    decreases |steps|
  {
    if steps != [] {
      NextKeepsInv(w, steps[0]);
      NamesStayUnique(Next(w, steps[0]), steps[1..]);
    }
  }

  // ----- without the proviso -----

  /** A lookup misses a disk exactly when it could not read the OVDC that the disk is in. */
  lemma LookMissesIff(c: Cloud, name: string, id: string, readable: set<Ovdc>)
    requires Index.OnlyDiskNamed(c, name, id) && readable <= c.zones
    ensures LookAllowed(c, name, readable, None) <==> c.live[id].ovdc !in readable
  {
    assert SoleId(c, c.live[id].ovdc, name, id);
  }

  /** One such lookup is enough: whatever the state, a Create whose lookup cannot read the OVDC of
      the disk that has the name makes a second one. An OVDC that lookups do not cover at all is one
      that they cannot read. */
  lemma OneUnreadableZoneDuplicates(w: World, t: Tid, want: Disk, id: string, readable: set<Ovdc>, made: Disk)
    requires Index.OnlyDiskNamed(w.cloud, want.name, id) && readable <= w.cloud.zones
    requires w.cloud.live[id].ovdc !in readable
    requires w.lock.None? && t !in w.threads && MadeFor(w.cloud, made, want) && id in w.cloud.attached
    ensures var w' := Run(w, [Step(t, Begin(Creates(CreateWaits(want)))), Step(t, Go),
                              Step(t, Look(readable, None)), Step(t, Make(made, true))]);
            && id in w'.cloud.live && made.id in w'.cloud.live && id != made.id
            && w'.cloud.live[id].name == w'.cloud.live[made.id].name
            && !UniqueNames(w'.cloud)
  {
    var s0, s1 := Step(t, Begin(Creates(CreateWaits(want)))), Step(t, Go);
    var s2, s3 := Step(t, Look(readable, None)), Step(t, Make(made, true));
    LookMissesIff(w.cloud, want.name, id, readable);
    RunOfThree(w, s0, s1, s2);
    RunConcat(w, [s0, s1, s2], [s3]);
    var w3 := Run(w, [s0, s1, s2]);
    assert w3 == World(w.cloud, Some(t), w.threads[t := Creates(CreateMakes(want))]);
    assert Run(w3, [s3]) == Run(Next(w3, s3), []);
    assert [s0, s1, s2] + [s3] == [s0, s1, s2, s3];
  }

  /** No OVDC holds exactly one disk of that name. */
  ghost predicate OnlyDuplicates(c: Cloud, name: string) {
    forall id | id in c.live && c.live[id].name == name :: !SoleId(c, c.live[id].ovdc, name, id)
  }

  /** Two disks of a name in one OVDC hide each other: a Delete of that name deletes neither, even
      when it can read everything, and if it ends it reports success, unless one of its calls failed
      (VolumeOutcomes.DeleteOfMissedSucceeds is the run that ends). */
  lemma {:induction false} DeleteSkipsDuplicates(w: World, t: Tid, name: string, steps: seq<Step>)
    requires OnlyDuplicates(w.cloud, name)
    requires (forall i | 0 <= i < |steps| :: steps[i].Step? && steps[i].t == t)
    requires t in w.threads && Index.DeleteRetryPhase(w.threads[t], name)
    ensures var w' := Run(w, steps);
            && w'.cloud == w.cloud && t in w'.threads && Index.DeleteRetryPhase(w'.threads[t], name)
            && (w'.threads[t] == Done(Failure) && Index.NoneFails(steps) ==> w.threads[t] == Done(Failure))
    decreases |steps|
  {
    if steps != [] {
      SkipDuplicatesStep(w, t, name, steps[0].choice);
      assert Index.NoneFails(steps) ==> !steps[0].choice.Fail? && Index.NoneFails(steps[1..]);
      DeleteSkipsDuplicates(Next(w, steps[0]), t, name, steps[1..]);
    }
  }

  lemma SkipDuplicatesStep(w: World, t: Tid, name: string, choice: Choice)
    requires OnlyDuplicates(w.cloud, name)
    requires t in w.threads && Index.DeleteRetryPhase(w.threads[t], name)
    ensures var w' := Next(w, Step(t, choice));
            && w'.cloud == w.cloud && t in w'.threads && Index.DeleteRetryPhase(w'.threads[t], name)
            && (w'.threads[t] == Done(Failure) && !choice.Fail? ==> w.threads[t] == Done(Failure))
  {
  }

  // ----- the lookup of the machine is the one of the driver -----

  /** The disks listed for an OVDC are the live ones of that name in it, each once. */
  ghost predicate ListsLive(c: Cloud, ovdc: Ovdc, name: string, disks: seq<Disk>) {
    && (forall i, j | 0 <= i < j < |disks| :: disks[i] != disks[j])
    && forall d :: d in disks <==> d.id in c.live && c.live[d.id] == d && d.name == name && d.ovdc == ovdc
  }

  /** The organisation shows the live disks in the readable OVDCs, and fails for the others. */
  ghost predicate Shows(c: Cloud, org: map<Ovdc, DiskLookup.Vdc>, name: string, readable: set<Ovdc>) {
    forall v | v in c.zones ::
      if v in readable then
        && DiskLookup.VdcIn(org, v).Available?
        && match DiskLookup.Refreshing(DiskLookup.VdcIn(org, v), name)
           case Listed(disks) => ListsLive(c, v, name, disks)
           case NoDisk => ListsLive(c, v, name, [])
           case ListError => false
      else
        || DiskLookup.VdcIn(org, v).Unavailable?
        || DiskLookup.Refreshing(DiskLookup.VdcIn(org, v), name).ListError?
  }

  lemma OnlyOneListedIff(c: Cloud, v: Ovdc, name: string, disks: seq<Disk>, id: string)
    requires Safety.DisksOk(c) && ListsLive(c, v, name, disks) && id in c.live
    ensures disks == [c.live[id]] <==> SoleId(c, v, name, id)
  {
    if SoleId(c, v, name, id) {
      assert c.live[id] in disks;
      var k :| 0 <= k < |disks| && disks[k] == c.live[id];
      forall i | 0 <= i < |disks| ensures disks[i] == disks[k] && i == k {
        assert disks[i] in disks;
      }
      assert disks[0] == disks[k] && disks[|disks| - 1] == disks[k];
    }
    if disks == [c.live[id]] {
      assert c.live[id] in disks;
      forall other | other in c.live && c.live[other].name == name && c.live[other].ovdc == v ensures other == id {
        assert c.live[other] in disks;
      }
    }
  }

  lemma SoleInIsSoleId(c: Cloud, org: map<Ovdc, DiskLookup.Vdc>, name: string, readable: set<Ovdc>, v: Ovdc, id: string)
    requires Safety.DisksOk(c) && Shows(c, org, name, readable) && v in c.zones && id in c.live
    ensures DiskLookup.SoleIn(org, v, name) == Some(c.live[id]) <==> v in readable && SoleId(c, v, name, id)
  {
    if v in readable {
      var listing := DiskLookup.Refreshing(DiskLookup.VdcIn(org, v), name);
      var disks := if listing.Listed? then listing.disks else [];
      OnlyOneListedIff(c, v, name, disks, id);
    }
  }

  /** Whatever order Go visits the zone map in, what the lookup answers is what the machine allows. */
  lemma LookupRefinesMachine(
      c: Cloud, org: map<Ovdc, DiskLookup.Vdc>, name: string, readable: set<Ovdc>, order: seq<Ovdc>)
    requires Safety.DisksOk(c) && readable <= c.zones && Shows(c, org, name, readable)
    requires DiskLookup.IsOrderOf(order, c.zones)
    ensures match DiskLookup.ScanZones(order, org, name)
            case Found(disk) =>
              disk.id in c.live && c.live[disk.id] == disk && LookAllowed(c, name, readable, Some(disk.id))
            case NotFound => LookAllowed(c, name, readable, None)
            case _ => false
  {
    DiskLookup.ScanMeetsAnswer(order, c.zones, org, name);
    match DiskLookup.ScanZones(order, org, name)
    case Found(disk) =>
      var v :| v in c.zones && DiskLookup.SoleIn(org, v, name) == Some(disk);
      var disks := DiskLookup.Refreshing(DiskLookup.VdcIn(org, v), name).disks;
      assert v in readable && ListsLive(c, v, name, disks) && disks[0] in disks;
      SoleInIsSoleId(c, org, name, readable, v, disk.id);
    case NotFound =>
      forall id | id in c.live && c.live[id].name == name && c.live[id].ovdc in readable
        ensures !SoleId(c, c.live[id].ovdc, name, id)
      {
        SoleInIsSoleId(c, org, name, readable, c.live[id].ovdc, id);
      }
    case _ =>
  }

  /** Without a zone map, a lookup by name in the one OVDC answers what the machine allows; there,
      "not found" does mean that the OVDC has no disk of the name. */
  lemma SingleLookupRefinesMachine(c: Cloud, vdc: DiskLookup.Vdc, v: Ovdc, name: string, disks: seq<Disk>)
    requires Safety.DisksOk(c) && c.zones == {v} && !DiskLookup.LooksLikeId(name)
    requires vdc.Available? && ListsLive(c, v, name, disks)
    requires DiskLookup.ListingOf(DiskLookup.Flatten(vdc.cached), name)
             == if disks == [] then DiskLookup.NoDisk else DiskLookup.Listed(disks)
    ensures match DiskLookup.InVdc(vdc, name)
            case Found(disk) => disk.id in c.live && c.live[disk.id] == disk && LookAllowed(c, name, {v}, Some(disk.id))
            case NotFound =>
              && LookAllowed(c, name, {v}, None)
              && forall id | id in c.live && c.live[id].ovdc == v :: c.live[id].name != name
            case Failed => |disks| > 1
            case Crashed => false
  {
    if |disks| == 1 {
      assert disks[0] in disks;
      OnlyOneListedIff(c, v, name, disks, disks[0].id);
    } else if disks == [] {
      forall id | id in c.live && c.live[id].ovdc == v ensures c.live[id].name != name {
        assert c.live[id] !in disks;
      }
    }
  }
}
