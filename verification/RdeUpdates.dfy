/** The four in-memory updates that the driver makes to an RDE between reading it and putting it
    back, and what they preserve. */
module RdeUpdates {
  import opened Wrappers
  import opened Documents

  /** What a disk lookup by legacy id comes back with; `Crashes` is the type-assertion panic of
      the single-OVDC lookup (module DiskLookup). */
  datatype Lookup = Hit(id: string, name: string) | Miss | Crashes

  datatype Op =
    | AddPv(id: string, name: string)
    | RemovePv(id: string)
    | Upgrade(version: string)
    | Convert(version: string)

  datatype CallResult = Nil | Error | Exhausted | Panic

  /** What a call does with the entity it has read. */
  datatype Plan =
    | Stop(result: CallResult)
    | Again                    // goes round the retry loop without a PUT
    | Send(rde: Rde)

  // ----- the native list -----

  function StatusOf(rde: Rde): Option<Fields> {
    if STATUS in rde.entity && rde.entity[STATUS].Obj? then Some(rde.entity[STATUS].fields) else None
  }

  predicate AllStrings(items: seq<Json>) {
    forall i :: 0 <= i < |items| ==> items[i].Str?
  }

  function Strings(items: seq<Json>): (ids: seq<string>)
    requires AllStrings(items)
    ensures |ids| == |items| && forall i :: 0 <= i < |ids| ==> ids[i] == items[i].s
  {
    seq(|items|, i requires 0 <= i < |items| => items[i].s)
  }

  function StringArray(ids: seq<string>): Json {
    Arr(seq(|ids|, i requires 0 <= i < |ids| => Str(ids[i])))
  }

  /** The legacy list of a status section: a missing or null entry is the empty list. */
  function ListedPvs(status: Fields): Result<seq<string>> {
    if PERSISTENT_VOLUMES !in status || status[PERSISTENT_VOLUMES].Null? then Ok([])
    else if status[PERSISTENT_VOLUMES].Arr? && AllStrings(status[PERSISTENT_VOLUMES].items) then
      Ok(Strings(status[PERSISTENT_VOLUMES].items))
    else Err
  }

  function NativePvs(rde: Rde): Result<seq<string>> {
    if StatusOf(rde).None? || !rde.kind.Native? then Err else ListedPvs(StatusOf(rde).value)
  }

  function WithStatus(rde: Rde, status: Fields): Rde {
    rde.(entity := rde.entity[STATUS := Obj(status)])
  }

  function WithPvs(rde: Rde, ids: seq<string>): Rde
    requires StatusOf(rde).Some?
  {
    WithStatus(rde, StatusOf(rde).value[PERSISTENT_VOLUMES := StringArray(ids)])
  }

  /** The list without its first `x`, if there is one. */
  function RemoveFirst(s: seq<string>, x: string): seq<string> {
    if s == [] then [] else if s[0] == x then s[1..] else [s[0]] + RemoveFirst(s[1..], x)
  }

  function AddPlan(rde: Rde, id: string, name: string, managerOk: bool): Plan {
    match rde.kind
    case Native =>
      (match NativePvs(rde)
       case Err => Stop(Error)
       case Ok(pvs) => if name in pvs then Stop(Nil) else Send(WithPvs(rde, pvs + [id])))
    case Capvcd => Stop(if managerOk then Nil else Error)
    case Unsupported => Stop(Error)
  }

  function RemovePlan(rde: Rde, id: string, managerOk: bool): Plan {
    match rde.kind
    case Native =>
      (match NativePvs(rde)
       case Err => Stop(Error)
       case Ok(pvs) => if id !in pvs then Stop(Nil) else Send(WithPvs(rde, RemoveFirst(pvs, id))))
    case Capvcd => Stop(if managerOk then Nil else Error)
    case Unsupported => Again
  }

  // ----- the upgrade of the legacy list -----

  function LookupAt(found: seq<Lookup>, i: nat): Lookup {
    if i < |found| then found[i] else Miss
  }

  /** The resource-set entry that replaces a legacy id: named after the disk if it was found. */
  function EntryFor(id: string, answer: Lookup): Resource {
    if answer.Hit? then Resource(NAMED_DISK, answer.id, answer.name, map[])
    else Resource(NAMED_DISK, id, "", map[])
  }

  function Entries(ids: seq<string>, found: seq<Lookup>): (rs: seq<Resource>)
    ensures |rs| == |ids|
  {
    seq(|ids|, i requires 0 <= i < |ids| => EntryFor(ids[i], LookupAt(found, i)))
  }

  /** The resource set of a component section whose three sets can be decoded. */
  function DecodeComponent(section: Fields): Result<seq<Resource>> {
    var resources :- DecodeResources(section);
    var _ :- DecodeNotices(section, ERROR_SET);
    var _ :- DecodeNotices(section, EVENT_SET);
    Ok(resources)
  }

  function Section(version: string, base: Fields, resources: seq<Resource>): Fields {
    base[NAME := Str(CSI_NAME)][VERSION := Str(version)][RESOURCE_SET := EncodeResources(resources)]
  }

  /** addToVCDResourceSet */
  function AddToResourceSet(status: Fields, version: string, resources: seq<Resource>): Result<Fields> {
    if CSI !in status then Ok(status[CSI := Obj(Section(version, map[], resources))])
    else if !status[CSI].Obj? then Err
    else
      var section := status[CSI].fields;
      var present :- DecodeComponent(section);
      Ok(status[CSI := Obj(Section(version, section, present + resources))])
  }

  function UpgradePlan(rde: Rde, version: string, found: seq<Lookup>): Plan {
    match StatusOf(rde)
    case None => Stop(Nil)
    case Some(status) =>
      match ListedPvs(status)
      case Err => Stop(Nil)
      case Ok(ids) =>
        if ids == [] then Send(WithStatus(rde, status - {PERSISTENT_VOLUMES}))
        else if exists i | 0 <= i < |ids| :: LookupAt(found, i).Crashes? then Stop(Panic)
        else
          match AddToResourceSet(status, version, Entries(ids, found))
          case Err => Stop(Nil)
          case Ok(upgraded) => Send(WithStatus(rde, upgraded - {PERSISTENT_VOLUMES}))
  }

  /** There is no readable legacy list, or one that has nowhere to go: the status, the list or the
      CSI section is missing or malformed. */
  predicate CannotUpgrade(rde: Rde) {
    match StatusOf(rde)
    case None => true
    case Some(status) =>
      match ListedPvs(status)
      case Err => true
      case Ok(ids) => ids != [] && CSI in status && (!status[CSI].Obj? || DecodeComponent(status[CSI].fields).Err?)
  }

  /** One of the lookups for a legacy id crashes. */
  predicate LookupCrashes(rde: Rde, found: seq<Lookup>) {
    && StatusOf(rde).Some? && ListedPvs(StatusOf(rde).value).Ok?
    && exists i :: 0 <= i < |ListedPvs(StatusOf(rde).value).value| && i < |found| && found[i].Crashes?
  }

  /** An upgrade sends nothing exactly for these, unless a lookup crashes it. */
  lemma UpgradeSendsIff(rde: Rde, version: string, found: seq<Lookup>)
    ensures UpgradePlan(rde, version, found) == Stop(Panic) <==> LookupCrashes(rde, found)
    ensures UpgradePlan(rde, version, found) == Stop(Nil) <==> CannotUpgrade(rde) && !LookupCrashes(rde, found)
    ensures UpgradePlan(rde, version, found).Send? <==> !CannotUpgrade(rde) && !LookupCrashes(rde, found)
  {
    if LookupCrashes(rde, found) {
      var i :| 0 <= i < |ListedPvs(StatusOf(rde).value).value| && i < |found| && found[i].Crashes?;
      assert LookupAt(found, i).Crashes?;
    }
  }

  // ----- the conversion of the CSI section -----

  function ConvertSection(section: Fields, version: string): Result<Fields> {
    var s :- DecodeStatus(section);
    Ok(EncodeStatus(s.(version := version)))
  }

  function ConvertPlan(rde: Rde, version: string): Plan {
    match StatusOf(rde)
    case None => Stop(Error)
    case Some(status) =>
      if CSI !in status || !status[CSI].Obj? then Stop(Nil)
      else
        match ConvertSection(status[CSI].fields, version)
        case Err => Stop(Error)
        case Ok(section) => Send(WithStatus(rde, status[CSI := Obj(section)]))
  }

  /** There is a status section, without a CSI section that could be converted. */
  predicate NoCsiSection(rde: Rde) {
    STATUS in rde.entity && rde.entity[STATUS].Obj?
    && !(CSI in rde.entity[STATUS].fields && rde.entity[STATUS].fields[CSI].Obj?)
  }

  function PlanFor(op: Op, rde: Rde, found: seq<Lookup>, managerOk: bool): Plan {
    match op
    case AddPv(id, name) => AddPlan(rde, id, name, managerOk)
    case RemovePv(id) => RemovePlan(rde, id, managerOk)
    case Upgrade(version) => UpgradePlan(rde, version, found)
    case Convert(version) => ConvertPlan(rde, version)
  }

  // ----- what the native list keeps -----

  lemma {:induction false} StringArrayRoundTrip(status: Fields, ids: seq<string>)
    ensures ListedPvs(status[PERSISTENT_VOLUMES := StringArray(ids)]) == Ok(ids)
  {
    var items := StringArray(ids).items;
    assert Strings(items) == ids;
  }

  lemma {:induction false} RemoveAbsent(s: seq<string>, x: string)
    requires x !in s
    ensures RemoveFirst(s, x) == s
  {
    if s != [] {
      RemoveAbsent(s[1..], x);
    }
  }

  /** Removal deletes exactly the first occurrence and keeps the order of the rest. */
  lemma {:induction false} RemoveFirstSplits(s: seq<string>, x: string) returns (k: nat)
    requires x in s
    ensures k < |s| && s[k] == x && x !in s[..k]
    ensures RemoveFirst(s, x) == s[..k] + s[k + 1..]
  {
    if s[0] == x {
      k := 0;
    } else {
      var t := s[1..];
      var j := RemoveFirstSplits(t, x);
      k := j + 1;
      assert s[..k] == [s[0]] + t[..j];
      assert s[k + 1..] == t[j + 1..];
    }
  }

  /** Every entry of `s` from the first `x` on is an `x`. */
  predicate EndsIn(s: seq<string>, x: string) {
    forall i, j | 0 <= i <= j < |s| && s[i] == x :: s[j] == x
  }

  lemma {:induction false} RemoveAppended(s: seq<string>, x: string)
    ensures RemoveFirst(s + [x], x) == s <==> EndsIn(s, x)
  {
    if s == [] {
      assert (s + [x])[1..] == [];
    } else if s[0] == x {
      assert (s + [x])[1..] == s[1..] + [x];
      RotationIsConstant(s, x);
    } else {
      var t := s[1..];
      assert (s + [x])[1..] == t + [x];
      RemoveAppended(t, x);
      assert s == [s[0]] + t;
      assert EndsIn(s, x) ==> EndsIn(t, x) by {
        if EndsIn(s, x) {
          forall i, j | 0 <= i <= j < |t| && t[i] == x ensures t[j] == x {
            assert s[i + 1] == t[i] && s[j + 1] == t[j];
          }
        }
      }
      var after := RemoveFirst(t + [x], x);
      assert RemoveFirst(s + [x], x) == [s[0]] + after;
      assert ([s[0]] + after)[1..] == after;
    }
  }

  /** A list that equals its own rotation by one is constant. */
  lemma {:induction false} RotationIsConstant(s: seq<string>, x: string)
    requires s != [] && s[0] == x
    ensures s[1..] + [x] == s <==> EndsIn(s, x)
  {
    var t := s[1..] + [x];
    if t == s {
      forall j | 0 <= j < |s| ensures s[j] == x {
        RotationFixesAll(s, x, j);
      }
    }
    if EndsIn(s, x) {
      assert forall j | 0 <= j < |s| :: s[j] == x;
      assert t == s;
    }
  }

  lemma {:induction false} RotationFixesAll(s: seq<string>, x: string, j: nat)
    requires s != [] && s[0] == x && s[1..] + [x] == s && j < |s|
    ensures s[j] == x
  {
    if j > 0 {
      RotationFixesAll(s, x, j - 1);
      assert s[j - 1] == (s[1..] + [x])[j - 1];
    }
  }

  function AddToList(pvs: seq<string>, id: string, name: string): seq<string> {
    if name in pvs then pvs else pvs + [id]
  }

  /** Removing right after adding gives the list back exactly when either nothing was added and
      the id was not there, or the id was nowhere but, possibly, in one block at the end. */
  lemma AddThenRemoveIff(pvs: seq<string>, id: string, name: string)
    ensures RemoveFirst(AddToList(pvs, id, name), id) == pvs
            <==> (if name in pvs then id !in pvs else EndsIn(pvs, id))
  {
    if name in pvs {
      if id in pvs {
        var k := RemoveFirstSplits(pvs, id);
        assert |RemoveFirst(pvs, id)| == |pvs| - 1;
      } else {
        RemoveAbsent(pvs, id);
      }
    } else {
      RemoveAppended(pvs, id);
    }
  }

  /** addPvToRDE searches the list for the name but stores the id: a second call for the same disk
      adds it again unless its name is its id or was itself in the list. */
  lemma AddTwiceDuplicatesIff(pvs: seq<string>, id: string, name: string)
    ensures AddToList(AddToList(pvs, id, name), id, name) == AddToList(pvs, id, name) <==> name == id || name in pvs
    ensures name != id && name !in pvs ==> AddToList(AddToList(pvs, id, name), id, name) == pvs + [id, id]
  {
    if name != id && name !in pvs {
      assert pvs + [id] + [id] == pvs + [id, id];
      assert |pvs + [id, id]| != |pvs + [id]|;
    }
  }

  /** The committed list, read back, is the list before with the one update made to it; nothing
      else in the entity moves. */
  lemma NativeUpdateEffect(op: Op, rde: Rde, found: seq<Lookup>, managerOk: bool)
    requires op.AddPv? || op.RemovePv?
    requires PlanFor(op, rde, found, managerOk).Send?
    ensures var after := PlanFor(op, rde, found, managerOk).rde;
            && NativePvs(rde).Ok?
            && NativePvs(after) == Ok(if op.AddPv? then AddToList(NativePvs(rde).value, op.id, op.name)
                                      else RemoveFirst(NativePvs(rde).value, op.id))
            && after.kind == rde.kind && after.entity - {STATUS} == rde.entity - {STATUS}
            && StatusOf(after).value - {PERSISTENT_VOLUMES} == StatusOf(rde).value - {PERSISTENT_VOLUMES}
  {
    var pvs := NativePvs(rde).value;
    var ids := if op.AddPv? then pvs + [op.id] else RemoveFirst(pvs, op.id);
    StringArrayRoundTrip(StatusOf(rde).value, ids);
  }
}
