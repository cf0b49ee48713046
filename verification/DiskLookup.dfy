/** Finding a disk: by name in every OVDC of the zone map, in whatever order Go iterates over it,
    or by name or id in the one OVDC of the cluster. */
module DiskLookup {
  import opened Wrappers
  import opened Text

  type Ovdc = string

  datatype Disk = Disk(
    id: string, name: string, ovdc: Ovdc, sizeMb: int, busType: string, busSubType: string,
    profile: string, shareable: bool)

  /** What GET on the href of a listed disk answers; a 403 counts as not found. */
  datatype Fetch = Got(disk: Disk) | Forbidden | Broken

  datatype ResourceEntity = ResourceEntity(name: string, id: string, isDisk: bool, fetch: Fetch)

  type Entities = seq<seq<ResourceEntity>>

  /** An OVDC as the organisation hands it out, and what a refresh of it would bring, if it works. */
  datatype Vdc = Unavailable | Available(cached: Entities, refreshed: Option<Entities>)

  datatype Listing = Listed(disks: seq<Disk>) | NoDisk | ListError

  datatype ById = Hit(disk: Disk) | NoSuchId | IdError

  datatype Answer = Found(disk: Disk) | NotFound | Failed | Crashed

  // ----- identifiers -----

  predicate IsHex(s: string) {
    forall i | 0 <= i < |s| :: '0' <= s[i] <= '9' || 'a' <= s[i] <= 'f'
  }

  predicate IsUuid(s: string) {
    var parts := Split(s, '-');
    && |parts| == 5
    && |parts[0]| == 8 && |parts[1]| == 4 && |parts[2]| == 4 && |parts[3]| == 4 && |parts[4]| == 12
    && forall i | 0 <= i < 5 :: IsHex(parts[i])
  }

  /** isUrn rejects only if both tests fail, so that either half is enough. */
  predicate IsUrn(s: string) {
    var parts := Split(s, ':');
    s != "" && |parts| == 4 && (parts[0] == "urn" || IsUuid(parts[3]))
  }

  predicate LooksLikeId(s: string) {
    IsUrn(s) || IsUuid(s)
  }

  // ----- listing an OVDC -----

  function Flatten(lists: Entities): seq<ResourceEntity> {
    if lists == [] then [] else lists[0] + Flatten(lists[1..])
  }

  predicate Matches(e: ResourceEntity, name: string) {
    e.name == name && e.isDisk
  }

  /** The disks of that name, as far as they can be fetched. */
  function DisksNamed(es: seq<ResourceEntity>, name: string): seq<Disk> {
    if es == [] then []
    else (if Matches(es[0], name) && es[0].fetch.Got? then [es[0].fetch.disk] else []) + DisksNamed(es[1..], name)
  }

  /** The first entity of that name that cannot be fetched. */
  function FirstBad(es: seq<ResourceEntity>, name: string): Option<Fetch> {
    if es == [] then None
    else if Matches(es[0], name) && !es[0].fetch.Got? then Some(es[0].fetch)
    else FirstBad(es[1..], name)
  }

  function ListingOf(es: seq<ResourceEntity>, name: string): Listing {
    match FirstBad(es, name)
    case Some(Broken) => ListError
    case Some(_) => NoDisk
    case None => if DisksNamed(es, name) == [] then NoDisk else Listed(DisksNamed(es, name))
  }

  function Refreshing(vdc: Vdc, name: string): Listing
    requires vdc.Available?
  {
    if vdc.refreshed.None? then ListError else ListingOf(Flatten(vdc.refreshed.value), name)
  }

  lemma {:induction false} FlattenPrefix(lists: Entities, i: nat)
    requires i < |lists|
    ensures Flatten(lists[..i + 1]) == Flatten(lists[..i]) + lists[i]
  {
    if i > 0 {
      FlattenPrefix(lists[1..], i - 1);
      assert lists[1..][..i] == lists[..i + 1][1..];
      assert lists[1..][..i - 1] == lists[..i][1..];
    } else {
      assert lists[..1] == [lists[0]] && lists[..0] == [];
      assert [lists[0]][1..] == [];
    }
  }

  lemma {:induction false} NamedConcat(a: seq<ResourceEntity>, b: seq<ResourceEntity>, name: string)
    ensures DisksNamed(a + b, name) == DisksNamed(a, name) + DisksNamed(b, name)
    ensures FirstBad(a + b, name) == if FirstBad(a, name).Some? then FirstBad(a, name) else FirstBad(b, name)
  {
    if a == [] {
      assert a + b == b;
    } else {
      NamedConcat(a[1..], b, name);
      assert (a + b)[1..] == a[1..] + b;
    }
  }

  /** govcdGetDisksByName */
  method GetDisksByName(name: string, lists: Entities) returns (r: Listing)
    ensures r == ListingOf(Flatten(lists), name)
  {
    var diskList: seq<Disk> := [];
    for i := 0 to |lists|
      invariant FirstBad(Flatten(lists[..i]), name) == None && diskList == DisksNamed(Flatten(lists[..i]), name)
    {
      var es := lists[i];
      FlattenPrefix(lists, i);
      assert Flatten(lists[..i]) + es[..0] == Flatten(lists[..i]);
      for j := 0 to |es|
        invariant FirstBad(Flatten(lists[..i]) + es[..j], name) == None
        invariant diskList == DisksNamed(Flatten(lists[..i]) + es[..j], name)
      {
        var done := Flatten(lists[..i]) + es[..j];
        assert Flatten(lists[..i]) + es[..j + 1] == done + [es[j]];
        NamedConcat(done, [es[j]], name);
        if Matches(es[j], name) {
          if !es[j].fetch.Got? {
            RestIsIgnored(lists, i, j, name);
            return if es[j].fetch == Broken then ListError else NoDisk;
          }
          diskList := diskList + [es[j].fetch.disk];
        }
      }
      assert es[..|es|] == es;
    }
    assert lists[..|lists|] == lists;
    return if diskList == [] then NoDisk else Listed(diskList);
  }

  /** The first unfetchable entity decides, whatever comes after it. */
  lemma RestIsIgnored(lists: Entities, i: nat, j: nat, name: string)
    requires i < |lists| && j < |lists[i]|
    requires FirstBad(Flatten(lists[..i]) + lists[i][..j], name) == None
    requires Matches(lists[i][j], name) && !lists[i][j].fetch.Got?
    ensures FirstBad(Flatten(lists), name) == Some(lists[i][j].fetch)
  {
    var done, bad := Flatten(lists[..i]) + lists[i][..j], [lists[i][j]];
    var rest := lists[i][j + 1..] + Flatten(lists[i + 1..]);
    EntityInTheMiddle(lists, i, j);
    NamedConcat(done, bad, name);
    NamedConcat(done + bad, rest, name);
  }

  lemma EntityInTheMiddle(lists: Entities, i: nat, j: nat)
    requires i < |lists| && j < |lists[i]|
    ensures Flatten(lists)
            == Flatten(lists[..i]) + lists[i][..j] + [lists[i][j]] + (lists[i][j + 1..] + Flatten(lists[i + 1..]))
  {
    var before, es, after := Flatten(lists[..i]), lists[i], Flatten(lists[i + 1..]);
    calc {
      Flatten(lists);
      { FlattenConcat(lists, i); }
      before + es + after;
      { assert es == es[..j] + [es[j]] + es[j + 1..]; }
      before + (es[..j] + [es[j]] + es[j + 1..]) + after;
      before + es[..j] + [es[j]] + (es[j + 1..] + after);
    }
  }

  lemma {:induction false} FlattenConcat(lists: Entities, i: nat)
    requires i < |lists|
    ensures Flatten(lists) == Flatten(lists[..i]) + lists[i] + Flatten(lists[i + 1..])
  {
    if i > 0 {
      FlattenConcat(lists[1..], i - 1);
      assert lists[..i][1..] == lists[1..][..i - 1];
      assert lists[1..][i..] == lists[i + 1..];
    } else {
      assert lists[..0] == [];
    }
  }

  /** The answer of the first entity listed under that id. */
  function LookupId(es: seq<ResourceEntity>, id: string): ById {
    if es == [] then NoSuchId
    else if es[0].id == id && es[0].isDisk then
      match es[0].fetch
      case Got(disk) => Hit(disk)
      case Forbidden => NoSuchId
      case Broken => IdError
    else LookupId(es[1..], id)
  }

  // ----- zone mode -----

  function VdcIn(org: map<Ovdc, Vdc>, ovdc: Ovdc): Vdc {
    if ovdc in org then org[ovdc] else Unavailable
  }

  /** The one disk of that name in an OVDC that can be read; what the loop over the zone map is
      looking for. */
  function SoleIn(org: map<Ovdc, Vdc>, ovdc: Ovdc, name: string): Option<Disk> {
    var vdc := VdcIn(org, ovdc);
    if vdc.Unavailable? then None
    else
      match Refreshing(vdc, name)
      case Listed(disks) => if |disks| == 1 then Some(disks[0]) else None
      case _ => None
  }

  function ScanZones(order: seq<Ovdc>, org: map<Ovdc, Vdc>, name: string): Answer {
    if order == [] then NotFound
    else if SoleIn(org, order[0], name).Some? then Found(SoleIn(org, order[0], name).value)
    else ScanZones(order[1..], org, name)
  }

  /** One of the orders in which Go may iterate over the keys of a map. */
  ghost predicate IsOrderOf(order: seq<Ovdc>, keys: set<Ovdc>) {
    && (forall v :: v in order <==> v in keys)
    && (forall i, j | 0 <= i < j < |order| :: order[i] != order[j])
  }

  method ScanZoneMap(name: string, order: seq<Ovdc>, org: map<Ovdc, Vdc>) returns (a: Answer)
    ensures a == ScanZones(order, org, name)
  {
    for i := 0 to |order|
      invariant ScanZones(order, org, name) == ScanZones(order[i..], org, name)
    {
      var vdc := VdcIn(org, order[i]);
      if vdc.Unavailable? {
        continue;
      }
      if vdc.refreshed.None? {
        continue;
      }
      var listing := GetDisksByName(name, vdc.refreshed.value);
      if !listing.Listed? {
        continue;
      }
      if |listing.disks| != 1 {
        continue;
      }
      return Found(listing.disks[0]);
    }
    return NotFound;
  }

  /** What a zone-mode lookup promises, without mentioning any order: the disk is the sole one of
      that name in a readable OVDC, and "not found" holds exactly when no OVDC has a sole one. */
  ghost predicate ZoneAnswer(a: Answer, keys: set<Ovdc>, org: map<Ovdc, Vdc>, name: string) {
    match a
    case Found(disk) => exists v :: v in keys && SoleIn(org, v, name) == Some(disk)
    case NotFound => forall v :: v in keys ==> SoleIn(org, v, name) == None
    case _ => false
  }

  lemma {:induction false} ScanMeetsAnswer(order: seq<Ovdc>, keys: set<Ovdc>, org: map<Ovdc, Vdc>, name: string)
    requires forall v :: v in order <==> v in keys
    ensures ZoneAnswer(ScanZones(order, org, name), keys, org, name)
  {
    if order != [] {
      if SoleIn(org, order[0], name).Some? {
        assert order[0] in keys;
      } else {
        var rest := order[1..];
        var restKeys := set v | v in rest;
        ScanMeetsAnswer(rest, restKeys, org, name);
        assert forall v :: v in keys ==> v == order[0] || v in restKeys;
        assert forall v :: v in restKeys ==> v in keys;
      }
    }
  }

  /** If at most one readable OVDC holds a sole match, every iteration order gives the same answer. */
  lemma OrderDoesNotMatter(order: seq<Ovdc>, order': seq<Ovdc>, keys: set<Ovdc>, org: map<Ovdc, Vdc>, name: string)
    requires IsOrderOf(order, keys) && IsOrderOf(order', keys)
    requires forall u, v | u in keys && v in keys && SoleIn(org, u, name).Some? && SoleIn(org, v, name).Some? :: u == v
    ensures ScanZones(order, org, name) == ScanZones(order', org, name)
  {
    ScanMeetsAnswer(order, keys, org, name);
    ScanMeetsAnswer(order', keys, org, name);
  }

  /** With sole matches in two OVDCs, the order decides. */
  lemma OrderMatters(org: map<Ovdc, Vdc>, name: string, u: Ovdc, v: Ovdc)
    requires u != v && SoleIn(org, u, name).Some? && SoleIn(org, v, name).Some?
    ensures IsOrderOf([u, v], {u, v}) && IsOrderOf([v, u], {u, v})
    ensures ScanZones([u, v], org, name) == Found(SoleIn(org, u, name).value)
    ensures ScanZones([v, u], org, name) == Found(SoleIn(org, v, name).value)
  {
  }

  /** "Not found" is also the answer when an OVDC that has the disk could not be read, or has it
      twice: it says no more than this of each OVDC of the zone map. */
  lemma NotFoundIff(order: seq<Ovdc>, keys: set<Ovdc>, org: map<Ovdc, Vdc>, name: string)
    requires IsOrderOf(order, keys)
    ensures ScanZones(order, org, name) == NotFound <==>
            forall v :: v in keys ==>
              || VdcIn(org, v).Unavailable?
              || Refreshing(VdcIn(org, v), name) == ListError
              || Refreshing(VdcIn(org, v), name) == NoDisk
              || |Refreshing(VdcIn(org, v), name).disks| != 1
  {
    ScanMeetsAnswer(order, keys, org, name);
    forall v | v in keys
      ensures SoleIn(org, v, name) == None <==>
              || VdcIn(org, v).Unavailable?
              || Refreshing(VdcIn(org, v), name) == ListError
              || Refreshing(VdcIn(org, v), name) == NoDisk
              || |Refreshing(VdcIn(org, v), name).disks| != 1
    {
    }
  }

  // ----- single-OVDC mode -----

  function ByName(listing: Listing): Answer {
    match listing
    case ListError => Failed
    case NoDisk => NotFound
    case Listed(disks) => if |disks| == 0 then NotFound else if |disks| > 1 then Failed else Found(disks[0])
  }

  /** govcdGetDisksByNameOrId as written: a hit by id is cast to a list, which panics. */
  function InVdc(vdc: Vdc, identifier: string): Answer {
    if vdc.Unavailable? then Failed
    else if LooksLikeId(identifier) then
      if vdc.refreshed.None? then Failed
      else
        match LookupId(Flatten(vdc.refreshed.value), identifier)
        case Hit(_) => Crashed
        case IdError => Failed
        case NoSuchId => ByName(ListingOf(Flatten(vdc.refreshed.value), identifier))
    else ByName(ListingOf(Flatten(vdc.cached), identifier))
  }

  /** What is meant: the disk with that id, as a list of one. */
  function IntendedInVdc(vdc: Vdc, identifier: string): Answer {
    if vdc.Available? && LooksLikeId(identifier) && vdc.refreshed.Some?
      && LookupId(Flatten(vdc.refreshed.value), identifier).Hit? then
      Found(LookupId(Flatten(vdc.refreshed.value), identifier).disk)
    else InVdc(vdc, identifier)
  }

  /** The code does what is meant, except that every hit by id crashes it. */
  lemma CrashesOnIdHit(vdc: Vdc, identifier: string)
    ensures InVdc(vdc, identifier) == IntendedInVdc(vdc, identifier) <==> InVdc(vdc, identifier) != Crashed
    ensures InVdc(vdc, identifier) == Crashed <==>
            && vdc.Available? && LooksLikeId(identifier) && vdc.refreshed.Some?
            && LookupId(Flatten(vdc.refreshed.value), identifier).Hit?
  {
  }

  method GetDiskById(id: string, lists: Entities) returns (r: ById)
    ensures r == LookupId(Flatten(lists), id)
  {
    for i := 0 to |lists|
      invariant NoneWithId(Flatten(lists[..i]), id)
    {
      var es := lists[i];
      FlattenPrefix(lists, i);
      for j := 0 to |es|
        invariant NoneWithId(Flatten(lists[..i]) + es[..j], id)
      {
        if es[j].id == id && es[j].isDisk {
          FirstIdDecides(lists, i, j, id);
          match es[j].fetch {
            case Got(disk) => return Hit(disk);
            case Forbidden => return NoSuchId;
            case Broken => return IdError;
          }
        }
        assert Flatten(lists[..i]) + es[..j + 1] == Flatten(lists[..i]) + es[..j] + [es[j]];
      }
      assert es[..|es|] == es;
    }
    assert lists[..|lists|] == lists;
    NoneIsNoSuchId(Flatten(lists), id);
    return NoSuchId;
  }

  predicate NoneWithId(es: seq<ResourceEntity>, id: string) {
    forall i | 0 <= i < |es| :: es[i].id != id || !es[i].isDisk
  }

  lemma {:induction false} NoneIsNoSuchId(es: seq<ResourceEntity>, id: string)
    requires NoneWithId(es, id)
    ensures LookupId(es, id) == NoSuchId
  {
    if es != [] {
      NoneIsNoSuchId(es[1..], id);
    }
  }

  lemma {:induction false} FirstWithId(
      before: seq<ResourceEntity>, e: ResourceEntity, after: seq<ResourceEntity>, id: string)
    requires NoneWithId(before, id) && e.id == id && e.isDisk
    ensures LookupId(before + [e] + after, id) == LookupId([e], id)
  {
    if before != [] {
      FirstWithId(before[1..], e, after, id);
      assert (before + [e] + after)[1..] == before[1..] + [e] + after;
    }
  }

  lemma FirstIdDecides(lists: Entities, i: nat, j: nat, id: string)
    requires i < |lists| && j < |lists[i]| && lists[i][j].id == id && lists[i][j].isDisk
    requires NoneWithId(Flatten(lists[..i]) + lists[i][..j], id)
    ensures LookupId(Flatten(lists), id) == LookupId([lists[i][j]], id)
  {
    var es := lists[i];
    EntityInTheMiddle(lists, i, j);
    FirstWithId(Flatten(lists[..i]) + es[..j], es[j], es[j + 1..] + Flatten(lists[i + 1..]), id);
  }

  // ----- both modes -----

  predicate InZoneMode(zoneMap: Option<map<Ovdc, string>>) {
    zoneMap.Some? && zoneMap.value != map[]
  }

  /** GetDiskByNameOrId. The guard against a missing zone map dereferences it, so that without a
      zone map and without an OVDC the lookup crashes. */
  method GetDiskByNameOrId(name: string, zoneMap: Option<map<Ovdc, string>>, vdcIdentifier: Ovdc,
                           org: map<Ovdc, Vdc>, order: seq<Ovdc>) returns (a: Answer)
    requires zoneMap.Some? ==> IsOrderOf(order, zoneMap.value.Keys)
    ensures name == "" ==> a == Failed
    ensures name != "" && vdcIdentifier == "" && zoneMap.None? ==> a == Crashed
    ensures name != "" && InZoneMode(zoneMap) ==>
            ZoneAnswer(a, zoneMap.value.Keys, org, name) && a == ScanZones(order, org, name)
    ensures name != "" && !InZoneMode(zoneMap) && (vdcIdentifier != "" || zoneMap.Some?) ==>
            a == InVdc(VdcIn(org, vdcIdentifier), name)
  {
    if name == "" {
      return Failed;
    }
    if vdcIdentifier == "" && zoneMap.None? {
      return Crashed;
    }
    if zoneMap.Some? && zoneMap.value != map[] {
      ScanMeetsAnswer(order, zoneMap.value.Keys, org, name);
      a := ScanZoneMap(name, order, org);
      return;
    }
    var vdc := VdcIn(org, vdcIdentifier);
    if vdc.Unavailable? {
      return Failed;
    }
    var listing;
    if LooksLikeId(name) {
      if vdc.refreshed.None? {
        return Failed;
      }
      var byId := GetDiskById(name, vdc.refreshed.value);
      match byId {
        case Hit(_) => return Crashed;
        case IdError => return Failed;
        case NoSuchId =>
      }
      listing := GetDisksByName(name, vdc.refreshed.value);
    } else {
      listing := GetDisksByName(name, vdc.cached);
    }
    match listing {
      case ListError => return Failed;
      case NoDisk => return NotFound;
      case Listed(disks) =>
        if |disks| == 0 {
          return NotFound;
        }
        if |disks| > 1 {
          return Failed;
        }
        return Found(disks[0]);
    }
  }
}
