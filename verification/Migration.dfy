/** Moving persistent volumes from the legacy list to the CSI resource set: what one committed
    update of the startup sequence does to the entity, and what it preserves. */
module Migration {
  import opened Wrappers
  import opened Documents
  import opened RdeUpdates
  import DiskLookup

  function Ids(rs: seq<Resource>): (ids: seq<string>)
    ensures |ids| == |rs| && forall i :: 0 <= i < |ids| ==> ids[i] == rs[i].id
  {
    seq(|rs|, i requires 0 <= i < |rs| => rs[i].id)
  }

  /** The resource set of the CSI section; a section that is absent or unreadable has none. */
  function ResourcesOf(status: Fields): seq<Resource> {
    if CSI in status && status[CSI].Obj? && DecodeResources(status[CSI].fields).Ok? then
      DecodeResources(status[CSI].fields).value
    else []
  }

  function LegacyOf(status: Fields): seq<string> {
    if ListedPvs(status).Ok? then ListedPvs(status).value else []
  }

  /** All the persistent volumes that an entity records, in either format. */
  function Pvs(rde: Rde): multiset<string> {
    match StatusOf(rde)
    case None => multiset{}
    case Some(status) => multiset(LegacyOf(status)) + multiset(Ids(ResourcesOf(status)))
  }

  /** The entity with the update of a plan made to it, if there is one. */
  function Applied(plan: Plan, rde: Rde): Rde {
    if plan.Send? then plan.rde else rde
  }

  /** Lookups by id return the disk with that id, or fail. */
  predicate Honest(ids: seq<string>, found: seq<Lookup>) {
    forall i | 0 <= i < |ids| :: LookupAt(found, i).Hit? ==> LookupAt(found, i).id == ids[i]
  }

  // ----- the section that the upgrade writes -----

  lemma SectionFields(version: string, base: Fields, resources: seq<Resource>)
    ensures var s := Section(version, base, resources);
            && s.Keys == base.Keys + {NAME, VERSION, RESOURCE_SET}
            && DecodeResources(s) == Ok(resources)
            && (forall k | k in base && k !in {NAME, VERSION, RESOURCE_SET} :: s[k] == base[k])
            && s[NAME] == Str(CSI_NAME) && s[VERSION] == Str(version)
  {
    KeysDiffer();
    ResourcesRoundTrip(resources);
  }

  /** The fields of the CSI section that an upgrade leaves alone. */
  ghost predicate SameButListed(before: Fields, after: Fields) {
    forall k | k !in {NAME, VERSION, RESOURCE_SET} ::
      (k in before <==> k in after) && (k in before ==> after[k] == before[k])
  }

  /** Adding resources appends them, in order, to those the section already lists. */
  lemma AddToResourceSetEffect(status: Fields, version: string, resources: seq<Resource>)
    requires AddToResourceSet(status, version, resources).Ok?
    ensures var after := AddToResourceSet(status, version, resources).value;
            && after - {CSI} == status - {CSI}
            && ResourcesOf(after) == ResourcesOf(status) + resources
            && CSI in after && after[CSI].Obj?
            && SameButListed(if CSI in status then status[CSI].fields else map[], after[CSI].fields)
  {
    var base := if CSI in status then status[CSI].fields else map[];
    var present := if CSI in status then DecodeComponent(base).value else [];
    SectionFields(version, base, present + resources);
    assert [] + resources == resources;
  }

  // ----- one committed upgrade -----

  lemma DroppedLegacy(status: Fields, upgraded: Fields)
    requires upgraded - {CSI} == status - {CSI}
    ensures var after := upgraded - {PERSISTENT_VOLUMES};
            && PERSISTENT_VOLUMES !in after
            && ResourcesOf(after) == ResourcesOf(upgraded)
            && after - {CSI} == status - {CSI, PERSISTENT_VOLUMES}
  {
    KeysDiffer();
    var after := upgraded - {PERSISTENT_VOLUMES};
    assert CSI in upgraded ==> after[CSI] == upgraded[CSI];
    assert after - {CSI} == (upgraded - {CSI}) - {PERSISTENT_VOLUMES};
    assert status - {CSI, PERSISTENT_VOLUMES} == (status - {CSI}) - {PERSISTENT_VOLUMES};
  }

  lemma WithStatusEffect(rde: Rde, status: Fields)
    ensures var after := WithStatus(rde, status);
            && StatusOf(after) == Some(status)
            && after.kind == rde.kind && after.entity - {STATUS} == rde.entity - {STATUS}
  {
  }

  /** Every upgrade that is sent turns the legacy list into resource-set entries: one per legacy
      id, in legacy order, after the entries already there. The legacy list is gone and nothing
      else moves, inside the status section or outside it. */
  lemma UpgradeEffect(rde: Rde, version: string, found: seq<Lookup>)
    requires UpgradePlan(rde, version, found).Send?
    ensures var after, status := UpgradePlan(rde, version, found).rde, StatusOf(rde).value;
            && StatusOf(rde).Some? && StatusOf(after).Some?
            && PERSISTENT_VOLUMES !in StatusOf(after).value
            && ResourcesOf(StatusOf(after).value) == ResourcesOf(status) + Entries(LegacyOf(status), found)
            && StatusOf(after).value - {CSI} == status - {CSI, PERSISTENT_VOLUMES}
            && (LegacyOf(status) == [] ==> StatusOf(after).value == status - {PERSISTENT_VOLUMES})
            && after.kind == rde.kind && after.entity - {STATUS} == rde.entity - {STATUS}
  {
    var status := StatusOf(rde).value;
    var ids := ListedPvs(status).value;
    if ids == [] {
      DroppedLegacy(status, status);
      WithStatusEffect(rde, status - {PERSISTENT_VOLUMES});
      assert ResourcesOf(status) + Entries(ids, found) == ResourcesOf(status);
    } else {
      var upgraded := AddToResourceSet(status, version, Entries(ids, found)).value;
      AddToResourceSetEffect(status, version, Entries(ids, found));
      DroppedLegacy(status, upgraded);
      WithStatusEffect(rde, upgraded - {PERSISTENT_VOLUMES});
    }
  }

  /** What an upgrade makes of a legacy id: a named disk, with the id and the name of the disk if the
      lookup found one, and else with the id and no name. */
  lemma UpgradedEntries(rde: Rde, version: string, found: seq<Lookup>, i: nat)
    requires UpgradePlan(rde, version, found).Send? && i < |LegacyOf(StatusOf(rde).value)|
    ensures var before, after := StatusOf(rde).value, StatusOf(UpgradePlan(rde, version, found).rde);
            && after.Some?
            && |ResourcesOf(after.value)| == |ResourcesOf(before)| + |LegacyOf(before)|
            && var entry := ResourcesOf(after.value)[|ResourcesOf(before)| + i];
               && entry.kind == "named-disk" && entry.details == map[]
               && if i < |found| && found[i].Hit? then entry.id == found[i].id && entry.name == found[i].name
                  else entry.id == LegacyOf(before)[i] && entry.name == ""
  {
    UpgradeEffect(rde, version, found);
  }

  lemma EntryIds(ids: seq<string>, found: seq<Lookup>)
    requires Honest(ids, found)
    ensures Ids(Entries(ids, found)) == ids
  {
  }

  lemma IdsConcat(a: seq<Resource>, b: seq<Resource>)
    ensures Ids(a + b) == Ids(a) + Ids(b)
  {
  }

  /** No persistent volume is lost or duplicated by an upgrade. */
  lemma UpgradeKeepsPvs(rde: Rde, version: string, found: seq<Lookup>)
    requires StatusOf(rde).Some? ==> Honest(LegacyOf(StatusOf(rde).value), found)
    ensures Pvs(Applied(UpgradePlan(rde, version, found), rde)) == Pvs(rde)
  {
    if UpgradePlan(rde, version, found).Send? {
      UpgradeEffect(rde, version, found);
      var status := StatusOf(rde).value;
      EntryIds(LegacyOf(status), found);
      IdsConcat(ResourcesOf(status), Entries(LegacyOf(status), found));
    }
  }

  /** A dishonest lookup is the only way to lose one: the exact condition. */
  lemma UpgradeKeepsPvsIff(rde: Rde, version: string, found: seq<Lookup>)
    requires UpgradePlan(rde, version, found).Send?
    ensures Pvs(UpgradePlan(rde, version, found).rde) == Pvs(rde)
            <==> multiset(Ids(Entries(LegacyOf(StatusOf(rde).value), found))) == multiset(LegacyOf(StatusOf(rde).value))
  {
    UpgradeEffect(rde, version, found);
    var status := StatusOf(rde).value;
    IdsConcat(ResourcesOf(status), Entries(LegacyOf(status), found));
    var kept, moved, legacy := multiset(Ids(ResourcesOf(status))),
        multiset(Ids(Entries(LegacyOf(status), found))), multiset(LegacyOf(status));
    if kept + moved == legacy + kept {
      forall x ensures moved[x] == legacy[x] {
        assert (kept + moved)[x] == (legacy + kept)[x];
      }
      assert moved == legacy;
    }
  }

  // ----- the lookups of an upgrade -----

  /** What the upgrade makes of the answer to a lookup: every error leaves the id without a name. */
  function Seen(answer: DiskLookup.Answer): Lookup {
    match answer
    case Found(disk) => Hit(disk.id, disk.name)
    case Crashed => Crashes
    case _ => Miss
  }

  /** A disk that can be fetched has the name it is listed under. */
  predicate Faithful(es: seq<DiskLookup.ResourceEntity>) {
    forall j | 0 <= j < |es| && es[j].fetch.Got? :: es[j].fetch.disk.name == es[j].name
  }

  predicate AllFaithful(lists: DiskLookup.Entities) {
    forall i | 0 <= i < |lists| :: Faithful(lists[i])
  }

  predicate FaithfulVdc(vdc: DiskLookup.Vdc) {
    vdc.Available? ==> AllFaithful(vdc.cached) && (vdc.refreshed.Some? ==> AllFaithful(vdc.refreshed.value))
  }

  lemma {:induction false} NamedHaveTheName(es: seq<DiskLookup.ResourceEntity>, name: string)
    requires Faithful(es)
    ensures forall k | 0 <= k < |DiskLookup.DisksNamed(es, name)| :: DiskLookup.DisksNamed(es, name)[k].name == name
  {
    if es != [] {
      NamedHaveTheName(es[1..], name);
    }
  }

  lemma {:induction false} FlatIsFaithful(lists: DiskLookup.Entities)
    requires AllFaithful(lists)
    ensures Faithful(DiskLookup.Flatten(lists))
  {
    if lists != [] {
      FlatIsFaithful(lists[1..]);
    }
  }

  lemma ListedHaveTheName(lists: DiskLookup.Entities, name: string)
    requires AllFaithful(lists)
    ensures var listing := DiskLookup.ListingOf(DiskLookup.Flatten(lists), name);
            listing.Listed? ==> forall k | 0 <= k < |listing.disks| :: listing.disks[k].name == name
  {
    FlatIsFaithful(lists);
    NamedHaveTheName(DiskLookup.Flatten(lists), name);
  }

  /** The answer of the driver's lookup, over the zone map in some order, or in the one OVDC. */
  function LookupAnswer(zones: bool, order: seq<DiskLookup.Ovdc>, org: map<DiskLookup.Ovdc, DiskLookup.Vdc>,
                        cluster: DiskLookup.Ovdc, id: string): DiskLookup.Answer {
    if zones then DiskLookup.ScanZones(order, org, id) else DiskLookup.InVdc(DiskLookup.VdcIn(org, cluster), id)
  }

  lemma SoleHasTheName(org: map<DiskLookup.Ovdc, DiskLookup.Vdc>, ovdc: DiskLookup.Ovdc, name: string)
    requires forall v | v in org :: FaithfulVdc(org[v])
    ensures DiskLookup.SoleIn(org, ovdc, name).Some? ==> DiskLookup.SoleIn(org, ovdc, name).value.name == name
  {
    if DiskLookup.SoleIn(org, ovdc, name).Some? {
      var vdc := DiskLookup.VdcIn(org, ovdc);
      assert FaithfulVdc(vdc);
      ListedHaveTheName(vdc.refreshed.value, name);
      assert DiskLookup.SoleIn(org, ovdc, name).value == DiskLookup.Refreshing(vdc, name).disks[0];
    }
  }

  lemma OnlyHasTheName(vdc: DiskLookup.Vdc, identifier: string)
    requires FaithfulVdc(vdc)
    ensures var answer := DiskLookup.InVdc(vdc, identifier);
            answer.Found? ==> answer.disk.name == identifier
  {
    if vdc.Available? {
      ListedHaveTheName(vdc.cached, identifier);
      if vdc.refreshed.Some? {
        ListedHaveTheName(vdc.refreshed.value, identifier);
      }
    }
  }

  /** The upgrade looks for disks by id, but all that its lookups ever find is a disk whose name is
      that id, whichever way they look. */
  lemma {:induction false} FindsByNameOnly(zones: bool, order: seq<DiskLookup.Ovdc>,
                                           org: map<DiskLookup.Ovdc, DiskLookup.Vdc>, cluster: DiskLookup.Ovdc,
                                           id: string)
    requires forall v | v in org :: FaithfulVdc(org[v])
    ensures var answer := LookupAnswer(zones, order, org, cluster, id);
            answer.Found? ==> answer.disk.name == id
    decreases |order|
  {
    if !zones {
      OnlyHasTheName(DiskLookup.VdcIn(org, cluster), id);
    } else if order != [] {
      SoleHasTheName(org, order[0], id);
      FindsByNameOnly(zones, order[1..], org, cluster, id);
    }
  }

  predicate NamedById(answer: DiskLookup.Answer) {
    answer.Found? ==> answer.disk.id == answer.disk.name
  }

  /** Hence the lookups are honest exactly if every disk found has its name for its id. */
  lemma HonestIff(zones: bool, orders: seq<seq<DiskLookup.Ovdc>>, org: map<DiskLookup.Ovdc, DiskLookup.Vdc>,
                  cluster: DiskLookup.Ovdc, ids: seq<string>)
    requires |orders| == |ids| && forall v | v in org :: FaithfulVdc(org[v])
    ensures var found := seq(|ids|, i requires 0 <= i < |ids| =>
                                      Seen(LookupAnswer(zones, orders[i], org, cluster, ids[i])));
            Honest(ids, found) <==>
              forall i | 0 <= i < |ids| :: NamedById(LookupAnswer(zones, orders[i], org, cluster, ids[i]))
  {
    var found := seq(|ids|, i requires 0 <= i < |ids| => Seen(LookupAnswer(zones, orders[i], org, cluster, ids[i])));
    forall i | 0 <= i < |ids|
      ensures LookupAt(found, i).Hit? ==>
                (LookupAt(found, i).id == ids[i] <==> NamedById(LookupAnswer(zones, orders[i], org, cluster, ids[i])))
    {
      FindsByNameOnly(zones, orders[i], org, cluster, ids[i]);
    }
    if Honest(ids, found) {
      forall i | 0 <= i < |ids| ensures NamedById(LookupAnswer(zones, orders[i], org, cluster, ids[i])) {
        assert LookupAt(found, i).Hit? ==> LookupAt(found, i).id == ids[i];
      }
    }
  }

  // ----- one committed conversion -----

  lemma ResourcesOfStatus(section: Fields)
    requires DecodeStatus(section).Ok?
    ensures DecodeResources(section) == Ok(DecodeStatus(section).value.resources)
  {
  }

  /** A conversion changes the version, keeps the name and the three sets, and leaves out exactly
      the unknown and the empty fields of the section. */
  lemma ConvertSectionEffect(section: Fields, version: string)
    requires ConvertSection(section, version).Ok?
    ensures var s, after := DecodeStatus(section).value, ConvertSection(section, version).value;
            && DecodeStatus(after) == Ok(s.(version := version))
            && DecodeResources(after) == DecodeResources(section)
            && (forall k :: k in after <==> StatusField(s.(version := version), k).Some?)
  {
    KeysDiffer();
    StatusRoundTrip(DecodeStatus(section).value.(version := version));
    ResourcesOfStatus(section);
    ResourcesOfStatus(ConvertSection(section, version).value);
  }

  /** Converting a section twice is converting it once. */
  lemma ConvertSectionTwice(section: Fields, version: string)
    requires ConvertSection(section, version).Ok?
    ensures ConvertSection(ConvertSection(section, version).value, version) == ConvertSection(section, version)
  {
    ConvertSectionEffect(section, version);
  }

  /** A conversion touches nothing but the CSI section, and keeps every persistent volume. */
  lemma ConvertEffect(rde: Rde, version: string)
    requires ConvertPlan(rde, version).Send?
    ensures var after, status := ConvertPlan(rde, version).rde, StatusOf(rde).value;
            && StatusOf(rde).Some? && StatusOf(after).Some?
            && StatusOf(after).value - {CSI} == status - {CSI}
            && ResourcesOf(StatusOf(after).value) == ResourcesOf(status)
            && Pvs(after) == Pvs(rde)
            && after.kind == rde.kind && after.entity - {STATUS} == rde.entity - {STATUS}
            && ConvertPlan(after, version) == Send(after)
  {
    KeysDiffer();
    var status := StatusOf(rde).value;
    ConvertSectionEffect(status[CSI].fields, version);
    ConvertSectionTwice(status[CSI].fields, version);
    var after := ConvertPlan(rde, version).rde;
    assert after.entity[STATUS := after.entity[STATUS]] == after.entity;
    var after' := StatusOf(after).value;
    assert after'[CSI := after'[CSI]] == after';
  }

  // ----- the startup sequence -----

  /** Setup on an entity that nobody else writes: upgrade, then convert; a crash ends it. */
  function Startup(rde: Rde, isCapvcd: bool, version: string, found: seq<Lookup>): Rde {
    if isCapvcd && UpgradePlan(rde, version, found) == Stop(Panic) then rde
    else
      var upgraded := if isCapvcd then Applied(UpgradePlan(rde, version, found), rde) else rde;
      Applied(ConvertPlan(upgraded, version), upgraded)
  }

  /** Two entities that differ at most in the legacy list and the CSI section. */
  predicate SameOtherwise(a: Rde, b: Rde) {
    && a.kind == b.kind && a.entity - {STATUS} == b.entity - {STATUS}
    && (StatusOf(a).Some? <==> StatusOf(b).Some?)
    && (StatusOf(a).Some? ==>
       StatusOf(a).value - {CSI, PERSISTENT_VOLUMES} == StatusOf(b).value - {CSI, PERSISTENT_VOLUMES})
  }

  lemma WithoutCsi(a: Fields, b: Fields)
    requires a - {CSI} == b - {CSI} || a - {CSI} == b - {CSI, PERSISTENT_VOLUMES}
    ensures a - {CSI, PERSISTENT_VOLUMES} == b - {CSI, PERSISTENT_VOLUMES}
  {
    assert a - {CSI, PERSISTENT_VOLUMES} == (a - {CSI}) - {PERSISTENT_VOLUMES};
    assert b - {CSI, PERSISTENT_VOLUMES} == (b - {CSI}) - {PERSISTENT_VOLUMES};
    assert b - {CSI, PERSISTENT_VOLUMES} == (b - {CSI, PERSISTENT_VOLUMES}) - {PERSISTENT_VOLUMES};
  }

  lemma UpgradeKeepsTheRest(rde: Rde, version: string, found: seq<Lookup>)
    ensures SameOtherwise(Applied(UpgradePlan(rde, version, found), rde), rde)
  {
    if UpgradePlan(rde, version, found).Send? {
      UpgradeEffect(rde, version, found);
      WithoutCsi(StatusOf(UpgradePlan(rde, version, found).rde).value, StatusOf(rde).value);
    }
  }

  lemma ConvertKeepsTheRest(rde: Rde, version: string)
    ensures SameOtherwise(Applied(ConvertPlan(rde, version), rde), rde)
    ensures Pvs(Applied(ConvertPlan(rde, version), rde)) == Pvs(rde)
  {
    if ConvertPlan(rde, version).Send? {
      ConvertEffect(rde, version);
      WithoutCsi(StatusOf(ConvertPlan(rde, version).rde).value, StatusOf(rde).value);
    }
  }

  /** Upgrade-then-convert keeps the persistent volumes as a multiset, and everything in the
      entity other than the two keys of the status section that it works on. */
  lemma StartupKeepsPvs(rde: Rde, isCapvcd: bool, version: string, found: seq<Lookup>)
    requires StatusOf(rde).Some? ==> Honest(LegacyOf(StatusOf(rde).value), found)
    ensures Pvs(Startup(rde, isCapvcd, version, found)) == Pvs(rde)
    ensures SameOtherwise(Startup(rde, isCapvcd, version, found), rde)
  {
    UpgradeKeepsPvs(rde, version, found);
    UpgradeKeepsTheRest(rde, version, found);
    ConvertKeepsTheRest(if isCapvcd then Applied(UpgradePlan(rde, version, found), rde) else rde, version);
  }

  /** With no legacy list left, upgrading again sends the entity back as it is. */
  lemma UpgradeWithoutLegacy(rde: Rde, version: string, found: seq<Lookup>)
    requires StatusOf(rde).Some? && PERSISTENT_VOLUMES !in StatusOf(rde).value
    ensures UpgradePlan(rde, version, found) == Send(rde)
  {
    var status := StatusOf(rde).value;
    assert status - {PERSISTENT_VOLUMES} == status;
    assert rde.entity[STATUS := rde.entity[STATUS]] == rde.entity;
  }

  /** Where the upgrade had to leave the entity alone, so does the conversion. */
  lemma UnreadableStaysUnread(rde: Rde, version: string, found: seq<Lookup>)
    requires UpgradePlan(rde, version, found).Stop? && UpgradePlan(rde, version, found) != Stop(Panic)
    requires StatusOf(rde).Some? && ListedPvs(StatusOf(rde).value).Ok?
    ensures ConvertPlan(rde, version).Stop?
  {
  }

  /** A second startup leaves the entity as the first one left it. */
  lemma SecondStartupIsNoOp(rde: Rde, isCapvcd: bool, version: string, found: seq<Lookup>, found': seq<Lookup>)
    requires isCapvcd ==> UpgradePlan(rde, version, found) != Stop(Panic)
    ensures var once := Startup(rde, isCapvcd, version, found);
            Startup(once, isCapvcd, version, found') == once
  {
    KeysDiffer();
    var once := Startup(rde, isCapvcd, version, found);
    var plan := UpgradePlan(rde, version, found);
    var upgraded := if isCapvcd then Applied(plan, rde) else rde;
    if ConvertPlan(upgraded, version).Send? {
      ConvertEffect(upgraded, version);
    }
    if isCapvcd && StatusOf(rde).Some? {
      if plan.Send? {
        UpgradeEffect(rde, version, found);
        assert PERSISTENT_VOLUMES !in StatusOf(once).value by {
          if ConvertPlan(upgraded, version).Send? {
            assert PERSISTENT_VOLUMES !in StatusOf(once).value - {CSI};
          }
        }
        UpgradeWithoutLegacy(once, version, found');
      } else if ListedPvs(StatusOf(rde).value).Ok? {
        UnreadableStaysUnread(rde, version, found);
      } else {
        LegacySurvivesConversion(rde, version);
      }
    }
  }

  /** The conversion does not repair a malformed legacy list. */
  lemma LegacySurvivesConversion(rde: Rde, version: string)
    requires StatusOf(rde).Some?
    ensures var after := Applied(ConvertPlan(rde, version), rde);
            StatusOf(after).Some? && ListedPvs(StatusOf(after).value) == ListedPvs(StatusOf(rde).value)
  {
    KeysDiffer();
  }
}
