/** What the lookups find, told from the characters of an identifier and the entities that an OVDC
    lists. */
module LookupOutcomes {
  import opened Wrappers
  import opened Text
  import opened DiskLookup

  // ----- identifiers -----

  predicate IsHexDigit(c: char) {
    '0' <= c <= '9' || 'a' <= c <= 'f'
  }

  /** Thirty-two lower-case hexadecimal digits, in groups of 8, 4, 4, 4 and 12. */
  predicate HasUuidShape(s: string) {
    |s| == 36 && forall i | 0 <= i < 36 :: if i in {8, 13, 18, 23} then s[i] == '-' else IsHexDigit(s[i])
  }

  lemma {:induction false} JoinOfFive(p: seq<string>, sep: char)
    requires |p| == 5
    ensures Join(p, sep) == p[0] + [sep] + (p[1] + [sep] + (p[2] + [sep] + (p[3] + [sep] + p[4])))
  {
    JoinOfFour(p[1..], sep);
  }

  lemma {:induction false} JoinOfFour(p: seq<string>, sep: char)
    requires |p| == 4
    ensures Join(p, sep) == p[0] + [sep] + (p[1] + [sep] + (p[2] + [sep] + p[3]))
  {
    assert p[1..][1..] == p[2..] && p[2..][1..] == p[3..];
    assert Join(p[3..], sep) == p[3];
    assert Join(p[2..], sep) == p[2] + [sep] + Join(p[3..], sep);
    assert Join(p[1..], sep) == p[1] + [sep] + Join(p[2..], sep);
  }

  lemma UuidHasShape(s: string)
    requires IsUuid(s)
    ensures HasUuidShape(s)
  {
    var p := Split(s, '-');
    SplitJoins(s, '-');
    JoinOfFive(p, '-');
    assert forall i | 0 <= i < 8 :: s[i] == p[0][i];
    assert forall i | 9 <= i < 13 :: s[i] == p[1][i - 9];
    assert forall i | 14 <= i < 18 :: s[i] == p[2][i - 14];
    assert forall i | 19 <= i < 23 :: s[i] == p[3][i - 19];
    assert forall i | 24 <= i < 36 :: s[i] == p[4][i - 24];
  }

  lemma ShapeIsUuid(s: string)
    requires HasUuidShape(s)
    ensures IsUuid(s)
  {
    var p := [s[..8], s[9..13], s[14..18], s[19..23], s[24..]];
    JoinOfFive(p, '-');
    assert s == Join(p, '-');
    assert forall i | 0 <= i < 5 :: IsHex(p[i]);
    assert NoneHas(p, '-');
    SplitIsUnique(p, '-');
  }

  /** Four parts between colons, of which the first is urn or the last a UUID. */
  ghost predicate HasUrnShape(s: string) {
    exists a, b, c, d ::
      && s == a + ":" + (b + ":" + (c + ":" + d))
      && ':' !in a && ':' !in b && ':' !in c && ':' !in d
      && (a == "urn" || HasUuidShape(d))
  }

  /** When a lookup in one OVDC goes by id. */
  lemma LooksLikeIdIff(s: string)
    ensures LooksLikeId(s) <==> HasUuidShape(s) || HasUrnShape(s)
  {
    UuidIff(s);
    UrnIff(s);
  }

  lemma UrnIff(s: string)
    ensures IsUrn(s) <==> HasUrnShape(s)
  {
    if IsUrn(s) {
      var p := Split(s, ':');
      SplitJoins(s, ':');
      JoinOfFour(p, ':');
      UuidIff(p[3]);
      assert s == p[0] + ":" + (p[1] + ":" + (p[2] + ":" + p[3]));
    }
    if HasUrnShape(s) {
      var a, b, c, d :| s == a + ":" + (b + ":" + (c + ":" + d))
                        && ':' !in a && ':' !in b && ':' !in c && ':' !in d && (a == "urn" || HasUuidShape(d));
      var p := [a, b, c, d];
      JoinOfFour(p, ':');
      SplitIsUnique(p, ':');
      UuidIff(d);
    }
  }

  lemma UuidIff(s: string)
    ensures IsUuid(s) <==> HasUuidShape(s)
  {
    if IsUuid(s) {
      UuidHasShape(s);
    }
    if HasUuidShape(s) {
      ShapeIsUuid(s);
    }
  }

  // ----- the disks of a name -----

  /** An entity of this name that is a disk. */
  predicate IsNamed(e: ResourceEntity, name: string) {
    e.isDisk && e.name == name
  }

  /** All disks of the name can be fetched. */
  predicate AllFetched(es: seq<ResourceEntity>, name: string) {
    forall i | 0 <= i < |es| && IsNamed(es[i], name) :: es[i].fetch.Got?
  }

  /** The i-th entity is the first disk of the name that cannot be fetched. */
  predicate FailsAt(es: seq<ResourceEntity>, name: string, i: nat)
    requires i < |es|
  {
    && IsNamed(es[i], name) && !es[i].fetch.Got?
    && AllFetched(es[..i], name)
  }

  lemma {:induction false} FirstBadIs(es: seq<ResourceEntity>, name: string)
    ensures FirstBad(es, name) == None <==> AllFetched(es, name)
    ensures forall i: nat | i < |es| && FailsAt(es, name, i) :: FirstBad(es, name) == Some(es[i].fetch)
    ensures FirstBad(es, name) != None ==> exists i: nat :: i < |es| && FailsAt(es, name, i)
  {
    if es != [] {
      var rest := es[1..];
      FirstBadIs(rest, name);
      if IsNamed(es[0], name) && !es[0].fetch.Got? {
        assert FailsAt(es, name, 0);
        forall i: nat | i < |es| && FailsAt(es, name, i) ensures i == 0 {
          FailsAfter(es, name, i);
        }
      } else {
        FailsInRest(es, name);
        assert forall i | 0 < i < |es| :: es[i] == rest[i - 1];
        assert AllFetched(es, name) <==> AllFetched(rest, name) by {
          assert forall i | 0 <= i < |rest| :: rest[i] == es[i + 1];
        }
      }
    }
  }

  lemma FailsAfter(es: seq<ResourceEntity>, name: string, i: nat)
    requires i < |es| && FailsAt(es, name, i)
    ensures i > 0 && IsNamed(es[0], name) ==> es[0].fetch.Got?
  {
    assert i > 0 ==> es[..i][0] == es[0];
  }

  lemma FailsInRest(es: seq<ResourceEntity>, name: string)
    requires es != [] && (IsNamed(es[0], name) ==> es[0].fetch.Got?)
    ensures forall i: nat | i + 1 < |es| :: FailsAt(es[1..], name, i) <==> FailsAt(es, name, i + 1)
    ensures forall i: nat | 0 < i < |es| && FailsAt(es, name, i) :: FailsAt(es[1..], name, i - 1)
  {
    var rest := es[1..];
    forall i: nat | i + 1 < |es| ensures FailsAt(rest, name, i) <==> FailsAt(es, name, i + 1) {
      assert rest[i] == es[i + 1];
      assert forall j | 0 <= j < i :: rest[..i][j] == es[..i + 1][j + 1];
      assert es[..i + 1] == [es[0]] + rest[..i];
    }
    forall i: nat | 0 < i < |es| && FailsAt(es, name, i) ensures FailsAt(rest, name, i - 1) {
      var k: nat := i - 1;
      assert FailsAt(rest, name, k) <==> FailsAt(es, name, k + 1);
    }
  }

  /** The positions of the disks of the name among the first `n` entities. */
  function Positions(es: seq<ResourceEntity>, name: string, n: nat): (ks: seq<nat>)
    requires n <= |es|
    ensures forall a | 0 <= a < |ks| :: ks[a] < n && IsNamed(es[ks[a]], name)
    ensures forall k: nat | k < n && IsNamed(es[k], name) :: k in ks
    ensures forall a, b | 0 <= a < b < |ks| :: ks[a] < ks[b]
  {
    if n == 0 then [] else Positions(es, name, n - 1) + (if IsNamed(es[n - 1], name) then [n - 1] else [])
  }

  /** These disks are at these positions. */
  predicate AreAt(es: seq<ResourceEntity>, ks: seq<nat>, disks: seq<Disk>)
    requires forall a | 0 <= a < |ks| :: ks[a] < |es|
  {
    |disks| == |ks| && forall a | 0 <= a < |ks| :: es[ks[a]].fetch == Got(disks[a])
  }

  lemma OneMoreAreAt(es: seq<ResourceEntity>, name: string, k: nat,
                     ks: seq<nat>, disks: seq<Disk>, ks': seq<nat>, disks': seq<Disk>)
    requires (forall a | 0 <= a < |ks| :: ks[a] < |es|) && AreAt(es, ks, disks)
    requires k < |es| && (IsNamed(es[k], name) ==> es[k].fetch.Got?)
    requires ks' == ks + (if IsNamed(es[k], name) then [k] else [])
    requires disks' == disks + (if IsNamed(es[k], name) then [es[k].fetch.disk] else [])
    ensures (forall a | 0 <= a < |ks'| :: ks'[a] < |es|) && AreAt(es, ks', disks')
  {
  }

  /** One more entity at the end. */
  lemma NamedSnoc(init: seq<ResourceEntity>, e: ResourceEntity, name: string)
    ensures DisksNamed(init + [e], name)
            == DisksNamed(init, name) + (if IsNamed(e, name) && e.fetch.Got? then [e.fetch.disk] else [])
  {
    NamedConcat(init, [e], name);
    assert [e][1..] == [];
  }

  /** With all of them fetched, they are listed in their order, each once. */
  lemma {:induction false} DisksNamedAre(
      es: seq<ResourceEntity>, name: string, n: nat, ks: seq<nat>, disks: seq<Disk>)
    requires n <= |es| && AllFetched(es, name)
    requires ks == Positions(es, name, n) && disks == DisksNamed(es[..n], name)
    ensures AreAt(es, ks, disks)
  {
    if n > 0 {
      var init, k := es[..n - 1], n - 1;
      assert es[..n] == init + [es[k]];
      NamedSnoc(init, es[k], name);
      DisksNamedAre(es, name, k, Positions(es, name, k), DisksNamed(init, name));
      OneMoreAreAt(es, name, k, Positions(es, name, k), DisksNamed(init, name), ks, disks);
    }
  }

  /** What listing an OVDC by name answers: an error if the first disk of the name that cannot be
      fetched is broken, nothing if access to it is forbidden, and otherwise the disks of the name in
      their order. */
  lemma ListingIs(es: seq<ResourceEntity>, name: string)
    ensures forall i: nat | i < |es| && FailsAt(es, name, i) ::
              ListingOf(es, name) == if es[i].fetch == Broken then ListError else NoDisk
    ensures AllFetched(es, name) ==>
              var ks := Positions(es, name, |es|);
              if ks == [] then ListingOf(es, name) == NoDisk
              else
                ListingOf(es, name).Listed? && AreAt(es, ks, ListingOf(es, name).disks)
  {
    FirstBadIs(es, name);
    if AllFetched(es, name) {
      assert es[..|es|] == es;
      DisksNamedAre(es, name, |es|, Positions(es, name, |es|), DisksNamed(es, name));
    }
  }

  /** The k-th entity is the only disk of the name, and can be fetched as this disk. */
  predicate SoleAt(es: seq<ResourceEntity>, name: string, k: nat, disk: Disk)
    requires k < |es|
  {
    IsNamed(es[k], name) && es[k].fetch == Got(disk) && forall i | 0 <= i < |es| && IsNamed(es[i], name) :: i == k
  }

  predicate HasSole(es: seq<ResourceEntity>, name: string, disk: Disk) {
    exists k: nat :: k < |es| && SoleAt(es, name, k, disk)
  }

  /** What the loop over the zone map looks for in an OVDC: the only disk of the name, fetched, among
      all that a refresh brings. */
  lemma SoleInIff(org: map<Ovdc, Vdc>, ovdc: Ovdc, name: string, disk: Disk)
    ensures SoleIn(org, ovdc, name) == Some(disk) <==>
            && ovdc in org && org[ovdc].Available? && org[ovdc].refreshed.Some?
            && HasSole(Flatten(org[ovdc].refreshed.value), name, disk)
  {
    if ovdc in org && org[ovdc].Available? && org[ovdc].refreshed.Some? {
      var es := Flatten(org[ovdc].refreshed.value);
      SoleListedIff(es, name, disk);
      assert SoleIn(org, ovdc, name) == Some(disk) <==> ListingOf(es, name) == Listed([disk]) by {
        assert ListingOf(es, name).Listed? && |ListingOf(es, name).disks| == 1 ==>
            ListingOf(es, name).disks == [ListingOf(es, name).disks[0]];
      }
    }
  }

  lemma SoleListedIff(es: seq<ResourceEntity>, name: string, disk: Disk)
    ensures ListingOf(es, name) == Listed([disk]) <==> HasSole(es, name, disk)
  {
    ListingIs(es, name);
    FirstBadIs(es, name);
    var ks := Positions(es, name, |es|);
    if k: nat :| k < |es| && SoleAt(es, name, k, disk) {
      assert AllFetched(es, name);
      assert k in ks;
      OnlyElement(ks, k);
      assert ListingOf(es, name).disks == [disk];
    }
    if ListingOf(es, name) == Listed([disk]) {
      assert AllFetched(es, name);
      forall i: nat | i < |es| && IsNamed(es[i], name) ensures i == ks[0] {
        assert i in ks;
      }
      assert SoleAt(es, name, ks[0], disk);
    }
  }

  lemma OnlyElement(ks: seq<nat>, k: nat)
    requires k in ks && (forall a, b | 0 <= a < b < |ks| :: ks[a] < ks[b]) && forall x | x in ks :: x == k
    ensures ks == [k]
  {
    if |ks| > 1 {
      FirstTwoDiffer(ks);
    }
  }

  lemma FirstTwoDiffer(ks: seq<nat>)
    requires |ks| > 1 && forall a, b | 0 <= a < b < |ks| :: ks[a] < ks[b]
    ensures ks[0] < ks[1] && ks[0] in ks && ks[1] in ks
  {
  }

  /** The k-th entity is the first one of that id that is a disk. */
  predicate FirstOfId(es: seq<ResourceEntity>, id: string, k: nat)
    requires k < |es|
  {
    es[k].isDisk && es[k].id == id && forall i | 0 <= i < k :: !(es[i].isDisk && es[i].id == id)
  }

  /** What a lookup by id answers: what the first entity of that id does; a forbidden one counts as
      none. */
  lemma {:induction false} LookupIdIs(es: seq<ResourceEntity>, id: string)
    ensures forall k: nat | k < |es| && FirstOfId(es, id, k) ::
              LookupId(es, id) ==
              match es[k].fetch
              case Got(disk) => Hit(disk)
              case Forbidden => NoSuchId
              case Broken => IdError
    ensures (forall i | 0 <= i < |es| :: !(es[i].isDisk && es[i].id == id)) ==> LookupId(es, id) == NoSuchId
  {
    if es != [] && !(es[0].isDisk && es[0].id == id) {
      var rest := es[1..];
      LookupIdIs(rest, id);
      forall k: nat | k < |es| && FirstOfId(es, id, k) ensures k > 0 && FirstOfId(rest, id, k - 1) {
        assert forall i | 0 <= i < k - 1 :: rest[i] == es[i + 1];
      }
      assert forall i | 0 <= i < |rest| :: rest[i] == es[i + 1];
    }
  }

  /** The lookup in one OVDC, case by case: by id first if the identifier looks like one, with a crash
      on every hit, and then by name, in the fresh list after a lookup by id and in the old one
      otherwise. */
  lemma InVdcIs(vdc: Vdc, identifier: string)
    ensures vdc.Unavailable? ==> InVdc(vdc, identifier) == Failed
    ensures vdc.Available? ==>
              var byId := HasUuidShape(identifier) || HasUrnShape(identifier);
              if byId && vdc.refreshed.None? then InVdc(vdc, identifier) == Failed
              else
                var es := Flatten(if byId then vdc.refreshed.value else vdc.cached);
                if byId && LookupId(es, identifier).Hit? then InVdc(vdc, identifier) == Crashed
                else if byId && LookupId(es, identifier).IdError? then InVdc(vdc, identifier) == Failed
                else
                  match ListingOf(es, identifier)
                  case ListError => InVdc(vdc, identifier) == Failed
                  case NoDisk => InVdc(vdc, identifier) == NotFound
                  case Listed(disks) => InVdc(vdc, identifier) == if |disks| == 1 then Found(disks[0]) else Failed
  {
    LooksLikeIdIff(identifier);
    if vdc.Available? && (LooksLikeId(identifier) ==> vdc.refreshed.Some?) {
      var es := Flatten(if LooksLikeId(identifier) then vdc.refreshed.value else vdc.cached);
      assert ListingOf(es, identifier).Listed? ==> ListingOf(es, identifier).disks != [];
    }
  }
}
