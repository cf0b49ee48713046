/** How the node's RPCs end, told from the request, the disk files, the mount table and what fails:
    which disk is found, when each call is refused, when it succeeds, and what it then leaves. */
module NodeOutcomes {
  import opened Wrappers
  import opened Capabilities
  import opened NodeMounts
  import NodeGuarantees
  import Text

  // ----- which disk is found -----

  predicate SameLetter(a: char, b: char) {
    || a == b
    || ('A' <= a <= 'Z' && b as int == a as int + 32)
    || ('A' <= b <= 'Z' && a as int == b as int + 32)
  }

  predicate SameUpToCase(a: string, b: string) {
    |a| == |b| && forall i | 0 <= i < |a| :: SameLetter(a[i], b[i])
  }

  lemma LowerCaseIff(a: string, b: string)
    ensures LowerCase(a) == LowerCase(b) <==> SameUpToCase(a, b)
  {
    if LowerCase(a) == LowerCase(b) {
      assert |LowerCase(a)| == |a| && |LowerCase(b)| == |b|;
      forall i | 0 <= i < |a| ensures SameLetter(a[i], b[i]) {
        assert LowerCase(a)[i] == LowerCase(b)[i];
      }
    }
  }

  /** The dashes go, wherever they are, and nothing else. */
  lemma {:induction false} OnlyDashesGo(a: string, b: string)
    ensures '-' !in WithoutDashes(a)
    ensures WithoutDashes("-") == "" && ('-' !in a ==> WithoutDashes(a) == a)
    ensures WithoutDashes(a + b) == WithoutDashes(a) + WithoutDashes(b)
  {
    NoDashLeft(a);
    DashesConcat(a, b);
    assert "-"[1..] == "";
  }

  lemma {:induction false} DashesConcat(a: string, b: string)
    ensures WithoutDashes(a + b) == WithoutDashes(a) + WithoutDashes(b)
  {
    if a == "" {
      assert a + b == b;
    } else {
      var first, rest := if a[0] == '-' then "" else [a[0]], a[1..];
      calc {
        WithoutDashes(a + b);
        { assert (a + b)[1..] == rest + b && (a + b)[0] == a[0]; }
        first + WithoutDashes(rest + b);
        { DashesConcat(rest, b); }
        first + (WithoutDashes(rest) + WithoutDashes(b));
        { ConcatAssociates(first, WithoutDashes(rest), WithoutDashes(b)); }
        first + WithoutDashes(rest) + WithoutDashes(b);
        WithoutDashes(a) + WithoutDashes(b);
      }
    }
  }

  lemma ConcatAssociates(a: string, b: string, c: string)
    ensures a + (b + c) == a + b + c
  {
  }

  lemma {:induction false} NoDashLeft(a: string)
    ensures '-' !in WithoutDashes(a)
    ensures '-' !in a ==> WithoutDashes(a) == a
  {
    if a != "" {
      NoDashLeft(a[1..]);
      assert '-' !in a ==> '-' !in a[1..];
    }
  }

  /** The identifier that scsi_id reports, with one more character in front or without, is the UUID
      without its dashes, up to case. */
  predicate Identifies(out: string, uuid: string) {
    || (|out| == 33 && SameUpToCase(out[1..], WithoutDashes(uuid)))
    || (|out| == 32 && SameUpToCase(out, WithoutDashes(uuid)))
  }

  /** The file is the disk of that UUID, under this path: its own, or the one it links to. */
  predicate Carries(file: DiskFile, path: string, uuid: string) {
    && !file.isDir && path != ""
    && (file.link == None ==> path == file.path)
    && (file.link != None ==> file.link == Some(Some(path)))
    && file.scsiId != None && Identifies(file.scsiId.value, uuid)
  }

  /** The path found is that of the first file that is the disk of the UUID, and empty if none is. */
  lemma {:induction false} DiskPathIs(disks: seq<DiskFile>, uuid: string)
    ensures var found := DiskPath(disks, uuid);
            && (found == "" <==> forall i, path | 0 <= i < |disks| :: !Carries(disks[i], path, uuid))
            && (found != "" ==>
                  exists i | 0 <= i < |disks| ::
                    Carries(disks[i], found, uuid) && forall j, path | 0 <= j < i :: !Carries(disks[j], path, uuid))
  {
    if disks != [] {
      var found, rest := DiskPath(disks, uuid), disks[1..];
      HasUuidIs(disks[0], uuid);
      if HasUuid(disks[0], uuid) {
        assert Carries(disks[0], found, uuid);
      } else {
        DiskPathIs(rest, uuid);
        if found != "" {
          var i :| 0 <= i < |rest| && Carries(rest[i], found, uuid)
                   && forall j, path | 0 <= j < i :: !Carries(rest[j], path, uuid);
          assert Carries(disks[i + 1], found, uuid);
          forall j, path | 0 <= j < i + 1 ensures !Carries(disks[j], path, uuid) {
            assert j > 0 ==> disks[j] == rest[j - 1];
          }
        } else {
          forall j, path | 0 <= j < |disks| ensures !Carries(disks[j], path, uuid) {
            assert j > 0 ==> disks[j] == rest[j - 1];
          }
        }
      }
    }
  }

  lemma HasUuidIs(file: DiskFile, uuid: string)
    ensures HasUuid(file, uuid) <==> Carries(file, Target(file), uuid)
    ensures forall path | Carries(file, path, uuid) :: path == Target(file)
  {
    if file.scsiId.Some? {
      LowerCaseIff(file.scsiId.value, WithoutDashes(uuid));
      if |file.scsiId.value| == 33 {
        LowerCaseIff(file.scsiId.value[1..], WithoutDashes(uuid));
      }
    }
  }

  // ----- what the table says -----

  /** The first entry of the device at the path. */
  predicate FirstOf(mounts: seq<Mount>, device: string, path: string, i: nat)
    requires i < |mounts|
  {
    && mounts[i].device == device && mounts[i].path == path
    && forall j | 0 <= j < i :: !(mounts[j].device == device && mounts[j].path == path)
  }

  lemma {:induction false} FirstAtIs(mounts: seq<Mount>, device: string, path: string)
    ensures forall i: nat | i < |mounts| && FirstOf(mounts, device, path, i) ::
              FirstAt(mounts, device, path) == Some(mounts[i])
    ensures FirstAt(mounts, device, path).Some? ==> exists i: nat :: i < |mounts| && FirstOf(mounts, device, path, i)
  {
    if mounts != [] && !(mounts[0].device == device && mounts[0].path == path) {
      var rest := mounts[1..];
      FirstAtIs(rest, device, path);
      forall i: nat | i < |mounts| && FirstOf(mounts, device, path, i)
        ensures i > 0 && FirstOf(rest, device, path, i - 1)
      {
        assert forall j | 0 <= j < i - 1 :: rest[j] == mounts[j + 1];
      }
      if i: nat :| i < |rest| && FirstOf(rest, device, path, i) {
        assert forall j | 0 < j < i + 1 :: mounts[j] == rest[j - 1];
        assert FirstOf(mounts, device, path, i + 1);
      }
    } else if mounts != [] {
      assert FirstOf(mounts, device, path, 0);
    }
  }

  /** Whether a device is mounted, and whether its first mount at the path is as asked. */
  lemma CheckIs(mounts: seq<Mount>, device: string, path: string, mode: string)
    ensures Check(mounts, device, path, mode) == NotMounted <==> forall m | m in mounts :: m.device != device
    ensures Check(mounts, device, path, mode) == AsExpected <==>
            exists i: nat :: i < |mounts| && FirstOf(mounts, device, path, i) && mode in mounts[i].opts
  {
    FirstAtIs(mounts, device, path);
    if i: nat :| i < |mounts| && FirstOf(mounts, device, path, i) && mode in mounts[i].opts {
      assert OnDevice(mounts, device);
    }
  }

  // ----- staging -----

  /** The mode asked for: read-only for the two access modes that only read. */
  function AskedMode(mode: AccessMode): string {
    if mode in {SingleNodeReaderOnly, MultiNodeReaderOnly} then "ro" else "rw"
  }

  predicate IsEphemeral(context: Option<Attributes>) {
    context.Some? && "csi.storage.k8s.io/ephemeral" in context.value
    && context.value["csi.storage.k8s.io/ephemeral"] == "true"
  }

  /** The parameters of the volume: its own, or those of the publication. */
  function Parameters(req: StageRequest): Attributes {
    if req.volumeContext.Some? then req.volumeContext.value else req.publishContext
  }

  /** Exactly when a Stage is refused before it does anything. */
  lemma StageRefusals(node: Node, req: StageRequest, env: Env)
    ensures Stage(node, req, env).1 == Unimplemented <==> IsEphemeral(req.volumeContext)
    ensures Stage(node, req, env).1 == InvalidArgument <==>
            && !IsEphemeral(req.volumeContext)
            && (|| "filesystem" !in Parameters(req) || req.mount == None
                || "vmID" !in req.publishContext || "diskUUID" !in req.publishContext
                || req.volumeId == "" || req.stagingPath == "")
    ensures Stage(node, req, env).1 in {Unimplemented, InvalidArgument} ==> Stage(node, req, env).0 == node
  {
  }

  predicate IsStageable(req: StageRequest) {
    && !IsEphemeral(req.volumeContext) && "filesystem" in Parameters(req) && req.mount != None
    && "vmID" in req.publishContext && "diskUUID" in req.publishContext
    && req.volumeId != "" && req.stagingPath != ""
  }

  /** The options that the mount command is given. */
  function AskedOptions(req: StageRequest): seq<string>
    requires IsStageable(req)
  {
    req.mount.value.flags + (if Parameters(req)["filesystem"] == "xfs" then ["nouuid"] else [])
    + [AskedMode(req.mode), "defaults"]
  }

  /** The first file that is the disk of the UUID has this path, of three parts. */
  ghost predicate IsDiskOf(disks: seq<DiskFile>, device: string, uuid: string) {
    && |Text.Split(device, '/')| == 3
    && exists i | 0 <= i < |disks| ::
         Carries(disks[i], device, uuid) && forall j, path | 0 <= j < i :: !Carries(disks[j], path, uuid)
  }

  lemma {:induction false} DiskOfIs(disks: seq<DiskFile>, device: string, uuid: string)
    ensures IsDiskOf(disks, device, uuid) <==> DiskPath(disks, uuid) == device && IsScsiPath(device)
  {
    DiskPathIs(disks, uuid);
    assert Text.Split("", '/') == [""];
    if IsDiskOf(disks, device, uuid) {
      var i :| 0 <= i < |disks| && Carries(disks[i], device, uuid)
               && forall j, path | 0 <= j < i :: !Carries(disks[j], path, uuid);
      HasUuidIs(disks[i], uuid);
      var found := DiskPath(disks, uuid);
      var k :| 0 <= k < |disks| && Carries(disks[k], found, uuid)
               && forall j, path | 0 <= j < k :: !Carries(disks[j], path, uuid);
      assert i == k;
    }
  }

  /** What a Stage that is not refused does, for every table and every failure: it finds the disk of
      the UUID of the publication, or fails; it leaves a mounted disk alone, and succeeds if it is
      mounted as asked; and it mounts an unmounted one, unless the path or the mount fails. */
  lemma StageIs(node: Node, req: StageRequest, env: Env, device: string)
    requires IsStageable(req) && req.publishContext["diskUUID"] != ""
    requires env.scanOk && env.rescanOk && env.tableOk && IsDiskOf(env.disks, device, req.publishContext["diskUUID"])
    ensures var (node', code) := Stage(node, req, env);
            var path, mode := req.stagingPath, AskedMode(req.mode);
            var pathOk := env.statOk && (path in node.dirs || (path !in node.files && env.mkdirOk));
            if exists m :: m in node.mounts && m.device == device then
              && node' == node
              && code == (if exists i: nat :: i < |node.mounts| && FirstOf(node.mounts, device, path, i)
                                           && mode in node.mounts[i].opts then OK else Internal)
            else
              && (code == OK <==> pathOk && env.mountOk) && code in {OK, Internal}
              && node'.mounts == (if code == OK then
                                    node.mounts + [Mount(device, path, TableOpts(AskedOptions(req), env.opts), false)]
                                  else node.mounts)
              && node'.dirs == (if pathOk then node.dirs + {path} else node.dirs) && node'.files == node.files
  {
    var uuid := req.publishContext["diskUUID"];
    DiskOfIs(env.disks, device, uuid);
    CheckIs(node.mounts, device, req.stagingPath, AskedMode(req.mode));
    var args := CheckStage(req).value;
    assert args.uuid == uuid && args.mode == AskedMode(req.mode);
    assert args.options == AskedOptions(req);
  }

  /** Without such a disk, or when the search or the table fails, it fails and changes nothing. */
  lemma StageWithoutDisk(node: Node, req: StageRequest, env: Env)
    requires IsStageable(req)
    requires || !env.scanOk || !env.rescanOk || !env.tableOk || req.publishContext["diskUUID"] == ""
             || forall device :: !IsDiskOf(env.disks, device, req.publishContext["diskUUID"])
    ensures Stage(node, req, env) == (node, Internal)
  {
    var uuid := req.publishContext["diskUUID"];
    DiskOfIs(env.disks, DiskPath(env.disks, uuid), uuid);
  }

  /** So whatever a Stage mounts is the disk of the UUID that the publication names. */
  lemma StagedDiskIsTheOneAsked(node: Node, req: StageRequest, env: Env)
    ensures var mounts := Stage(node, req, env).0.mounts;
            mounts != node.mounts ==>
              && IsStageable(req) && |mounts| == |node.mounts| + 1 && mounts[..|node.mounts|] == node.mounts
              && IsDiskOf(env.disks, mounts[|node.mounts|].device, req.publishContext["diskUUID"])
  {
    StageRefusals(node, req, env);
    if Stage(node, req, env).0.mounts != node.mounts {
      var uuid := req.publishContext["diskUUID"];
      var device := DiskPath(env.disks, uuid);
      DiskOfIs(env.disks, device, uuid);
      StageIs(node, req, env, device);
    }
  }

  // ----- mount options -----

  /** Repeated and empty options go, and of several the first stays. */
  lemma {:induction false} DistinctIs(opts: seq<string>, more: seq<string>)
    ensures forall x :: x in Distinct(opts) <==> x in opts && x != ""
    ensures forall i, j | 0 <= i < j < |Distinct(opts)| :: Distinct(opts)[i] != Distinct(opts)[j]
    ensures Distinct(opts) <= Distinct(opts + more)
    decreases |opts|, |more|
  {
    if opts != [] {
      var init, last := opts[..|opts| - 1], opts[|opts| - 1];
      assert opts == init + [last];
      DistinctIs(init, []);
    }
    if more != [] {
      var init, last := more[..|more| - 1], more[|more| - 1];
      assert (opts + more)[..|opts + more| - 1] == opts + init;
      DistinctIs(opts, init);
    } else {
      assert opts + more == opts;
    }
  }

  /** The i-th option is rw or ro, and none after it is. */
  predicate LastMode(opts: seq<string>, i: nat)
    requires i < |opts|
  {
    opts[i] in {"rw", "ro"} && forall j | i < j < |opts| :: opts[j] !in {"rw", "ro"}
  }

  /** The last of rw and ro counts. */
  lemma {:induction false} EffectiveModeIs(opts: seq<string>, i: nat)
    requires i < |opts| && LastMode(opts, i)
    ensures EffectiveMode(opts) == opts[i]
  {
    var init, last := opts[..|opts| - 1], |opts| - 1;
    if i < last {
      assert forall j | i < j < last :: init[j] == opts[j];
      EffectiveModeIs(init, i);
    }
  }

  lemma {:induction false} DefaultMode(opts: seq<string>)
    requires forall i | 0 <= i < |opts| :: opts[i] !in {"rw", "ro"}
    ensures EffectiveMode(opts) == "rw"
  {
    if opts != [] {
      DefaultMode(opts[..|opts| - 1]);
    }
  }

  // ----- publishing -----

  /** What a publication has to say before anything is done. */
  predicate IsPublishable(req: PublishRequest) {
    && !IsEphemeral(req.volumeContext)
    && req.volumeId != "" && req.targetPath != "" && req.publishContext.Some? && req.capability.Some?
    && !req.capability.value.1.NoKind?
    && !(req.capability.value.1.Block? && req.capability.value.0 in {SingleNodeReaderOnly, MultiNodeReaderOnly})
  }

  /** The file or directory to mount on is there, or can be made. */
  predicate TargetOk(node: Node, req: PublishRequest, env: Env)
    requires IsPublishable(req)
  {
    var path := req.targetPath;
    if req.capability.value.1.Block? then env.mkdirOk && env.createOk && path !in node.dirs
    else env.statOk && (path in node.dirs || (path !in node.files && env.mkdirOk))
  }

  /** The request names what is to be mounted: the disk, or the staging directory. */
  predicate NamesSource(req: PublishRequest)
    requires IsPublishable(req)
  {
    if req.capability.value.1.Block? then "diskUUID" in req.publishContext.value && "vmID" in req.publishContext.value
    else req.stagingPath != ""
  }

  /** Exactly when a Publish is refused; a source that is not named is noticed only once there is
      something to mount on. */
  lemma PublishRefusals(node: Node, req: PublishRequest, env: Env)
    ensures Publish(node, req, env).1 == Unimplemented <==> IsEphemeral(req.volumeContext)
    ensures Publish(node, req, env).1 == InvalidArgument <==>
            && !IsEphemeral(req.volumeContext)
            && (!IsPublishable(req) || (TargetOk(node, req, env) && !NamesSource(req)))
    ensures !IsPublishable(req) ==> Publish(node, req, env).0 == node
  {
  }

  /** The path of the first file that is the disk of the UUID, or the empty path. */
  ghost predicate FirstDisk(disks: seq<DiskFile>, source: string, uuid: string) {
    if source == "" then forall i, path | 0 <= i < |disks| :: !Carries(disks[i], path, uuid)
    else exists i | 0 <= i < |disks| ::
           Carries(disks[i], source, uuid) && forall j, path | 0 <= j < i :: !Carries(disks[j], path, uuid)
  }

  lemma {:induction false} FirstDiskIs(disks: seq<DiskFile>, source: string, uuid: string)
    ensures FirstDisk(disks, source, uuid) <==> DiskPath(disks, uuid) == source
  {
    DiskPathIs(disks, uuid);
    var found := DiskPath(disks, uuid);
    if source != "" && FirstDisk(disks, source, uuid) {
      var i :| 0 <= i < |disks| && Carries(disks[i], source, uuid)
               && forall j, path | 0 <= j < i :: !Carries(disks[j], path, uuid);
      HasUuidIs(disks[i], uuid);
      var k :| 0 <= k < |disks| && Carries(disks[k], found, uuid)
               && forall j, path | 0 <= j < k :: !Carries(disks[j], path, uuid);
      assert i == k;
    }
  }

  /** What is mounted, when it can be found. */
  ghost predicate SourceIs(node: Node, req: PublishRequest, env: Env, source: string)
    requires IsPublishable(req) && NamesSource(req)
  {
    if req.capability.value.1.Block? then
      var uuid := req.publishContext.value["diskUUID"];
      uuid != "" && FirstDisk(env.disks, source, uuid)
    else source == req.stagingPath && env.statOk && source in node.dirs + {req.targetPath}
  }

  function FlagsOf(req: PublishRequest): seq<string>
    requires IsPublishable(req)
  {
    (if req.capability.value.1.FileSystem? then req.capability.value.1.details.flags else [])
    + [AskedMode(req.capability.value.0)]
  }

  /** What a Publish that is not refused does: it makes what is to be mounted on; it leaves alone a
      source that the table names as a device, and succeeds if that is mounted as asked; and it
      bind-mounts any other, with the device that the source shows. */
  lemma PublishIs(node: Node, req: PublishRequest, env: Env, source: string)
    requires IsPublishable(req) && NamesSource(req) && TargetOk(node, req, env) && env.tableOk
    requires SourceIs(node, req, env, source)
    ensures var (node', code) := Publish(node, req, env);
            var path, mode, block := req.targetPath, AskedMode(req.capability.value.0), req.capability.value.1.Block?;
            var device := DeviceAt(node.mounts, source, env.device);
            && node'.dirs == (if block then node.dirs else node.dirs + {path})
            && node'.files == (if block then node.files + {path} else node.files)
            && if exists m :: m in node.mounts && m.device == source then
                 && node'.mounts == node.mounts
                 && code == (if exists i: nat :: i < |node.mounts| && FirstOf(node.mounts, source, path, i)
                                              && mode in node.mounts[i].opts then OK else Internal)
               else
                 && code == (if env.bind == Bound then OK else Internal)
                 && node'.calls == node.calls + [MountCall(source, path)]
                 && node'.mounts ==
                    match env.bind
                    case Bound => node.mounts + [Mount(device, path, TableOpts(FlagsOf(req), env.opts), true)]
                    case RemountFails => node.mounts + [Mount(device, path, env.opts, true)]
                    case BindFails => node.mounts
  {
    if req.capability.value.1.Block? {
      FirstDiskIs(env.disks, source, req.publishContext.value["diskUUID"]);
    }
    CheckIs(node.mounts, source, req.targetPath, AskedMode(req.capability.value.0));
    var ready := PublishTarget(node, req.targetPath, req.capability.value.1.Block?, env).value;
    assert PublishSource(ready, req, env) == Good(source);
    assert PublishOptions(req) == FlagsOf(req);
  }

  /** The device that a path shows: that of the last mount on it, or that of the file system it is in. */
  lemma {:induction false} DeviceAtIs(mounts: seq<Mount>, path: string, device: string)
    ensures (forall m | m in mounts :: m.path != path) ==> DeviceAt(mounts, path, device) == device
    ensures forall i | 0 <= i < |mounts| && mounts[i].path == path
                       && (forall j | i < j < |mounts| :: mounts[j].path != path) ::
              DeviceAt(mounts, path, device) == mounts[i].device
  {
    if mounts != [] && mounts[|mounts| - 1].path != path {
      DeviceAtIs(mounts[..|mounts| - 1], path, device);
    }
  }

  // ----- undoing -----

  /** Exactly when Unpublish succeeds: the path is gone, or it has at most one mount, which can be
      taken away, and so can the path. Then the path is gone, and that mount. */
  lemma UnpublishIs(node: Node, volumeId: string, path: string, env: Env)
    ensures var (node', code) := Unpublish(node, volumeId, path, env);
            var there, mounted := path in node.dirs || path in node.files, NodeGuarantees.MountsAt(node.mounts, path);
            && (code == InvalidArgument <==> volumeId == "" || path == "")
            && code in {OK, InvalidArgument, Internal}
            && (code == OK <==>
                  && volumeId != "" && path != "" && env.statOk
                  && (there ==> env.tableOk && mounted <= 1 && (mounted == 1 ==> env.unmountOk) && env.removeOk))
            && (code == OK ==>
                  && path !in node'.dirs && path !in node'.files
                  && (there ==> NodeGuarantees.MountsAt(node'.mounts, path) == 0)
                  && (!there ==> node' == node))
  {
    NodeGuarantees.CountedIffThere(node.mounts, path);
    if AtPath(node.mounts, path) {
      NodeGuarantees.UnmountTakesOne(node.mounts, path);
      NodeGuarantees.CountedIffThere(UnmountTop(node.mounts, path), path);
    }
  }

  /** Exactly when Unstage succeeds: there is no such directory, or nothing on it, or the last mount on
      it can be taken away; and that mount is all that goes. */
  lemma UnstageIs(node: Node, path: string, env: Env)
    ensures var (node', code) := Unstage(node, path, env);
            && (code == InvalidArgument <==> path == "") && code in {OK, InvalidArgument, Internal}
            && (code == OK <==>
                  && path != "" && env.statOk && (path in node.dirs || path !in node.files)
                  && (path in node.dirs ==>
                        env.tableOk && ((exists m :: m in node.mounts && m.path == path) ==> env.unmountOk)))
            && (code == OK && path in node.dirs && AtPath(node.mounts, path) ==>
                  exists k | 0 <= k < |node.mounts| ::
                    && node.mounts[k].path == path && (forall j | k < j < |node.mounts| :: node.mounts[j].path != path)
                    && node' == node.(mounts := node.mounts[..k] + node.mounts[k + 1..]))
            && (code != OK || path !in node.dirs || !AtPath(node.mounts, path) ==> node' == node)
  {
    if AtPath(node.mounts, path) {
      var k := NodeGuarantees.UnmountedAt(node.mounts, path);
      forall j | k < j < |node.mounts| ensures node.mounts[j].path != path {
        assert node.mounts[j] == node.mounts[k + 1..][j - k - 1];
      }
    }
  }

  // ----- and back -----

  predicate AllWell(env: Env) {
    && env.scanOk && env.rescanOk && env.tableOk && env.statOk && env.mkdirOk && env.createOk
    && env.mountOk && env.bind == Bound && env.unmountOk && env.removeOk
  }

  /** A volume with a file system is staged, published, unpublished and unstaged, each with success,
      when nothing fails, on a node with nothing at its paths; and the mount table is as it was. */
  lemma RoundTripSucceeds(node: Node, stage: StageRequest, publish: PublishRequest, env: Env, device: string)
    requires AllWell(env) && IsStageable(stage) && IsPublishable(publish) && publish.capability.value.1.FileSystem?
    requires stage.publishContext["diskUUID"] != "" && IsDiskOf(env.disks, device, stage.publishContext["diskUUID"])
    requires stage.stagingPath == publish.stagingPath != publish.targetPath
    requires stage.stagingPath !in node.files && publish.targetPath !in node.files
    requires forall m | m in node.mounts ::
               m.device !in {device, stage.stagingPath} && m.path !in {stage.stagingPath, publish.targetPath}
    requires device != stage.stagingPath
    ensures var (staged, code0) := Stage(node, stage, env);
            var (published, code1) := Publish(staged, publish, env);
            var (unpublished, code2) := Unpublish(published, publish.volumeId, publish.targetPath, env);
            var (unstaged, code3) := Unstage(unpublished, stage.stagingPath, env);
            && code0 == OK && code1 == OK && code2 == OK && code3 == OK
            && Mount(device, stage.stagingPath, TableOpts(AskedOptions(stage), env.opts), false) in staged.mounts
            && Mount(device, publish.targetPath, TableOpts(FlagsOf(publish), env.opts), true) in published.mounts
            && unstaged.mounts == node.mounts
  {
    StageIs(node, stage, env, device);
    var staged := Stage(node, stage, env).0;
    var m := Mount(device, stage.stagingPath, TableOpts(AskedOptions(stage), env.opts), false);
    assert staged.mounts == node.mounts + [m] && staged.mounts[|node.mounts|] == m;
    PublishAndUnpublish(staged, publish, env, device);
    var unpublished := Unpublish(Publish(staged, publish, env).0, publish.volumeId, publish.targetPath, env).0;
    NodeGuarantees.UnstagePops(unpublished, stage.stagingPath, env, node.mounts, m);
    UnstageIs(unpublished, stage.stagingPath, env);
  }

  lemma PublishAndUnpublish(node: Node, publish: PublishRequest, env: Env, device: string)
    requires AllWell(env) && IsPublishable(publish) && publish.capability.value.1.FileSystem?
    requires publish.stagingPath !in {"", publish.targetPath} && publish.targetPath !in node.files
    requires publish.stagingPath in node.dirs
    requires forall m | m in node.mounts :: m.device != publish.stagingPath && m.path != publish.targetPath
    requires node.mounts != [] && node.mounts[|node.mounts| - 1].path == publish.stagingPath
    requires node.mounts[|node.mounts| - 1].device == device
    ensures var (published, code1) := Publish(node, publish, env);
            var (unpublished, code2) := Unpublish(published, publish.volumeId, publish.targetPath, env);
            && code1 == OK && code2 == OK
            && Mount(device, publish.targetPath, TableOpts(FlagsOf(publish), env.opts), true) in published.mounts
            && unpublished.mounts == node.mounts && publish.stagingPath in unpublished.dirs
            && unpublished.files == node.files
  {
    DeviceAtIs(node.mounts, publish.stagingPath, env.device);
    PublishIs(node, publish, env, publish.stagingPath);
    var published := Publish(node, publish, env).0;
    var b := Mount(device, publish.targetPath, TableOpts(FlagsOf(publish), env.opts), true);
    assert published.mounts == node.mounts + [b];
    assert !AtPath(node.mounts, publish.targetPath);
    NodeGuarantees.CountedIffThere(node.mounts, publish.targetPath);
    assert published.mounts[..|node.mounts|] == node.mounts;
    UnpublishIs(published, publish.volumeId, publish.targetPath, env);
    NodeGuarantees.UnpublishPops(published, publish.volumeId, publish.targetPath, env, node.mounts, b);
  }
}
