/** What the node's RPCs guarantee: one staging mount per device, repetitions that change nothing,
    undoing that restores the table, and where that falls short. */
module NodeGuarantees {
  import opened Wrappers
  import opened NodeMounts
  import Text

  // ----- the mode of a mount -----

  function Other(mode: string): string {
    if mode == "rw" then "ro" else "rw"
  }

  /** The first flag for the other mode is the j-th, and comes after one for this mode. */
  predicate OverriddenAt(flags: seq<string>, mode: string, j: nat)
    requires j < |flags|
  {
    flags[j] == Other(mode) && mode in flags[..j] && Other(mode) !in flags[..j]
  }

  /** The first flag for the other mode comes after one for this mode; the mode that the driver
      appends is then dropped as a duplicate. */
  predicate Overridden(flags: seq<string>, mode: string) {
    exists j: nat :: j < |flags| && OverriddenAt(flags, mode, j)
  }

  lemma OneMoreFlag(flags: seq<string>, x: string, mode: string)
    ensures Overridden(flags + [x], mode) <==>
            Overridden(flags, mode) || (x == Other(mode) && mode in flags && Other(mode) !in flags)
  {
    var more := flags + [x];
    assert more[..|flags|] == flags;
    if Overridden(more, mode) {
      var j: nat :| j < |more| && OverriddenAt(more, mode, j);
      if j < |flags| {
        assert more[..j] == flags[..j];
        assert OverriddenAt(flags, mode, j);
      }
    }
    if Overridden(flags, mode) {
      var j: nat :| j < |flags| && OverriddenAt(flags, mode, j);
      assert more[..j] == flags[..j];
      assert OverriddenAt(more, mode, j);
    }
    if x == Other(mode) && mode in flags && Other(mode) !in flags {
      assert OverriddenAt(more, mode, |flags|);
    }
  }

  lemma {:induction false} OneMoreOption(opts: seq<string>, x: string)
    ensures EffectiveMode(Distinct(opts + [x]))
            == if x in Modes() && x !in opts then x else EffectiveMode(Distinct(opts))
  {
    assert (opts + [x])[..|opts|] == opts;
    assert (Distinct(opts) + [x])[..|Distinct(opts)|] == Distinct(opts);
  }

  lemma {:induction false} ModeOfFlags(flags: seq<string>, mode: string)
    requires mode in Modes() && mode in flags
    ensures EffectiveMode(Distinct(flags)) == mode <==> !Overridden(flags, mode)
  {
    var init, x := flags[..|flags| - 1], flags[|flags| - 1];
    assert flags == init + [x];
    OneMoreOption(init, x);
    OneMoreFlag(init, x, mode);
    if x in Modes() && x !in init {
      if x == mode {
        NotOverriddenWithout(init, mode);
      }
    } else {
      assert mode in init;
      ModeOfFlags(init, mode);
    }
  }

  lemma NotOverriddenWithout(flags: seq<string>, mode: string)
    requires mode !in flags
    ensures !Overridden(flags, mode)
  {
    forall j: nat | j < |flags| ensures !OverriddenAt(flags, mode, j) {
      assert mode in flags[..j] ==> mode in flags;
    }
  }

  lemma AppendedMode(flags: seq<string>, mode: string)
    requires mode in Modes()
    ensures EffectiveMode(Distinct(flags + [mode])) == mode <==> !Overridden(flags, mode)
  {
    OneMoreOption(flags, mode);
    if mode in flags {
      ModeOfFlags(flags, mode);
    } else {
      NotOverriddenWithout(flags, mode);
    }
  }

  /** The mode asked for takes effect unless the mount flags override it. */
  lemma RequestedModeIff(fsType: string, flags: seq<string>, mode: string)
    requires mode in Modes()
    ensures EffectiveMode(Distinct(StageOptions(fsType, flags, mode))) == mode <==> !Overridden(flags, mode)
  {
    var base := flags + (if fsType == "xfs" then ["nouuid"] else []);
    assert fsType != "xfs" ==> base == flags;
    OneMoreFlag(flags, "nouuid", mode);
    AppendedMode(base, mode);
    OneMoreOption(base + [mode], "defaults");
  }

  // ----- staging -----

  lemma {:induction false} FirstAtAppended(mounts: seq<Mount>, m: Mount)
    requires FirstAt(mounts, m.device, m.path).None?
    ensures FirstAt(mounts + [m], m.device, m.path) == Some(m)
  {
    if mounts != [] {
      FirstAtAppended(mounts[1..], m);
      assert (mounts + [m])[1..] == mounts[1..] + [m];
    }
  }

  lemma {:induction false} FirstAtIsThere(mounts: seq<Mount>, device: string, path: string)
    ensures FirstAt(mounts, device, path).Some? <==>
            exists i :: 0 <= i < |mounts| && mounts[i].device == device && mounts[i].path == path
  {
    if mounts != [] {
      FirstAtIsThere(mounts[1..], device, path);
      if FirstAt(mounts[1..], device, path).Some? {
        var i :| 0 <= i < |mounts[1..]| && mounts[1..][i].device == device && mounts[1..][i].path == path;
        assert mounts[i + 1] == mounts[1..][i];
      }
      assert forall i | 0 < i < |mounts| :: mounts[i] == mounts[1..][i - 1];
    }
  }

  lemma {:induction false} OtherOptionsHaveNoMode(opts: seq<string>)
    ensures forall mode | mode in Modes() :: mode !in WithoutModes(opts)
  {
    if opts != [] {
      OtherOptionsHaveNoMode(opts[1..]);
    }
  }

  lemma ModeInTable(asked: seq<string>, listed: seq<string>, mode: string)
    requires mode in Modes()
    ensures mode in TableOpts(asked, listed) <==> EffectiveMode(Distinct(asked)) == mode
  {
    OtherOptionsHaveNoMode(listed);
  }

  /** A successful Stage either finds the device mounted as asked, and changes nothing, or mounts
      it, as the only entry of the device. Afterwards the device is at the staging path; it is
      there in the mode asked for exactly if it was before, or the flags do not override it. */
  lemma StageSuccess(node: Node, req: StageRequest, env: Env)
    requires CheckStage(req).Good? && Stage(node, req, env).1 == OK
    ensures var args, node' := CheckStage(req).value, Stage(node, req, env).0;
            var device := DiskPath(env.disks, args.uuid);
            && device != ""
            && FirstAt(node'.mounts, device, req.stagingPath).Some?
            && (OnDevice(node.mounts, device) ==>
                  && node' == node
                  && Check(node.mounts, device, req.stagingPath, args.mode) == AsExpected)
            && (!OnDevice(node.mounts, device) ==>
                  && node'.mounts
                     == node.mounts + [Mount(device, req.stagingPath, TableOpts(args.options, env.opts), false)]
                  && (Check(node'.mounts, device, req.stagingPath, args.mode) == AsExpected
                      <==> !Overridden(req.mount.value.flags, args.mode)))
  {
    var args, node' := CheckStage(req).value, Stage(node, req, env).0;
    var device := DiskPath(env.disks, args.uuid);
    assert Text.Split("", '/') == [""];
    if !OnDevice(node.mounts, device) {
      var m := Mount(device, req.stagingPath, TableOpts(args.options, env.opts), false);
      FirstAtIsThere(node.mounts, device, req.stagingPath);
      FirstAtAppended(node.mounts, m);
      assert node'.mounts[|node.mounts|] == m;
      ModeInTable(args.options, env.opts, args.mode);
      RequestedModeIff(StageFsType(req).value, req.mount.value.flags, args.mode);
    }
  }

  /** When the device is mounted anywhere, Stage changes nothing at all; it succeeds exactly if the
      first entry of the device at the staging path has the mode asked for. */
  lemma StageNeverAddsASecondMount(node: Node, req: StageRequest, env: Env)
    requires CheckStage(req).Good? && OnDevice(node.mounts, DiskPath(env.disks, CheckStage(req).value.uuid))
    ensures Stage(node, req, env).0 == node
    ensures Stage(node, req, env).1 == OK <==>
            FindsDisk(CheckStage(req).value.uuid, env)
            && Check(node.mounts, DiskPath(env.disks, CheckStage(req).value.uuid), req.stagingPath,
                     CheckStage(req).value.mode) == AsExpected
  {
  }

  /** Repeating a successful Stage changes nothing, and succeeds whenever the disk is found again,
      exactly if the mode was not overridden when it was first mounted. */
  lemma StageTwice(node: Node, req: StageRequest, env: Env, env': Env)
    requires CheckStage(req).Good? && Stage(node, req, env).1 == OK
    requires FindsDisk(CheckStage(req).value.uuid, env')
    requires DiskPath(env'.disks, CheckStage(req).value.uuid) == DiskPath(env.disks, CheckStage(req).value.uuid)
    ensures var once := Stage(node, req, env).0;
            && Stage(once, req, env').0 == once
            && (Stage(once, req, env').1 == OK <==>
                  OnDevice(node.mounts, DiskPath(env.disks, CheckStage(req).value.uuid))
                  || !Overridden(req.mount.value.flags, CheckStage(req).value.mode))
  {
    var device := DiskPath(env.disks, CheckStage(req).value.uuid);
    var once := Stage(node, req, env).0;
    StageSuccess(node, req, env);
    FirstAtIsThere(once.mounts, device, req.stagingPath);
    StageNeverAddsASecondMount(once, req, env');
  }

  // ----- any sequence of calls -----

  /** At most one entry of a device comes from staging it. */
  ghost predicate OneStaging(mounts: seq<Mount>) {
    forall i, j | 0 <= i < j < |mounts| && !mounts[i].bind && !mounts[j].bind :: mounts[i].device != mounts[j].device
  }

  lemma {:induction false} UnmountedAt(mounts: seq<Mount>, path: string) returns (k: nat)
    requires AtPath(mounts, path)
    ensures k < |mounts| && mounts[k].path == path && !AtPath(mounts[k + 1..], path)
    ensures UnmountTop(mounts, path) == mounts[..k] + mounts[k + 1..]
  {
    var last := |mounts| - 1;
    if mounts[last].path == path {
      k := last;
    } else {
      var rest := mounts[..last];
      var i :| 0 <= i < |mounts| && mounts[i].path == path;
      assert rest[i].path == path;
      k := UnmountedAt(rest, path);
      assert mounts[k + 1..] == rest[k + 1..] + [mounts[last]];
      assert rest[..k] == mounts[..k];
      forall n | k < n < |mounts| ensures mounts[n].path != path {
        assert n < last ==> mounts[n] == rest[k + 1..][n - k - 1];
      }
    }
  }

  lemma UnmountKeepsOneStaging(mounts: seq<Mount>, path: string)
    requires OneStaging(mounts) && AtPath(mounts, path)
    ensures OneStaging(UnmountTop(mounts, path))
  {
    var k := UnmountedAt(mounts, path);
    var rest := UnmountTop(mounts, path);
    forall i, j | 0 <= i < j < |rest| && !rest[i].bind && !rest[j].bind ensures rest[i].device != rest[j].device {
      assert rest[i] == mounts[if i < k then i else i + 1] && rest[j] == mounts[if j < k then j else j + 1];
    }
  }

  lemma AppendKeepsOneStaging(mounts: seq<Mount>, m: Mount)
    requires OneStaging(mounts) && (m.bind || !OnDevice(mounts, m.device))
    ensures OneStaging(mounts + [m])
  {
  }

  lemma StageKeepsOneStaging(node: Node, req: StageRequest, env: Env)
    requires OneStaging(node.mounts)
    ensures OneStaging(Stage(node, req, env).0.mounts)
  {
    if CheckStage(req).Good? {
      var args := CheckStage(req).value;
      var device := DiskPath(env.disks, args.uuid);
      if !OnDevice(node.mounts, device) {
        AppendKeepsOneStaging(node.mounts, Mount(device, req.stagingPath, TableOpts(args.options, env.opts), false));
      }
    }
  }

  /** AtMostOneStaging takes each call as a whole. A Stage that mounts on the strength of a table it
      read before others changed it keeps to one staging exactly if by then nobody has staged the
      device. */
  lemma StaleStageIff(node: Node, device: string, path: string, options: seq<string>, env: Env)
    requires OneStaging(node.mounts) && StageMount(node, device, path, options, env).1 == OK
    ensures OneStaging(StageMount(node, device, path, options, env).0.mounts) <==>
            forall i | 0 <= i < |node.mounts| && node.mounts[i].device == device :: node.mounts[i].bind
  {
    var m := Mount(device, path, TableOpts(options, env.opts), false);
    var after := node.mounts + [m];
    if i :| 0 <= i < |node.mounts| && node.mounts[i].device == device && !node.mounts[i].bind {
      assert after[i] == node.mounts[i] && after[|node.mounts|] == m;
    }
  }

  /** So two overlapping calls that both find the device unmounted, and would both succeed alone, both
      succeed and stage it twice. */
  lemma OverlappingStages(node: Node, req: StageRequest, env: Env, req': StageRequest, env': Env)
    requires CheckStage(req).Good? && CheckStage(req').Good? && OneStaging(node.mounts)
    requires Stage(node, req, env).1 == OK && Stage(node, req', env').1 == OK
    requires var device := DiskPath(env.disks, CheckStage(req).value.uuid);
             !OnDevice(node.mounts, device) && DiskPath(env'.disks, CheckStage(req').value.uuid) == device
    ensures var device := DiskPath(env.disks, CheckStage(req).value.uuid);
            var once := Stage(node, req, env).0;
            var (twice, code) := StageMount(once, device, req'.stagingPath, CheckStage(req').value.options, env');
            code == OK && !OneStaging(twice.mounts)
  {
    var device := DiskPath(env.disks, CheckStage(req).value.uuid);
    var once := Stage(node, req, env).0;
    StageKeepsOneStaging(node, req, env);
    assert once.mounts[|node.mounts|].device == device && !once.mounts[|node.mounts|].bind;
    StaleStageIff(once, device, req'.stagingPath, CheckStage(req').value.options, env');
  }

  lemma PublishAddsAtMostABind(node: Node, req: PublishRequest, env: Env)
    ensures var mounts := Publish(node, req, env).0.mounts;
            || mounts == node.mounts
            || (|mounts| == |node.mounts| + 1 && mounts[..|node.mounts|] == node.mounts && mounts[|node.mounts|].bind)
  {
  }

  lemma PublishKeepsOneStaging(node: Node, req: PublishRequest, env: Env)
    requires OneStaging(node.mounts)
    ensures OneStaging(Publish(node, req, env).0.mounts)
  {
    var mounts := Publish(node, req, env).0.mounts;
    PublishAddsAtMostABind(node, req, env);
    if mounts != node.mounts {
      assert mounts == node.mounts + [mounts[|node.mounts|]];
      AppendKeepsOneStaging(node.mounts, mounts[|node.mounts|]);
    }
  }

  /** Whatever is staged, published, unpublished and unstaged, in whatever order and with whatever
      failures, no device is ever staged twice. */
  lemma {:induction false} AtMostOneStaging(node: Node, ops: seq<(NodeOp, Env)>)
    requires OneStaging(node.mounts)
    ensures OneStaging(Run(node, ops).mounts)
    decreases |ops|
  {
    if ops != [] {
      var (op, env) := ops[0];
      match op {
        case StageOp(req) => StageKeepsOneStaging(node, req, env);
        case PublishOp(req) => PublishKeepsOneStaging(node, req, env);
        case UnpublishOp(_, path) =>
          if AtPath(node.mounts, path) {
            UnmountKeepsOneStaging(node.mounts, path);
          }
        case UnstageOp(path) =>
          if AtPath(node.mounts, path) {
            UnmountKeepsOneStaging(node.mounts, path);
          }
      }
      AtMostOneStaging(Do(node, op, env).0, ops[1..]);
    }
  }

  // ----- the mount command is never given an empty device by Stage -----

  /** Stage issues at most one mount command, and that for the disk that was found. */
  lemma StageMountsTheDiskFound(node: Node, req: StageRequest, env: Env)
    ensures var node' := Stage(node, req, env).0;
            node'.calls == node.calls
            || (CheckStage(req).Good?
                && DiskPath(env.disks, CheckStage(req).value.uuid) != ""
                && node'.calls
                   == node.calls + [MountCall(DiskPath(env.disks, CheckStage(req).value.uuid), req.stagingPath)])
  {
    assert Text.Split("", '/') == [""];
  }

  /** Publish of a block volume has no such check: it bind-mounts the empty path exactly if the
      search fails and nothing stops it before. */
  lemma PublishMountsNothingIff(node: Node, req: PublishRequest, env: Env)
    requires CheckPublish(req) == OK && forall m | m in node.mounts :: m.device != ""
    ensures Publish(node, req, env).0.calls == node.calls + [MountCall("", req.targetPath)] <==>
            && req.capability.value.1.Block?
            && PublishTarget(node, req.targetPath, true, env).Good?
            && VM_FULL_NAME_ATTRIBUTE in req.publishContext.value && DISK_UUID_ATTRIBUTE in req.publishContext.value
            && req.publishContext.value[DISK_UUID_ATTRIBUTE] != ""
            && DiskPath(env.disks, req.publishContext.value[DISK_UUID_ATTRIBUTE]) == ""
            && env.tableOk
  {
    PublishCalls(node, req, env);
    assert forall i | 0 <= i < |node.mounts| :: node.mounts[i] in node.mounts;
    assert forall call :: (node.calls + [call])[|node.calls|] == call;
    assert |node.calls + [MountCall("", req.targetPath)]| == |node.calls| + 1;
  }

  lemma PublishCalls(node: Node, req: PublishRequest, env: Env)
    requires CheckPublish(req) == OK
    ensures var node' := Publish(node, req, env).0;
            var target := PublishTarget(node, req.targetPath, req.capability.value.1.Block?, env);
            node'.calls == node.calls
            || (target.Good? && PublishSource(target.value, req, env).Good?
                && node'.calls == node.calls + [MountCall(PublishSource(target.value, req, env).value, req.targetPath)])
  {
  }

  // ----- undoing -----

  lemma UnmountAppended(mounts: seq<Mount>, m: Mount)
    ensures UnmountTop(mounts + [m], m.path) == mounts
    ensures AtPath(mounts + [m], m.path)
  {
    assert (mounts + [m])[..|mounts|] == mounts;
    assert (mounts + [m])[|mounts|] == m;
  }

  /** A Publish that succeeds, onto a path without mounts, mounts once. */
  lemma PublishOntoFreePath(node: Node, req: PublishRequest, env: Env)
    requires !AtPath(node.mounts, req.targetPath) && Publish(node, req, env).1 == OK
    ensures var node' := Publish(node, req, env).0;
            && |node'.mounts| == |node.mounts| + 1 && node'.mounts[..|node.mounts|] == node.mounts
            && node'.mounts[|node.mounts|].path == req.targetPath && node'.mounts[|node.mounts|].bind
            && Exists(node', req.targetPath)
            && node.dirs <= node'.dirs && node.files <= node'.files
  {
    var ready := PublishTarget(node, req.targetPath, req.capability.value.1.Block?, env).value;
    var source := PublishSource(ready, req, env).value;
    FirstAtIsThere(node.mounts, source, req.targetPath);
  }

  /** From a table with nothing at the staging path or the pod path, a successful Stage, Publish,
      Unpublish and Unstage restores it. */
  lemma MountRoundTrip(node: Node, stage: StageRequest, publish: PublishRequest, volumeId: string, envs: seq<Env>)
    requires |envs| == 4 && stage.stagingPath != publish.targetPath
    requires !AtPath(node.mounts, stage.stagingPath) && !AtPath(node.mounts, publish.targetPath)
    ensures var (staged, code0) := Stage(node, stage, envs[0]);
            var (published, code1) := Publish(staged, publish, envs[1]);
            var (unpublished, code2) := Unpublish(published, volumeId, publish.targetPath, envs[2]);
            var (unstaged, code3) := Unstage(unpublished, stage.stagingPath, envs[3]);
            code0 == OK && code1 == OK && code2 == OK && code3 == OK ==>
              && unstaged.mounts == node.mounts
              && unpublished.mounts == staged.mounts
              && !Exists(unstaged, publish.targetPath)
  {
    var (staged, code0) := Stage(node, stage, envs[0]);
    var (published, code1) := Publish(staged, publish, envs[1]);
    var (unpublished, code2) := Unpublish(published, volumeId, publish.targetPath, envs[2]);
    if code0 == OK && code1 == OK && code2 == OK {
      StageOntoFreePath(node, stage, envs[0]);
      var m := staged.mounts[|node.mounts|];
      assert staged.mounts == node.mounts + [m];
      PublishOntoFreePath(staged, publish, envs[1]);
      var p := published.mounts[|staged.mounts|];
      assert published.mounts == staged.mounts + [p];
      UnpublishPops(published, volumeId, publish.targetPath, envs[2], staged.mounts, p);
      UnstagePops(unpublished, stage.stagingPath, envs[3], node.mounts, m);
    }
  }

  lemma UnpublishPops(node: Node, volumeId: string, path: string, env: Env, rest: seq<Mount>, m: Mount)
    requires node.mounts == rest + [m] && m.path == path && Exists(node, path)
    requires Unpublish(node, volumeId, path, env).1 == OK
    ensures var node' := Unpublish(node, volumeId, path, env).0;
            node'.mounts == rest && !Exists(node', path) && node'.dirs == node.dirs - {path}
              && node'.files == node.files - {path}
  {
    UnmountAppended(rest, m);
  }

  lemma UnstagePops(node: Node, path: string, env: Env, rest: seq<Mount>, m: Mount)
    requires node.mounts == rest + [m] && m.path == path && path in node.dirs
    ensures var (node', code) := Unstage(node, path, env);
            code == OK ==> node' == node.(mounts := rest)
  {
    UnmountAppended(rest, m);
  }

  lemma StageOntoFreePath(node: Node, req: StageRequest, env: Env)
    requires !AtPath(node.mounts, req.stagingPath) && Stage(node, req, env).1 == OK
    ensures var node' := Stage(node, req, env).0;
            && |node'.mounts| == |node.mounts| + 1 && node'.mounts[..|node.mounts|] == node.mounts
            && node'.mounts[|node.mounts|].path == req.stagingPath
            && req.stagingPath in node'.dirs
  {
    FirstAtIsThere(node.mounts, DiskPath(env.disks, CheckStage(req).value.uuid), req.stagingPath);
  }

  /** Repeating a successful Unpublish succeeds and changes nothing, as long as the path can be
      looked at. */
  lemma UnpublishTwice(node: Node, volumeId: string, path: string, env: Env, env': Env)
    requires Unpublish(node, volumeId, path, env).1 == OK && env'.statOk
    ensures Unpublish(Unpublish(node, volumeId, path, env).0, volumeId, path, env')
            == (Unpublish(node, volumeId, path, env).0, OK)
  {
  }

  function MountsAt(mounts: seq<Mount>, path: string): nat {
    if mounts == [] then 0
    else MountsAt(mounts[..|mounts| - 1], path) + (if mounts[|mounts| - 1].path == path then 1 else 0)
  }

  lemma {:induction false} CountedIffThere(mounts: seq<Mount>, path: string)
    ensures MountsAt(mounts, path) > 0 <==> AtPath(mounts, path)
  {
    if mounts != [] {
      var last := |mounts| - 1;
      CountedIffThere(mounts[..last], path);
      assert forall i | 0 <= i < last :: mounts[..last][i] == mounts[i];
      if AtPath(mounts[..last], path) {
        var i :| 0 <= i < last && mounts[..last][i].path == path;
        assert mounts[i].path == path;
      }
    }
  }

  lemma {:induction false} UnmountTakesOne(mounts: seq<Mount>, path: string)
    requires MountsAt(mounts, path) > 0
    ensures MountsAt(UnmountTop(mounts, path), path) == MountsAt(mounts, path) - 1
    ensures forall other | other != path :: MountsAt(UnmountTop(mounts, path), other) == MountsAt(mounts, other)
  {
    var last := |mounts| - 1;
    if mounts[last].path != path {
      var rest := UnmountTop(mounts[..last], path);
      UnmountTakesOne(mounts[..last], path);
      assert (rest + [mounts[last]])[..|rest|] == rest;
    }
  }

  /** Repeating a successful Unstage succeeds, as long as nothing fails; it changes nothing exactly
      if at most one mount was at the path. */
  lemma UnstageTwice(node: Node, path: string, env: Env, env': Env)
    requires Unstage(node, path, env).1 == OK && env'.statOk && env'.tableOk && env'.unmountOk
    ensures Unstage(Unstage(node, path, env).0, path, env').1 == OK
    ensures path in node.dirs ==>
              (Unstage(Unstage(node, path, env).0, path, env').0 == Unstage(node, path, env).0 <==>
                MountsAt(node.mounts, path) <= 1)
  {
    var once := Unstage(node, path, env).0;
    CountedIffThere(node.mounts, path);
    CountedIffThere(once.mounts, path);
    if AtPath(node.mounts, path) {
      UnmountTakesOne(node.mounts, path);
    }
    if AtPath(once.mounts, path) {
      UnmountTakesOne(once.mounts, path);
    }
  }

  // ----- publishing twice -----

  /** Publish of a file system looks for the staging directory among the devices of the table, so
      that when nothing fails it mounts again exactly if no device has that name. */
  lemma PublishMountsAgainIff(node: Node, req: PublishRequest, env: Env)
    requires CheckPublish(req) == OK && req.capability.value.1.FileSystem?
    requires req.stagingPath != "" && req.stagingPath in node.dirs && req.targetPath in node.dirs
    requires env.statOk && env.tableOk && env.bind == Bound
    ensures Publish(node, req, env).0.mounts != node.mounts <==> !OnDevice(node.mounts, req.stagingPath)
  {
  }

  /** What is published, when nothing fails and the staging directory is no device: a bind mount. */
  lemma PublishBinds(node: Node, req: PublishRequest, env: Env)
    requires CheckPublish(req) == OK && req.capability.value.1.FileSystem?
    requires req.stagingPath != "" && req.stagingPath in node.dirs && req.targetPath in node.dirs
    requires env.statOk && env.tableOk && env.bind == Bound && !OnDevice(node.mounts, req.stagingPath)
    ensures var next := Publish(node, req, env).0;
            var device := DeviceAt(node.mounts, req.stagingPath, env.device);
            && next.mounts
               == node.mounts + [Mount(device, req.targetPath, TableOpts(PublishOptions(req), env.opts), true)]
            && next.dirs == node.dirs && next.files == node.files
  {
    assert node.dirs + {req.targetPath} == node.dirs;
  }

  /** A mount on top of another path does not change what a path shows, and no device comes with it
      that was not there. */
  lemma BindStays(mounts: seq<Mount>, m: Mount, path: string, device: string)
    requires m.path != path && m.device != path && !OnDevice(mounts, path)
    ensures !OnDevice(mounts + [m], path)
    ensures DeviceAt(mounts + [m], path, device) == DeviceAt(mounts, path, device)
    ensures MountsAt(mounts + [m], m.path) == MountsAt(mounts, m.path) + 1
  {
    assert (mounts + [m])[..|mounts|] == mounts;
  }

  /** Every repetition stacks one more mount on the pod path. */
  lemma {:induction false} PublishStacks(node: Node, req: PublishRequest, env: Env, n: nat)
    requires CheckPublish(req) == OK && req.capability.value.1.FileSystem?
    requires req.stagingPath != "" && req.stagingPath in node.dirs && req.targetPath in node.dirs
    requires env.statOk && env.tableOk && env.bind == Bound
    requires !OnDevice(node.mounts, req.stagingPath)
    requires DeviceAt(node.mounts, req.stagingPath, env.device) != req.stagingPath
    requires req.stagingPath != req.targetPath
    ensures var node' := Published(node, req, env, n);
            && MountsAt(node'.mounts, req.targetPath) == MountsAt(node.mounts, req.targetPath) + n
            && node'.dirs == node.dirs && node'.files == node.files
    decreases n
  {
    if n > 0 {
      var next := Publish(node, req, env).0;
      PublishBinds(node, req, env);
      BindStays(node.mounts, next.mounts[|node.mounts|], req.stagingPath, env.device);
      PublishStacks(next, req, env, n - 1);
    }
  }

  function Published(node: Node, req: PublishRequest, env: Env, n: nat): Node
    decreases n
  {
    if n == 0 then node else Published(Publish(node, req, env).0, req, env, n - 1)
  }

  function Unpublished(node: Node, volumeId: string, path: string, env: Env, n: nat): Node
    decreases n
  {
    if n == 0 then node else Unpublished(Unpublish(node, volumeId, path, env).0, volumeId, path, env, n - 1)
  }

  /** With n mounts stacked on the pod path, Unpublish fails n - 1 times, because the path is still
      busy after the top mount is gone, and then succeeds. */
  lemma {:induction false} UnpublishTakesAsMany(node: Node, volumeId: string, path: string, env: Env, n: nat)
    requires volumeId != "" && path != "" && Exists(node, path)
    requires env.statOk && env.tableOk && env.unmountOk && env.removeOk
    requires MountsAt(node.mounts, path) == n && n >= 1
    ensures forall k | 0 <= k < n - 1 ::
            Unpublish(Unpublished(node, volumeId, path, env, k), volumeId, path, env).1 == Internal
    ensures Unpublish(Unpublished(node, volumeId, path, env, n - 1), volumeId, path, env).1 == OK
    ensures !Exists(Unpublished(node, volumeId, path, env, n), path)
    ensures MountsAt(Unpublished(node, volumeId, path, env, n).mounts, path) == 0
    decreases n
  {
    var next := Unpublish(node, volumeId, path, env).0;
    UnpublishOnce(node, volumeId, path, env);
    if n > 1 {
      UnpublishTakesAsMany(next, volumeId, path, env, n - 1);
      forall k | 0 <= k < n - 1
        ensures Unpublish(Unpublished(node, volumeId, path, env, k), volumeId, path, env).1 == Internal
      {
        if k > 0 {
          assert Unpublished(node, volumeId, path, env, k) == Unpublished(next, volumeId, path, env, k - 1);
        }
      }
    }
  }

  lemma UnpublishOnce(node: Node, volumeId: string, path: string, env: Env)
    requires volumeId != "" && path != "" && Exists(node, path)
    requires env.statOk && env.tableOk && env.unmountOk && env.removeOk
    requires MountsAt(node.mounts, path) >= 1
    ensures var (next, code) := Unpublish(node, volumeId, path, env);
            && MountsAt(next.mounts, path) == MountsAt(node.mounts, path) - 1
            && (MountsAt(node.mounts, path) > 1 ==> code == Internal && Exists(next, path))
            && (MountsAt(node.mounts, path) == 1 ==> code == OK && !Exists(next, path))
  {
    CountedIffThere(node.mounts, path);
    UnmountTakesOne(node.mounts, path);
    CountedIffThere(UnmountTop(node.mounts, path), path);
  }
}
