/** The node service as it runs: it changes the mount table and the directories step by step, and
    ends up where the functions of NodeMounts say. */
module NodeService {
  import opened Wrappers
  import opened Capabilities
  import opened NodeMounts
  import Text

  /** getDiskPath. The walk never fails, because its callback returns no error: without a match the
      answer is the empty path, without an error. */
  method GetDiskPath(disks: seq<DiskFile>, uuid: string) returns (path: Option<string>)
    ensures path.None? <==> uuid == ""
    ensures path.Some? ==> path.value == DiskPath(disks, uuid)
  {
    if uuid == "" {
      return None;
    }
    var guestDiskPath := "";
    for i := 0 to |disks|
      invariant DiskPath(disks, uuid) == if guestDiskPath != "" then guestDiskPath else DiskPath(disks[i..], uuid)
    {
      if guestDiskPath != "" {
        continue;
      }
      if disks[i].isDir {
        continue;
      }
      var fileToProcess := disks[i].path;
      if disks[i].link.Some? {
        if disks[i].link.value.None? {
          continue;
        }
        fileToProcess := disks[i].link.value.value;
      }
      if fileToProcess == "" {
        continue;
      }
      if disks[i].scsiId.None? {
        continue;
      }
      var out := disks[i].scsiId.value;
      if |out| == 33 {
        out := out[1..];
      } else if |out| != 32 {
        continue;
      }
      if LowerCase(out) == LowerCase(WithoutDashes(uuid)) {
        guestDiskPath := fileToProcess;
      }
    }
    return Some(guestDiskPath);
  }

  /** GetDevMounts */
  method GetDevMounts(mounts: seq<Mount>, device: string) returns (found: seq<Mount>)
    ensures found == [] <==> !OnDevice(mounts, device)
    ensures forall path :: FirstAt(found, device, path) == FirstAt(mounts, device, path)
    ensures forall m | m in found :: m.device == device
  {
    found := [];
    for i := 0 to |mounts|
      invariant found == [] <==> !OnDevice(mounts[..i], device)
      invariant forall path :: FirstAt(found, device, path) == FirstAt(mounts[..i], device, path)
      invariant forall m | m in found :: m.device == device
    {
      assert mounts[..i + 1] == mounts[..i] + [mounts[i]];
      FirstOfOneMore(mounts[..i], mounts[i], device);
      if mounts[i].device == device {
        FirstOfOneMore(found, mounts[i], device);
        found := found + [mounts[i]];
        assert mounts[..i + 1][i].device == device;
      }
    }
    assert mounts[..|mounts|] == mounts;
  }

  lemma {:induction false} FirstOfOneMore(mounts: seq<Mount>, m: Mount, device: string)
    ensures forall path :: FirstAt(mounts + [m], device, path) ==
              if FirstAt(mounts, device, path).Some? then FirstAt(mounts, device, path)
              else if m.device == device && m.path == path then Some(m) else None
  {
    if mounts != [] {
      FirstOfOneMore(mounts[1..], m, device);
      assert (mounts + [m])[1..] == mounts[1..] + [m];
    }
  }

  /** isVolumeMountedAsExpected: whether the device is mounted at all, and whether its first entry at
      the path has the mode. */
  method IsVolumeMountedAsExpected(mounts: seq<Mount>, device: string, path: string, mode: string)
    returns (isMounted: bool, asExpected: bool)
    ensures Check(mounts, device, path, mode)
            == if !isMounted then NotMounted else if asExpected then AsExpected else Unexpected
    ensures isMounted <==> OnDevice(mounts, device)
  {
    var mountedDevs := GetDevMounts(mounts, device);
    if |mountedDevs| == 0 {
      return false, false;
    }
    for i := 0 to |mountedDevs|
      invariant FirstAt(mountedDevs, device, path) == FirstAt(mountedDevs[i..], device, path)
    {
      assert mountedDevs[i] in mountedDevs;
      if mountedDevs[i].path == path {
        var opts := mountedDevs[i].opts;
        for j := 0 to |opts|
          invariant mode !in opts[..j]
        {
          if opts[j] == mode {
            return true, true;
          }
        }
        return true, false;
      }
    }
    return true, false;
  }

  /** checkIfPathMounted */
  method IsPathMounted(mounts: seq<Mount>, path: string) returns (mounted: bool)
    ensures mounted <==> AtPath(mounts, path)
  {
    for i := 0 to |mounts|
      invariant forall j :: 0 <= j < i ==> mounts[j].path != path
    {
      if mounts[i].path == path {
        return true;
      }
    }
    return false;
  }

  class Service {
    var mounts: seq<Mount>
    var dirs: set<string>
    var files: set<string>
    ghost var calls: seq<MountCall>

    ghost function State(): Node
      reads this
    {
      Node(mounts, dirs, files, calls)
    }

    constructor (mounts: seq<Mount>, dirs: set<string>, files: set<string>)
      ensures State() == Node(mounts, dirs, files, [])
    {
      this.mounts, this.dirs, this.files, calls := mounts, dirs, files, [];
    }

    // ----- the operating system -----

    /** A directory, no such path, or an error: it cannot be looked at, or is something else. */
    method CheckIfDirExists(path: string, env: Env) returns (found: Option<bool>)
      ensures found == if !env.statOk || (path !in dirs && path in files) then None else Some(path in dirs)
    {
      if !env.statOk {
        return None;
      }
      if path in dirs {
        return Some(true);
      }
      return if path in files then None else Some(false);
    }

    /** os.MkdirAll, or the driver's mkdir */
    method Mkdir(path: string, env: Env) returns (ok: bool)
      modifies this
      ensures ok <==> path in old(dirs) || (path !in old(files) && env.mkdirOk)
      ensures State() == if ok then old(State()).(dirs := old(dirs) + {path}) else old(State())
    {
      if path in dirs {
        assert dirs + {path} == dirs;
        return true;
      }
      if path in files || !env.mkdirOk {
        return false;
      }
      dirs := dirs + {path};
      return true;
    }

    /** gofsutil.FormatAndMount */
    method FormatAndMount(device: string, path: string, options: seq<string>, env: Env) returns (ok: bool)
      modifies this
      ensures ok == env.mountOk && dirs == old(dirs) && files == old(files)
      ensures calls == old(calls) + [MountCall(device, path)]
      ensures ok ==> mounts == old(mounts) + [Mount(device, path, TableOpts(options, env.opts), false)]
      ensures !ok ==> mounts == old(mounts)
    {
      calls := calls + [MountCall(device, path)];
      if env.mountOk {
        mounts := mounts + [Mount(device, path, TableOpts(options, env.opts), false)];
      }
      return env.mountOk;
    }

    /** gofsutil.BindMount */
    method BindMountAt(source: string, target: string, options: seq<string>, env: Env) returns (ok: bool)
      modifies this
      ensures (State(), if ok then OK else Internal) == BindMount(old(State()), source, target, options, env)
    {
      var device := DeviceAt(mounts, source, env.device);
      calls := calls + [MountCall(source, target)];
      match env.bind
      case BindFails => return false;
      case RemountFails =>
        mounts := mounts + [Mount(device, target, env.opts, true)];
        return false;
      case Bound =>
        mounts := mounts + [Mount(device, target, TableOpts(options, env.opts), true)];
        return true;
    }

    /** gofsutil.Unmount */
    method Unmount(path: string, env: Env) returns (ok: bool)
      modifies this
      ensures ok == env.unmountOk
      ensures State() == if ok then old(State()).(mounts := UnmountTop(old(mounts), path)) else old(State())
    {
      if env.unmountOk {
        mounts := UnmountTop(mounts, path);
      }
      return env.unmountOk;
    }

    /** rmdir */
    method Rmdir(path: string, env: Env) returns (ok: bool)
      modifies this
      ensures (State(), if ok then OK else Internal) == Remove(old(State()), path, env)
    {
      if path !in dirs && path !in files {
        return true;
      }
      var busy := IsPathMounted(mounts, path);
      if busy || !env.removeOk {
        return false;
      }
      dirs, files := dirs - {path}, files - {path};
      return true;
    }

    // ----- the RPCs -----

    /** NodeStageVolumeFilesystemMount */
    method NodeStageVolumeFilesystemMount(req: StageRequest, env: Env) returns (code: Code)
      modifies this
      ensures (State(), code) == Stage(old(State()), req, env)
    {
      var fsType := "";
      if req.volumeContext.None? {
        if FILE_SYSTEM_PARAMETER !in req.publishContext {
          return InvalidArgument;
        }
        fsType := req.publishContext[FILE_SYSTEM_PARAMETER];
      } else {
        var context := req.volumeContext.value;
        if EPHEMERAL_VOLUME_CONTEXT in context {
          if context[EPHEMERAL_VOLUME_CONTEXT] == "true" {
            return Unimplemented;
          }
        }
        if FILE_SYSTEM_PARAMETER !in context {
          return InvalidArgument;
        }
        fsType := context[FILE_SYSTEM_PARAMETER];
      }
      if VM_FULL_NAME_ATTRIBUTE !in req.publishContext {
        return InvalidArgument;
      }
      var mountMode := "rw";
      if IsReadOnly(req.mode) {
        mountMode := "ro";
      }
      if req.mount.None? {
        return InvalidArgument;
      }
      var mountFlags := req.mount.value.flags;
      if fsType == "xfs" {
        mountFlags := mountFlags + ["nouuid"];
      }
      mountFlags := mountFlags + [mountMode];
      assert mountFlags + ["defaults"] == StageOptions(fsType, req.mount.value.flags, mountMode);
      if DISK_UUID_ATTRIBUTE !in req.publishContext || req.volumeId == "" || req.stagingPath == "" {
        return InvalidArgument;
      }
      var options := mountFlags + ["defaults"];
      code := StageDisk(req.publishContext[DISK_UUID_ATTRIBUTE], req.stagingPath, mountMode, options, env);
    }

    /** The second half: finding the disk, and mounting it unless it is mounted as expected. */
    method StageDisk(uuid: string, path: string, mode: string, options: seq<string>, env: Env) returns (code: Code)
      modifies this
      ensures (State(), code) ==
                if !FindsDisk(uuid, env) then (old(State()), Internal)
                else
                  match Check(old(mounts), DiskPath(env.disks, uuid), path, mode)
                  case Unexpected => (old(State()), Internal)
                  case AsExpected => (old(State()), OK)
                  case NotMounted => StageMount(old(State()), DiskPath(env.disks, uuid), path, options, env)
    {
      if !env.scanOk {
        return Internal;
      }
      var devicePath := GetDiskPath(env.disks, uuid);
      if devicePath.None? {
        return Internal;
      }
      var device := devicePath.value;
      var parts := Text.Split(device, '/');
      if |parts| != 3 || !env.rescanOk {
        return Internal;
      }
      if !env.tableOk {
        return Internal;
      }
      var isMounted, asExpected := IsVolumeMountedAsExpected(mounts, device, path, mode);
      if isMounted {
        return if !asExpected then Internal else OK;
      }
      var dirExists := CheckIfDirExists(path, env);
      if dirExists.None? {
        return Internal;
      }
      if !dirExists.value {
        var made := Mkdir(path, env);
        if !made {
          return Internal;
        }
      }
      assert dirs == old(dirs) + {path};
      var mounted := FormatAndMount(device, path, options, env);
      return if mounted then OK else Internal;
    }

    /** NodePublishVolume */
    method NodePublishVolume(req: PublishRequest, env: Env) returns (code: Code)
      modifies this
      ensures (State(), code) == Publish(old(State()), req, env)
    {
      if req.volumeContext.Some? {
        if EPHEMERAL_VOLUME_CONTEXT in req.volumeContext.value {
          if req.volumeContext.value[EPHEMERAL_VOLUME_CONTEXT] == "true" {
            return Unimplemented;
          }
        }
      }
      if req.volumeId == "" || req.capability.None? || req.publishContext.None? {
        return InvalidArgument;
      }
      var (mode, kind) := req.capability.value;
      if kind.NoKind? || req.targetPath == "" {
        return InvalidArgument;
      }
      var mountMode := "rw";
      if IsReadOnly(mode) {
        if kind.Block? {
          return InvalidArgument;
        }
        mountMode := "ro";
      }
      var made := MakeTarget(req.targetPath, kind.Block?, env);
      if !made {
        return Internal;
      }
      var source := FindSource(req, env);
      if source.Bad? {
        return source.code;
      }
      if !env.tableOk {
        return Internal;
      }
      var isMounted, asExpected := IsVolumeMountedAsExpected(mounts, source.value, req.targetPath, mountMode);
      if isMounted {
        return if !asExpected then Internal else OK;
      }
      var flags := if kind.FileSystem? then kind.details.flags else [];
      var bound := BindMountAt(source.value, req.targetPath, flags + [mountMode], env);
      return if bound then OK else Internal;
    }

    /** Makes the file, for a block volume, or the directory to mount on. */
    method MakeTarget(path: string, block: bool, env: Env) returns (ok: bool)
      modifies this
      ensures ok <==> PublishTarget(old(State()), path, block, env).Good?
      ensures State() == if ok then PublishTarget(old(State()), path, block, env).value else old(State())
    {
      if block {
        if !env.mkdirOk {
          return false;
        }
        if path in dirs || !env.createOk {
          return false;
        }
        files := files + {path};
        return true;
      }
      if !env.statOk {
        return false;
      }
      ok := Mkdir(path, env);
    }

    /** What to mount: the disk itself, or the staging directory. */
    method FindSource(req: PublishRequest, env: Env) returns (source: Checked<string>)
      requires PublishArgsOk(req)
      ensures source == PublishSource(State(), req, env)
    {
      if req.capability.value.1.Block? {
        var context := req.publishContext.value;
        if DISK_UUID_ATTRIBUTE !in context {
          return Bad(InvalidArgument);
        }
        if VM_FULL_NAME_ATTRIBUTE !in context {
          return Bad(InvalidArgument);
        }
        var devicePath := GetDiskPath(env.disks, context[DISK_UUID_ATTRIBUTE]);
        return if devicePath.None? then Bad(Internal) else Good(devicePath.value);
      }
      if req.stagingPath == "" {
        return Bad(InvalidArgument);
      }
      var dirExists := CheckIfDirExists(req.stagingPath, env);
      return if dirExists.None? || !dirExists.value then Bad(Internal) else Good(req.stagingPath);
    }

    /** NodeUnpublishVolume */
    method NodeUnpublishVolume(volumeId: string, path: string, env: Env) returns (code: Code)
      modifies this
      ensures (State(), code) == Unpublish(old(State()), volumeId, path, env)
    {
      if volumeId == "" {
        return InvalidArgument;
      }
      if path == "" {
        return InvalidArgument;
      }
      if !env.statOk {
        return Internal;
      }
      if path !in dirs && path !in files {
        return OK;
      }
      if !env.tableOk {
        return Internal;
      }
      var isMounted := IsPathMounted(mounts, path);
      if isMounted {
        var unmounted := Unmount(path, env);
        if !unmounted {
          return Internal;
        }
      }
      var removed := Rmdir(path, env);
      return if removed then OK else Internal;
    }

    /** NodeUnstageVolume */
    method NodeUnstageVolume(path: string, env: Env) returns (code: Code)
      modifies this
      ensures (State(), code) == Unstage(old(State()), path, env)
    {
      if path == "" {
        return InvalidArgument;
      }
      var dirExists := CheckIfDirExists(path, env);
      if dirExists.None? {
        return Internal;
      }
      if !dirExists.value {
        return OK;
      }
      if !env.tableOk {
        return Internal;
      }
      var isMounted := IsPathMounted(mounts, path);
      if !isMounted {
        return OK;
      }
      var unmounted := Unmount(path, env);
      return if unmounted then OK else Internal;
    }
  }
}
