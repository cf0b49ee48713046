/** The node's side of a volume: the mount table, and the four RPCs that stage, publish, unpublish
    and unstage a volume, as functions on the node's state.

    The kernel's part is assumed: a mount that succeeds adds an entry at the end of the table, an
    unmount removes the last entry of its path, a bind mount shows the device of what is mounted
    at its source, a path with a mount on it cannot be removed, and of several rw and ro options
    the last one counts. */
module NodeMounts {
  import opened Wrappers
  import opened Capabilities
  import Text

  const FILE_SYSTEM_PARAMETER := "filesystem"
  const EPHEMERAL_VOLUME_CONTEXT := "csi.storage.k8s.io/ephemeral"
  const VM_FULL_NAME_ATTRIBUTE := "vmID"
  const DISK_UUID_ATTRIBUTE := "diskUUID"

  /** An entry of the mount table. Whether it came from a bind mount cannot be seen in the table. */
  datatype Mount = Mount(device: string, path: string, opts: seq<string>, bind: bool)

  datatype MountCall = MountCall(source: string, target: string)

  /** `calls` are the mount commands issued so far, successful or not. */
  datatype Node = Node(mounts: seq<Mount>, dirs: set<string>, files: set<string>, calls: seq<MountCall>)

  datatype Code = OK | InvalidArgument | Unimplemented | Internal

  type Attributes = map<string, string>

  datatype MountDetails = MountDetails(fsType: string, flags: seq<string>)

  datatype StageRequest = StageRequest(
    volumeId: string, stagingPath: string, volumeContext: Option<Attributes>, publishContext: Attributes,
    mode: AccessMode, mount: Option<MountDetails>)

  datatype VolumeKind = Block | FileSystem(details: MountDetails) | NoKind

  datatype PublishRequest = PublishRequest(
    volumeId: string, stagingPath: string, targetPath: string, volumeContext: Option<Attributes>,
    publishContext: Option<Attributes>, capability: Option<(AccessMode, VolumeKind)>)

  /** A file below /dev/disk/by-path: what it links to, if it is a link, and the trimmed output of
      scsi_id for the device, if that works. */
  datatype DiskFile = DiskFile(path: string, isDir: bool, link: Option<Option<string>>, scsiId: Option<string>)

  datatype BindOutcome = Bound | BindFails | RemountFails

  /** What the node's operating system does during one RPC. `device` is the device of the file
      system that holds the source of a bind mount, if the source is not itself a mount point. */
  datatype Env = Env(
    scanOk: bool, disks: seq<DiskFile>, rescanOk: bool, tableOk: bool, statOk: bool, mkdirOk: bool, createOk: bool,
    mountOk: bool, bind: BindOutcome, opts: seq<string>, device: string, unmountOk: bool, removeOk: bool)

  // ----- finding the disk -----

  function WithoutDashes(s: string): string {
    if s == "" then "" else (if s[0] == '-' then "" else [s[0]]) + WithoutDashes(s[1..])
  }

  function LowerCase(s: string): string {
    seq(|s|, i requires 0 <= i < |s| => if 'A' <= s[i] <= 'Z' then (s[i] as int + 32) as char else s[i])
  }

  function Target(file: DiskFile): string {
    match file.link
    case None => file.path
    case Some(None) => ""
    case Some(Some(dst)) => dst
  }

  /** scsi_id puts one more character in front of the 32 of the UUID. */
  predicate HasUuid(file: DiskFile, uuid: string) {
    && !file.isDir && Target(file) != "" && file.scsiId.Some?
    && var out := file.scsiId.value;
       (|out| == 33 && LowerCase(out[1..]) == LowerCase(WithoutDashes(uuid)))
       || (|out| == 32 && LowerCase(out) == LowerCase(WithoutDashes(uuid)))
  }

  /** getDiskPath, for a UUID that is not empty: the first file with the UUID, or the empty path. */
  function DiskPath(disks: seq<DiskFile>, uuid: string): string {
    if disks == [] then "" else if HasUuid(disks[0], uuid) then Target(disks[0]) else DiskPath(disks[1..], uuid)
  }

  /** rescanScsiBlockDiskInVM takes paths of three parts only, as /dev/sdX. */
  predicate IsScsiPath(device: string) {
    |Text.Split(device, '/')| == 3
  }

  // ----- reading the mount table -----

  datatype MountCheck = NotMounted | AsExpected | Unexpected

  predicate OnDevice(mounts: seq<Mount>, device: string) {
    exists i :: 0 <= i < |mounts| && mounts[i].device == device
  }

  predicate AtPath(mounts: seq<Mount>, path: string) {
    exists i :: 0 <= i < |mounts| && mounts[i].path == path
  }

  function FirstAt(mounts: seq<Mount>, device: string, path: string): Option<Mount> {
    if mounts == [] then None
    else if mounts[0].device == device && mounts[0].path == path then Some(mounts[0])
    else FirstAt(mounts[1..], device, path)
  }

  /** isVolumeMountedAsExpected */
  function Check(mounts: seq<Mount>, device: string, path: string, mode: string): MountCheck {
    if !OnDevice(mounts, device) then NotMounted
    else if FirstAt(mounts, device, path).Some? && mode in FirstAt(mounts, device, path).value.opts then AsExpected
    else Unexpected
  }

  // ----- what the kernel does -----

  function DeviceAt(mounts: seq<Mount>, path: string, device: string): string {
    if mounts == [] then device
    else if mounts[|mounts| - 1].path == path then mounts[|mounts| - 1].device
    else DeviceAt(mounts[..|mounts| - 1], path, device)
  }

  function UnmountTop(mounts: seq<Mount>, path: string): seq<Mount> {
    if mounts == [] then []
    else
      var last := |mounts| - 1;
      if mounts[last].path == path then mounts[..last] else UnmountTop(mounts[..last], path) + [mounts[last]]
  }

  function Modes(): set<string> {
    {"rw", "ro"}
  }

  function WithoutModes(opts: seq<string>): seq<string> {
    if opts == [] then [] else (if opts[0] in Modes() then [] else [opts[0]]) + WithoutModes(opts[1..])
  }

  /** The mode that a list of mount options asks for. */
  function EffectiveMode(opts: seq<string>): string {
    if opts == [] then "rw"
    else if opts[|opts| - 1] in Modes() then opts[|opts| - 1]
    else EffectiveMode(opts[..|opts| - 1])
  }

  /** RemoveDuplicates: the first occurrence of every option stays, and empty ones go. */
  function Distinct(opts: seq<string>): seq<string> {
    if opts == [] then []
    else
      var rest := Distinct(opts[..|opts| - 1]);
      var last := opts[|opts| - 1];
      if last == "" || last in opts[..|opts| - 1] then rest else rest + [last]
  }

  /** The per-mount options in the table: the mode, and whatever else the kernel lists. */
  function TableOpts(asked: seq<string>, listed: seq<string>): seq<string> {
    [EffectiveMode(Distinct(asked))] + WithoutModes(listed)
  }

  // ----- NodeStageVolumeFilesystemMount -----

  function ModeOf(mode: AccessMode): string {
    if IsReadOnly(mode) then "ro" else "rw"
  }

  /** CollectMountOptions, the mode, and what FormatAndMount adds. */
  function StageOptions(fsType: string, flags: seq<string>, mode: string): seq<string> {
    flags + (if fsType == "xfs" then ["nouuid"] else []) + [mode] + ["defaults"]
  }

  datatype Checked<+T> = Good(value: T) | Bad(code: Code)

  function StageFsType(req: StageRequest): Checked<string> {
    match req.volumeContext
    case None =>
      if FILE_SYSTEM_PARAMETER !in req.publishContext then Bad(InvalidArgument)
      else Good(req.publishContext[FILE_SYSTEM_PARAMETER])
    case Some(context) =>
      if EPHEMERAL_VOLUME_CONTEXT in context && context[EPHEMERAL_VOLUME_CONTEXT] == "true" then Bad(Unimplemented)
      else if FILE_SYSTEM_PARAMETER in context then Good(context[FILE_SYSTEM_PARAMETER])
      else Bad(InvalidArgument)
  }

  datatype StageArgs = StageArgs(uuid: string, mode: string, options: seq<string>)

  function CheckStage(req: StageRequest): Checked<StageArgs> {
    var fsType := StageFsType(req);
    if fsType.Bad? then Bad(fsType.code)
    else if VM_FULL_NAME_ATTRIBUTE !in req.publishContext || req.mount.None?
            || DISK_UUID_ATTRIBUTE !in req.publishContext
            || req.volumeId == "" || req.stagingPath == "" then Bad(InvalidArgument)
    else Good(StageArgs(req.publishContext[DISK_UUID_ATTRIBUTE], ModeOf(req.mode),
                        StageOptions(fsType.value, req.mount.value.flags, ModeOf(req.mode))))
  }

  /** Whether the search for the disk and the rescan get as far as looking at the mount table. */
  predicate FindsDisk(uuid: string, env: Env) {
    env.scanOk && uuid != "" && IsScsiPath(DiskPath(env.disks, uuid)) && env.rescanOk && env.tableOk
  }

  function Stage(node: Node, req: StageRequest, env: Env): (Node, Code) {
    match CheckStage(req)
    case Bad(code) => (node, code)
    case Good(args) =>
      if !FindsDisk(args.uuid, env) then (node, Internal)
      else
        match Check(node.mounts, DiskPath(env.disks, args.uuid), req.stagingPath, args.mode)
        case Unexpected => (node, Internal)
        case AsExpected => (node, OK)
        case NotMounted => StageMount(node, DiskPath(env.disks, args.uuid), req.stagingPath, args.options, env)
  }

  function StageMount(node: Node, device: string, path: string, options: seq<string>, env: Env): (Node, Code) {
    if !env.statOk || (path !in node.dirs && path in node.files) then (node, Internal)
    else if path !in node.dirs && !env.mkdirOk then (node, Internal)
    else
      var ready := node.(dirs := node.dirs + {path}, calls := node.calls + [MountCall(device, path)]);
      if !env.mountOk then (ready, Internal)
      else (ready.(mounts := ready.mounts + [Mount(device, path, TableOpts(options, env.opts), false)]), OK)
  }

  // ----- NodePublishVolume -----

  predicate PublishArgsOk(req: PublishRequest) {
    && req.volumeId != "" && req.capability.Some? && req.publishContext.Some?
    && !req.capability.value.1.NoKind? && req.targetPath != ""
    && (req.capability.value.1.Block? ==> !IsReadOnly(req.capability.value.0))
  }

  function CheckPublish(req: PublishRequest): Code {
    if req.volumeContext.Some? && EPHEMERAL_VOLUME_CONTEXT in req.volumeContext.value
       && req.volumeContext.value[EPHEMERAL_VOLUME_CONTEXT] == "true" then Unimplemented
    else if !PublishArgsOk(req) then InvalidArgument
    else OK
  }

  /** The file or directory for the mount is made before the source is looked for, and stays. */
  function PublishTarget(node: Node, path: string, block: bool, env: Env): Checked<Node> {
    if block then
      if !env.mkdirOk || !env.createOk || path in node.dirs then Bad(Internal)
      else Good(node.(files := node.files + {path}))
    else if !env.statOk || (path !in node.dirs && (path in node.files || !env.mkdirOk)) then Bad(Internal)
    else Good(node.(dirs := node.dirs + {path}))
  }

  /** What is to be bind-mounted: the disk itself, or the staging directory. */
  function PublishSource(node: Node, req: PublishRequest, env: Env): Checked<string>
    requires PublishArgsOk(req)
  {
    if req.capability.value.1.Block? then
      var context := req.publishContext.value;
      if DISK_UUID_ATTRIBUTE !in context || VM_FULL_NAME_ATTRIBUTE !in context then Bad(InvalidArgument)
      else if context[DISK_UUID_ATTRIBUTE] == "" then Bad(Internal)
      else Good(DiskPath(env.disks, context[DISK_UUID_ATTRIBUTE]))
    else if req.stagingPath == "" then Bad(InvalidArgument)
    else if !env.statOk || req.stagingPath !in node.dirs then Bad(Internal)
    else Good(req.stagingPath)
  }

  /** The flags that BindMount remounts with. */
  function PublishOptions(req: PublishRequest): seq<string>
    requires PublishArgsOk(req)
  {
    var (mode, kind) := req.capability.value;
    (if kind.FileSystem? then kind.details.flags else []) + [ModeOf(mode)]
  }

  function Publish(node: Node, req: PublishRequest, env: Env): (Node, Code) {
    if CheckPublish(req) != OK then (node, CheckPublish(req))
    else
      match PublishTarget(node, req.targetPath, req.capability.value.1.Block?, env)
      case Bad(code) => (node, code)
      case Good(ready) =>
        match PublishSource(ready, req, env)
        case Bad(code) => (ready, code)
        case Good(source) =>
          if !env.tableOk then (ready, Internal)
          else
            match Check(ready.mounts, source, req.targetPath, ModeOf(req.capability.value.0))
            case Unexpected => (ready, Internal)
            case AsExpected => (ready, OK)
            case NotMounted => BindMount(ready, source, req.targetPath, PublishOptions(req), env)
  }

  /** A bind mount ignores the options, so that it is followed by a remount; if only that fails,
      the mount stays, with the options of its source. */
  function BindMount(node: Node, source: string, target: string, options: seq<string>, env: Env): (Node, Code) {
    var tried := node.(calls := node.calls + [MountCall(source, target)]);
    var device := DeviceAt(node.mounts, source, env.device);
    match env.bind
    case BindFails => (tried, Internal)
    case RemountFails => (tried.(mounts := tried.mounts + [Mount(device, target, env.opts, true)]), Internal)
    case Bound => (tried.(mounts := tried.mounts + [Mount(device, target, TableOpts(options, env.opts), true)]), OK)
  }

  // ----- NodeUnpublishVolume and NodeUnstageVolume -----

  predicate Exists(node: Node, path: string) {
    path in node.dirs || path in node.files
  }

  /** rmdir: a path that is gone is fine, one with a mount on it is busy. */
  function Remove(node: Node, path: string, env: Env): (Node, Code) {
    if !Exists(node, path) then (node, OK)
    else if AtPath(node.mounts, path) || !env.removeOk then (node, Internal)
    else (node.(dirs := node.dirs - {path}, files := node.files - {path}), OK)
  }

  function Unpublish(node: Node, volumeId: string, path: string, env: Env): (Node, Code) {
    if volumeId == "" || path == "" then (node, InvalidArgument)
    else if !env.statOk then (node, Internal)
    else if !Exists(node, path) then (node, OK)
    else if !env.tableOk then (node, Internal)
    else if AtPath(node.mounts, path) && !env.unmountOk then (node, Internal)
    else Remove(if AtPath(node.mounts, path) then node.(mounts := UnmountTop(node.mounts, path)) else node, path, env)
  }

  function Unstage(node: Node, path: string, env: Env): (Node, Code) {
    if path == "" then (node, InvalidArgument)
    else if !env.statOk || (path !in node.dirs && path in node.files) then (node, Internal)
    else if path !in node.dirs then (node, OK)
    else if !env.tableOk then (node, Internal)
    else if !AtPath(node.mounts, path) then (node, OK)
    else if !env.unmountOk then (node, Internal)
    else (node.(mounts := UnmountTop(node.mounts, path)), OK)
  }

  datatype NodeOp =
    | StageOp(stage: StageRequest)
    | PublishOp(publish: PublishRequest)
    | UnpublishOp(volumeId: string, targetPath: string)
    | UnstageOp(stagingPath: string)

  function Do(node: Node, op: NodeOp, env: Env): (Node, Code) {
    match op
    case StageOp(req) => Stage(node, req, env)
    case PublishOp(req) => Publish(node, req, env)
    case UnpublishOp(volumeId, path) => Unpublish(node, volumeId, path, env)
    case UnstageOp(path) => Unstage(node, path, env)
  }

  function Run(node: Node, ops: seq<(NodeOp, Env)>): Node
    decreases |ops|
  {
    if ops == [] then node else Run(Do(node, ops[0].0, ops[0].1).0, ops[1..])
  }
}
