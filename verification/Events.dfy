/** What a slot is configured with, what it owns and what can happen to it. */
module Events {
  import opened Wrappers

  // Error numbers carried by a Completion signal or by a refused call.
  const EPERM := 1
  const ENOENT := 2
  const EACCES := 13
  const EBUSY := 16
  const EINVAL := 22
  const ERANGE := 34
  const EPROTO := 71
  const EOPNOTSUPP := 95
  const ECONNREFUSED := 111
  const ECANCELED := 125

  datatype Mode = Proxy | Legacy | Local

  datatype StateChange = NotMonitored | Removed | Inserted

  datatype Device = Nbd(number: nat) | Unknown

  /** `slotNumber` is what the digits of the name come to: 0, 1, or -1 for a name without any. */
  datatype MountPoint = MountPoint(device: Device, mode: Mode, slotNumber: int)

  datatype Login = Login(user: string, password: string)

  /** A requested image. The two shares are present only while something is mounted for it. */
  datatype Target = Target(
    imgUrl: string, rw: bool, mountPoint: Option<Share>, credentials: Option<Login>, mountPointNfs: Option<Share>)

  datatype Share = Share(directory: string)

  datatype Process = Process(spawned: bool)

  datatype Gadget = Gadget(status: int)

  datatype Event =
    | Register
    | Mount(target: Option<Target>)
    | Unmount
    | SubprocessStopped
    | Udev(change: StateChange)

  /** Answers of the operating system that one event may meet. */
  datatype Env = Env(
    socketDirExists: bool, socketDirError: int, socketPermError: int,
    fileExists: bool, fileRegular: bool, fileStatError: int, fileWritable: bool,
    directoryCreated: bool, mountError: int,
    oldSocketCleared: bool, childSpawned: bool,
    gadgetStatus: int)

  /** Everything asked of the operating system succeeds. */
  const ALL_FINE := Env(true, 0, 0, true, true, 0, true, true, 0, true, true, 0)

  const LOCAL_PREFIX := "/tmp/lmedia/"

  predicate HasScheme(scheme: string, url: string) {
    scheme <= url
  }

  predicate IsLocalFile(url: string) {
    HasScheme(LOCAL_PREFIX, url)
  }

  /** Every D-Bus method that mounts builds its target with both shares absent. */
  predicate Unmounted(t: Target) {
    t.mountPoint.None? && t.mountPointNfs.None?
  }

  predicate HasLogin(t: Target) {
    t.credentials.Some? && t.credentials.value.user != "" && t.credentials.value.password != ""
  }

  /** The same image, access and login were asked for, whatever has been mounted since. */
  predicate SameRequest(a: Option<Target>, b: Option<Target>) {
    && (a.None? <==> b.None?)
    && (a.Some? ==> && a.value.imgUrl == b.value.imgUrl && a.value.rw == b.value.rw
                    && a.value.credentials == b.value.credentials)
  }
}
