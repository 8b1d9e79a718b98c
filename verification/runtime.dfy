/** The environment a session drives: the volume driver, the file system, the
    durable index and the partition helpers
    (CardLoginMountSessionRuntime, card_login_mount_session_internal.h:26-244).
    Every call may fail; what a successful or failed call does to the world is
    its contract. Nothing else about the environment is assumed. */
module VaultRuntime {
  import opened Wrappers
  import opened ContainerIndex
  import opened ContainerTable
  import opened WriteAhead

  datatype Error =
    | NotAuthenticated
    | InvalidArgument
    | WrongState
    | FileExists
    | NotFound
    | Cancelled
    | AuthenticationRejected
    | MountFailed
    | MaintenanceRefused
    | System(code: int)
    | CleanupFailed(operation: Error, cleanup: Error)

  /** A derived volume key, written as what it is derived from: the fixed input
      or a password. Equal inputs give equal keys, different ones different keys. */
  datatype Key = Fixed | Password(text: string)

  /** A forced unmount the session asked for, and whether the volume left. */
  datatype Attempt = Attempt(letter: char, released: bool)

  class Runtime {
    /** Letters of the volumes this session mounted and the driver still holds. */
    var volumes: set<char>
    /** Drives whose volume the session no longer accounts for: the type query
        after the mount failed, or the mount was given up while it was up. */
    ghost var abandoned: set<char>
    /** Mounts for which the driver named no drive. */
    ghost var misreports: nat
    ghost var attempts: seq<Attempt>
    /** The keys offered to the driver for a mount, in order. */
    ghost var tried: seq<Key>

    var files: set<string>
    var dirs: set<string>
    /** Folders whose removal was refused. */
    ghost var stuck: set<string>

    ghost const origin: Index
    var index: Index
    ghost var trace: Trace
    /** Reads and writes of the index that failed. */
    ghost var faults: nat
    var remembers: bool

    ghost predicate Valid()
      reads this
    {
      && Legal(origin, trace)
      && IndexAfter(origin, trace) == index
      && Unambiguous(index)
    }

    constructor (files: set<string>, dirs: set<string>, index: Index, remembers: bool)
      requires Unambiguous(index)
      ensures Valid() && volumes == {} && abandoned == {} && misreports == 0 && attempts == [] && tried == []
      ensures this.files == files && this.dirs == dirs && this.index == index && this.remembers == remembers
      ensures origin == index && trace == [] && faults == 0
    {
      volumes, abandoned, misreports, attempts, tried := {}, {}, 0, [], [];
      this.files, this.dirs, stuck := files, dirs, {};
      origin, this.index, trace, faults, this.remembers := index, index, [], 0, remembers;
    }

    // -- Calls without an effect the session depends on --------------------------------

    /** Feedback, notifications and attribute changes: may throw. */
    method Try() returns (failure: Option<Error>)
      ensures failure.Some? ==> failure.value.System? || failure.value.Cancelled?
    {
      if * {
        var code: int := *;
        return Some(System(code));
      }
      if * {
        return Some(Cancelled);
      }
      return None;
    }

    /** A yes-or-no question such as "was creation cancelled". */
    method Ask() returns (answer: bool) {
      answer := *;
    }

    /** How many steps a helper takes before it returns. */
    method Steps() returns (n: nat) {
      var any: int := *;
      return if any < 0 then 0 else any;
    }

    method Derive(input: Key) returns (r: Result<Key, Error>)
      ensures r.Ok? ==> r.value == input
      ensures r.Err? ==> r.error.System?
    {
      var code: int := *;
      if * {
        return Err(System(code));
      }
      return Ok(input);
    }

    method AllocateLetter() returns (r: Result<char, Error>)
      ensures r.Err? ==> r.error.System?
    {
      var code: int := *;
      var letter: char := *;
      if * {
        return Err(System(code));
      }
      return Ok(letter);
    }

    /** A setting is saved, or stays as it was. */
    method SaveRemembers(on: bool) returns (failure: Option<Error>)
      modifies this`remembers
      ensures remembers == if failure.None? then on else old(remembers)
    {
      failure := Try();
      if failure.None? {
        remembers := on;
      }
    }

    // -- The driver -----------------------------------------------------------------

    /** A successful mount names a drive no row of the session and no other
        volume is on, and what was once left behind there is gone; a driver that
        names none is counted. */
    method Mount(key: Key, requested: char, taken: set<char>) returns (r: Result<char, Error>)
      modifies this`volumes, this`misreports, this`abandoned, this`tried
      ensures tried == old(tried) + [key]
      ensures r.Err? ==> volumes == old(volumes) && misreports == old(misreports) && abandoned == old(abandoned)
      ensures r.Err? ==> r.error.System? || r.error.AuthenticationRejected?
      ensures r.Ok? && IsLetter(r.value) ==>
        && r.value !in taken && r.value !in old(volumes)
        && volumes == old(volumes) + {r.value} && abandoned == old(abandoned) - {r.value}
        && misreports == old(misreports)
      ensures r.Ok? && !IsLetter(r.value) ==>
        volumes == old(volumes) && abandoned == old(abandoned) && misreports == old(misreports) + 1
    {
      var letter: char := *;
      var code: int := *;
      tried := tried + [key];
      if * {
        return Err(AuthenticationRejected);
      }
      if letter in taken || letter in volumes {
        return Err(System(code));
      }
      if IsLetter(letter) {
        volumes, abandoned := volumes + {letter}, abandoned - {letter};
      } else {
        misreports := misreports + 1;
      }
      return Ok(letter);
    }

    method Unmount(letter: char) returns (failure: Option<Error>)
      modifies this`volumes
      ensures failure.Some? ==> volumes == old(volumes) && failure.value.System?
      ensures failure.None? ==> volumes == old(volumes) - {letter}
    {
      var code: int := *;
      if * {
        return Some(System(code));
      }
      volumes := volumes - {letter};
      return None;
    }

    /** Reports whether force was needed; a refusal leaves the volume up. */
    method UnmountForced(letter: char) returns (r: Result<bool, Error>)
      modifies this`volumes, this`attempts
      ensures r.Err? ==> volumes == old(volumes) && r.error.System?
      ensures r.Ok? ==> volumes == old(volumes) - {letter}
      ensures attempts == old(attempts) + [Attempt(letter, r.Ok?)]
    {
      var code: int := *;
      var forced: bool := *;
      if * {
        attempts := attempts + [Attempt(letter, false)];
        return Err(System(code));
      }
      attempts := attempts + [Attempt(letter, true)];
      volumes := volumes - {letter};
      return Ok(forced);
    }

    /** Whether the volume on the drive is an outer volume under protection.
        A failed query right after a mount leaves that volume to nobody. */
    method MountedOuter(letter: char) returns (r: Result<bool, Error>)
      modifies this`abandoned
      ensures r.Ok? ==> abandoned == old(abandoned)
      ensures r.Err? ==> abandoned == old(abandoned) + {letter} && r.error.System?
    {
      var code: int := *;
      var outer: bool := *;
      if * {
        abandoned := abandoned + {letter};
        return Err(System(code));
      }
      return Ok(outer);
    }

    method MountIdentity(letter: char) returns (r: Result<Identity, Error>) {
      var code: int := *;
      var unique: int := *;
      var length: nat := *;
      var volume: string := *;
      var outer: bool := *;
      var drive: char := *;
      if * {
        return Err(System(code));
      }
      return Ok(Identity(drive, unique, volume, length, outer));
    }

    /** Capacity of the volume on a drive; an answer of "nothing there" is true. */
    method MountedSize(letter: char) returns (r: Result<Option<nat>, Error>)
      ensures r == Ok(None) ==> letter !in volumes
    {
      var code: int := *;
      var size: nat := *;
      if * {
        return Err(System(code));
      }
      return Ok(if letter in volumes then Some(size) else None);
    }

    /** The mount on a drive is given up on somebody's word. If the volume is
        still there, nobody accounts for it from here on. */
    ghost method GiveUp(letter: char)
      modifies this`abandoned
      ensures abandoned == old(abandoned) + if letter in volumes then {letter} else {}
    {
      abandoned := abandoned + if letter in volumes then {letter} else {};
    }

    /** Volumes may leave the driver at any time, outside the session. */
    method VolumesLeave(letters: set<char>)
      modifies this`volumes
      ensures volumes == old(volumes) - letters
    {
      volumes := volumes - letters;
    }

    // -- Files ----------------------------------------------------------------------

    method Exists(path: string) returns (r: Result<bool, Error>)
      ensures r.Ok? ==> r.value == (path in files)
      ensures r.Err? ==> r.error.System?
    {
      var code: int := *;
      if * {
        return Err(System(code));
      }
      return Ok(path in files);
    }

    method CreateFile(path: string) returns (failure: Option<Error>)
      modifies this`files
      ensures failure.Some? ==> files == old(files) && !failure.value.CleanupFailed?
      ensures failure.None? ==> files == old(files) + {path}
    {
      failure := Try();
      if failure.None? {
        files := files + {path};
      }
    }

    method Publish(staging: string, path: string) returns (failure: Option<Error>)
      modifies this`files
      ensures failure.Some? ==> files == old(files) && !failure.value.CleanupFailed?
      ensures failure.None? ==> files == old(files) - {staging} + {path}
    {
      failure := Try();
      if failure.None? {
        files := files - {staging} + {path};
      }
    }

    method RemoveFile(path: string) returns (failure: Option<Error>)
      modifies this`files
      ensures failure.Some? ==> files == old(files) && !failure.value.CleanupFailed?
      ensures failure.None? ==> files == old(files) - {path}
    {
      failure := Try();
      if failure.None? {
        files := files - {path};
      }
    }

    /** The folder is new, or the call fails. */
    method CreateDirectory(dir: string) returns (failure: Option<Error>)
      modifies this`dirs
      ensures failure.Some? ==> dirs == old(dirs) && !failure.value.CleanupFailed?
      ensures failure.None? ==> dir !in old(dirs) && dirs == old(dirs) + {dir}
    {
      failure := Try();
      if failure.None? {
        if dir in dirs {
          return Some(System(183));
        }
        dirs := dirs + {dir};
      }
    }

    method RemoveEmptyDirectory(dir: string) returns (failure: Option<Error>)
      modifies this`dirs, this`stuck
      ensures failure.Some? ==> dirs == old(dirs) && stuck == old(stuck) + {dir} && !failure.value.CleanupFailed?
      ensures failure.None? ==> dirs == old(dirs) - {dir} && stuck == old(stuck)
    {
      failure := Try();
      if failure.None? {
        dirs := dirs - {dir};
      } else {
        stuck := stuck + {dir};
      }
    }

    /** Leaves a folder alone that is not one of ours or not empty; never fails. */
    method RemoveDirectoryIfEmpty(dir: string)
      modifies this`dirs
      ensures dirs == old(dirs) || dirs == old(dirs) - {dir}
    {
      if * {
        dirs := dirs - {dir};
      }
    }

    // -- The index and the partitions ---------------------------------------------------

    method ReadIndex() returns (r: Result<Index, Error>)
      modifies this`faults
      ensures faults == old(faults) + if r.Err? then 1 else 0
      ensures r.Ok? ==> r.value == index
      ensures r.Err? ==> r.error.System?
    {
      var code: int := *;
      if * {
        faults := faults + 1;
        return Err(System(code));
      }
      return Ok(index);
    }

    /** Replaces the whole index, or leaves it as it was. Each write the session
        makes has to be a step the protocol allows. */
    method WriteIndex(ix: Index) returns (failure: Option<Error>)
      requires Valid() && LegalEvent(origin, trace, IndexWritten(ix))
      modifies this`index, this`trace, this`faults
      ensures Valid() && faults == old(faults) + if failure.Some? then 1 else 0
      ensures failure.Some? ==> index == old(index) && trace == old(trace) && failure.value.System?
      ensures failure.None? ==> index == ix && trace == old(trace) + [IndexWritten(ix)]
    {
      var code: int := *;
      if * {
        faults := faults + 1;
        return Some(System(code));
      }
      LegalExtends(origin, trace, IndexWritten(ix));
      index, trace := ix, trace + [IndexWritten(ix)];
      return None;
    }

    /** The helper's own events: a write to the partition, or its report. */
    ghost method Happens(e: DiskEvent)
      requires Valid() && !e.IndexWritten? && LegalEvent(origin, trace, e)
      modifies this`trace
      ensures Valid() && trace == old(trace) + [e]
    {
      LegalExtends(origin, trace, e);
      trace := trace + [e];
    }
  }
}
