/** Whole runs of a session: any operations, in any order, with any outcome the
    environment chooses. */
module SessionRuns {
  import opened Wrappers
  import opened ContainerIndex
  import opened ContainerTable
  import opened WriteAhead
  import opened VaultRuntime
  import opened Session
  import opened SessionRelease
  import opened SessionMaintenance
  import opened SessionPartitions
  import opened SessionConversion
  import opened SessionOrder
  import opened SessionLogin
  import opened SessionDeletion
  import opened MountMonitor

  datatype FileOperation =
    | Create(path: string, kind: NewContainer, displayName: string)
    | Adopt(path: string)
    | Discard(id: nat)
    | Delete(id: nat)
    | Remove(id: nat)
    | Rename(id: nat, name: string)
    | DeferRecords
    | SettleRecords(keep: bool)

  datatype MountOperation =
    | MountPath(path: string)
    | MountListed(id: nat)
    | UnmountOne(id: nat, force: bool)
    | UnmountEverything(force: bool)
    | CardRemoved
    | Statuses
    | Observed(targets: seq<Watch>, seen: seq<Observation>)
    | VolumesWent(letters: set<char>)

  datatype DiskOperation =
    | Erase(partition: Partition, hiddenBytes: nat, decoy: Option<string>)
    | Convert(partition: Partition)
    | Resume(id: nat)
    | Verify(id: nat, password: string)
    | SurveyAll(password: string)
    | OpenTyped(id: nat, password: string)
    | OpenFound(id: nat)
    | End(id: nat)

  datatype ListOperation =
    | Reorder(ids: seq<nat>)

  datatype LoginOperation =
    | LogIn(secret: seq<bv8>, password: string)
    | HandOver(password: string)
    | ReleaseSecrets
    | EndAuthentication

  datatype SettingOperation =
    | Remembering(on: bool)
    | Logging(on: bool)

  datatype Operation =
    | Files(file: FileOperation)
    | Mounts(mount: MountOperation)
    | Disks(disk: DiskOperation)
    | List(list: ListOperation)
    | Card(login: LoginOperation)
    | Settings(setting: SettingOperation)

  method StepFiles(s: SessionCore, op: FileOperation)
    requires s.Valid()
    modifies s, s.rt
    ensures s.Valid() && Evolves(old(s.rows), old(s.nextRevision), s.rows, s.nextRevision)
  {
    match op
    case Create(path, kind, displayName) => var _, _ := s.CreateContainer(path, kind, displayName);
    case Adopt(path) => var _, _ := s.AdoptContainer(path);
    case Discard(id) => var _ := s.DiscardNew(id);
    case Delete(id) => var _ := DeleteFromDisk(s, id);
    case Remove(id) => var _ := s.Forget(id);
    case Rename(id, name) => var _, _ := RenameContainer(s, id, name);
    case DeferRecords => var _ := s.DeferOperations();
    case SettleRecords(keep) => ghost var _ := s.SettleOperations(keep);
  }

  method StepMounts(s: SessionCore, op: MountOperation)
    requires s.Valid()
    modifies s, s.rt
    ensures s.Valid() && Evolves(old(s.rows), old(s.nextRevision), s.rows, s.nextRevision)
  {
    match op
    case MountPath(path) => var _, _ := s.MountContainer(path);
    case MountListed(id) => var _ := s.MountAdopted(id);
    case UnmountOne(id, force) => var _ := s.Unmount(id, force);
    case UnmountEverything(force) => var _, _, _ := UnmountActive(s, force);
    case CardRemoved => var _, _ := ForceUnmountActive(s);
    case Statuses => var _ := ContainerStatuses(s);
    case VolumesWent(letters) => s.VolumesLeave(letters);
    case Observed(targets, seen) => var _ := ReconcileMounts(s, targets, seen);
  }

  method StepDisks(s: SessionCore, op: DiskOperation)
    requires s.Valid()
    modifies s, s.rt
    ensures s.Valid() && Evolves(old(s.rows), old(s.nextRevision), s.rows, s.nextRevision)
  {
    match op
    case Erase(partition, hiddenBytes, decoy) => var _, _ := CreatePartition(s, partition, hiddenBytes, decoy);
    case Convert(partition) => var _, _ := BeginConversion(s, partition);
    case Resume(id) => var _, _ := ResumeConversion(s, id);
    case Verify(id, password) => var _ := VerifyMaintenance(s, id, password);
    case SurveyAll(password) => var _, _ := SurveyMaintenance(s, password);
    case OpenTyped(id, password) => var _ := OpenMaintenance(s, id, password);
    case OpenFound(id) => var _ := OpenSurveyed(s, id);
    case End(id) => var _ := EndMaintenance(s, id);
  }

  method StepLogin(s: SessionCore, op: LoginOperation)
    requires s.Valid()
    modifies s, s.rt, s.auth
    ensures s.Valid() && Evolves(old(s.rows), old(s.nextRevision), s.rows, s.nextRevision)
  {
    match op
    case LogIn(secret, password) => var _, _, _, _ := Login(s, secret, password);
    case HandOver(password) => var _ := CompleteInitialization(s, password);
    case ReleaseSecrets => ForgetSecrets(s);
    case EndAuthentication => s.auth.Clear();
  }

  method StepSettings(s: SessionCore, op: SettingOperation)
    requires s.Valid()
    modifies s, s.rt
    ensures s.Valid() && Evolves(old(s.rows), old(s.nextRevision), s.rows, s.nextRevision)
  {
    match op
    case Remembering(on) => var _ := s.SwitchRemembering(on);
    case Logging(on) => var _ := s.SwitchLogging(on);
  }

  method Step(s: SessionCore, op: Operation)
    requires s.Valid()
    modifies s, s.rt, s.auth
    ensures s.Valid() && Evolves(old(s.rows), old(s.nextRevision), s.rows, s.nextRevision)
  {
    match op
    case Files(file) => StepFiles(s, file);
    case Mounts(mount) => StepMounts(s, mount);
    case Disks(disk) => StepDisks(s, disk);
    case List(Reorder(ids)) => var _ := ReorderContainers(s, ids);
    case Card(login) => StepLogin(s, login);
    case Settings(setting) => StepSettings(s, setting);
  }

  /** No two mounted rows share a letter, no two rows an identifier or a file or
      partition, and every volume is on the letter of exactly one of them - but
      for a volume whose type query failed right after its mount, or whose mount
      was given up on a wrong report, until the drive is mounted anew. */
  ghost predicate NothingLost(s: SessionCore)
    reads s, s.rt
  {
    && (forall i, j :: 0 <= i < j < |s.rows| ==>
          && s.rows[i].id != s.rows[j].id && s.rows[i].target != s.rows[j].target
          && (s.rows[i].mounted && s.rows[j].mounted ==> s.rows[i].letter != s.rows[j].letter))
    && (forall c :: c in s.rt.volumes && c !in s.rt.abandoned ==>
          exists k :: 0 <= k < |s.rows| && s.rows[k].mounted && s.rows[k].letter == c)
  }

  /** Every reachable state is in order, every write to a partition was announced,
      and conversions never outnumber the permissions for them. */
  method Run(s: SessionCore, operations: seq<Operation>)
    requires s.Valid()
    modifies s, s.rt, s.auth
    ensures s.Valid() && Evolves(old(s.rows), old(s.nextRevision), s.rows, s.nextRevision)
    ensures NothingLost(s)
    ensures Legal(s.rt.origin, s.rt.trace)
    ensures forall p :: AcceptedRuns(s.rt.origin, s.rt.trace, p)
                     <= 1 + PausedRuns(s.rt.origin, s.rt.trace, p) + Removals(s.rt.origin, s.rt.trace, p)
  {
    for i := 0 to |operations|
      invariant s.Valid() && Evolves(old(s.rows), old(s.nextRevision), s.rows, s.nextRevision)
    {
      ghost var before, revision := s.rows, s.nextRevision;
      Step(s, operations[i]);
      EvolvesTransitively(old(s.rows), old(s.nextRevision), before, revision, s.rows, s.nextRevision);
    }
    ValidLosesNothing(s);
    forall p ensures AcceptedRuns(s.rt.origin, s.rt.trace, p)
                  <= 1 + PausedRuns(s.rt.origin, s.rt.trace, p) + Removals(s.rt.origin, s.rt.trace, p)
    {
      RunsConsumeOpenings(s.rt.origin, s.rt.trace, p);
    }
  }

  lemma ValidLosesNothing(s: SessionCore)
    requires s.Valid()
    ensures NothingLost(s)
  {
  }

  /** A partition whose record says that its conversion is not finished is not
      mounted by an ordinary mount, in any reachable state. */
  method UnfinishedStaysDown(s: SessionCore, k: nat) returns (failure: Option<Error>)
    requires s.Valid() && k < |s.rows| && s.rows[k].target.Disk? && !s.rows[k].mounted
    requires StateOf(s.rt.index, s.rows[k].target.partition) in {Some(Uncertain), Some(Paused)}
    modifies s`rows, s`nextRevision, s`log, s`hidden, s.rt`volumes, s.rt`misreports, s.rt`abandoned, s.rt`tried
    ensures failure.Some? && s.rows == old(s.rows) && s.rt.volumes == old(s.rt.volumes) && s.rt.tried == old(s.rt.tried)
    ensures s.log == old(s.log)
  {
    FindsOwnId(s.rows, k, s.nextId, s.nextRevision);
    failure := s.MountAdopted(s.rows[k].id);
  }

  /** No row of this identifier was mounted then. */
  predicate WasDown(rows: seq<Row>, id: nat) {
    forall j :: 0 <= j < |rows| && rows[j].id == id ==> !rows[j].mounted
  }

  /** An observation on its way while anything at all happens: the targets were
      taken from the list `start`, and any runs led from there over `between` to
      the list it finds. Whatever was unmounted in `between` is another mount
      now, if it is one, and stays as it is. */
  method LateObservation(s: SessionCore, targets: seq<Watch>, seen: seq<Observation>, ghost start: seq<Row>, ghost startNext: nat,
                         ghost between: seq<Row>, ghost betweenId: nat, ghost betweenNext: nat)
    returns (changed: bool)
    requires s.Valid() && TableOk(between, betweenId, betweenNext)
    requires forall i :: 0 <= i < |targets| ==> targets[i].revision < startNext
    requires Evolves(start, startNext, between, betweenNext) && Evolves(between, betweenNext, s.rows, s.nextRevision)
    modifies s`rows, s`log, s`helperTarget, s.rt`volumes, s.rt`abandoned, s.rt`attempts
    ensures s.Valid() && |s.rows| == |old(s.rows)|
    ensures forall k :: 0 <= k < |s.rows| && WasDown(between, old(s.rows)[k].id) ==> s.rows[k] == old(s.rows)[k]
  {
    changed := ReconcileMounts(s, targets, seen);
    if Paired(targets, seen) {
      forall k | 0 <= k < |s.rows| && WasDown(between, old(s.rows)[k].id) ensures s.rows[k] == old(s.rows)[k] {
        RemountsAreSpared(start, startNext, between, betweenId, betweenNext, old(s.rows), s.nextId, s.nextRevision,
                          s.rows, targets, seen, k);
      }
    }
  }
}
