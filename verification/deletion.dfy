/** Deleting a container's file for good, and renaming a container
    (card_login_mount_session.cpp:3331-3365, 3760-3783). */
module SessionDeletion {
  import opened Wrappers
  import opened Paths
  import opened ContainerIndex
  import opened ContainerTable
  import opened VaultRuntime
  import opened Session

  /** The row goes with the file, or both stay - but for a path without a folder
      of its own, whose file goes before the path is refused. */
  method DeleteFromDisk(s: SessionCore, id: nat) returns (failure: Option<Error>)
    requires s.Valid()
    modifies s`rows, s.rt`files, s.rt`dirs, s.rt`index, s.rt`trace, s.rt`faults
    ensures s.Valid() && Evolves(old(s.rows), s.nextRevision, s.rows, s.nextRevision)
    ensures var k := FindById(old(s.rows), id);
      if k == |old(s.rows)| || old(s.rows)[k].target.Disk? || old(s.rows)[k].mounted then
        failure.Some? && s.rows == old(s.rows) && s.rt.files == old(s.rt.files)
      else
        var path := old(s.rows)[k].target.path;
        && s.rows == (if failure.None? then WithoutRow(old(s.rows), k) else old(s.rows))
        && (s.rt.files == old(s.rt.files) || (path in old(s.rt.files) && s.rt.files == old(s.rt.files) - {path}))
        && (failure.None? <==> path in old(s.rt.files) && path !in s.rt.files && ProtectedDirectoryOf(path).Some?)
  {
    if !s.auth.Authenticated() {
      return Some(NotAuthenticated);
    }
    var k := FindById(s.rows, id);
    if k == |s.rows| {
      return Some(InvalidArgument);
    }
    if s.rows[k].target.Disk? || s.rows[k].mounted || s.rows[k].maintenance {
      return Some(WrongState);
    }
    var path := s.rows[k].target.path;
    var present := s.rt.Exists(path);
    if present.Err? || !present.value {
      return Some(if present.Err? then present.error else NotFound);
    }
    failure := s.rt.RemoveFile(path);
    if failure.Some? {
      return;
    }
    var folder := ProtectedDirectoryOf(path);
    if folder.None? {
      return Some(InvalidArgument);
    }
    s.rt.RemoveDirectoryIfEmpty(folder.value);
    failure := s.Forget(id);
  }

  /** Such a path: a file at the root of a drive is deleted and stays listed. */
  lemma RootFileHasNoFolder()
    ensures ProtectedDirectoryOf("C:\\vault.hc").None?
    ensures ProtectedDirectoryOf("C:\\vault\\vault.hc") == Some("C:\\vault")
  {
    var root, inner := "C:\\vault.hc", "C:\\vault\\vault.hc";
    LastSeparatorAt(root, 2);
    LastSeparatorAt(inner, 8);
    assert inner[..8] == "C:\\vault";
  }

  lemma LastSeparatorAt(path: string, at: nat)
    requires at < |path| && IsSeparator(path[at])
    requires forall i :: at < i < |path| ==> !IsSeparator(path[i])
    ensures LastSeparator(path) == Some(at)
    decreases |path|
  {
  }

  /** The index with the name in it; a file without a record gets one at the end,
      if there is room. */
  function NamedIndex(ix: Index, t: Target, name: string): Option<Index> {
    if Known(ix, t) then SetName(ix, t, name)
    else if t.File? && AddPath(ix, t.path).Added? then SetName(AddPath(ix, t.path).index, t, name)
    else None
  }

  lemma NamedIndexEffect(ix: Index, t: Target, name: string)
    requires Unambiguous(ix) && NamedIndex(ix, t, name).Some?
    ensures var named := NamedIndex(ix, t, name).value;
      && KeepsStates(ix, named) && (forall p :: StateOf(named, p) == StateOf(ix, p))
      && Known(named, t) && named[Rank(named, t)].name == name
  {
    var base := ix;
    if !Known(ix, t) {
      base := AddPath(ix, t.path).index;
      AddEffect(ix, t.path);
      assert Matches(base[|ix|].target, t);
      RankIsUnique(base, t, |ix|);
    }
    var named := NamedIndex(ix, t, name).value;
    RelabelEffect(base, named);
    RankReadsTargets(base, named, t);
  }

  /** A name can be recorded exactly when the container has a record or is a file
      that can get one. */
  lemma NamedWhenRoom(ix: Index, t: Target, name: string)
    ensures NamedIndex(ix, t, name).Some? <==> Known(ix, t) || (t.File? && |ix| < INDEX_CAPACITY)
  {
    if !Known(ix, t) && t.File? && |ix| < INDEX_CAPACITY {
      var base := AddPath(ix, t.path).index;
      assert Matches(base[|ix|].target, t);
      assert Rank(base, t) <= |ix|;
    }
  }

  /** How far a renaming got: to the index, which was written if there was
      anything to write and the write did not fail. */
  datatype Reached = Nowhere | TheIndex(saved: bool)

  /** The name can be recorded, and was if it had to be. */
  predicate Renames(ix: Index, t: Target, name: string, saved: bool) {
    var named := NamedIndex(ix, t, name);
    named.Some? && (saved || named.value == ix)
  }

  ghost predicate MayRename(s: SessionCore, id: nat, name: string)
    reads s, s.rt, s.auth
  {
    var k := FindById(s.rows, id);
    && s.auth.Authenticated() && !s.formatActive && s.rt.remembers
    && k < |s.rows| && !s.rows[k].maintenance && ValidDisplayName(name)
  }

  /** A name is shown exactly when it is recorded. */
  method RenameContainer(s: SessionCore, id: nat, name: string) returns (failure: Option<Error>, ghost reached: Reached)
    requires s.Valid()
    modifies s`rows, s.rt`index, s.rt`trace, s.rt`faults
    ensures s.Valid() && Evolves(old(s.rows), s.nextRevision, s.rows, s.nextRevision)
    ensures reached.Nowhere? ==> failure.Some? && (old(MayRename(s, id, name)) ==> s.rt.faults > old(s.rt.faults))
    ensures reached.TheIndex? ==> old(MayRename(s, id, name)) && (!reached.saved ==> s.rt.faults > old(s.rt.faults))
    ensures failure.Some? ==> s.rows == old(s.rows) && s.rt.index == old(s.rt.index)
    ensures var k := FindById(old(s.rows), id);
      reached.TheIndex? ==> (failure.None? <==> Renames(old(s.rt.index), old(s.rows)[k].target, name, reached.saved))
    ensures failure.None? ==>
      var k := FindById(old(s.rows), id);
      && reached.TheIndex? && s.rows == old(s.rows)[k := old(s.rows)[k].(alias := name)]
      && Some(s.rt.index) == NamedIndex(old(s.rt.index), old(s.rows)[k].target, name)
      && Known(s.rt.index, s.rows[k].target) && s.rt.index[Rank(s.rt.index, s.rows[k].target)].name == name
      && forall p :: StateOf(s.rt.index, p) == StateOf(old(s.rt.index), p)
  {
    var k := FindById(s.rows, id);
    if !s.auth.Authenticated() || s.formatActive || !s.rt.remembers {
      return Some(WrongState), Nowhere;
    }
    if k == |s.rows| {
      return Some(InvalidArgument), Nowhere;
    }
    if s.rows[k].maintenance {
      return Some(WrongState), Nowhere;
    }
    if !ValidDisplayName(name) {
      return Some(InvalidArgument), Nowhere;
    }
    var read := s.rt.ReadIndex();
    if read.Err? {
      return Some(read.error), Nowhere;
    }
    failure := RecordName(s, k, name);
    reached := TheIndex(s.rt.faults == old(s.rt.faults));
  }

  method RecordName(s: SessionCore, k: nat, name: string) returns (failure: Option<Error>)
    requires s.Valid() && k < |s.rows|
    modifies s`rows, s.rt`index, s.rt`trace, s.rt`faults
    ensures s.Valid() && Evolves(old(s.rows), s.nextRevision, s.rows, s.nextRevision)
    ensures old(s.rt.faults) <= s.rt.faults
    ensures failure.None? <==> Renames(old(s.rt.index), old(s.rows)[k].target, name, s.rt.faults == old(s.rt.faults))
    ensures failure.Some? ==> s.rows == old(s.rows) && s.rt.index == old(s.rt.index)
    ensures failure.None? ==>
      && s.rows == old(s.rows)[k := old(s.rows)[k].(alias := name)]
      && Some(s.rt.index) == NamedIndex(old(s.rt.index), old(s.rows)[k].target, name)
      && Known(s.rt.index, s.rows[k].target) && s.rt.index[Rank(s.rt.index, s.rows[k].target)].name == name
      && forall p :: StateOf(s.rt.index, p) == StateOf(old(s.rt.index), p)
  {
    var named := NamedIndex(s.rt.index, s.rows[k].target, name);
    if named.None? {
      return Some(WrongState);
    }
    NamedIndexEffect(s.rt.index, s.rows[k].target, name);
    if named.value != s.rt.index {
      failure := s.SaveIndex(named.value);
      if failure.Some? {
        return;
      }
    }
    s.Rename(k, name);
    return None;
  }
}
