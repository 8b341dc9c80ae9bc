/** The crash-safe file replacement of the node agent, over a file system that may
    lose unsynced bytes and any suffix of the unsynced directory changes. */
module AtomicWrite {
  import opened Outcomes

  /** A file's bytes, and whether they have reached stable storage. */
  datatype File = File(content: string, synced: bool)

  type Names = map<string, nat>

  /** `dirs` are the states the directory went through since it was last synced,
      the current one last; a crash leaves any one of them. */
  datatype Disk = Disk(dirs: seq<Names>, files: map<nat, File>) {
    predicate Sound() {
      dirs != [] && forall k, name :: 0 <= k < |dirs| && name in dirs[k] ==> dirs[k][name] in files
    }

    function Current(): Names
      requires dirs != []
    {
      dirs[|dirs| - 1]
    }
  }

  // ----- What the system calls do ---------------------------------------------------------

  function Create(d: Disk, name: string, inode: nat): Disk
    requires d.dirs != []
  {
    Disk(d.dirs + [d.Current()[name := inode]], d.files[inode := File("", false)])
  }

  function WriteMore(d: Disk, inode: nat, bytes: string): Disk
    requires inode in d.files
  {
    d.(files := d.files[inode := File(d.files[inode].content + bytes, false)])
  }

  function SyncFile(d: Disk, inode: nat): Disk
    requires inode in d.files
  {
    d.(files := d.files[inode := d.files[inode].(synced := true)])
  }

  function Rename(d: Disk, from: string, to: string): Disk
    requires d.dirs != [] && from in d.Current()
  {
    d.(dirs := d.dirs + [(d.Current() - {from})[to := d.Current()[from]]])
  }

  function SyncDirectory(d: Disk): Disk
    requires d.dirs != []
  {
    d.(dirs := [d.Current()])
  }

  function Unlink(d: Disk, name: string): Disk
    requires d.dirs != []
  {
    d.(dirs := d.dirs + [d.Current() - {name}])
  }

  // ----- What may be read ---------------------------------------------------------------------

  /** What a name in one directory state may read as after a crash: nothing, or
      the file's bytes; anything at all while they are unsynced. */
  predicate ReadsAs(dir: Names, files: map<nat, File>, name: string, seen: Option<string>) {
    if name !in dir then seen == None
    else dir[name] in files && seen.Some? && (files[dir[name]].synced ==> seen.value == files[dir[name]].content)
  }

  predicate MayReadAfterCrash(d: Disk, name: string, seen: Option<string>) {
    exists k :: 0 <= k < |d.dirs| && ReadsAs(d.dirs[k], d.files, name, seen)
  }

  /** What a reader sees without a crash. */
  function Visible(d: Disk, name: string): Option<string>
    requires d.Sound()
  {
    if name in d.Current() then Some(d.files[d.Current()[name]].content) else None
  }

  // ----- The invariant of a write in progress -----------------------------------------------------

  predicate SameEntry(a: Names, b: Names, name: string) {
    (name in a <==> name in b) && (name in a ==> a[name] == b[name])
  }

  /** The file being written is complete and on stable storage. */
  predicate Complete(d: Disk, inode: nat, content: string) {
    inode in d.files && d.files[inode] == File(content, true)
  }

  predicate OldEntry(before: Disk, dir: Names, name: string) {
    exists k :: 0 <= k < |before.dirs| && SameEntry(dir, before.dirs[k], name)
  }

  predicate NewEntry(d: Disk, dir: Names, name: string, inode: nat, content: string) {
    name in dir && dir[name] == inode && Complete(d, inode, content)
  }

  /** Nothing known before is touched, and wherever the target's entry differs
      from what it was, it names the complete new file. */
  predicate InProgress(before: Disk, d: Disk, name: string, inode: nat, content: string) {
    && before.dirs != [] && d.dirs != []
    && (forall i :: i in before.files ==> i in d.files && d.files[i] == before.files[i])
    && (forall k :: 0 <= k < |d.dirs| ==>
          OldEntry(before, d.dirs[k], name) || NewEntry(d, d.dirs[k], name, inode, content))
    && (SameEntry(d.Current(), before.Current(), name) || NewEntry(d, d.Current(), name, inode, content))
  }

  /** After a crash, or to a reader now, the target is as it was or complete. */
  ghost predicate Safe(before: Disk, d: Disk, name: string, content: string) {
    && (forall seen :: MayReadAfterCrash(d, name, seen) ==>
          MayReadAfterCrash(before, name, seen) || seen == Some(content))
    && (before.Sound() && d.Sound() ==> Visible(d, name) in {Visible(before, name), Some(content)})
  }

  lemma InProgressIsSafe(before: Disk, d: Disk, name: string, inode: nat, content: string)
    requires before.Sound() && InProgress(before, d, name, inode, content)
    ensures Safe(before, d, name, content)
  {
  }

  // ----- The write itself -----------------------------------------------------------------------------

  function TemporaryName(name: string, suffix: string): (r: string)
    ensures r != name
  {
    var r := "." + name + "." + suffix + ".partial";
    assert |r| > |name|;
    r
  }

  /** How the surroundings behave during one write: how many bytes each partial
      write takes, and which calls succeed. */
  datatype Weather = Weather(
    pieces: seq<nat>, createOk: bool, writeOk: bool, syncOk: bool, renameOk: bool, syncDirectoryOk: bool, unlinkOk: bool)

  /** The target's entry is untouched so far. */
  ghost predicate Untouched(before: Disk, d: Disk, name: string) {
    && before.dirs != [] && d.dirs != [] && SameEntry(d.Current(), before.Current(), name)
    && forall k :: 0 <= k < |d.dirs| ==> OldEntry(before, d.dirs[k], name)
  }

  /** Every entry but these is the one it was, with the file it was. */
  ghost predicate AsBefore(before: Disk, d: Disk, but: set<string>) {
    && before.dirs != [] && d.dirs != []
    && (forall i :: i in before.files ==> i in d.files && d.files[i] == before.files[i])
    && (forall n :: n !in but ==> SameEntry(d.Current(), before.Current(), n))
  }

  lemma AsBeforeLooksTheSame(before: Disk, d: Disk, but: set<string>, n: string)
    requires before.Sound() && d.Sound() && AsBefore(before, d, but) && n !in but
    ensures Visible(d, n) == Visible(before, n)
  {
    assert SameEntry(d.Current(), before.Current(), n);
  }

  lemma AsBeforeStays(before: Disk, d: Disk, but: set<string>, name: string, temporary: string)
    requires d.dirs != [] && AsBefore(before, d, but) && temporary in but
    ensures AsBefore(before, Unlink(d, temporary), but) && AsBefore(before, SyncDirectory(d), but)
    ensures temporary in d.Current() ==> AsBefore(before, Rename(d, temporary, name), but + {name})
  {
  }

  /** The temporary file is there under its own name, holding `bytes`. */
  ghost predicate Holding(before: Disk, d: Disk, name: string, temporary: string, inode: nat, bytes: string, synced: bool) {
    && before.Sound() && d.Sound() && inode !in before.files && name != temporary
    && Untouched(before, d, name)
    && AsBefore(before, d, {temporary})
    && temporary in d.Current() && d.Current()[temporary] == inode
    && inode in d.files && d.files[inode] == File(bytes, synced)
    && (forall i :: i in before.files ==> i in d.files && d.files[i] == before.files[i])
  }

  lemma CreateHolds(d: Disk, name: string, temporary: string, inode: nat)
    requires d.Sound() && inode !in d.files && temporary !in d.Current() && name != temporary
    ensures Holding(d, Create(d, temporary, inode), name, temporary, inode, "", false)
  {
  }

  lemma WriteHolds(before: Disk, d: Disk, name: string, temporary: string, inode: nat, bytes: string, more: string)
    requires Holding(before, d, name, temporary, inode, bytes, false)
    ensures Holding(before, WriteMore(d, inode, more), name, temporary, inode, bytes + more, false)
  {
  }

  lemma SyncHolds(before: Disk, d: Disk, name: string, temporary: string, inode: nat, bytes: string)
    requires Holding(before, d, name, temporary, inode, bytes, false)
    ensures Holding(before, SyncFile(d, inode), name, temporary, inode, bytes, true)
  {
  }

  lemma RenameCompletes(before: Disk, d: Disk, name: string, temporary: string, inode: nat, content: string)
    requires Holding(before, d, name, temporary, inode, content, true)
    ensures var e := Rename(d, temporary, name);
            e.Sound() && InProgress(before, e, name, inode, content) && temporary !in e.Current()
            && NewEntry(e, e.Current(), name, inode, content)
  {
  }

  lemma SyncDirectoryCompletes(before: Disk, d: Disk, name: string, inode: nat, content: string)
    requires d.Sound() && InProgress(before, d, name, inode, content) && NewEntry(d, d.Current(), name, inode, content)
    ensures var e := SyncDirectory(d);
            e.Sound() && InProgress(before, e, name, inode, content)
            && forall seen :: MayReadAfterCrash(e, name, seen) <==> seen == Some(content)
  {
  }

  lemma UnlinkStays(before: Disk, d: Disk, name: string, temporary: string, inode: nat, content: string)
    requires d.Sound() && InProgress(before, d, name, inode, content) && name != temporary
    ensures var e := Unlink(d, temporary);
            e.Sound() && InProgress(before, e, name, inode, content) && temporary !in e.Current()
  {
  }

  /** Why the file is synced first: renaming it earlier would let a crash leave
      anything at all under the target's name. */
  lemma UnsyncedRenameMayTear(
    before: Disk, d: Disk, name: string, temporary: string, inode: nat, bytes: string, seen: string)
    requires Holding(before, d, name, temporary, inode, bytes, false)
    ensures MayReadAfterCrash(Rename(d, temporary, name), name, Some(seen))
  {
    var e := Rename(d, temporary, name);
    assert ReadsAs(e.dirs[|e.dirs| - 1], e.files, name, Some(seen));
  }

  class FileSystem {
    var disk: Disk
    /** Every state since this object was made, the current one last. */
    ghost var trace: seq<Disk>

    ghost predicate Valid()
      reads this
    {
      disk.Sound() && trace != [] && trace[|trace| - 1] == disk
    }

    constructor (disk: Disk)
      requires disk.Sound()
      ensures Valid() && this.disk == disk
    {
      this.disk := disk;
      trace := [disk];
    }

    /** Any system call moves the disk to its next state. */
    method Move(next: Disk)
      requires next.Sound()
      modifies this
      ensures Valid() && disk == next && trace == old(trace) + [next]
    {
      disk := next;
      trace := trace + [next];
    }

    /** Whatever happens after `n` stays safe for the target. */
    ghost predicate SafeSince(n: nat, before: Disk, name: string, content: string)
      reads this
    {
      n <= |trace| && forall i :: n <= i < |trace| ==> Safe(before, trace[i], name, content)
    }

    /** At every step, so with a crash anywhere, the target holds its old state or
        the whole new content. The write succeeds exactly when every call does, and
        then the target durably holds the new content; if a call up to the rename
        fails, the target looks as before; other files always do. */
    method Write(name: string, suffix: string, inode: nat, content: string, w: Weather) returns (ok: bool)
      requires Valid() && inode !in disk.files
      modifies this
      ensures Valid() && old(trace) <= trace
      ensures SafeSince(|old(trace)|, old(disk), name, content)
      ensures ok <==>
        && TemporaryName(name, suffix) !in old(disk).Current()
        && w.createOk && w.writeOk && w.syncOk && w.renameOk && w.syncDirectoryOk
      ensures ok ==> forall seen :: MayReadAfterCrash(disk, name, seen) <==> seen == Some(content)
      ensures Visible(disk, name) ==
        if TemporaryName(name, suffix) !in old(disk).Current() && w.createOk && w.writeOk && w.syncOk && w.renameOk
        then Some(content) else Visible(old(disk), name)
      ensures forall n :: n != name && n != TemporaryName(name, suffix) ==> Visible(disk, n) == Visible(old(disk), n)
      ensures var temporary := TemporaryName(name, suffix);
              temporary !in old(disk).Current() && (ok || w.unlinkOk) ==> temporary !in disk.Current()
    {
      var temporary := TemporaryName(name, suffix);
      assert disk.dirs != [];
      hide Safe, InProgress, Holding, MayReadAfterCrash, AsBefore, Visible, Disk.Sound, NewEntry;
      ghost var before, n := disk, |trace|;
      if !w.createOk || temporary in disk.Current() {
        return false;
      }
      CreateHolds(disk, name, temporary, inode);
      HoldingFacts(before, Create(disk, temporary, inode), name, temporary, inode, "", false, content);
      Move(Create(disk, temporary, inode));
      ghost var bytes, synced;
      ok, bytes, synced := Fill(before, n, name, temporary, inode, content, w);
      HoldingFacts(before, disk, name, temporary, inode, bytes, synced, content);
      if ok {
        Replace(before, n, name, temporary, inode, content);
        ok := w.syncDirectoryOk;
        if ok {
          Settle(before, n, name, temporary, inode, content);
        }
        return;
      }
      if w.unlinkOk {
        UnlinkStays(before, disk, name, temporary, inode, content);
        InProgressIsSafe(before, Unlink(disk, temporary), name, inode, content);
        AsBeforeStays(before, disk, {temporary}, name, temporary);
        Move(Unlink(disk, temporary));
      }
      AllLookTheSame(before, disk, {temporary});
    }

    lemma AllLookTheSame(before: Disk, d: Disk, but: set<string>)
      requires before.Sound() && d.Sound() && AsBefore(before, d, but)
      ensures forall n :: n !in but ==> Visible(d, n) == Visible(before, n)
    {
      forall n | n !in but ensures Visible(d, n) == Visible(before, n) {
        AsBeforeLooksTheSame(before, d, but, n);
      }
    }

    /** The rename; the clean-up after a failed directory sync finds nothing. */
    method Replace(ghost before: Disk, ghost n: nat, name: string, temporary: string, inode: nat, content: string)
      requires Valid() && Holding(before, disk, name, temporary, inode, content, true)
      requires temporary in disk.Current() && SafeSince(n, before, name, content)
      modifies this
      ensures Valid() && old(trace) <= trace && SafeSince(n, before, name, content)
      ensures InProgress(before, disk, name, inode, content) && NewEntry(disk, disk.Current(), name, inode, content)
      ensures temporary !in disk.Current() && AsBefore(before, disk, {temporary, name})
      ensures Visible(disk, name) == Some(content)
      ensures forall n :: n !in {temporary, name} ==> Visible(disk, n) == Visible(before, n)
    {
      RenameCompletes(before, disk, name, temporary, inode, content);
      AsBeforeStays(before, disk, {temporary}, name, temporary);
      assert {temporary} + {name} == {temporary, name};
      InProgressIsSafe(before, Rename(disk, temporary, name), name, inode, content);
      AllLookTheSame(before, Rename(disk, temporary, name), {temporary, name});
      hide Safe, InProgress, Holding, AsBefore;
      Move(Rename(disk, temporary, name));
    }

    method Settle(ghost before: Disk, ghost n: nat, name: string, temporary: string, inode: nat, content: string)
      requires Valid() && before.Sound() && InProgress(before, disk, name, inode, content)
      requires NewEntry(disk, disk.Current(), name, inode, content) && temporary !in disk.Current()
      requires AsBefore(before, disk, {temporary, name}) && SafeSince(n, before, name, content)
      modifies this
      ensures Valid() && old(trace) <= trace && SafeSince(n, before, name, content)
      ensures forall seen :: MayReadAfterCrash(disk, name, seen) <==> seen == Some(content)
      ensures Visible(disk, name) == Some(content) && temporary !in disk.Current()
      ensures forall n :: n !in {temporary, name} ==> Visible(disk, n) == Visible(before, n)
    {
      SyncDirectoryCompletes(before, disk, name, inode, content);
      AsBeforeStays(before, disk, {temporary, name}, name, temporary);
      InProgressIsSafe(before, SyncDirectory(disk), name, inode, content);
      AllLookTheSame(before, SyncDirectory(disk), {temporary, name});
      hide Safe, InProgress, AsBefore, MayReadAfterCrash;
      Move(SyncDirectory(disk));
    }

    lemma HoldingFacts(
      before: Disk, d: Disk, name: string, temporary: string, inode: nat, bytes: string, synced: bool, content: string)
      requires Holding(before, d, name, temporary, inode, bytes, synced)
      ensures d.Sound() && InProgress(before, d, name, inode, content) && Safe(before, d, name, content)
      ensures temporary in d.Current() && inode in d.files && AsBefore(before, d, {temporary}) && before.Sound()
    {
    }

    /** Writing, flushing and syncing the temporary file, up to where the rename
        may happen. */
    method Fill(
      ghost before: Disk, ghost n: nat, name: string, temporary: string, inode: nat, content: string, w: Weather)
      returns (ok: bool, ghost bytes: string, ghost synced: bool)
      requires Valid() && Holding(before, disk, name, temporary, inode, "", false)
      requires SafeSince(n, before, name, content)
      modifies this
      ensures Valid() && old(trace) <= trace && SafeSince(n, before, name, content)
      ensures ok <==> w.writeOk && w.syncOk && w.renameOk
      ensures Holding(before, disk, name, temporary, inode, bytes, synced)
      ensures w.writeOk && w.syncOk ==> bytes == content && synced
    {
      hide Safe, InProgress, Holding;
      var written := 0;
      HoldingFacts(before, disk, name, temporary, inode, "", false, content);
      for i := 0 to |w.pieces|
        invariant 0 <= written <= |content| && Valid() && old(trace) <= trace
        invariant SafeSince(n, before, name, content)
        invariant Holding(before, disk, name, temporary, inode, content[..written], false)
      {
        written := WritePiece(before, n, name, temporary, inode, content, written, w.pieces[i]);
      }
      if w.writeOk {
        written := WritePiece(before, n, name, temporary, inode, content, written, |content|);
      }
      HoldingFacts(before, disk, name, temporary, inode, content[..written], false, content);
      if !w.writeOk || !w.syncOk { return false, content[..written], false; }
      assert content[..written] == content;
      HoldingFacts(before, disk, name, temporary, inode, content, false, content);
      SyncHolds(before, disk, name, temporary, inode, content);
      HoldingFacts(before, SyncFile(disk, inode), name, temporary, inode, content, true, content);
      Move(SyncFile(disk, inode));
      return w.renameOk, content, true;
    }

    method WritePiece(
      ghost before: Disk, ghost n: nat, name: string, temporary: string, inode: nat, content: string, written: nat,
      size: nat) returns (next: nat)
      requires Valid() && written <= |content| && SafeSince(n, before, name, content)
      requires Holding(before, disk, name, temporary, inode, content[..written], false)
      modifies this
      ensures Valid() && old(trace) <= trace && SafeSince(n, before, name, content)
      ensures next == if written + size <= |content| then written + size else |content|
      ensures Holding(before, disk, name, temporary, inode, content[..next], false)
    {
      next := if written + size <= |content| then written + size else |content|;
      var more := content[written..next];
      WriteHolds(before, disk, name, temporary, inode, content[..written], more);
      assert content[..written] + more == content[..next];
      HoldingFacts(before, WriteMore(disk, inode, more), name, temporary, inode, content[..next], false, content);
      hide Safe, InProgress, Holding;
      Move(WriteMore(disk, inode, more));
    }
  }
}
