/**
 Installing a plugin over an older one: a journal, the old files moved aside, the new
 ones written and loaded; undone by rollback, or by recovery after a crash at any point.
*/
module PluginInstaller {
  import opened Wrappers

  /** The names from the root down; a prefix of a path is a directory above it. */
  type Path = seq<string>

  datatype Move = Move(backup: Path, original: Path)

  datatype Journal = Journal(name: string, wasDenied: bool, created: Path, restore: seq<Move>)

  /** `marked` says the upload's record notes that its install crashed. */
  datatype Disk = Disk(
    files: map<Path, string>,
    dirs: set<Path>,
    denied: set<string>,
    journal: Option<Journal>,
    marked: bool)

  datatype NewFile = NewFile(path: Path, content: string)

  /** What an install is to do. `oldDir` is the old version's own directory, if it has one. */
  datatype Plan = Plan(
    name: string,
    upload: Path,
    target: Path,
    restore: seq<Move>,
    library: NewFile,
    manifest: Option<NewFile>,
    provenance: NewFile,
    oldDir: Option<Path>,
    hasDenylist: bool,
    wasDenied: bool)

  predicate AtOrBelow(p: Path, top: Path) {
    top <= p
  }

  function Parent(p: Path): Path
    requires p != []
  {
    p[..|p| - 1]
  }

  function Part(p: Path): Path
    requires p != []
  {
    Parent(p) + [p[|p| - 1] + ".part"]
  }

  function Backup(plan: Plan): Path {
    plan.upload + ["previous"]
  }

  function JournalOf(plan: Plan): Journal {
    Journal(plan.name, plan.wasDenied, plan.target, plan.restore)
  }

  // ---- Actions on the disk ----

  datatype Action =
    | WriteJournal(journal: Journal)
    | RemoveJournal
    | Deny(name: string)
    | Allow(name: string)
    | MakeDir(path: Path)
    | Write(path: Path, content: string)
    | Rename(from: Path, to: Path)
    | RemoveAll(path: Path)
    | RemoveIfEmpty(path: Path)
    | MarkUpload
    | Load

  predicate IsEmptyDir(d: Disk, p: Path) {
    && p in d.dirs
    && (forall q :: q in d.files && AtOrBelow(q, p) ==> q == p)
    && (forall q :: q in d.dirs && AtOrBelow(q, p) ==> q == p)
  }

  /** What an action has done once it is complete. */
  function Do(a: Action, d: Disk): Disk {
    match a
    case WriteJournal(j) => d.(journal := Some(j))
    case RemoveJournal => d.(journal := None)
    case Deny(name) => d.(denied := d.denied + {name})
    case Allow(name) => d.(denied := d.denied - {name})
    case MakeDir(p) => d.(dirs := d.dirs + {p})
    case Write(p, content) => d.(files := d.files[p := content])
    case Rename(from, to) =>
      if from in d.files then d.(files := (d.files - {from})[to := d.files[from]]) else d
    case RemoveAll(p) =>
      d.(files := map q | q in d.files && !AtOrBelow(q, p) :: d.files[q],
         dirs := set q | q in d.dirs && !AtOrBelow(q, p))
    case RemoveIfEmpty(p) => if IsEmptyDir(d, p) then d.(dirs := d.dirs - {p}) else d
    case MarkUpload => d.(marked := true)
    case Load => d
  }

  /** The action finds the files and directories it needs; otherwise it throws. */
  predicate Can(a: Action, d: Disk) {
    match a
    case MakeDir(p) => p != [] && Parent(p) in d.dirs
    case Write(p, _) => p != [] && Parent(p) in d.dirs
    case Rename(from, to) => from in d.files && to != [] && Parent(to) in d.dirs
    case _ => true
  }

  /** A tree removal that stopped half-way. */
  ghost predicate PartlyRemoved(p: Path, d: Disk, d': Disk) {
    && d'.files.Keys <= d.files.Keys && d'.dirs <= d.dirs
    && (forall q :: q in d'.files ==> d'.files[q] == d.files[q])
    && (forall q :: q in d.files && !AtOrBelow(q, p) ==> q in d'.files)
    && (forall q :: q in d.dirs && !AtOrBelow(q, p) ==> q in d'.dirs)
    && d'.denied == d.denied && d'.journal == d.journal && d'.marked == d.marked
  }

  /** What a crash during the action can leave. */
  ghost predicate Torn(a: Action, d: Disk, d': Disk) {
    || d' == d
    || d' == Do(a, d)
    || (a.RemoveAll? && PartlyRemoved(a.path, d, d'))
  }

  // ---- Plans ----

  predicate HasParent(d: Disk, p: Path) {
    p != [] ==> Parent(p) in d.dirs
  }

  /** Every file and directory is in a directory. */
  ghost predicate IsTree(d: Disk) {
    && [] !in d.files
    && (forall p {:trigger HasParent(d, p)} :: p in d.files || p in d.dirs ==> HasParent(d, p))
  }

  predicate IsNewFile(plan: Plan, f: NewFile) {
    f.path != [] && Parent(f.path) == plan.target
  }

  /** A library name ends like a library, so it is no manifest, provenance or ".part" name. */
  predicate NamesAreDistinct(plan: Plan)
    requires plan.library.path != [] && plan.provenance.path != []
    requires plan.manifest.Some? ==> plan.manifest.value.path != []
  {
    && plan.provenance.path !in {plan.library.path, Part(plan.library.path)}
    && (plan.manifest.Some? ==>
          && plan.manifest.value.path !in {plan.library.path, Part(plan.library.path), plan.provenance.path}
          && Part(plan.manifest.value.path) !in {plan.library.path, Part(plan.library.path)})
  }

  /** What install has checked or chosen before it starts. */
  ghost predicate IsPlan(plan: Plan, d: Disk) {
    && IsTree(d) && d.journal == None
    && plan.target != [] && Parent(plan.target) in d.dirs
    && plan.target !in d.files && plan.target !in d.dirs
    && plan.upload in d.dirs && Backup(plan) !in d.files
    && !AtOrBelow(plan.upload, plan.target) && !AtOrBelow(plan.target, plan.upload)
    && IsNewFile(plan, plan.library) && IsNewFile(plan, plan.provenance)
    && (plan.manifest.Some? ==> IsNewFile(plan, plan.manifest.value))
    && NamesAreDistinct(plan)
    && (forall i :: 0 <= i < |plan.restore| ==> IsMove(plan, d, plan.restore[i]))
    && (forall i, j :: 0 <= i < j < |plan.restore| ==>
          plan.restore[i].original != plan.restore[j].original && plan.restore[i].backup != plan.restore[j].backup)
    && (plan.oldDir.Some? ==> plan.restore != [])
    && (forall i :: 0 <= i < |plan.restore| && plan.oldDir.Some? ==>
          Parent(plan.restore[i].original) == plan.oldDir.value)
    && plan.wasDenied == (plan.hasDenylist && plan.name in d.denied)
  }

  ghost predicate IsMove(plan: Plan, d: Disk, m: Move) {
    && m.original in d.files && m.original != [] && !AtOrBelow(m.original, plan.upload)
    && m.backup != [] && Parent(m.backup) == Backup(plan) && m.backup !in d.files
  }

  // ---- States between which install and recovery move ----

  ghost predicate IsOriginal(plan: Plan, p: Path) {
    exists i :: 0 <= i < |plan.restore| && plan.restore[i].original == p
  }

  predicate InPlan(plan: Plan, p: Path) {
    AtOrBelow(p, plan.target) || AtOrBelow(p, plan.upload)
  }

  ghost predicate SameFile(d0: Disk, d: Disk, p: Path) {
    && (p in d.files <==> p in d0.files)
    && (p in d.files ==> d.files[p] == d0.files[p])
  }

  /** Nothing but the plan's own files has changed. */
  ghost predicate SameElsewhere(plan: Plan, d0: Disk, d: Disk) {
    && (forall p :: !InPlan(plan, p) && !IsOriginal(plan, p) ==> SameFile(d0, d, p))
    && (forall p :: !InPlan(plan, p) ==> (p in d.dirs <==> p in d0.dirs))
  }

  /** A moved file is in exactly one of its original and its backup place. */
  predicate InOnePlace(d0: Disk, d: Disk, m: Move)
    requires m.original in d0.files
  {
    if m.original in d.files
    then d.files[m.original] == d0.files[m.original] && m.backup !in d.files
    else m.backup in d.files && d.files[m.backup] == d0.files[m.original]
  }

  predicate DenialUndoable(plan: Plan, d0: Disk, d: Disk) {
    if plan.hasDenylist
    then d.denied - {plan.name} == d0.denied - {plan.name} && (plan.wasDenied ==> plan.name in d.denied)
    else d.denied == d0.denied
  }

  /** Recovery can still undo the install that started from d0. */
  ghost predicate Undoable(plan: Plan, d0: Disk, d: Disk)
    requires IsPlan(plan, d0)
  {
    && d.journal == Some(JournalOf(plan))
    && SameElsewhere(plan, d0, d)
    && (forall i :: 0 <= i < |plan.restore| ==> InOnePlace(d0, d, plan.restore[i]))
    && DenialUndoable(plan, d0, d)
  }

  /** The plugin files and the denylist are as before the install, and no journal or backup file is left. */
  ghost predicate Restored(plan: Plan, d0: Disk, d: Disk) {
    && d.journal == None
    && (forall i :: 0 <= i < |plan.restore| ==> plan.restore[i].backup !in d.files)
    && (forall p :: !AtOrBelow(p, plan.upload) ==> SameFile(d0, d, p) && (p in d.dirs <==> p in d0.dirs))
    && d.denied == d0.denied
  }

  ghost predicate Restorable(plan: Plan, d0: Disk, d: Disk)
    requires IsPlan(plan, d0)
  {
    Restored(plan, d0, d) || Undoable(plan, d0, d)
  }

  // ---- What keeps a disk undoable ----

  /** Nothing exists below a path that does not exist. */
  lemma {:induction false} NothingBelow(d: Disk, top: Path, p: Path)
    requires IsTree(d) && top != [] && top !in d.files && top !in d.dirs && AtOrBelow(p, top)
    ensures p !in d.files && p !in d.dirs
    decreases |p|
  {
    assert p in d.files || p in d.dirs ==> HasParent(d, p);
    if p != top {
      assert AtOrBelow(Parent(p), top);
      NothingBelow(d, top, Parent(p));
    }
  }

  /** An action that only touches the target directory, or files of the upload that are no backups. */
  ghost predicate IsTargetWork(plan: Plan, d: Disk, d': Disk) {
    && d'.journal == d.journal && d'.denied == d.denied
    && (forall p :: !AtOrBelow(p, plan.target) ==> SameFile(d, d', p))
    && (forall p :: !InPlan(plan, p) ==> (p in d'.dirs <==> p in d.dirs))
  }

  lemma BackupIsOutside(plan: Plan, d0: Disk, i: nat)
    requires IsPlan(plan, d0) && i < |plan.restore|
    ensures !AtOrBelow(plan.restore[i].backup, plan.target)
    ensures !AtOrBelow(plan.restore[i].original, plan.target)
    ensures AtOrBelow(plan.restore[i].backup, Backup(plan)) && AtOrBelow(plan.restore[i].backup, plan.upload)
  {
    var m := plan.restore[i];
    assert IsMove(plan, d0, m);
    assert !AtOrBelow(m.original, plan.target) by {
      if AtOrBelow(m.original, plan.target) { NothingBelow(d0, plan.target, m.original); }
    }
    assert m.backup[..|plan.upload|] == plan.upload;
  }

  lemma TargetWorkKeeps(plan: Plan, d0: Disk, d: Disk, d': Disk)
    requires IsPlan(plan, d0) && Undoable(plan, d0, d) && IsTargetWork(plan, d, d')
    ensures Undoable(plan, d0, d')
  {
    forall i | 0 <= i < |plan.restore| ensures InOnePlace(d0, d', plan.restore[i]) {
      BackupIsOutside(plan, d0, i);
      assert InOnePlace(d0, d, plan.restore[i]);
    }
  }

  predicate IsTargetAction(plan: Plan, a: Action) {
    match a
    case MakeDir(p) => AtOrBelow(p, plan.target) || p == Backup(plan)
    case Write(p, _) => AtOrBelow(p, plan.target)
    case Rename(from, to) => AtOrBelow(from, plan.target) && AtOrBelow(to, plan.target)
    case RemoveAll(p) => p == plan.target
    case MarkUpload => true
    case Load => true
    case _ => false
  }

  /** However far an action on the new version gets, the install can still be undone. */
  lemma TargetActionKeeps(plan: Plan, d0: Disk, a: Action, d: Disk, d': Disk)
    requires IsPlan(plan, d0) && Undoable(plan, d0, d) && IsTargetAction(plan, a) && Torn(a, d, d')
    ensures Undoable(plan, d0, d')
  {
    assert AtOrBelow(Backup(plan), plan.upload);
    assert IsTargetWork(plan, d, d');
    TargetWorkKeeps(plan, d0, d, d');
  }

  /** Other moves are not affected by moving file i between its two places. */
  lemma MovesAreApart(plan: Plan, d0: Disk, i: nat, j: nat)
    requires IsPlan(plan, d0) && i < |plan.restore| && j < |plan.restore| && i != j
    ensures var m, n := plan.restore[i], plan.restore[j];
            m.original != n.original && m.backup != n.backup && m.original != n.backup && m.backup != n.original
  {
    assert IsMove(plan, d0, plan.restore[i]) && IsMove(plan, d0, plan.restore[j]);
    BackupIsOutside(plan, d0, i);
    BackupIsOutside(plan, d0, j);
    if i < j {
      assert plan.restore[i].original != plan.restore[j].original;
    } else {
      assert plan.restore[j].original != plan.restore[i].original;
    }
  }

  lemma MoveKeeps(plan: Plan, d0: Disk, d: Disk, i: nat, a: Action, d': Disk)
    requires IsPlan(plan, d0) && Undoable(plan, d0, d) && i < |plan.restore|
    requires a == Rename(plan.restore[i].original, plan.restore[i].backup)
          || a == Rename(plan.restore[i].backup, plan.restore[i].original)
    requires a.from in d.files && Torn(a, d, d')
    ensures Undoable(plan, d0, d')
    ensures forall j :: 0 <= j < |plan.restore| && j != i ==>
              (plan.restore[j].original in d'.files <==> plan.restore[j].original in d.files)
  {
    BackupIsOutside(plan, d0, i);
    forall j | 0 <= j < |plan.restore|
      ensures InOnePlace(d0, d', plan.restore[j])
      ensures j != i ==> (plan.restore[j].original in d'.files <==> plan.restore[j].original in d.files)
    {
      assert InOnePlace(d0, d, plan.restore[j]) && InOnePlace(d0, d, plan.restore[i]);
      if i != j { MovesAreApart(plan, d0, i, j); }
    }
    assert IsOriginal(plan, plan.restore[i].original);
  }

  lemma DenyKeeps(plan: Plan, d0: Disk, d: Disk, a: Action, d': Disk)
    requires IsPlan(plan, d0) && Undoable(plan, d0, d) && plan.hasDenylist
    requires a == Deny(plan.name) || (a == Allow(plan.name) && !plan.wasDenied)
    requires Torn(a, d, d')
    ensures Undoable(plan, d0, d')
  {
    assert (d.denied + {plan.name}) - {plan.name} == d.denied - {plan.name};
    assert (d.denied - {plan.name}) - {plan.name} == d.denied - {plan.name};
  }

  ghost predicate AllBack(plan: Plan, d: Disk) {
    forall i :: 0 <= i < |plan.restore| ==> plan.restore[i].original in d.files
  }

  /** With every file back, the backup directory can go. */
  lemma BackupRemovalKeeps(plan: Plan, d0: Disk, d: Disk, d': Disk)
    requires IsPlan(plan, d0) && Undoable(plan, d0, d) && AllBack(plan, d)
    requires Torn(RemoveAll(Backup(plan)), d, d')
    ensures Undoable(plan, d0, d') && AllBack(plan, d')
  {
    assert AtOrBelow(Backup(plan), plan.upload);
    assert forall p :: AtOrBelow(p, Backup(plan)) ==> AtOrBelow(p, plan.upload);
    forall i | 0 <= i < |plan.restore|
      ensures plan.restore[i].original in d'.files && InOnePlace(d0, d', plan.restore[i])
    {
      assert IsMove(plan, d0, plan.restore[i]);
      assert InOnePlace(d0, d, plan.restore[i]);
    }
  }

  ghost predicate TargetGone(plan: Plan, d: Disk) {
    forall p :: AtOrBelow(p, plan.target) ==> p !in d.files && p !in d.dirs
  }

  /** Once the new version is gone, every file back and the denylist as before, all is restored. */
  lemma UndoneIsRestored(plan: Plan, d0: Disk, d: Disk)
    requires IsPlan(plan, d0) && Undoable(plan, d0, d)
    requires TargetGone(plan, d) && AllBack(plan, d) && d.denied == d0.denied
    ensures Restored(plan, d0, d.(journal := None))
  {
    forall p | !AtOrBelow(p, plan.upload) ensures SameFile(d0, d, p) && (p in d.dirs <==> p in d0.dirs) {
      if AtOrBelow(p, plan.target) {
        NothingBelow(d0, plan.target, p);
      } else if i :| 0 <= i < |plan.restore| && plan.restore[i].original == p {
        assert InOnePlace(d0, d, plan.restore[i]);
        assert IsMove(plan, d0, plan.restore[i]);
      }
    }
  }

  /** The same upload can be installed again: what was planned holds of the restored disk,
      with whatever is left of an emptied backup directory. */
  lemma RestoredCanRetry(plan: Plan, d0: Disk, d: Disk)
    requires IsPlan(plan, d0) && Restored(plan, d0, d)
    requires IsTree(d) && plan.upload in d.dirs && Backup(plan) !in d.files
    ensures IsPlan(plan, d)
  {
    assert !AtOrBelow(Parent(plan.target), plan.upload) by {
      assert AtOrBelow(plan.target, Parent(plan.target));
    }
    forall i | 0 <= i < |plan.restore| ensures IsMove(plan, d, plan.restore[i]) {
      assert IsMove(plan, d0, plan.restore[i]);
    }
  }

  // ---- The new version ----

  /** The target directory with the library and the manifest in place. */
  function NewVersion(plan: Plan, d: Disk): Disk
    requires IsNewFile(plan, plan.library)
    requires plan.manifest.Some? ==> IsNewFile(plan, plan.manifest.value)
  {
    var library := plan.library;
    var d1 := Do(Write(Part(library.path), library.content), Do(MakeDir(plan.target), d));
    if plan.manifest.None? then Do(Rename(Part(library.path), library.path), d1)
    else
      var manifest := plan.manifest.value;
      var d2 := Do(Write(Part(manifest.path), manifest.content), d1);
      Do(Rename(Part(manifest.path), manifest.path), Do(Rename(Part(library.path), library.path), d2))
  }

  /** The files of the new version. */
  function NewFiles(plan: Plan): map<Path, string> {
    var files := map[plan.library.path := plan.library.content];
    if plan.manifest.Some? then files[plan.manifest.value.path := plan.manifest.value.content] else files
  }

  /** The target directory holds these files, and nothing else. */
  ghost predicate Holds(plan: Plan, d: Disk, files: map<Path, string>) {
    && (forall p :: AtOrBelow(p, plan.target) ==> (p in d.files <==> p in files))
    && (forall p :: AtOrBelow(p, plan.target) && p in d.files && p in files ==> d.files[p] == files[p])
    && (forall p :: AtOrBelow(p, plan.target) ==> (p in d.dirs <==> p == plan.target))
  }

  /** Writing under another name and renaming comes to writing. */
  lemma WriteAndRename(files: map<Path, string>, part: Path, p: Path, content: string)
    requires part !in files && part != p
    ensures (files[part := content] - {part})[p := content] == files[p := content]
  {
    assert files[part := content] - {part} == files;
  }

  lemma WriteAndRenameTwo(
    files: map<Path, string>, part: Path, p: Path, content: string, part2: Path, p2: Path, content2: string)
    requires part !in files && part2 !in files && part != part2
    requires p !in {part, part2} && p2 !in {part, part2, p}
    ensures ((files[part := content][part2 := content2] - {part})[p := content] - {part2})[p2 := content2]
            == files[p := content][p2 := content2]
  {
    assert files[part := content][part2 := content2] - {part} == files[part2 := content2];
    assert files[part2 := content2][p := content] - {part2} == files[p := content];
  }

  lemma PartIsAnother(plan: Plan, d: Disk, f: NewFile)
    requires IsNewFile(plan, f) && TargetGone(plan, d)
    ensures Part(f.path) != f.path && Part(f.path) !in d.files
  {
    assert |Part(f.path)[|f.path| - 1]| == |f.path[|f.path| - 1]| + 5;
    assert AtOrBelow(Part(f.path), plan.target);
  }

  lemma LibraryAlone(plan: Plan, d0: Disk, d: Disk)
    requires IsPlan(plan, d0) && TargetGone(plan, d) && plan.manifest.None?
    ensures NewVersion(plan, d).files == d.files[plan.library.path := plan.library.content]
  {
    PartIsAnother(plan, d, plan.library);
    WriteAndRename(d.files, Part(plan.library.path), plan.library.path, plan.library.content);
  }

  lemma LibraryAndManifest(plan: Plan, d0: Disk, d: Disk)
    requires IsPlan(plan, d0) && TargetGone(plan, d) && plan.manifest.Some?
    ensures NewVersion(plan, d).files ==
            d.files[plan.library.path := plan.library.content][plan.manifest.value.path := plan.manifest.value.content]
  {
    var library, part := plan.library, Part(plan.library.path);
    var manifest, part2 := plan.manifest.value, Part(plan.manifest.value.path);
    PartIsAnother(plan, d, library);
    PartIsAnother(plan, d, manifest);
    WriteAndRenameTwo(d.files, part, library.path, library.content, part2, manifest.path, manifest.content);
  }

  lemma NewVersionAdds(plan: Plan, d0: Disk, d: Disk)
    requires IsPlan(plan, d0) && TargetGone(plan, d)
    ensures NewVersion(plan, d).files == d.files + NewFiles(plan)
  {
    if plan.manifest.Some? {
      LibraryAndManifest(plan, d0, d);
    } else {
      LibraryAlone(plan, d0, d);
    }
  }

  lemma NewVersionHolds(plan: Plan, d0: Disk, d: Disk)
    requires IsPlan(plan, d0) && TargetGone(plan, d)
    ensures Holds(plan, NewVersion(plan, d), NewFiles(plan))
  {
    NewVersionAdds(plan, d0, d);
  }

  ghost predicate AllAside(plan: Plan, d: Disk) {
    forall i :: 0 <= i < |plan.restore| ==> plan.restore[i].original !in d.files
  }

  function MoveOf(m: Move, aside: bool): Action {
    if aside then Rename(m.original, m.backup) else Rename(m.backup, m.original)
  }

  function Denied(plan: Plan, denied: bool, d: Disk): Disk {
    if !plan.hasDenylist then d
    else if denied then Do(Deny(plan.name), d)
    else Do(Allow(plan.name), d)
  }

  /** With its journal written, an install that has done nothing else can be undone. */
  lemma JournaledIsUndoable(plan: Plan, d0: Disk)
    requires IsPlan(plan, d0)
    ensures Undoable(plan, d0, d0.(journal := Some(JournalOf(plan))))
    ensures AllBack(plan, d0) && TargetGone(plan, d0)
  {
    forall i | 0 <= i < |plan.restore|
      ensures plan.restore[i].original in d0.files && plan.restore[i].backup !in d0.files
    {
      assert IsMove(plan, d0, plan.restore[i]);
    }
    forall p | AtOrBelow(p, plan.target) ensures p !in d0.files && p !in d0.dirs {
      NothingBelow(d0, plan.target, p);
    }
  }

  /** The directories an install needs are there as long as it can be undone. */
  lemma ParentsAreThere(plan: Plan, d0: Disk, d: Disk)
    requires IsPlan(plan, d0) && Undoable(plan, d0, d)
    ensures Parent(plan.target) in d.dirs
    ensures forall i :: 0 <= i < |plan.restore| ==>
              plan.restore[i].original != [] && Parent(plan.restore[i].original) in d.dirs
  {
    assert !InPlan(plan, Parent(plan.target));
    forall i | 0 <= i < |plan.restore|
      ensures plan.restore[i].original != [] && Parent(plan.restore[i].original) in d.dirs
    {
      var original := plan.restore[i].original;
      assert IsMove(plan, d0, plan.restore[i]) && HasParent(d0, original);
      BackupIsOutside(plan, d0, i);
      assert !InPlan(plan, Parent(original)) by {
        assert AtOrBelow(original, Parent(original));
      }
    }
  }

  lemma NewVersionKeepsAside(plan: Plan, d0: Disk, d: Disk)
    requires IsPlan(plan, d0) && TargetGone(plan, d) && AllAside(plan, d)
    ensures AllAside(plan, NewVersion(plan, d))
  {
    NewVersionAdds(plan, d0, d);
    forall i | 0 <= i < |plan.restore| ensures plan.restore[i].original !in NewFiles(plan) {
      BackupIsOutside(plan, d0, i);
    }
  }

  // ---- The way back ----

  /** A backup moved back if it is there; None if the directory to move it to is missing. */
  function MovedOne(m: Move, d: Disk): Option<Disk> {
    if m.backup !in d.files then Some(d)
    else if Can(MoveOf(m, false), d) then Some(Do(MoveOf(m, false), d))
    else None
  }

  ghost predicate BackUpTo(plan: Plan, d: Disk, k: nat)
    requires k <= |plan.restore|
  {
    forall j :: 0 <= j < k ==> plan.restore[j].original in d.files
  }

  /** On the way back: the target is gone, and the first k files are in place. */
  ghost predicate Undoing(plan: Plan, d0: Disk, denied: set<string>, d: Disk, k: nat)
    requires IsPlan(plan, d0) && k <= |plan.restore|
  {
    Undoable(plan, d0, d) && TargetGone(plan, d) && d.denied == denied && BackUpTo(plan, d, k)
  }

  lemma OneMovesBack(plan: Plan, d0: Disk, denied: set<string>, d: Disk, i: nat)
    requires IsPlan(plan, d0) && i < |plan.restore| && Undoing(plan, d0, denied, d, i)
    ensures MovedOne(plan.restore[i], d).Some?
    ensures Undoing(plan, d0, denied, MovedOne(plan.restore[i], d).value, i + 1)
  {
    var m := plan.restore[i];
    BackupIsOutside(plan, d0, i);
    ParentsAreThere(plan, d0, d);
    assert InOnePlace(d0, d, m);
    if m.backup in d.files {
      MoveKeeps(plan, d0, d, i, MoveOf(m, false), Do(MoveOf(m, false), d));
    }
  }

  // ---- The server ----

  predicate StrictlyWithin(p: Path, top: Path) {
    top < p
  }

  /** Uploads are staged in a directory of the plugin directory. */
  function Staging(plugins: Path): Path {
    plugins + [".orcha-uploads"]
  }

  /** What recovery checks of a journal before it touches anything. */
  predicate IsAcceptable(plugins: Path, upload: Path, j: Journal) {
    && StrictlyWithin(j.created, plugins)
    && !AtOrBelow(Staging(plugins), j.created)
    && forall i :: 0 <= i < |j.restore| ==>
         && StrictlyWithin(j.restore[i].original, plugins)
         && StrictlyWithin(j.restore[i].backup, plugins)
         && StrictlyWithin(j.restore[i].backup, upload)
  }

  /** Install only plans within the plugin directory, and beside its staging directory. */
  ghost predicate FitsIn(plugins: Path, plan: Plan) {
    && StrictlyWithin(plan.target, plugins) && !AtOrBelow(Staging(plugins), plan.target)
    && StrictlyWithin(plan.upload, Staging(plugins))
    && forall i :: 0 <= i < |plan.restore| ==> StrictlyWithin(plan.restore[i].original, plugins)
  }

  /** The journals that install writes pass the checks of recovery. */
  lemma JournalIsAcceptable(plugins: Path, plan: Plan, d0: Disk)
    requires IsPlan(plan, d0) && FitsIn(plugins, plan)
    ensures IsAcceptable(plugins, plan.upload, JournalOf(plan))
  {
    forall i | 0 <= i < |plan.restore|
      ensures StrictlyWithin(plan.restore[i].backup, plugins) && StrictlyWithin(plan.restore[i].backup, plan.upload)
    {
      assert IsMove(plan, d0, plan.restore[i]);
      assert Backup(plan) <= plan.restore[i].backup;
    }
  }

  /** Recovery leaves the name denied exactly if it was. */
  lemma DeniedAsBefore(plan: Plan, d0: Disk, d: Disk)
    requires IsPlan(plan, d0) && Undoable(plan, d0, d)
    requires plan.hasDenylist && !plan.wasDenied ==> plan.name !in d.denied
    ensures d.denied == d0.denied
  {
    if plan.hasDenylist {
      assert d.denied - {plan.name} == d0.denied - {plan.name};
      assert forall n :: n != plan.name ==> (n in d.denied <==> n in d.denied - {plan.name});
      assert forall n :: n != plan.name ==> (n in d0.denied <==> n in d0.denied - {plan.name});
    }
  }

  // ---- Committing ----

  /** The files of the new version with the record of where it came from. */
  function CommittedFiles(plan: Plan): map<Path, string> {
    NewFiles(plan)[plan.provenance.path := plan.provenance.content]
  }

  /** Outside the target nothing but the old version's files, now aside, and its directory may have gone. */
  ghost predicate Replaced(plan: Plan, d0: Disk, d: Disk) {
    && (forall p :: !InPlan(plan, p) && !IsOriginal(plan, p) ==> SameFile(d0, d, p))
    && (forall p :: !InPlan(plan, p) && Some(p) != plan.oldDir ==> (p in d.dirs <==> p in d0.dirs))
    && AllAside(plan, d)
    && d.denied == Denied(plan, false, d0).denied
  }

  /** The install is being committed: the journal is still there, and the plugin no longer denied. */
  ghost predicate Committing(plan: Plan, d0: Disk, d: Disk)
    requires IsPlan(plan, d0)
  {
    && d.journal == Some(JournalOf(plan))
    && Replaced(plan, d0, d)
    && (forall i :: 0 <= i < |plan.restore| ==> InOnePlace(d0, d, plan.restore[i]))
    && (Holds(plan, d, NewFiles(plan)) || Holds(plan, d, CommittedFiles(plan)))
  }

  /** The install is complete: the new version is in, the old one out. */
  ghost predicate Committed(plan: Plan, d0: Disk, d: Disk) {
    d.journal == None && Replaced(plan, d0, d) && Holds(plan, d, CommittedFiles(plan))
  }

  predicate OldDirIsThere(plan: Plan, d: Disk) {
    plan.oldDir.Some? ==> plan.oldDir.value in d.dirs
  }

  lemma AllowCommits(plan: Plan, d0: Disk, d: Disk)
    requires IsPlan(plan, d0) && Undoable(plan, d0, d) && AllAside(plan, d) && Holds(plan, d, NewFiles(plan))
    ensures Committing(plan, d0, Denied(plan, false, d))
    ensures OldDirIsThere(plan, Denied(plan, false, d))
  {
    if plan.oldDir.Some? {
      ParentsAreThere(plan, d0, d);
      assert Parent(plan.restore[0].original) in d.dirs;
    }
  }

  lemma ProvenanceCommits(plan: Plan, d0: Disk, d: Disk)
    requires IsPlan(plan, d0) && Committing(plan, d0, d) && Holds(plan, d, NewFiles(plan))
    ensures var e := Do(Write(plan.provenance.path, plan.provenance.content), d);
            Committing(plan, d0, e) && Holds(plan, e, CommittedFiles(plan))
  {
    var e := Do(Write(plan.provenance.path, plan.provenance.content), d);
    assert AtOrBelow(plan.provenance.path, plan.target);
    forall i | 0 <= i < |plan.restore|
      ensures InOnePlace(d0, e, plan.restore[i]) && plan.restore[i].original !in e.files
    {
      BackupIsOutside(plan, d0, i);
      assert InOnePlace(d0, d, plan.restore[i]);
    }
  }

  lemma OldDirCommits(plan: Plan, d0: Disk, d: Disk)
    requires IsPlan(plan, d0) && Committing(plan, d0, d) && Holds(plan, d, CommittedFiles(plan)) && plan.oldDir.Some?
    ensures var e := Do(RemoveIfEmpty(plan.oldDir.value), d);
            Committing(plan, d0, e) && Holds(plan, e, CommittedFiles(plan))
  {
    var e := Do(RemoveIfEmpty(plan.oldDir.value), d);
    OldDirIsOutside(plan, d0);
    assert e.files == d.files && forall p :: p != plan.oldDir.value ==> (p in e.dirs <==> p in d.dirs);
    OneDirLess(plan, d0, d, e);
  }

  lemma OneDirLess(plan: Plan, d0: Disk, d: Disk, e: Disk)
    requires IsPlan(plan, d0) && Committing(plan, d0, d) && Holds(plan, d, CommittedFiles(plan)) && plan.oldDir.Some?
    requires e == d.(dirs := e.dirs) && !AtOrBelow(plan.oldDir.value, plan.target)
    requires forall p :: p != plan.oldDir.value ==> (p in e.dirs <==> p in d.dirs)
    ensures Committing(plan, d0, e) && Holds(plan, e, CommittedFiles(plan))
  {
  }

  /** The old version's directory is not below the new one's: it is not empty without it. */
  lemma OldDirIsOutside(plan: Plan, d0: Disk)
    requires IsPlan(plan, d0) && plan.oldDir.Some?
    ensures !AtOrBelow(plan.oldDir.value, plan.target)
  {
    assert IsMove(plan, d0, plan.restore[0]);
    BackupIsOutside(plan, d0, 0);
    assert AtOrBelow(plan.restore[0].original, plan.oldDir.value);
  }

  /** Committing can still be undone just when the plugin was not denied before, and the
      old version's directory has not been removed. */
  lemma CommittingIsUndoable(plan: Plan, d0: Disk, d: Disk)
    requires IsPlan(plan, d0) && Committing(plan, d0, d)
    ensures !plan.wasDenied && OldDirIsThere(plan, d) ==> Undoable(plan, d0, d)
  {
    if !plan.wasDenied && OldDirIsThere(plan, d) {
      if plan.oldDir.Some? {
        assert IsMove(plan, d0, plan.restore[0]) && HasParent(d0, plan.restore[0].original);
      }
    }
  }

  /** Nothing exists at or below the path. */
  ghost predicate GoneBelow(d: Disk, top: Path) {
    forall p :: AtOrBelow(p, top) ==> p !in d.files && p !in d.dirs
  }

  /** There is nothing in the old version's directory but the files moved aside, nor will be. */
  ghost predicate OnlyTheOld(plan: Plan, d0: Disk)
    requires plan.oldDir.Some?
  {
    && !AtOrBelow(plan.target, plan.oldDir.value)
    && forall q :: AtOrBelow(q, plan.oldDir.value) && q != plan.oldDir.value ==>
         q !in d0.dirs && (q in d0.files ==> IsOriginal(plan, q))
  }

  /** The old version's directory is removed exactly if there was nothing else in it. */
  ghost predicate OldDirTidied(plan: Plan, d0: Disk, d: Disk) {
    plan.oldDir.Some? ==> (plan.oldDir.value in d.dirs <==> !OnlyTheOld(plan, d0))
  }

  /** A committed install that has come to its end: nothing is left of the upload. */
  ghost predicate Complete(plan: Plan, d0: Disk, d: Disk) {
    Committed(plan, d0, d) && GoneBelow(d, plan.upload) && OldDirTidied(plan, d0, d)
  }

  lemma OldDirIsApart(plan: Plan, d0: Disk)
    requires IsPlan(plan, d0) && plan.oldDir.Some?
    ensures !AtOrBelow(plan.oldDir.value, plan.upload) && !AtOrBelow(plan.oldDir.value, plan.target)
    ensures plan.oldDir.value in d0.dirs
  {
    OldDirIsOutside(plan, d0);
    var original := plan.restore[0].original;
    assert IsMove(plan, d0, plan.restore[0]) && HasParent(d0, original);
    assert AtOrBelow(original, plan.oldDir.value);
  }

  lemma Comparable(q: Path, a: Path, b: Path)
    requires AtOrBelow(q, a) && AtOrBelow(q, b)
    ensures AtOrBelow(a, b) || AtOrBelow(b, a)
  {
    if |a| <= |b| {
      assert b[..|a|] == q[..|a|] == a;
    } else {
      assert a[..|b|] == q[..|b|] == b;
    }
  }

  /** Something of the upload is still there while the install commits. */
  lemma UploadIsUsed(plan: Plan, d0: Disk, d: Disk)
    requires IsPlan(plan, d0) && Committing(plan, d0, d) && plan.oldDir.Some?
    ensures exists p :: p in d.files && AtOrBelow(p, plan.upload)
  {
    BackupIsOutside(plan, d0, 0);
    assert InOnePlace(d0, d, plan.restore[0]);
  }

  /** What is in the old version's directory now was there before, and stays. */
  lemma InOldDir(plan: Plan, d0: Disk, d: Disk, q: Path)
    requires IsPlan(plan, d0) && Committing(plan, d0, d) && plan.oldDir.Some? && AtOrBelow(q, plan.oldDir.value)
    requires q != plan.oldDir.value && !InPlan(plan, q)
    ensures q in d.dirs <==> q in d0.dirs
    ensures q in d.files <==> q in d0.files && !IsOriginal(plan, q)
  {
    if i :| 0 <= i < |plan.restore| && plan.restore[i].original == q {
      assert plan.restore[i].original !in d.files;
    }
  }

  lemma EmptyMeansOnlyTheOld(plan: Plan, d0: Disk, d: Disk)
    requires IsPlan(plan, d0) && Committing(plan, d0, d) && plan.oldDir.Some? && IsEmptyDir(d, plan.oldDir.value)
    ensures OnlyTheOld(plan, d0)
  {
    var oldDir := plan.oldDir.value;
    OldDirIsApart(plan, d0);
    UploadIsUsed(plan, d0, d);
    assert plan.target in d.dirs;
    assert !AtOrBelow(plan.upload, oldDir) by {
      var p :| p in d.files && AtOrBelow(p, plan.upload);
      assert AtOrBelow(plan.upload, oldDir) ==> AtOrBelow(p, oldDir);
    }
    forall q | AtOrBelow(q, oldDir) && q != oldDir ensures q !in d0.dirs && (q in d0.files ==> IsOriginal(plan, q)) {
      if AtOrBelow(q, plan.target) {
        Comparable(q, plan.target, oldDir);
      } else if AtOrBelow(q, plan.upload) {
        Comparable(q, plan.upload, oldDir);
      } else {
        InOldDir(plan, d0, d, q);
      }
    }
  }

  lemma OnlyTheOldMeansEmpty(plan: Plan, d0: Disk, d: Disk)
    requires IsPlan(plan, d0) && Committing(plan, d0, d) && plan.oldDir.Some? && OldDirIsThere(plan, d)
    requires OnlyTheOld(plan, d0)
    ensures IsEmptyDir(d, plan.oldDir.value)
  {
    var oldDir := plan.oldDir.value;
    OldDirIsApart(plan, d0);
    forall q | AtOrBelow(q, oldDir) && q != oldDir ensures q !in d.files && q !in d.dirs {
      if AtOrBelow(q, plan.target) {
        Comparable(q, plan.target, oldDir);
      } else if AtOrBelow(q, plan.upload) {
        Comparable(q, plan.upload, oldDir);
      } else {
        InOldDir(plan, d0, d, q);
      }
    }
  }

  /** Removing the old version's directory if it is empty removes it exactly if there was
      nothing else in it. */
  lemma OldDirIsTidied(plan: Plan, d0: Disk, d: Disk)
    requires IsPlan(plan, d0) && Committing(plan, d0, d) && plan.oldDir.Some? && OldDirIsThere(plan, d)
    ensures OldDirTidied(plan, d0, Do(RemoveIfEmpty(plan.oldDir.value), d))
  {
    if OnlyTheOld(plan, d0) {
      OnlyTheOldMeansEmpty(plan, d0, d);
    } else if IsEmptyDir(d, plan.oldDir.value) {
      EmptyMeansOnlyTheOld(plan, d0, d);
    }
  }

  /** With the journal dropped, removing the upload completes the install. */
  lemma DiscardCompletes(plan: Plan, d0: Disk, d: Disk)
    requires IsPlan(plan, d0) && Committed(plan, d0, d) && OldDirTidied(plan, d0, d)
    ensures Complete(plan, d0, Do(RemoveAll(plan.upload), d))
  {
    UploadRemovalKeeps(plan, d0, d, Do(RemoveAll(plan.upload), d));
    if plan.oldDir.Some? { OldDirIsApart(plan, d0); }
  }

  lemma UploadRemovalKeeps(plan: Plan, d0: Disk, d: Disk, d': Disk)
    requires IsPlan(plan, d0) && Committed(plan, d0, d) && Torn(RemoveAll(plan.upload), d, d')
    ensures Committed(plan, d0, d')
  {
    UploadIsApart(plan, d0);
  }

  lemma UploadIsApart(plan: Plan, d0: Disk)
    requires IsPlan(plan, d0)
    ensures forall p :: AtOrBelow(p, plan.target) ==> !AtOrBelow(p, plan.upload)
  {
  }

  /** With the old version's directory removed, there is nowhere to move its files back to. */
  lemma MoveBackThrows(plan: Plan, d0: Disk, d: Disk)
    requires IsPlan(plan, d0) && Committing(plan, d0, d) && !OldDirIsThere(plan, d)
    ensures plan.restore != [] && MovedOne(plan.restore[0], Do(RemoveAll(plan.target), d)).None?
  {
    assert IsMove(plan, d0, plan.restore[0]);
    BackupIsOutside(plan, d0, 0);
    assert InOnePlace(d0, d, plan.restore[0]);
  }

  /** How an install ends. */
  datatype Ending = Installed | LoadFailed | CrashedInstalling | CrashedRollingBack | CrashedCommitting

  class Server {
    const plugins: Path
    const hasDenylist: bool
    var disk: Disk
    var up: bool

    constructor (plugins: Path, hasDenylist: bool, disk: Disk)
      ensures up && this.disk == disk && this.plugins == plugins && this.hasDenylist == hasDenylist
    {
      this.plugins, this.hasDenylist, this.disk, up := plugins, hasDenylist, disk, true;
    }

    /** Does one thing to the disk, or crashes over it; a server that is down does nothing. */
    method Act(a: Action)
      requires up ==> Can(a, disk)
      modifies this
      ensures !old(up) ==> !up && disk == old(disk)
      ensures old(up) && up ==> disk == Do(a, old(disk))
      ensures old(up) ==> Torn(a, old(disk), disk)
    {
      if up {
        var crash: bool := *;
        if !crash {
          disk := Do(a, disk);
        } else {
          up := false;
          var complete: bool := *;
          if complete {
            disk := Do(a, disk);
          } else if a.RemoveAll? {
            var files: set<Path> := *;
            var dirs: set<Path> := *;
            disk := disk.(
              files := map p | p in disk.files && !(p in files && AtOrBelow(p, a.path)) :: disk.files[p],
              dirs := set p | p in disk.dirs && !(p in dirs && AtOrBelow(p, a.path)));
          }
        }
      }
    }

    /** The disk can be restored, and until a journal says so nothing has been done to it. */
    ghost predicate Safe(plan: Plan, d0: Disk)
      requires IsPlan(plan, d0)
      reads this
    {
      Restorable(plan, d0, disk) && (up ==> Undoable(plan, d0, disk))
    }

    // ---- Installing ----

    method ActOnTarget(a: Action, plan: Plan, ghost d0: Disk)
      requires IsPlan(plan, d0) && Safe(plan, d0) && IsTargetAction(plan, a)
      requires up ==> Can(a, disk)
      modifies this
      ensures Safe(plan, d0) && (up ==> old(up) && disk == Do(a, old(disk)))
    {
      ghost var before := disk;
      ghost var wasUp := up;
      Act(a);
      if wasUp {
        TargetActionKeeps(plan, d0, a, before, disk);
      }
    }

    method SetDenied(denied: bool, plan: Plan, ghost d0: Disk)
      requires IsPlan(plan, d0) && Safe(plan, d0) && hasDenylist == plan.hasDenylist
      requires denied || !plan.wasDenied
      modifies this
      ensures Safe(plan, d0) && (up ==> old(up) && disk == Denied(plan, denied, old(disk)))
    {
      if hasDenylist {
        ghost var before := disk;
        ghost var wasUp := up;
        var a := if denied then Deny(plan.name) else Allow(plan.name);
        Act(a);
        if wasUp {
          DenyKeeps(plan, d0, before, a, disk);
        }
      }
    }

    /** Moves one file between its two places. */
    method MoveFile(i: nat, aside: bool, plan: Plan, ghost d0: Disk)
      requires IsPlan(plan, d0) && Safe(plan, d0) && i < |plan.restore|
      requires up ==> Can(MoveOf(plan.restore[i], aside), disk)
      modifies this
      ensures Safe(plan, d0)
      ensures up ==> old(up) && disk == Do(MoveOf(plan.restore[i], aside), old(disk))
      ensures up ==> forall j :: 0 <= j < |plan.restore| && j != i ==>
                (plan.restore[j].original in disk.files <==> plan.restore[j].original in old(disk.files))
    {
      ghost var before := disk;
      ghost var wasUp := up;
      var a := MoveOf(plan.restore[i], aside);
      Act(a);
      if wasUp {
        MoveKeeps(plan, d0, before, i, a, disk);
      }
    }

    /** Moves the old version's files aside. */
    method SetAside(plan: Plan, ghost d0: Disk)
      requires IsPlan(plan, d0) && Safe(plan, d0)
      requires up ==> AllBack(plan, disk) && TargetGone(plan, disk)
      requires up && plan.restore != [] ==> Backup(plan) in disk.dirs
      modifies this
      ensures Safe(plan, d0)
      ensures up ==> old(up) && AllAside(plan, disk) && TargetGone(plan, disk) && disk.denied == old(disk.denied)
    {
      var k := 0;
      while k < |plan.restore|
        invariant k <= |plan.restore| && Safe(plan, d0)
        invariant up ==> old(up) && disk.dirs == old(disk.dirs) && disk.denied == old(disk.denied)
        invariant up ==> TargetGone(plan, disk)
        invariant up ==> forall j :: 0 <= j < k ==> plan.restore[j].original !in disk.files
        invariant up ==> forall j :: k <= j < |plan.restore| ==> plan.restore[j].original in disk.files
      {
        assert IsMove(plan, d0, plan.restore[k]);
        BackupIsOutside(plan, d0, k);
        MoveFile(k, true, plan, d0);
        k := k + 1;
      }
    }

    /** Writes the new version under names discovery does not see, then renames it. */
    method WriteNewVersion(plan: Plan, ghost d0: Disk)
      requires IsPlan(plan, d0) && Safe(plan, d0)
      modifies this
      ensures Safe(plan, d0) && (up ==> old(up) && disk == NewVersion(plan, old(disk)))
    {
      if up { ParentsAreThere(plan, d0, disk); }
      var library := plan.library;
      ActOnTarget(MakeDir(plan.target), plan, d0);
      ActOnTarget(Write(Part(library.path), library.content), plan, d0);
      if plan.manifest.Some? {
        var manifest := plan.manifest.value;
        ActOnTarget(Write(Part(manifest.path), manifest.content), plan, d0);
        ActOnTarget(Rename(Part(library.path), library.path), plan, d0);
        ActOnTarget(Rename(Part(manifest.path), manifest.path), plan, d0);
      } else {
        ActOnTarget(Rename(Part(library.path), library.path), plan, d0);
      }
    }

    /** The journal, the denial and the backup of the old version. */
    method Prepare(plan: Plan, ghost d0: Disk)
      requires IsPlan(plan, d0) && up && disk == d0 && hasDenylist == plan.hasDenylist
      modifies this
      ensures Safe(plan, d0)
      ensures up ==> AllAside(plan, disk) && TargetGone(plan, disk)
      ensures up && hasDenylist ==> plan.name in disk.denied
    {
      JournaledIsUndoable(plan, d0);
      Act(WriteJournal(JournalOf(plan)));
      SetDenied(true, plan, d0);
      if plan.restore != [] {
        ActOnTarget(MakeDir(Backup(plan)), plan, d0);
      }
      SetAside(plan, d0);
    }

    /** Everything from the journal up to the load attempt; the plugin is denied while it loads. */
    method InstallFiles(plan: Plan, ghost d0: Disk)
      requires IsPlan(plan, d0) && up && disk == d0 && hasDenylist == plan.hasDenylist
      modifies this
      ensures Safe(plan, d0)
      ensures up ==> AllAside(plan, disk) && Holds(plan, disk, NewFiles(plan))
      ensures up && hasDenylist ==> plan.name in disk.denied
    {
      Prepare(plan, d0);
      ghost var aside := disk;
      WriteNewVersion(plan, d0);
      ActOnTarget(Load, plan, d0);
      if up {
        NewVersionHolds(plan, d0, aside);
        NewVersionKeepsAside(plan, d0, aside);
      }
    }

    // ---- Undoing ----

    /** Moves one backup back if it is there; false where that throws. */
    method MoveOneBack(m: Move, i: nat, ghost undoable: bool, ghost plan: Plan, ghost d0: Disk) returns (ok: bool)
      requires undoable ==> IsPlan(plan, d0) && Safe(plan, d0) && i < |plan.restore| && plan.restore[i] == m
      modifies this
      ensures undoable ==> Safe(plan, d0)
      ensures up ==> old(up) && ok == MovedOne(m, old(disk)).Some? && (ok ==> disk == MovedOne(m, old(disk)).value)
      ensures !ok ==> disk == old(disk) && up == old(up)
    {
      if m.backup in disk.files {
        if !Can(MoveOf(m, false), disk) {
          return false;
        }
        ghost var before := disk;
        ghost var wasUp := up;
        Act(MoveOf(m, false));
        if undoable && wasUp {
          MoveKeeps(plan, d0, before, i, MoveOf(m, false), disk);
        }
      }
      return true;
    }

    /** Moves the backups back, as far as they are there; false where that throws. */
    method MoveBack(restore: seq<Move>, ghost undoable: bool, ghost plan: Plan, ghost d0: Disk) returns (ok: bool)
      requires undoable ==> IsPlan(plan, d0) && Safe(plan, d0) && restore == plan.restore
      requires undoable && up ==> TargetGone(plan, disk)
      modifies this
      ensures undoable ==> Safe(plan, d0)
      ensures undoable && up ==> ok && Undoing(plan, d0, old(disk.denied), disk, |restore|)
      ensures up ==> old(up) && disk.denied == old(disk.denied)
      ensures up && ok && restore != [] ==> MovedOne(restore[0], old(disk)).Some?
    {
      var k := 0;
      while k < |restore|
        invariant k <= |restore| && (undoable ==> Safe(plan, d0))
        invariant undoable && up ==> Undoing(plan, d0, old(disk.denied), disk, k)
        invariant up ==> old(up) && disk.denied == old(disk.denied) && (k == 0 ==> disk == old(disk))
        invariant up && k > 0 ==> MovedOne(restore[0], old(disk)).Some?
      {
        if undoable && up { OneMovesBack(plan, d0, old(disk.denied), disk, k); }
        ok := MoveOneBack(restore[k], k, undoable, plan, d0);
        if !ok {
          return;
        }
        k := k + 1;
      }
      return true;
    }

    /** Removes the new version's directory. */
    method ClearTarget(created: Path, ghost undoable: bool, ghost plan: Plan, ghost d0: Disk)
      requires undoable ==> IsPlan(plan, d0) && Safe(plan, d0) && created == plan.target
      modifies this
      ensures undoable ==> Safe(plan, d0) && (up ==> TargetGone(plan, disk))
      ensures up ==> old(up) && disk == Do(RemoveAll(created), old(disk))
    {
      ghost var before := disk;
      ghost var wasUp := up;
      Act(RemoveAll(created));
      if undoable && wasUp {
        TargetActionKeeps(plan, d0, RemoveAll(created), before, disk);
      }
    }

    /** Removes the backup directory once every file is back. */
    method ClearBackup(upload: Path, ghost undoable: bool, ghost plan: Plan, ghost d0: Disk)
      requires undoable ==> IsPlan(plan, d0) && Safe(plan, d0) && upload == plan.upload
      requires undoable && up ==> AllBack(plan, disk) && TargetGone(plan, disk)
      modifies this
      ensures undoable ==> Safe(plan, d0) && (up ==> AllBack(plan, disk) && TargetGone(plan, disk))
      ensures up ==> old(up) && disk.denied == old(disk.denied) && GoneBelow(disk, upload + ["previous"])
    {
      ghost var before := disk;
      ghost var wasUp := up;
      Act(RemoveAll(upload + ["previous"]));
      if undoable && wasUp {
        BackupRemovalKeeps(plan, d0, before, disk);
      }
    }

    /** Removes the journal of an install that has been undone. */
    method DropJournal(ghost undoable: bool, ghost plan: Plan, ghost d0: Disk)
      requires undoable ==> IsPlan(plan, d0) && Safe(plan, d0)
      requires undoable && up ==> AllBack(plan, disk) && TargetGone(plan, disk) && disk.denied == d0.denied
      modifies this
      ensures undoable ==> Restorable(plan, d0, disk) && (up ==> Restored(plan, d0, disk))
      ensures up ==> old(up) && disk == Do(RemoveJournal, old(disk))
    {
      if undoable && up {
        UndoneIsRestored(plan, d0, disk);
      }
      Act(RemoveJournal);
    }

    /** Undoes the install a journal tells of; false where that throws and the journal stays. */
    method RecoverOne(upload: Path, j: Journal, ghost undoable: bool, ghost plan: Plan, ghost d0: Disk)
      returns (ok: bool)
      requires undoable ==> IsPlan(plan, d0) && Safe(plan, d0) && FitsIn(plugins, plan)
      requires undoable ==> hasDenylist == plan.hasDenylist
      requires undoable ==> j == JournalOf(plan) && upload == plan.upload
      modifies this
      ensures undoable ==> Restorable(plan, d0, disk) && (up ==> ok && Restored(plan, d0, disk))
      ensures up && ok ==>
                disk.denied == if hasDenylist && !j.wasDenied then old(disk.denied) - {j.name} else old(disk.denied)
      ensures up && ok && j.restore != [] ==> MovedOne(j.restore[0], Do(RemoveAll(j.created), old(disk))).Some?
      ensures up && ok ==> disk.journal.None? && disk.marked && GoneBelow(disk, upload + ["previous"])
    {
      if undoable { JournalIsAcceptable(plugins, plan, d0); }
      if !IsAcceptable(plugins, upload, j) {
        return false;
      }
      ClearTarget(j.created, undoable, plan, d0);
      ok := MoveBack(j.restore, undoable, plan, d0);
      if !ok {
        return false;
      }
      AllowAgain(j, undoable, plan, d0);
      ClearBackup(upload, undoable, plan, d0);
      Note(undoable, plan, d0);
      DropJournal(undoable, plan, d0);
      return true;
    }

    /** Takes the plugin off the denylist, unless it was on it. */
    method AllowAgain(j: Journal, ghost undoable: bool, ghost plan: Plan, ghost d0: Disk)
      requires undoable ==> IsPlan(plan, d0) && Safe(plan, d0)
      requires undoable ==> hasDenylist == plan.hasDenylist && j == JournalOf(plan)
      modifies this
      ensures undoable ==> Safe(plan, d0) && (up ==> disk.denied == d0.denied)
      ensures up ==> old(up) && disk == if hasDenylist && !j.wasDenied then Do(Allow(j.name), old(disk)) else old(disk)
    {
      ghost var before := disk;
      ghost var wasUp := up;
      if hasDenylist && !j.wasDenied {
        Act(Allow(j.name));
        if undoable && wasUp {
          DenyKeeps(plan, d0, before, Allow(j.name), disk);
        }
      }
      if undoable && up {
        DeniedAsBefore(plan, d0, disk);
      }
    }

    /** Notes in the upload's record that its install crashed. */
    method Note(ghost undoable: bool, ghost plan: Plan, ghost d0: Disk)
      requires undoable ==> IsPlan(plan, d0) && Safe(plan, d0)
      modifies this
      ensures undoable ==> Safe(plan, d0)
      ensures up ==> old(up) && disk == Do(MarkUpload, old(disk))
    {
      ghost var before := disk;
      ghost var wasUp := up;
      Act(MarkUpload);
      if undoable && wasUp {
        TargetActionKeeps(plan, d0, MarkUpload, before, disk);
      }
    }

    /** Undoes an install whose new version did not load. */
    method Rollback(plan: Plan, ghost d0: Disk)
      requires IsPlan(plan, d0) && Safe(plan, d0) && hasDenylist == plan.hasDenylist
      modifies this
      ensures Restorable(plan, d0, disk) && (up ==> Restored(plan, d0, disk) && GoneBelow(disk, Backup(plan)))
    {
      ClearTarget(plan.target, true, plan, d0);
      var ok := MoveBack(plan.restore, true, plan, d0);
      SetDenied(plan.wasDenied, plan, d0);
      if up { DeniedAsBefore(plan, d0, disk); }
      DropJournal(true, plan, d0);
      assert AtOrBelow(Backup(plan), plan.upload);
      Tidy(Backup(plan), plan, d0);
    }

    /** Removes what is left in the upload's directory. */
    method Tidy(p: Path, plan: Plan, ghost d0: Disk)
      requires AtOrBelow(p, plan.upload)
      modifies this
      ensures up ==> old(up) && GoneBelow(disk, p)
      ensures !old(up) ==> disk == old(disk)
      ensures Restored(plan, d0, old(disk)) ==> Restored(plan, d0, disk)
    {
      assert forall q :: AtOrBelow(q, p) ==> AtOrBelow(q, plan.upload);
      Act(RemoveAll(p));
    }

    /** Commits an install whose new version has loaded. */
    method Commit(plan: Plan, ghost d0: Disk)
      requires IsPlan(plan, d0) && up && Undoable(plan, d0, disk) && hasDenylist == plan.hasDenylist
      requires AllAside(plan, disk) && Holds(plan, disk, NewFiles(plan))
      modifies this
      ensures up ==> Complete(plan, d0, disk)
      ensures Undoable(plan, d0, disk) || Committing(plan, d0, disk) || Committed(plan, d0, disk)
    {
      AllowCommits(plan, d0, disk);
      if hasDenylist { Act(Allow(plan.name)); }
      if up { Record(plan, d0); }
      if up { Conclude(plan, d0); }
    }

    /** Drops the journal: from here on the install stands. */
    method Conclude(plan: Plan, ghost d0: Disk)
      requires IsPlan(plan, d0) && up && Committing(plan, d0, disk) && Holds(plan, disk, CommittedFiles(plan))
      requires OldDirTidied(plan, d0, disk)
      modifies this
      ensures up ==> Complete(plan, d0, disk)
      ensures Committing(plan, d0, disk) || Committed(plan, d0, disk)
    {
      Act(RemoveJournal);
      if up { Discard(plan, d0); }
    }

    /** Records where the new version came from, and removes the old one's directory if empty. */
    method Record(plan: Plan, ghost d0: Disk)
      requires IsPlan(plan, d0) && up && Committing(plan, d0, disk) && Holds(plan, disk, NewFiles(plan))
      requires OldDirIsThere(plan, disk)
      modifies this
      ensures Committing(plan, d0, disk)
      ensures up ==> Holds(plan, disk, CommittedFiles(plan)) && OldDirTidied(plan, d0, disk)
    {
      ProvenanceCommits(plan, d0, disk);
      Act(Write(plan.provenance.path, plan.provenance.content));
      if up && plan.oldDir.Some? {
        OldDirCommits(plan, d0, disk);
        OldDirIsTidied(plan, d0, disk);
        Act(RemoveIfEmpty(plan.oldDir.value));
      }
    }

    /** Removes the upload with the backup of the old version. */
    method Discard(plan: Plan, ghost d0: Disk)
      requires IsPlan(plan, d0) && up && Committed(plan, d0, disk) && OldDirTidied(plan, d0, disk)
      modifies this
      ensures Committed(plan, d0, disk) && (up ==> Complete(plan, d0, disk))
    {
      ghost var before := disk;
      Act(RemoveAll(plan.upload));
      UploadRemovalKeeps(plan, d0, before, disk);
      DiscardCompletes(plan, d0, before);
    }

    /** Installs: journal, backup, new version, load attempt; then commit, or rollback. */
    method Install(plan: Plan, loads: bool, ghost d0: Disk) returns (outcome: Ending)
      requires IsPlan(plan, d0) && up && disk == d0 && hasDenylist == plan.hasDenylist
      modifies this
      ensures up <==> outcome in {Installed, LoadFailed}
      ensures outcome == Installed ==> loads && Complete(plan, d0, disk)
      ensures outcome == LoadFailed ==> !loads && Restored(plan, d0, disk) && GoneBelow(disk, Backup(plan))
      ensures outcome in {CrashedInstalling, CrashedRollingBack} ==> Restorable(plan, d0, disk)
      ensures outcome == CrashedCommitting ==>
                Undoable(plan, d0, disk) || Committing(plan, d0, disk) || Committed(plan, d0, disk)
    {
      InstallFiles(plan, d0);
      if !up { return CrashedInstalling; }
      if !loads {
        Rollback(plan, d0);
        return if up then LoadFailed else CrashedRollingBack;
      }
      Commit(plan, d0);
      return if up then Installed else CrashedCommitting;
    }

    // ---- Starting again ----

    /** What a start does about an install that was interrupted. */
    method RecoverInterrupted(upload: Path, ghost undoable: bool, ghost plan: Plan, ghost d0: Disk) returns (ok: bool)
      requires undoable ==> IsPlan(plan, d0) && FitsIn(plugins, plan) && hasDenylist == plan.hasDenylist
      requires undoable ==> Restorable(plan, d0, disk) && upload == plan.upload
      modifies this
      ensures undoable ==> Restorable(plan, d0, disk) && (up ==> ok && Restored(plan, d0, disk))
      ensures up && ok && old(disk.journal).Some? ==>
                var j := old(disk.journal).value;
                && disk.denied ==
                   (if hasDenylist && !j.wasDenied then old(disk.denied) - {j.name} else old(disk.denied))
                && (j.restore != [] ==> MovedOne(j.restore[0], Do(RemoveAll(j.created), old(disk))).Some?)
    {
      ok := true;
      if disk.journal.Some? {
        ok := RecoverOne(upload, disk.journal.value, undoable, plan, d0);
      }
    }

    /** Starts the server again and again; any start but the last may crash as well. */
    method Restart(times: nat, plan: Plan, ghost d0: Disk)
      requires IsPlan(plan, d0) && FitsIn(plugins, plan) && hasDenylist == plan.hasDenylist
      requires Restorable(plan, d0, disk)
      modifies this
      ensures Restorable(plan, d0, disk) && (up && times > 0 ==> Restored(plan, d0, disk))
    {
      var i := 0;
      while i < times
        invariant i <= times && Restorable(plan, d0, disk)
        invariant up && i > 0 ==> Restored(plan, d0, disk)
      {
        up := true;
        var ok := RecoverInterrupted(plan.upload, true, plan, d0);
        i := i + 1;
      }
    }

    /**
     Crash atomicity: whatever the crash interrupts up to the load attempt or in the
     rollback, once the server has started without crashing again the plugin files and
     the denylist are exactly as before.
    */
    method InstallAndRestart(plan: Plan, loads: bool, times: nat, ghost d0: Disk) returns (outcome: Ending)
      requires IsPlan(plan, d0) && FitsIn(plugins, plan) && hasDenylist == plan.hasDenylist
      requires up && disk == d0
      modifies this
      ensures outcome == Installed ==> Complete(plan, d0, disk)
      ensures outcome == LoadFailed ==> Restored(plan, d0, disk) && GoneBelow(disk, Backup(plan))
      ensures outcome in {CrashedInstalling, CrashedRollingBack} && times > 0 && up ==> Restored(plan, d0, disk)
    {
      outcome := Install(plan, loads, d0);
      if outcome in {CrashedInstalling, CrashedRollingBack} {
        Restart(times, plan, d0);
      }
    }

    /**
     In the commit window the promise does not hold in general: recovery restores
     everything just when the plugin was not denied before the install and the old
     version's directory has not been removed.
    */
    method RestartCommitting(plan: Plan, ghost d0: Disk) returns (ok: bool)
      requires IsPlan(plan, d0) && FitsIn(plugins, plan) && hasDenylist == plan.hasDenylist
      requires Committing(plan, d0, disk)
      modifies this
      ensures up ==> (ok && Restored(plan, d0, disk) <==> !plan.wasDenied && OldDirIsThere(plan, old(disk)))
    {
      CommittingIsUndoable(plan, d0, disk);
      ghost var undoable := !plan.wasDenied && OldDirIsThere(plan, disk);
      if !OldDirIsThere(plan, disk) { MoveBackThrows(plan, d0, disk); }
      up := true;
      ok := RecoverInterrupted(plan.upload, undoable, plan, d0);
    }
  }
}
