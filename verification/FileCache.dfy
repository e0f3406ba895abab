/** The cache of loaded files and the disk under it, which other processes write to at any
    moment, also between a stat and the read that follows it. */
module FileCache {
  import opened Options

  // ----- the disk -----

  datatype File = File(content: string, mtime: nat)

  /** `clock` is the time of the last write anywhere. */
  datatype Disk = Disk(files: map<string, File>, clock: nat)

  datatype Edit = Put(path: string, content: string) | Delete(path: string)

  /** Every write moves the clock, so it gives the file an mtime it never had before. */
  function Edited(d: Disk, e: Edit): Disk {
    match e
    case Put(path, content) => Disk(d.files[path := File(content, d.clock + 1)], d.clock + 1)
    case Delete(path) => d.(files := map p | p in d.files && p != path :: d.files[p])
  }

  function After(d: Disk, edits: seq<Edit>): Disk
    decreases |edits|
  {
    if edits == [] then d else Edited(After(d, edits[..|edits| - 1]), edits[|edits| - 1])
  }

  predicate Dated(d: Disk) {
    forall p :: p in d.files ==> d.files[p].mtime <= d.clock
  }

  // ----- cache entries -----

  /** An entry of the older kind has no mtime. */
  datatype Entry = Entry(content: string, mtime: Option<nat>)

  /** An entry whose mtime is that of the file holds what the file holds; and no mtime lies
      in the future. */
  predicate Trustworthy(e: Entry, path: string, d: Disk) {
    e.mtime.Some? ==> e.mtime.value <= d.clock
                      && (path in d.files && d.files[path].mtime == e.mtime.value ==>
                            d.files[path].content == e.content)
  }

  predicate AllTrustworthy(files: map<string, Entry>, d: Disk) {
    forall p :: p in files ==> Trustworthy(files[p], p, d)
  }

  lemma EditKeepsTrust(e: Entry, path: string, d: Disk, edit: Edit)
    requires Trustworthy(e, path, d) && Dated(d)
    ensures Trustworthy(e, path, Edited(d, edit)) && Dated(Edited(d, edit)) && d.clock <= Edited(d, edit).clock
  {
  }

  /** Whatever others write, an entry that could be trusted can still be trusted: it is
      right, or its mtime shows that it is not. */
  lemma {:induction false} EditsKeepTrust(e: Entry, path: string, d: Disk, edits: seq<Edit>)
    requires Trustworthy(e, path, d) && Dated(d)
    ensures Trustworthy(e, path, After(d, edits)) && Dated(After(d, edits)) && d.clock <= After(d, edits).clock
    decreases |edits|
  {
    if edits != [] {
      EditsKeepTrust(e, path, d, edits[..|edits| - 1]);
      EditKeepsTrust(e, path, After(d, edits[..|edits| - 1]), edits[|edits| - 1]);
    }
  }

  // ----- one file looked at -----

  /** What happens around one look at a file: edits before the first system call and
      between the two, and whether the calls fail. */
  datatype Look = Look(before: seq<Edit>, between: seq<Edit>, statFails: bool, readFails: bool)

  function StatOf(d: Disk, path: string, fails: bool): Option<nat> {
    if fails || path !in d.files then None else Some(d.files[path].mtime)
  }

  function ReadOf(d: Disk, path: string, fails: bool): Option<string> {
    if fails || path !in d.files then None else Some(d.files[path].content)
  }

  datatype Outcome = Skipped | Reused | Refreshed(entry: Entry)

  /** Stat first, read only when the mtime differs, stamp with the mtime of the stat. */
  function Looked(cached: Option<Entry>, path: string, d: Disk, look: Look): (Outcome, Disk) {
    var first := After(d, look.before);
    match StatOf(first, path, look.statFails)
    case None => (Skipped, first)
    case Some(mtime) =>
      if cached.Some? && cached.value.mtime == Some(mtime) then (Reused, first)
      else
        var second := After(first, look.between);
        match ReadOf(second, path, look.readFails)
        case None => (Reused, second)
        case Some(content) => (Refreshed(Entry(content, Some(mtime))), second)
  }

  lemma {:induction false} EditsKeepDated(d: Disk, edits: seq<Edit>)
    requires Dated(d)
    ensures Dated(After(d, edits)) && d.clock <= After(d, edits).clock
    decreases |edits|
  {
    if edits != [] { EditsKeepDated(d, edits[..|edits| - 1]); }
  }

  /** A look leaves the entry trustworthy, whatever is written between the stat and the
      read; and if both calls went through, with the content the file had at the end. */
  lemma LookKeepsTrust(cached: Option<Entry>, path: string, d: Disk, look: Look)
    requires Dated(d) && (cached.Some? ==> Trustworthy(cached.value, path, d))
    ensures var (outcome, after) := Looked(cached, path, d, look);
            && Dated(after) && d.clock <= after.clock
            && (outcome.Refreshed? ==>
                  Trustworthy(outcome.entry, path, after) && ReadOf(after, path, false) == Some(outcome.entry.content))
            && (cached.Some? ==> Trustworthy(cached.value, path, after))
            && (cached.Some? && outcome.Reused? && !look.readFails && path in after.files ==>
                  after.files[path].content == cached.value.content)
  {
    var first := After(d, look.before);
    EditsKeepDated(d, look.before);
    EditsKeepDated(first, look.between);
    if cached.Some? {
      EditsKeepTrust(cached.value, path, d, look.before);
      EditsKeepTrust(cached.value, path, first, look.between);
    }
  }

  // ----- refreshing the whole cache -----

  function Updated(files: map<string, Entry>, path: string, outcome: Outcome): map<string, Entry> {
    if outcome.Refreshed? then files[path := outcome.entry] else files
  }

  datatype Refresh = Refresh(files: map<string, Entry>, disk: Disk, refreshed: seq<string>, reused: seq<string>)

  function Noted(r: Refresh, path: string, outcome: Outcome, disk: Disk): Refresh {
    match outcome
    case Skipped => r.(disk := disk)
    case Reused => r.(disk := disk, reused := r.reused + [path])
    case Refreshed(entry) => r.(files := r.files[path := entry], disk := disk, refreshed := r.refreshed + [path])
  }

  function LookedInto(r: Refresh, path: string, look: Look): Refresh {
    var (outcome, after) := Looked(Lookup(r.files, path), path, r.disk, look);
    Noted(r, path, outcome, after)
  }

  /** Cache, disk and report after the first `n` paths have been looked at. */
  function RefreshRun(files: map<string, Entry>, d: Disk, paths: seq<string>, looks: nat -> Look, n: nat): Refresh
    requires n <= |paths|
  {
    if n == 0 then Refresh(files, d, [], [])
    else
      LookedInto(RefreshRun(files, d, paths, looks, n - 1), paths[n - 1], looks(n - 1))
  }

  function Lookup(files: map<string, Entry>, path: string): Option<Entry> {
    if path in files then Some(files[path]) else None
  }

  lemma {:induction false} RefreshKeepsTrust(files: map<string, Entry>, d: Disk, paths: seq<string>, looks: nat -> Look,
                                             n: nat)
    requires n <= |paths| && (forall p :: p in paths ==> p in files) && AllTrustworthy(files, d) && Dated(d)
    ensures var r := RefreshRun(files, d, paths, looks, n);
            && AllTrustworthy(r.files, r.disk) && Dated(r.disk) && r.files.Keys == files.Keys
            && forall p :: p in files && p !in r.refreshed ==> r.files[p] == files[p]
  {
    if n > 0 {
      RefreshKeepsTrust(files, d, paths, looks, n - 1);
      var r, path := RefreshRun(files, d, paths, looks, n - 1), paths[n - 1];
      assert path in paths;
      var (outcome, after) := Looked(Some(r.files[path]), path, r.disk, looks(n - 1));
      LookKeepsTrust(Some(r.files[path]), path, r.disk, looks(n - 1));
      forall p | p in r.files ensures Trustworthy(r.files[p], p, after) {
        LookKeepsTrustOfOthers(r.files[p], p, r.files[path], path, r.disk, looks(n - 1));
      }
    }
  }

  lemma LookKeepsTrustOfOthers(e: Entry, p: string, cached: Entry, path: string, d: Disk, look: Look)
    requires Trustworthy(e, p, d) && Dated(d)
    ensures Trustworthy(e, p, Looked(Some(cached), path, d, look).1)
  {
    EditsKeepTrust(e, p, d, look.before);
    EditsKeepDated(d, look.before);
    EditsKeepTrust(e, p, After(d, look.before), look.between);
  }

  predicate Undisturbed(looks: nat -> Look, n: nat) {
    forall i :: 0 <= i < n ==> looks(i).before == [] && looks(i).between == []
  }

  lemma UndisturbedLook(r: Refresh, path: string, look: Look)
    requires look.before == [] && look.between == [] && path in r.files
    ensures var next := LookedInto(r, path, look);
            var mtime := if path in r.disk.files then Some(r.disk.files[path].mtime) else None;
            && next.disk == r.disk && next.files.Keys == r.files.Keys
            && (forall other :: other in r.files && other != path ==> next.files[other] == r.files[other])
            && (mtime.None? || look.statFails || look.readFails || r.files[path].mtime == mtime ==>
                  next.files[path] == r.files[path])
            && (mtime.Some? && !look.statFails && !look.readFails && r.files[path].mtime != mtime ==>
                  next.files[path].content == r.disk.files[path].content)
  {
  }

  /** What a refresh leaves in an entry when nobody else writes: the content on disk if
      both calls go through, and otherwise, as for a file that is gone, the old entry. */
  lemma {:induction false} RefreshReadsDisk(files: map<string, Entry>, d: Disk, paths: seq<string>, looks: nat -> Look,
                                            n: nat, i: nat)
    requires n <= |paths| && (forall p :: p in paths ==> p in files) && AllTrustworthy(files, d)
    requires Undisturbed(looks, n) && forall j, k :: 0 <= j < k < |paths| ==> paths[j] != paths[k]
    requires i < |paths|
    ensures var r := RefreshRun(files, d, paths, looks, n);
            && r.disk == d && r.files.Keys == files.Keys
            && if i < n && paths[i] in d.files && !looks(i).statFails && !looks(i).readFails
               then r.files[paths[i]].content == d.files[paths[i]].content
               else r.files[paths[i]] == files[paths[i]]
  {
    if n > 0 {
      var r, last := RefreshRun(files, d, paths, looks, n - 1), paths[n - 1];
      RefreshReadsDisk(files, d, paths, looks, n - 1, i);
      assert last in paths && paths[i] in paths;
      UndisturbedLook(r, last, looks(n - 1));
      if i == n - 1 { assert Trustworthy(files[last], last, d); }
    }
  }

  /** The entry of a file that changed between the read and the stat of its own marking:
      wrong content under the right mtime. No later refresh notices. */
  lemma {:induction false} RacedEntryGoesUnnoticed(files: map<string, Entry>, d: Disk, paths: seq<string>,
                                                   looks: nat -> Look, n: nat, path: string)
    requires n <= |paths| && (forall p :: p in paths ==> p in files) && Undisturbed(looks, n)
    requires path in files && path in d.files && files[path].mtime == Some(d.files[path].mtime)
             && files[path].content != d.files[path].content
    ensures var r := RefreshRun(files, d, paths, looks, n);
            r.disk == d && r.files.Keys == files.Keys && r.files[path] == files[path]
  {
    if n > 0 {
      RacedEntryGoesUnnoticed(files, d, paths, looks, n - 1, path);
      assert paths[n - 1] in paths;
      UndisturbedLook(RefreshRun(files, d, paths, looks, n - 1), paths[n - 1], looks(n - 1));
    }
  }

  // ----- the manager -----

  class StagedContextManager {
    var paths: seq<string>
    var files: map<string, Entry>
    /** The disk all the while. */
    var disk: Disk

    ghost predicate Valid()
      reads this
    {
      && Dated(disk) && AllTrustworthy(files, disk)
      && (forall j, k :: 0 <= j < k < |paths| ==> paths[j] != paths[k])
      && forall p :: p in files <==> p in paths
    }

    constructor (disk: Disk)
      requires Dated(disk)
      ensures Valid() && this.disk == disk && files == map[]
    {
      paths, files, this.disk := [], map[], disk;
    }

    /** One look, with what others do meanwhile. */
    method LookAt(path: string, look: Look) returns (outcome: Outcome)
      modifies this`disk
      ensures (outcome, disk) == Looked(Lookup(files, path), path, old(disk), look)
    {
      disk := After(disk, look.before);
      var mtime := StatOf(disk, path, look.statFails);
      if mtime.None? { return Skipped; }
      if path in files && files[path].mtime == mtime { return Reused; }
      disk := After(disk, look.between);
      var content := ReadOf(disk, path, look.readFails);
      if content.None? { return Reused; }
      return Refreshed(Entry(content.value, mtime));
    }

    method RefreshLoadedFiles(looks: nat -> Look) returns (refreshed: seq<string>, reused: seq<string>)
      requires Valid()
      modifies this`files, this`disk
      ensures Valid()
              && Refresh(files, disk, refreshed, reused) == RefreshRun(old(files), old(disk), paths, looks, |paths|)
    {
      refreshed, reused := [], [];
      var k := 0;
      while k < |paths|
        invariant k <= |paths|
                  && Refresh(files, disk, refreshed, reused) == RefreshRun(old(files), old(disk), paths, looks, k)
      {
        var outcome := LookAt(paths[k], looks(k));
        match outcome {
          case Skipped =>
          case Reused => reused := reused + [paths[k]];
          case Refreshed(entry) =>
            files := files[paths[k] := entry];
            refreshed := refreshed + [paths[k]];
        }
        k := k + 1;
      }
      RefreshKeepsTrust(old(files), old(disk), paths, looks, |paths|);
    }

    /** Loads a file, or refreshes it if it is loaded. */
    method MarkLoaded(path: string, look: Look)
      requires Valid()
      modifies this
      ensures Valid()
      ensures var (outcome, after) := Looked(Lookup(old(files), path), path, old(disk), look);
              disk == after && files == Updated(old(files), path, outcome)
    {
      ghost var was, start := files, disk;
      var outcome := LookAt(path, look);
      LookKeepsTrust(Lookup(was, path), path, start, look);
      forall p | p in was ensures Trustworthy(was[p], p, disk) {
        EditsKeepTrust(was[p], p, start, look.before);
        EditsKeepDated(start, look.before);
        EditsKeepTrust(was[p], p, After(start, look.before), look.between);
      }
      if outcome.Refreshed? { Set(path, outcome.entry); }
    }

    method Set(path: string, entry: Entry)
      requires Valid() && Trustworthy(entry, path, disk)
      modifies this`paths, this`files
      ensures Valid() && files == old(files)[path := entry]
    {
      if path !in files { paths := paths + [path]; }
      files := files[path := entry];
    }

    /** After an edit of its own the manager reads first and stats afterwards. The entry
        can be trusted exactly when the file still held, at the stat, what had been read. */
    method MarkEdited(path: string, look: Look) returns (recorded: bool)
      requires Valid()
      modifies this
      ensures disk == After(After(old(disk), look.before), look.between)
              || (!recorded && disk == After(old(disk), look.before))
      ensures !recorded ==> Valid() && files == old(files)
      ensures recorded ==>
                var first := After(old(disk), look.before);
                && path in first.files && path in disk.files && !look.readFails && !look.statFails
                && files == old(files)[path := Entry(first.files[path].content, Some(disk.files[path].mtime))]
                && (Valid() <==> disk.files[path].content == first.files[path].content)
    {
      ghost var was, start := files, disk;
      disk := After(disk, look.before);
      TrustAfter(was, start, look.before);
      var content := ReadOf(disk, path, look.readFails);
      if content.None? { return false; }
      ghost var first := disk;
      disk := After(disk, look.between);
      TrustAfter(was, first, look.between);
      var mtime := StatOf(disk, path, look.statFails);
      if mtime.None? { return false; }
      if path !in files { paths := paths + [path]; }
      files := files[path := Entry(content.value, mtime)];
      assert forall p :: p in was && p != path ==> files[p] == was[p];
      assert AllTrustworthy(files, disk) <==> Trustworthy(files[path], path, disk);
      return true;
    }
  }

  lemma TrustAfter(files: map<string, Entry>, d: Disk, edits: seq<Edit>)
    requires AllTrustworthy(files, d) && Dated(d)
    ensures AllTrustworthy(files, After(d, edits)) && Dated(After(d, edits))
  {
    EditsKeepDated(d, edits);
    forall p | p in files ensures Trustworthy(files[p], p, After(d, edits)) {
      EditsKeepTrust(files[p], p, d, edits);
    }
  }
}
