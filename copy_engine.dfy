/**
 * The recursive copy engine (utilities.c, copy_file and copy_directory).
 *
 * The source tree is a value: a directory is the sequence of its entries in
 * the order readdir returns them, a regular file is its bytes, and anything
 * else (a device, a socket, a link stat does not follow into a file or
 * directory) is `Special`. The destination is the tree the engine creates,
 * returned as a value; it starts out empty.
 *
 * The outside world is an oracle `Env`. Every system call that can fail
 * (stat, open, read, write, fsync, opendir, mkdir) takes the next tick of a
 * counter, and fails exactly when its tick is in `fails`. The halt flag is
 * written by other threads and only ever set while copying: a poll made after
 * `t` system calls sees it exactly when `haltAt` is at most `t`.
 */
module CopyEngine {
  import opened Globals
  import opened Utilities
  import opened Crc32
  import opened Manifest

  datatype Node = File(data: seq<bv8>) | Dir(children: seq<Entry>) | Special
  datatype Entry = Entry(name: string, node: Node)

  datatype Env = Env(fails: set<nat>, haltAt: Option<nat>) {
    /** The system call made with tick `t` fails. */
    predicate Fails(t: nat) {
      t in fails
    }

    /** A poll of the halt flag made after `t` system calls sees it set. */
    predicate HaltSeen(t: nat) {
      haltAt.Some? && haltAt.value <= t
    }
  }

  /** An environment in which nothing fails and nobody halts. */
  predicate Undisturbed(env: Env) {
    env.fails == {} && env.haltAt.None?
  }

  /** The hidden Windows directory copy_directory refuses to enter. */
  const SYSTEM_VOLUME_INFORMATION: string := "System Volume Information"

  /** snprintf "%s/%s". Paths are not cut at PATH_LEN - 1 here. */
  function JoinPath(dir: string, name: string): (p: string)
    ensures |p| == |dir| + 1 + |name| && p[..|dir|] == dir && p[|dir|] == '/' && p[|dir| + 1..] == name
  {
    dir + "/" + name
  }

  // ---------------------------------------------------------------------------
  // Listing and sorting a directory
  // ---------------------------------------------------------------------------

  predicate IsDotEntry(name: string) {
    name == "." || name == ".."
  }

  /** The entries readdir returns, "." and ".." left out, in readdir order. */
  function Listed(entries: seq<Entry>): (r: seq<Entry>)
    ensures |r| <= |entries|
  {
    if entries == [] then []
    else
      var last := entries[|entries| - 1];
      Listed(entries[..|entries| - 1]) + (if IsDotEntry(last.name) then [] else [last])
  }

  /** Listing keeps exactly the entries other than "." and "..". */
  lemma {:induction false} ListedMembers(entries: seq<Entry>)
    ensures forall e | e in Listed(entries) :: e in entries && !IsDotEntry(e.name)
    ensures forall e | e in entries && !IsDotEntry(e.name) :: e in Listed(entries)
  {
    if entries != [] {
      var init := entries[..|entries| - 1];
      ListedMembers(init);
      assert entries == init + [entries[|entries| - 1]];
    }
  }

  /** A level copy_directory rejects: more than MAX_FILES entries, or a name too long for a path buffer. */
  predicate ListingError(entries: seq<Entry>) {
    var listed := Listed(entries);
    |listed| > MAX_FILES || exists e | e in listed :: |e.name| >= PATH_LEN
  }

  /** The entries listed from a prefix of the directory are never more than from the whole. */
  lemma {:induction false} ListedMonotone(entries: seq<Entry>, j: nat)
    requires j <= |entries|
    ensures |Listed(entries[..j])| <= |Listed(entries)|
    decreases |entries| - j
  {
    if j == |entries| {
      assert entries[..j] == entries;
    } else {
      ListedMonotone(entries, j + 1);
      assert entries[..j + 1][..j] == entries[..j];
    }
  }

  /** Sorted by name with strcmp, as qsort with compare_names leaves the names array. */
  predicate NamesSorted(s: seq<Entry>) {
    forall i | 0 < i < |s| :: CompareNames(s[i - 1].name, s[i].name) <= 0
  }

  /** One step of sorting: `e` placed before the first name it does not follow. */
  function Insert(e: Entry, s: seq<Entry>): (r: seq<Entry>)
    ensures multiset(r) == multiset(s) + multiset{e} && |r| == |s| + 1
    ensures r[0] == e || (s != [] && r[0] == s[0])
  {
    if s == [] || CompareNames(e.name, s[0].name) <= 0 then [e] + s
    else
      assert s == [s[0]] + s[1..];
      [s[0]] + Insert(e, s[1..])
  }

  lemma {:induction false} InsertSorted(e: Entry, s: seq<Entry>)
    requires NamesSorted(s)
    ensures NamesSorted(Insert(e, s))
  {
    if s != [] && CompareNames(e.name, s[0].name) > 0 {
      var rest := Insert(e, s[1..]);
      InsertSorted(e, s[1..]);
      CompareNamesAntisymmetric(e.name, s[0].name);
      assert CompareNames(s[0].name, rest[0].name) <= 0;
      var r := [s[0]] + rest;
      forall i | 0 < i < |r| ensures CompareNames(r[i - 1].name, r[i].name) <= 0 {
        if i > 1 { assert r[i - 1] == rest[i - 2] && r[i] == rest[i - 1]; }
      }
    }
  }

  /** The names of one level in strcmp order: the same entries, rearranged. */
  function SortByName(s: seq<Entry>): (r: seq<Entry>)
    ensures multiset(r) == multiset(s) && |r| == |s|
  {
    if s == [] then []
    else
      assert s == [s[0]] + s[1..];
      Insert(s[0], SortByName(s[1..]))
  }

  /** Sorting neither invents nor loses an entry. */
  lemma SortByNameMembers(s: seq<Entry>)
    ensures forall e | e in SortByName(s) :: e in s
  {
    var r := SortByName(s);
    forall e | e in r ensures e in s {
      assert e in multiset(r);
    }
  }

  /** The names of a directory as both passes visit them: listed, then sorted by name. */
  function SortedListing(entries: seq<Entry>): (r: seq<Entry>)
    ensures forall e | e in r :: e in entries && !IsDotEntry(e.name)
  {
    SortByNameMembers(Listed(entries));
    ListedMembers(entries);
    SortByName(Listed(entries))
  }

  /** qsort with compare_names leaves the names in strcmp order. */
  lemma {:induction false} SortByNameSorted(s: seq<Entry>)
    ensures NamesSorted(SortByName(s))
  {
    if s != [] {
      SortByNameSorted(s[1..]);
      InsertSorted(s[0], SortByName(s[1..]));
    }
  }

  // ---------------------------------------------------------------------------
  // copy_file, as a function of the oracle
  // ---------------------------------------------------------------------------

  /** Bytes one read of the copy buffer returns when `remaining` bytes are left. */
  function ChunkSize(remaining: nat): (n: nat)
    ensures n <= remaining && n <= COPY_BUFFER_SIZE
    ensures remaining > 0 ==> n > 0
  {
    if remaining < COPY_BUFFER_SIZE then remaining else COPY_BUFFER_SIZE
  }

  datatype LoopEnd = EndOfFile | Halted | ReadFailed | WriteFailed

  /** How the read/write loop ends, having written and counted `pos` bytes, after `t` system calls. */
  datatype LoopResult = LoopResult(end: LoopEnd, pos: nat, t: nat)

  /** The read/write loop of copy_file from byte `pos` of an `n`-byte file, starting at tick `t`. */
  function ReadLoop(env: Env, t: nat, n: nat, pos: nat): (r: LoopResult)
    requires pos <= n
    ensures pos <= r.pos <= n && t < r.t
    ensures r.end == EndOfFile ==> r.pos == n
    ensures r.end == Halted ==> r.pos < n && env.HaltSeen(r.t)
    decreases n - pos
  {
    if env.Fails(t) then LoopResult(ReadFailed, pos, t + 1)
    else if pos == n then LoopResult(EndOfFile, pos, t + 1)
    else if env.HaltSeen(t + 1) then LoopResult(Halted, pos, t + 1)
    else if env.Fails(t + 1) then LoopResult(WriteFailed, pos, t + 2)
    else ReadLoop(env, t + 2, n, pos + ChunkSize(n - pos))
  }

  /**
   * What one copy_file did: its return value, the destination file's content
   * when it was created, the manifest line it emitted, and the tick reached.
   */
  datatype FileResult = FileResult(status: int, written: Option<seq<bv8>>, line: Option<string>, t: nat)

  /** Bytes copy_file added to the caller's counter: exactly what it wrote. */
  function Counted(r: FileResult): nat {
    if r.written.Some? then |r.written.value| else 0
  }

  function LineSeq(line: Option<string>): seq<string> {
    if line.Some? then [line.value] else []
  }

  /** The manifest line for a file copied to `destPath`. */
  function ManifestLine(destPath: string, data: seq<bv8>): string
    requires |destPath| > |RAMDIR_PATH|
  {
    FormatLine(ManifestPath(destPath), Crc(data))
  }

  /** copy_file of a regular file holding `data` to `destPath`, from tick `t`. */
  function CopyFileSpec(env: Env, t: nat, data: seq<bv8>, destPath: string, sink: bool): (r: FileResult)
    requires sink ==> |destPath| > |RAMDIR_PATH|
    ensures r.status == 0 || r.status == -1
    ensures t < r.t
    ensures r.written.Some? ==> |r.written.value| <= |data| && r.written.value == data[..|r.written.value|]
    ensures r.line.Some? ==> sink && r.status == 0 && r.written == Some(data) && r.line.value == ManifestLine(destPath, data)
    ensures r.status == 0 ==> r.written.Some?
    ensures r.status == 0 && r.written != Some(data) ==> r.line.None? && env.HaltSeen(r.t)
  {
    if env.Fails(t) then FileResult(-1, None, None, t + 1)               // stat
    else if env.Fails(t + 1) then FileResult(-1, None, None, t + 2)      // open the source
    else if env.Fails(t + 2) then FileResult(-1, None, None, t + 3)      // create the destination
    else
      var l := ReadLoop(env, t + 3, |data|, 0);
      var written := Some(data[..l.pos]);
      match l.end
      case Halted => FileResult(0, written, None, l.t)
      case ReadFailed => FileResult(-1, written, None, l.t)
      case WriteFailed => FileResult(-1, written, None, l.t)
      case EndOfFile =>
        assert data[..l.pos] == data;
        if env.Fails(l.t) then FileResult(-1, written, None, l.t + 1)    // fsync
        else FileResult(0, written, if sink then Some(ManifestLine(destPath, data)) else None, l.t + 1)
  }

  // ---------------------------------------------------------------------------
  // copy_directory, as a function of the oracle
  // ---------------------------------------------------------------------------

  /**
   * What copy_directory did: its return value, the entries of the destination
   * directory when it was created, the bytes counted, the manifest lines
   * emitted and the tick reached.
   */
  datatype DirResult = DirResult(status: int, created: Option<seq<Entry>>, counted: nat, lines: seq<string>, t: nat)

  /**
   * What handling one name of a pass did: the value copy_directory returned
   * there, if it did, the tick reached, the entries it added to the
   * destination, the bytes counted and the manifest lines emitted.
   */
  datatype Step = Step(exit: Option<int>, t: nat, added: seq<Entry>, counted: nat, lines: seq<string>)

  /** A pass part way through: everything its steps so far added up to. */
  datatype Progress = Progress(exit: Option<int>, t: nat, children: seq<Entry>, counted: nat, lines: seq<string>)

  function Then(p: Progress, s: Step): (q: Progress)
    ensures q.exit == s.exit && q.t == s.t
  {
    Progress(s.exit, s.t, p.children + s.added, p.counted + s.counted, p.lines + s.lines)
  }

  lemma AppendAssoc<T>(a: seq<T>, b: seq<T>, c: seq<T>)
    ensures a + b + c == a + (b + c)
  {
  }

  /** The first loop's body for one name: stat it, poll halt, copy it when it is a regular file. */
  function FileStep(env: Env, t: nat, destDir: string, e: Entry, sink: bool): (s: Step)
    requires sink ==> |destDir| >= |RAMDIR_PATH|
    ensures t < s.t
    ensures s.exit.None? || s.exit == Some(0) || s.exit == Some(-1)
  {
    if env.Fails(t) then Step(Some(-1), t + 1, [], 0, [])
    else if env.HaltSeen(t + 1) then Step(Some(0), t + 1, [], 0, [])
    else if !e.node.File? then Step(None, t + 1, [], 0, [])
    else
      var f := CopyFileSpec(env, t + 1, e.node.data, JoinPath(destDir, e.name), sink);
      Step(if f.status < 0 then Some(-1) else None, f.t,
           if f.written.Some? then [Entry(e.name, File(f.written.value))] else [],
           Counted(f), LineSeq(f.line))
  }

  /** The first loop: the file steps in name order, until one returns. */
  function FilesPass(env: Env, destDir: string, sorted: seq<Entry>, i: nat, sink: bool, p: Progress): (r: Progress)
    requires sink ==> |destDir| >= |RAMDIR_PATH|
    requires i <= |sorted| && p.exit.None?
    ensures p.t <= r.t
    ensures r.exit.None? || r.exit == Some(0) || r.exit == Some(-1)
    decreases |sorted| - i
  {
    if i == |sorted| then p
    else
      var q := Then(p, FileStep(env, p.t, destDir, sorted[i], sink));
      if q.exit.Some? then q else FilesPass(env, destDir, sorted, i + 1, sink, q)
  }


  /** copy_directory from `srcDir` (whose entries are `entries`, in readdir order) to `destDir`, from tick `t`. */
  function CopyDirSpec(env: Env, t: nat, srcDir: string, destDir: string, entries: seq<Entry>, sink: bool): (r: DirResult)
    requires sink ==> |destDir| >= |RAMDIR_PATH|
    ensures r.status == 0 || r.status == -1
    ensures t <= r.t
    decreases entries, 3
  {
    if Find(srcDir, SYSTEM_VOLUME_INFORMATION).Some? then DirResult(0, None, 0, [], t)
    else if env.Fails(t) then DirResult(-1, None, 0, [], t + 1)           // opendir
    else if env.Fails(t + 1) then DirResult(-1, None, 0, [], t + 2)       // mkdir
    else if ListingError(entries) then DirResult(-1, Some([]), 0, [], t + 2)
    else if env.HaltSeen(t + 2) then DirResult(0, Some([]), 0, [], t + 2)
    else Passes(env, t + 2, srcDir, destDir, entries, sink)
  }

  /** The two passes of copy_directory over the sorted listing, from tick `t`, once the destination exists. */
  function Passes(env: Env, t: nat, srcDir: string, destDir: string, entries: seq<Entry>, sink: bool): (r: DirResult)
    requires sink ==> |destDir| >= |RAMDIR_PATH|
    ensures r.status == 0 || r.status == -1
    ensures t <= r.t
    decreases entries, 2
  {
    var sorted := SortedListing(entries);
    var f := FilesPass(env, destDir, sorted, 0, sink, Progress(None, t, [], 0, []));
    if f.exit.Some? then DirResult(f.exit.value, Some(f.children), f.counted, f.lines, f.t)
    else
      var g := DirsPass(env, srcDir, destDir, entries, sorted, 0, sink, Progress(None, f.t, f.children, 0, []));
      DirResult(if g.exit.Some? then g.exit.value else 0, Some(g.children), f.counted + g.counted, f.lines + g.lines, g.t)
  }

  /** The second loop's body for one name: stat it again, poll halt, recurse when it is a directory. */
  function DirStep(env: Env, t: nat, srcDir: string, destDir: string, entries: seq<Entry>, e: Entry, sink: bool): (s: Step)
    requires sink ==> |destDir| >= |RAMDIR_PATH|
    requires e in entries
    ensures t < s.t
    ensures s.exit.None? || s.exit == Some(0) || s.exit == Some(-1)
    decreases entries, 0
  {
    if env.Fails(t) then Step(Some(-1), t + 1, [], 0, [])
    else if env.HaltSeen(t + 1) then Step(Some(0), t + 1, [], 0, [])
    else if !e.node.Dir? then Step(None, t + 1, [], 0, [])
    else
      var d := CopyDirSpec(env, t + 1, JoinPath(srcDir, e.name), JoinPath(destDir, e.name), e.node.children, sink);
      Step(if d.status < 0 then Some(-1) else None, d.t,
           if d.created.Some? then [Entry(e.name, Dir(d.created.value))] else [],
           d.counted, d.lines)
  }


  /** The second loop: the directory steps in name order, until one returns. */
  function DirsPass(env: Env, srcDir: string, destDir: string, entries: seq<Entry>, sorted: seq<Entry>, i: nat, sink: bool, p: Progress): (r: Progress)
    requires sink ==> |destDir| >= |RAMDIR_PATH|
    requires i <= |sorted| && p.exit.None?
    requires forall e | e in sorted :: e in entries
    ensures p.t <= r.t
    ensures r.exit.None? || r.exit == Some(0) || r.exit == Some(-1)
    decreases entries, 1, |sorted| - i
  {
    if i == |sorted| then p
    else
      var q := Then(p, DirStep(env, p.t, srcDir, destDir, entries, sorted[i], sink));
      if q.exit.Some? then q else DirsPass(env, srcDir, destDir, entries, sorted, i + 1, sink, q)
  }

  // ---------------------------------------------------------------------------
  // What a copy guarantees
  // ---------------------------------------------------------------------------

  /** Undisturbed, the read/write loop reaches the end of the file. */
  lemma {:induction false} ReadLoopUndisturbed(env: Env, t: nat, n: nat, pos: nat)
    requires Undisturbed(env) && pos <= n
    ensures ReadLoop(env, t, n, pos).end == EndOfFile && ReadLoop(env, t, n, pos).pos == n
    decreases n - pos
  {
    if pos < n {
      ReadLoopUndisturbed(env, t + 2, n, pos + ChunkSize(n - pos));
    }
  }

  /**
   * Undisturbed, copy_file succeeds, the destination holds the source's
   * bytes, the counter grows by the file's length, and a line is emitted
   * exactly when there is a sink.
   */
  lemma CopyFileUndisturbed(env: Env, t: nat, data: seq<bv8>, destPath: string, sink: bool)
    requires Undisturbed(env)
    requires sink ==> |destPath| > |RAMDIR_PATH|
    ensures var r := CopyFileSpec(env, t, data, destPath, sink);
      r.status == 0 && r.written == Some(data) && Counted(r) == |data| &&
      (r.line.Some? <==> sink)
  {
    ReadLoopUndisturbed(env, t + 3, |data|, 0);
    assert data[..|data|] == data;
  }

  /**
   * A halt raised before copy_file starts stops it at its first halt poll:
   * a non-empty file gets nothing written, nothing counted, and no manifest
   * line, whatever fails; it returns -1 exactly when one of its first four
   * system calls fails.
   */
  lemma CopyFileHalted(env: Env, t: nat, data: seq<bv8>, destPath: string, sink: bool)
    requires env.HaltSeen(t) && |data| > 0
    requires sink ==> |destPath| > |RAMDIR_PATH|
    ensures var r := CopyFileSpec(env, t, data, destPath, sink);
      r.line.None? && Counted(r) == 0 &&
      r.status == (if env.Fails(t) || env.Fails(t + 1) || env.Fails(t + 2) || env.Fails(t + 3) then -1 else 0)
  {
    assert env.HaltSeen(t + 4);
  }

  /**
   * A halt raised before copy_directory starts leaves nothing counted and no
   * manifest line; it returns -1 exactly when opening the source, creating
   * the destination or listing fails.
   */
  lemma CopyDirHalted(env: Env, t: nat, srcDir: string, destDir: string, entries: seq<Entry>, sink: bool)
    requires env.HaltSeen(t)
    requires sink ==> |destDir| >= |RAMDIR_PATH|
    ensures var r := CopyDirSpec(env, t, srcDir, destDir, entries, sink);
      r.counted == 0 && r.lines == [] && (r.created.Some? ==> r.created.value == []) &&
      r.status == (if Find(srcDir, SYSTEM_VOLUME_INFORMATION).None? && (env.Fails(t) || env.Fails(t + 1) || ListingError(entries)) then -1 else 0)
  {
    assert env.HaltSeen(t + 2);
  }

  /** A source path containing "System Volume Information" anywhere is skipped: 0, nothing created, no system call. */
  lemma HiddenDirectorySkipped(env: Env, t: nat, srcDir: string, entries: seq<Entry>, destDir: string, sink: bool)
    requires sink ==> |destDir| >= |RAMDIR_PATH|
    requires Find(srcDir, SYSTEM_VOLUME_INFORMATION).Some?
    ensures CopyDirSpec(env, t, srcDir, destDir, entries, sink) == DirResult(0, None, 0, [], t)
  {
  }

  /** In particular a directory named "System Volume Information" is skipped wherever it appears. */
  lemma HiddenDirectoryNamed(parent: string)
    ensures Find(JoinPath(parent, SYSTEM_VOLUME_INFORMATION), SYSTEM_VOLUME_INFORMATION).Some?
  {
    var p := JoinPath(parent, SYSTEM_VOLUME_INFORMATION);
    var k := |parent| + 1;
    assert p[k..k + |SYSTEM_VOLUME_INFORMATION|] == SYSTEM_VOLUME_INFORMATION;
    assert MatchAt(p, SYSTEM_VOLUME_INFORMATION, k);
  }

  /**
   * A level with more than MAX_FILES names, or a name of PATH_LEN characters
   * or more, fails once the directories are open, before anything is copied.
   */
  lemma ListingLimits(env: Env, t: nat, srcDir: string, destDir: string, entries: seq<Entry>, sink: bool)
    requires sink ==> |destDir| >= |RAMDIR_PATH|
    requires Find(srcDir, SYSTEM_VOLUME_INFORMATION).None?
    requires ListingError(entries)
    ensures var r := CopyDirSpec(env, t, srcDir, destDir, entries, sink);
      r.status == -1 && r.counted == 0 && r.lines == []
  {
  }

  /**
   * A halt seen by the poll after a read ends copy_file with 0: the bytes
   * written before it stay, counted, the file is left short, and no manifest
   * line is emitted.
   */
  lemma CopyFileHaltedAfterRead(env: Env, t: nat, data: seq<bv8>, destPath: string, sink: bool)
    requires sink ==> |destPath| > |RAMDIR_PATH|
    requires !env.Fails(t) && !env.Fails(t + 1) && !env.Fails(t + 2)
    requires ReadLoop(env, t + 3, |data|, 0).end == Halted
    ensures var l := ReadLoop(env, t + 3, |data|, 0);
      var r := CopyFileSpec(env, t, data, destPath, sink);
      r.status == 0 && r.written == Some(data[..l.pos]) && l.pos < |data| && Counted(r) == l.pos && r.line.None?
  {
  }

  /** With no failing system call, the read/write loop ends at the end of the file or at a halt. */
  lemma {:induction false} ReadLoopNoFailures(env: Env, t: nat, n: nat, pos: nat)
    requires env.fails == {} && pos <= n
    ensures ReadLoop(env, t, n, pos).end == EndOfFile || ReadLoop(env, t, n, pos).end == Halted
    decreases n - pos
  {
    if pos < n && !env.HaltSeen(t + 1) {
      ReadLoopNoFailures(env, t + 2, n, pos + ChunkSize(n - pos));
    }
  }

  /** With no failing system call, copy_file returns 0, halted or not. */
  lemma CopyFileNoFailures(env: Env, t: nat, data: seq<bv8>, destPath: string, sink: bool)
    requires env.fails == {}
    requires sink ==> |destPath| > |RAMDIR_PATH|
    ensures CopyFileSpec(env, t, data, destPath, sink).status == 0
  {
    ReadLoopNoFailures(env, t + 3, |data|, 0);
  }

  /**
   * With no failing system call, copy_directory of a tree whose every level
   * passes the listing limits returns 0, however a halt interrupts it: only
   * failures and listing limits make it return -1.
   */
  lemma {:induction false} CopyDirNoFailures(env: Env, t: nat, srcDir: string, destDir: string, entries: seq<Entry>, sink: bool)
    requires env.fails == {} && Listable(srcDir, entries)
    requires sink ==> |destDir| >= |RAMDIR_PATH|
    ensures CopyDirSpec(env, t, srcDir, destDir, entries, sink).status == 0
    decreases entries, 2
  {
    if Find(srcDir, SYSTEM_VOLUME_INFORMATION).None? && !env.HaltSeen(t + 2) {
      PassesNoFailures(env, t + 2, srcDir, destDir, entries, sink);
    }
  }

  lemma PassesNoFailures(env: Env, t: nat, srcDir: string, destDir: string, entries: seq<Entry>, sink: bool)
    requires env.fails == {}
    requires sink ==> |destDir| >= |RAMDIR_PATH|
    requires Find(srcDir, SYSTEM_VOLUME_INFORMATION).None? && Listable(srcDir, entries)
    ensures Passes(env, t, srcDir, destDir, entries, sink).status == 0
    decreases entries, 1
  {
    var sorted := SortedListing(entries);
    var p := Progress(None, t, [], 0, []);
    FilesPassNoFailures(env, destDir, sorted, 0, sink, p);
    var f := FilesPass(env, destDir, sorted, 0, sink, p);
    if f.exit.None? {
      DirsPassNoFailures(env, srcDir, destDir, entries, sorted, 0, sink, Progress(None, f.t, f.children, 0, []));
    }
  }

  lemma {:induction false} FilesPassNoFailures(env: Env, destDir: string, sorted: seq<Entry>, i: nat, sink: bool, p: Progress)
    requires env.fails == {}
    requires sink ==> |destDir| >= |RAMDIR_PATH|
    requires i <= |sorted| && p.exit.None?
    ensures FilesPass(env, destDir, sorted, i, sink, p).exit != Some(-1)
    decreases |sorted| - i
  {
    if i < |sorted| {
      var e := sorted[i];
      if !env.HaltSeen(p.t + 1) && e.node.File? {
        CopyFileNoFailures(env, p.t + 1, e.node.data, JoinPath(destDir, e.name), sink);
      }
      var q := Then(p, FileStep(env, p.t, destDir, e, sink));
      if q.exit.None? {
        FilesPassNoFailures(env, destDir, sorted, i + 1, sink, q);
      }
    }
  }

  lemma {:induction false} DirsPassNoFailures(env: Env, srcDir: string, destDir: string, entries: seq<Entry>, sorted: seq<Entry>, i: nat, sink: bool, p: Progress)
    requires env.fails == {}
    requires sink ==> |destDir| >= |RAMDIR_PATH|
    requires i <= |sorted| && p.exit.None?
    requires forall e | e in sorted :: e in entries && !IsDotEntry(e.name)
    requires Find(srcDir, SYSTEM_VOLUME_INFORMATION).None? && Listable(srcDir, entries)
    ensures DirsPass(env, srcDir, destDir, entries, sorted, i, sink, p).exit != Some(-1)
    decreases entries, 0, |sorted| - i
  {
    if i < |sorted| {
      var e := sorted[i];
      assert e in entries;
      if !env.HaltSeen(p.t + 1) && e.node.Dir? {
        CopyDirNoFailures(env, p.t + 1, JoinPath(srcDir, e.name), JoinPath(destDir, e.name), e.node.children, sink);
      }
      var q := Then(p, DirStep(env, p.t, srcDir, destDir, entries, e, sink));
      if q.exit.None? {
        DirsPassNoFailures(env, srcDir, destDir, entries, sorted, i + 1, sink, q);
      }
    }
  }

  /** A file that fails to copy makes its step return -1, and the pass returns -1 there. */
  lemma FileFailureFailsPass(env: Env, destDir: string, sorted: seq<Entry>, i: nat, sink: bool, p: Progress)
    requires sink ==> |destDir| >= |RAMDIR_PATH|
    requires i < |sorted| && p.exit.None?
    requires sorted[i].node.File? && !env.Fails(p.t) && !env.HaltSeen(p.t + 1)
    requires CopyFileSpec(env, p.t + 1, sorted[i].node.data, JoinPath(destDir, sorted[i].name), sink).status == -1
    ensures FileStep(env, p.t, destDir, sorted[i], sink).exit == Some(-1)
    ensures FilesPass(env, destDir, sorted, i, sink, p).exit == Some(-1)
  {
  }

  /** A subdirectory that fails to copy makes its step return -1, and the pass returns -1 there. */
  lemma DirFailureFailsPass(env: Env, srcDir: string, destDir: string, entries: seq<Entry>, sorted: seq<Entry>, i: nat, sink: bool, p: Progress)
    requires sink ==> |destDir| >= |RAMDIR_PATH|
    requires i < |sorted| && p.exit.None?
    requires forall e | e in sorted :: e in entries
    requires sorted[i].node.Dir? && !env.Fails(p.t) && !env.HaltSeen(p.t + 1)
    requires CopyDirSpec(env, p.t + 1, JoinPath(srcDir, sorted[i].name), JoinPath(destDir, sorted[i].name), sorted[i].node.children, sink).status == -1
    ensures DirStep(env, p.t, srcDir, destDir, entries, sorted[i], sink).exit == Some(-1)
    ensures DirsPass(env, srcDir, destDir, entries, sorted, i, sink, p).exit == Some(-1)
  {
    var e := sorted[i];
    assert e in entries;
    var d := CopyDirSpec(env, p.t + 1, JoinPath(srcDir, e.name), JoinPath(destDir, e.name), e.node.children, sink);
    var s := DirStep(env, p.t, srcDir, destDir, entries, e, sink);
    assert s.exit == Some(-1) by {
      assert s == Step(Some(-1), d.t, if d.created.Some? then [Entry(e.name, Dir(d.created.value))] else [], d.counted, d.lines);
    }
    assert Then(p, s).exit == Some(-1);
  }

  /** A pass that returns -1 makes copy_directory return -1, keeping what was created so far. */
  lemma PassFailureFailsDirectory(env: Env, t: nat, srcDir: string, destDir: string, entries: seq<Entry>, sink: bool)
    requires sink ==> |destDir| >= |RAMDIR_PATH|
    requires Find(srcDir, SYSTEM_VOLUME_INFORMATION).None? && !env.Fails(t) && !env.Fails(t + 1)
    requires !ListingError(entries) && !env.HaltSeen(t + 2)
    requires var sorted := SortedListing(entries);
      var f := FilesPass(env, destDir, sorted, 0, sink, Progress(None, t + 2, [], 0, []));
      f.exit == Some(-1) ||
      (f.exit.None? && DirsPass(env, srcDir, destDir, entries, sorted, 0, sink, Progress(None, f.t, f.children, 0, [])).exit == Some(-1))
    ensures var r := CopyDirSpec(env, t, srcDir, destDir, entries, sink);
      r.status == -1 && r.created.Some?
  {
  }

  /** What a copy adds up to: the destination entries, the bytes counted and the manifest lines. */
  datatype Tally = Tally(children: seq<Entry>, counted: nat, lines: seq<string>)

  function Plus(a: Tally, b: Tally): Tally {
    Tally(a.children + b.children, a.counted + b.counted, a.lines + b.lines)
  }

  /**
   * The reference copy of one level's regular files: each, in the given
   * order, copied whole, counted whole, and listed in the manifest when there
   * is a sink.
   */
  function MirrorFiles(destDir: string, sorted: seq<Entry>, sink: bool): Tally
    requires sink ==> |destDir| >= |RAMDIR_PATH|
  {
    if sorted == [] then Tally([], 0, [])
    else Plus(MirrorFile(destDir, sorted[0], sink), MirrorFiles(destDir, sorted[1..], sink))
  }

  /** The reference copy of one name of the first pass: a regular file is copied whole. */
  function MirrorFile(destDir: string, e: Entry, sink: bool): Tally
    requires sink ==> |destDir| >= |RAMDIR_PATH|
  {
    if e.node.File? then
      Tally([e], |e.node.data|, if sink then [ManifestLine(JoinPath(destDir, e.name), e.node.data)] else [])
    else Tally([], 0, [])
  }

  /**
   * The reference copy of a directory: None for the hidden Windows directory;
   * otherwise the regular files of the level in name order, then its
   * subdirectories in name order, each copied the same way.
   */
  function Mirror(srcDir: string, destDir: string, entries: seq<Entry>, sink: bool): Option<Tally>
    requires sink ==> |destDir| >= |RAMDIR_PATH|
    decreases entries, 1
  {
    if Find(srcDir, SYSTEM_VOLUME_INFORMATION).Some? then None
    else
      var sorted := SortedListing(entries);
      Some(Plus(MirrorFiles(destDir, sorted, sink), MirrorDirs(srcDir, destDir, entries, sorted, sink)))
  }

  function MirrorDirs(srcDir: string, destDir: string, entries: seq<Entry>, sorted: seq<Entry>, sink: bool): Tally
    requires sink ==> |destDir| >= |RAMDIR_PATH|
    requires forall e | e in sorted :: e in entries
    decreases entries, 0, |sorted|
  {
    if sorted == [] then Tally([], 0, [])
    else Plus(MirrorEntry(srcDir, destDir, entries, sorted[0], sink), MirrorDirs(srcDir, destDir, entries, sorted[1..], sink))
  }

  /** The reference copy of one name of the second pass: a subdirectory becomes its copy. */
  function MirrorEntry(srcDir: string, destDir: string, entries: seq<Entry>, e: Entry, sink: bool): Tally
    requires sink ==> |destDir| >= |RAMDIR_PATH|
    requires e in entries
    decreases entries, 0, 0
  {
    if !e.node.Dir? then Tally([], 0, [])
    else match Mirror(JoinPath(srcDir, e.name), JoinPath(destDir, e.name), e.node.children, sink)
      case None => Tally([], 0, [])
      case Some(m) => Tally([Entry(e.name, Dir(m.children))], m.counted, m.lines)
  }

  /** What a finished copy_directory call amounts to, when it created its destination. */
  function Outcome(r: DirResult): Option<Tally> {
    if r.created.None? then None else Some(Tally(r.created.value, r.counted, r.lines))
  }

  /** Every level of the tree that copy_directory enters passes the listing limits. */
  predicate Listable(srcDir: string, entries: seq<Entry>)
    decreases entries
  {
    Find(srcDir, SYSTEM_VOLUME_INFORMATION).Some? ||
    (!ListingError(entries) &&
     forall e | e in entries && !IsDotEntry(e.name) && e.node.Dir? :: Listable(JoinPath(srcDir, e.name), e.node.children))
  }

  lemma FileStepUndisturbed(env: Env, t: nat, destDir: string, e: Entry, sink: bool)
    requires Undisturbed(env)
    requires sink ==> |destDir| >= |RAMDIR_PATH|
    ensures var s := FileStep(env, t, destDir, e, sink);
      s.exit.None? && Tally(s.added, s.counted, s.lines) == MirrorFile(destDir, e, sink)
  {
    if e.node.File? {
      CopyFileUndisturbed(env, t + 1, e.node.data, JoinPath(destDir, e.name), sink);
    }
  }

  lemma PlusAssoc(a: Tally, b: Tally, c: Tally)
    ensures Plus(Plus(a, b), c) == Plus(a, Plus(b, c))
  {
    AppendAssoc(a.children, b.children, c.children);
    AppendAssoc(a.lines, b.lines, c.lines);
  }

  lemma {:induction false} FilesPassUndisturbed(env: Env, destDir: string, sorted: seq<Entry>, i: nat, sink: bool, p: Progress)
    requires Undisturbed(env)
    requires sink ==> |destDir| >= |RAMDIR_PATH|
    requires i <= |sorted| && p.exit.None?
    ensures var r := FilesPass(env, destDir, sorted, i, sink, p);
      r.exit.None? && Tally(r.children, r.counted, r.lines) == Plus(Tally(p.children, p.counted, p.lines), MirrorFiles(destDir, sorted[i..], sink))
    decreases |sorted| - i
  {
    if i < |sorted| {
      var s := FileStep(env, p.t, destDir, sorted[i], sink);
      FileStepUndisturbed(env, p.t, destDir, sorted[i], sink);
      FilesPassUndisturbed(env, destDir, sorted, i + 1, sink, Then(p, s));
      assert sorted[i..][1..] == sorted[i + 1..];
      PlusAssoc(Tally(p.children, p.counted, p.lines), MirrorFile(destDir, sorted[i], sink), MirrorFiles(destDir, sorted[i + 1..], sink));
    } else {
      assert sorted[i..] == [];
    }
  }

  /**
   * Undisturbed, copy_directory of a tree whose every level passes the
   * listing limits returns 0 and produces exactly the reference copy.
   */
  lemma {:induction false} CopyDirUndisturbed(env: Env, t: nat, srcDir: string, destDir: string, entries: seq<Entry>, sink: bool)
    requires Undisturbed(env) && Listable(srcDir, entries)
    requires sink ==> |destDir| >= |RAMDIR_PATH|
    ensures var r := CopyDirSpec(env, t, srcDir, destDir, entries, sink);
      r.status == 0 && Outcome(r) == Mirror(srcDir, destDir, entries, sink)
    decreases entries, 2
  {
    if Find(srcDir, SYSTEM_VOLUME_INFORMATION).None? {
      PassesUndisturbed(env, t + 2, srcDir, destDir, entries, sink);
    }
  }

  /** Both passes of one level, undisturbed, add up to the level's reference copy. */
  lemma PassesUndisturbed(env: Env, t: nat, srcDir: string, destDir: string, entries: seq<Entry>, sink: bool)
    requires Undisturbed(env)
    requires sink ==> |destDir| >= |RAMDIR_PATH|
    requires Find(srcDir, SYSTEM_VOLUME_INFORMATION).None? && Listable(srcDir, entries)
    ensures var r := Passes(env, t, srcDir, destDir, entries, sink);
      r.status == 0 && Outcome(r) == Mirror(srcDir, destDir, entries, sink)
    decreases entries, 1
  {
    var sorted := SortedListing(entries);
    FilesPassWhole(env, t, destDir, sorted, sink);
    var f := FilesPass(env, destDir, sorted, 0, sink, Progress(None, t, [], 0, []));
    DirsPassWhole(env, srcDir, destDir, entries, sorted, sink, f.t, f.children);
    var g := DirsPass(env, srcDir, destDir, entries, sorted, 0, sink, Progress(None, f.t, f.children, 0, []));
    var r := Passes(env, t, srcDir, destDir, entries, sink);
    assert r == DirResult(0, Some(g.children), f.counted + g.counted, f.lines + g.lines, g.t);
    OutcomeOfPasses(r, f, g, MirrorFiles(destDir, sorted, sink), MirrorDirs(srcDir, destDir, entries, sorted, sink));
  }

  /** The first pass over a whole level, undisturbed, is the reference copy of its files. */
  lemma FilesPassWhole(env: Env, t: nat, destDir: string, sorted: seq<Entry>, sink: bool)
    requires Undisturbed(env)
    requires sink ==> |destDir| >= |RAMDIR_PATH|
    ensures var f := FilesPass(env, destDir, sorted, 0, sink, Progress(None, t, [], 0, []));
      var mf := MirrorFiles(destDir, sorted, sink);
      f.exit.None? && f.children == mf.children && f.counted == mf.counted && f.lines == mf.lines
  {
    assert sorted[0..] == sorted;
    FilesPassUndisturbed(env, destDir, sorted, 0, sink, Progress(None, t, [], 0, []));
  }

  /** The second pass over a whole level, undisturbed, appends the reference copy of its subdirectories. */
  lemma DirsPassWhole(env: Env, srcDir: string, destDir: string, entries: seq<Entry>, sorted: seq<Entry>, sink: bool, t: nat, files: seq<Entry>)
    requires Undisturbed(env)
    requires sink ==> |destDir| >= |RAMDIR_PATH|
    requires forall e | e in sorted :: e in entries && !IsDotEntry(e.name)
    requires Find(srcDir, SYSTEM_VOLUME_INFORMATION).None? && Listable(srcDir, entries)
    ensures var g := DirsPass(env, srcDir, destDir, entries, sorted, 0, sink, Progress(None, t, files, 0, []));
      var md := MirrorDirs(srcDir, destDir, entries, sorted, sink);
      g.exit.None? && g.children == files + md.children && g.counted == md.counted && g.lines == md.lines
    decreases entries, 0, |sorted| + 1
  {
    assert sorted[0..] == sorted;
    DirsPassUndisturbed(env, srcDir, destDir, entries, sorted, 0, sink, Progress(None, t, files, 0, []));
  }

  /** Two passes that each match their half of the reference copy make up the whole of it. */
  lemma OutcomeOfPasses(r: DirResult, f: Progress, g: Progress, mf: Tally, md: Tally)
    requires r == DirResult(0, Some(g.children), f.counted + g.counted, f.lines + g.lines, g.t)
    requires g.children == mf.children + md.children && f.counted == mf.counted && g.counted == md.counted
    requires f.lines == mf.lines && g.lines == md.lines
    ensures r.status == 0 && Outcome(r) == Some(Plus(mf, md))
  {
  }

  lemma DirStepUndisturbed(env: Env, t: nat, srcDir: string, destDir: string, entries: seq<Entry>, e: Entry, sink: bool)
    requires Undisturbed(env)
    requires sink ==> |destDir| >= |RAMDIR_PATH|
    requires e in entries && !IsDotEntry(e.name)
    requires Find(srcDir, SYSTEM_VOLUME_INFORMATION).None? && Listable(srcDir, entries)
    ensures var s := DirStep(env, t, srcDir, destDir, entries, e, sink);
      s.exit.None? && Tally(s.added, s.counted, s.lines) == MirrorEntry(srcDir, destDir, entries, e, sink)
    decreases entries, 0, 0
  {
    if e.node.Dir? {
      CopyDirUndisturbed(env, t + 1, JoinPath(srcDir, e.name), JoinPath(destDir, e.name), e.node.children, sink);
    }
  }

  lemma {:induction false} DirsPassUndisturbed(env: Env, srcDir: string, destDir: string, entries: seq<Entry>, sorted: seq<Entry>, i: nat, sink: bool, p: Progress)
    requires Undisturbed(env)
    requires sink ==> |destDir| >= |RAMDIR_PATH|
    requires i <= |sorted| && p.exit.None?
    requires forall e | e in sorted :: e in entries && !IsDotEntry(e.name)
    requires Find(srcDir, SYSTEM_VOLUME_INFORMATION).None? && Listable(srcDir, entries)
    ensures var r := DirsPass(env, srcDir, destDir, entries, sorted, i, sink, p);
      r.exit.None? && Tally(r.children, r.counted, r.lines) == Plus(Tally(p.children, p.counted, p.lines), MirrorDirs(srcDir, destDir, entries, sorted[i..], sink))
    decreases entries, 0, |sorted| - i
  {
    if i < |sorted| {
      var e := sorted[i];
      assert e in entries;
      var s := DirStep(env, p.t, srcDir, destDir, entries, e, sink);
      DirStepUndisturbed(env, p.t, srcDir, destDir, entries, e, sink);
      DirsPassUndisturbed(env, srcDir, destDir, entries, sorted, i + 1, sink, Then(p, s));
      assert sorted[i..][1..] == sorted[i + 1..];
      PlusAssoc(Tally(p.children, p.counted, p.lines), MirrorEntry(srcDir, destDir, entries, e, sink), MirrorDirs(srcDir, destDir, entries, sorted[i + 1..], sink));
    } else {
      assert sorted[i..] == [];
    }
  }

  // ---------------------------------------------------------------------------
  // The engine
  // ---------------------------------------------------------------------------

  /**
   * The CRC loop over one buffer: each byte is fed while fewer than CRC_SIZE
   * bytes of the file have been.
   */
  method FeedCrc(table: array<bv32>, data: seq<bv8>, pos: nat, n: nat, crc0: bv32, crcBytes0: nat) returns (crc: bv32, crcBytes: nat)
    requires IsCrcTable(table)
    requires pos + n <= |data|
    requires crcBytes0 == Min(pos, CRC_SIZE) && crc0 == Update(INIT, data[..crcBytes0])
    ensures crcBytes == Min(pos + n, CRC_SIZE) && crc == Update(INIT, data[..crcBytes])
  {
    crc, crcBytes := crc0, crcBytes0;
    var i := 0;
    while i < n
      invariant i <= n
      invariant crcBytes == Min(pos + i, CRC_SIZE) && crc == Update(INIT, data[..crcBytes])
    {
      if crcBytes < CRC_SIZE {
        assert data[..crcBytes + 1][..crcBytes] == data[..crcBytes];
        crc := StepByTable(table, crc, data[pos + i]);
        crcBytes := crcBytes + 1;
      }
      i := i + 1;
    }
  }

  /**
   * The first loop of copy_directory: collect the names readdir returns,
   * skipping "." and "..", and give up on the 1025th name or on a name of
   * PATH_LEN characters or more.
   */
  method ReadNames(entries: seq<Entry>) returns (listed: seq<Entry>, ok: bool)
    ensures ok <==> !ListingError(entries)
    ensures ok ==> listed == Listed(entries)
  {
    listed := [];
    var i := 0;
    while i < |entries|
      invariant i <= |entries| && listed == Listed(entries[..i])
      invariant |listed| <= MAX_FILES && forall k | 0 <= k < |listed| :: |listed[k].name| < PATH_LEN
    {
      var e := entries[i];
      assert entries[..i + 1][..i] == entries[..i];
      if !IsDotEntry(e.name) {
        if |listed| >= MAX_FILES {
          ListedMonotone(entries, i + 1);
          return listed, false;
        }
        if |e.name| >= PATH_LEN {
          ListedMembers(entries);
          return listed, false;
        }
        listed := listed + [e];
      }
      i := i + 1;
    }
    assert entries[..i] == entries;
    assert forall e | e in listed :: |e.name| < PATH_LEN;
    return listed, true;
  }

  /**
   * One copy in progress: the oracle, the number of system calls made so
   * far, the caller's byte counter (*bytes_copied_p) and the lines written to
   * the manifest file.
   */
  class Copier {
    const env: Env
    var tick: nat
    var bytesCopied: int
    var manifest: seq<string>

    constructor (env: Env, tick: nat, bytesCopied: int)
      ensures this.env == env && this.tick == tick && this.bytesCopied == bytesCopied && manifest == []
    {
      this.env := env;
      this.tick := tick;
      this.bytesCopied := bytesCopied;
      manifest := [];
    }

    /**
     * The read/write loop of copy_file: read a buffer, give up quietly when
     * halt is set, write it, feed its bytes to the CRC while fewer than
     * CRC_SIZE have been fed, and count it.
     */
    method CopyChunks(data: seq<bv8>, table: array<bv32>) returns (end: LoopEnd, pos: nat, crc: bv32)
      requires IsCrcTable(table)
      modifies this
      ensures ReadLoop(env, old(tick), |data|, 0) == LoopResult(end, pos, tick)
      ensures bytesCopied == old(bytesCopied) + pos && manifest == old(manifest)
      ensures end == EndOfFile ==> crc == Update(INIT, data[..Min(|data|, CRC_SIZE)])
    {
      ghost var t0 := tick;
      var crcBytes: nat := 0;
      crc := INIT;
      pos := 0;
      while true
        invariant pos <= |data|
        invariant ReadLoop(env, tick, |data|, pos) == ReadLoop(env, t0, |data|, 0)
        invariant bytesCopied == old(bytesCopied) + pos && manifest == old(manifest)
        invariant crcBytes == Min(pos, CRC_SIZE) && crc == Update(INIT, data[..crcBytes])
        decreases |data| - pos
      {
        var readFails := env.Fails(tick);
        tick := tick + 1;
        if readFails { return ReadFailed, pos, crc; }
        var n := ChunkSize(|data| - pos);
        if n == 0 { return EndOfFile, pos, crc; }
        if env.HaltSeen(tick) { return Halted, pos, crc; }
        var writeFails := env.Fails(tick);
        tick := tick + 1;
        if writeFails { return WriteFailed, pos, crc; }
        crc, crcBytes := FeedCrc(table, data, pos, n, crc, crcBytes);
        bytesCopied := bytesCopied + n;
        pos := pos + n;
      }
    }

    /**
     * copy_file: copy `data` to `destPath` a buffer at a time, CRC the first
     * CRC_SIZE bytes with the table, count the bytes written, and append the
     * manifest line after a successful fsync when there is a sink.
     */
    method CopyFile(data: seq<bv8>, destPath: string, sink: bool, table: array<bv32>) returns (status: int, written: Option<seq<bv8>>)
      requires IsCrcTable(table)
      requires sink ==> |destPath| > |RAMDIR_PATH|
      modifies this
      ensures var r := CopyFileSpec(env, old(tick), data, destPath, sink);
        status == r.status && written == r.written && tick == r.t &&
        bytesCopied == old(bytesCopied) + Counted(r) && manifest == old(manifest) + LineSeq(r.line)
    {
      if env.Fails(tick) { tick := tick + 1; return -1, None; }      // stat
      tick := tick + 1;
      if env.Fails(tick) { tick := tick + 1; return -1, None; }      // open the source
      tick := tick + 1;
      if env.Fails(tick) { tick := tick + 1; return -1, None; }      // create the destination
      tick := tick + 1;
      var end, pos, crc := CopyChunks(data, table);
      written := Some(data[..pos]);
      if end == Halted { return 0, written; }
      if end != EndOfFile { return -1, written; }
      crc := crc ^ XOROUT;
      if env.Fails(tick) { tick := tick + 1; return -1, written; }   // fsync
      tick := tick + 1;
      if sink {
        manifest := manifest + [FormatLine(ManifestPath(destPath), crc)];
      }
      return 0, written;
    }

    /** The first loop's body for one name. */
    method CopyIfFile(destDir: string, e: Entry, sink: bool, table: array<bv32>) returns (exit: Option<int>, added: seq<Entry>)
      requires IsCrcTable(table)
      requires sink ==> |destDir| >= |RAMDIR_PATH|
      modifies this
      ensures var s := FileStep(env, old(tick), destDir, e, sink);
        exit == s.exit && added == s.added && tick == s.t &&
        bytesCopied == old(bytesCopied) + s.counted && manifest == old(manifest) + s.lines
    {
      var statFails := env.Fails(tick);
      tick := tick + 1;
      if statFails { return Some(-1), []; }
      if env.HaltSeen(tick) { return Some(0), []; }
      if !e.node.File? { return None, []; }
      var st, written := CopyFile(e.node.data, JoinPath(destDir, e.name), sink, table);
      exit := if st < 0 then Some(-1) else None;
      added := if written.Some? then [Entry(e.name, File(written.value))] else [];
    }

    /** The files loop of copy_directory, from the current tick with nothing copied yet. */
    method FilesLoop(destDir: string, sorted: seq<Entry>, sink: bool, table: array<bv32>)
      returns (exit: Option<int>, children: seq<Entry>)
      requires IsCrcTable(table)
      requires sink ==> |destDir| >= |RAMDIR_PATH|
      modifies this
      ensures var r := FilesPass(env, destDir, sorted, 0, sink, Progress(None, old(tick), [], 0, []));
        exit == r.exit && children == r.children && tick == r.t &&
        bytesCopied == old(bytesCopied) + r.counted && manifest == old(manifest) + r.lines
    {
      ghost var b0 := bytesCopied;
      ghost var m0 := manifest;
      ghost var p := Progress(None, tick, [], 0, []);
      ghost var total := FilesPass(env, destDir, sorted, 0, sink, p);
      exit, children := None, [];
      var i := 0;
      while i < |sorted| && exit.None?
        invariant i <= |sorted| && p.exit == exit && p.t == tick && p.children == children
        invariant bytesCopied == b0 + p.counted && manifest == m0 + p.lines
        invariant exit.None? ==> FilesPass(env, destDir, sorted, i, sink, p) == total
        invariant exit.Some? ==> p == total
        decreases |sorted| - i, if exit.None? then 1 else 0
      {
        ghost var s := FileStep(env, tick, destDir, sorted[i], sink);
        var added;
        exit, added := CopyIfFile(destDir, sorted[i], sink, table);
        AppendAssoc(m0, p.lines, s.lines);
        p := Then(p, s);
        children := children + added;
        i := i + 1;
      }
    }

    /** The second loop's body for one name. */
    method CopyIfDirectory(srcDir: string, destDir: string, ghost entries: seq<Entry>, e: Entry, sink: bool, table: array<bv32>)
      returns (exit: Option<int>, added: seq<Entry>)
      requires IsCrcTable(table)
      requires sink ==> |destDir| >= |RAMDIR_PATH|
      requires e in entries
      modifies this
      decreases entries, 0
      ensures var s := DirStep(env, old(tick), srcDir, destDir, entries, e, sink);
        exit == s.exit && added == s.added && tick == s.t &&
        bytesCopied == old(bytesCopied) + s.counted && manifest == old(manifest) + s.lines
    {
      var statFails := env.Fails(tick);
      tick := tick + 1;
      if statFails { return Some(-1), []; }
      if env.HaltSeen(tick) { return Some(0), []; }
      if !e.node.Dir? { return None, []; }
      var st, created := CopyDirectory(JoinPath(srcDir, e.name), JoinPath(destDir, e.name), e.node.children, sink, table);
      exit := if st < 0 then Some(-1) else None;
      added := if created.Some? then [Entry(e.name, Dir(created.value))] else [];
    }

    /** The directories loop of copy_directory, after the files loop left `children0`. */
    method DirsLoop(srcDir: string, destDir: string, ghost entries: seq<Entry>, sorted: seq<Entry>, sink: bool, table: array<bv32>, children0: seq<Entry>)
      returns (exit: Option<int>, children: seq<Entry>)
      requires IsCrcTable(table)
      requires sink ==> |destDir| >= |RAMDIR_PATH|
      requires forall e | e in sorted :: e in entries
      modifies this
      decreases entries, 1
      ensures var r := DirsPass(env, srcDir, destDir, entries, sorted, 0, sink, Progress(None, old(tick), children0, 0, []));
        exit == r.exit && children == r.children && tick == r.t &&
        bytesCopied == old(bytesCopied) + r.counted && manifest == old(manifest) + r.lines
    {
      ghost var b0 := bytesCopied;
      ghost var m0 := manifest;
      ghost var p := Progress(None, tick, children0, 0, []);
      ghost var total := DirsPass(env, srcDir, destDir, entries, sorted, 0, sink, p);
      exit, children := None, children0;
      var i := 0;
      while i < |sorted| && exit.None?
        invariant i <= |sorted| && p.exit == exit && p.t == tick && p.children == children
        invariant bytesCopied == b0 + p.counted && manifest == m0 + p.lines
        invariant exit.None? ==> DirsPass(env, srcDir, destDir, entries, sorted, i, sink, p) == total
        invariant exit.Some? ==> p == total
        decreases |sorted| - i, if exit.None? then 1 else 0
      {
        ghost var s := DirStep(env, tick, srcDir, destDir, entries, sorted[i], sink);
        var added;
        exit, added := CopyIfDirectory(srcDir, destDir, entries, sorted[i], sink, table);
        AppendAssoc(m0, p.lines, s.lines);
        p := Then(p, s);
        children := children + added;
        i := i + 1;
      }
    }

    /**
     * copy_directory: skip the hidden Windows directory, open the source,
     * create the destination, list and sort the names, then copy the regular
     * files of this level and after them recurse into its directories.
     */
    method CopyDirectory(srcDir: string, destDir: string, entries: seq<Entry>, sink: bool, table: array<bv32>)
      returns (status: int, created: Option<seq<Entry>>)
      requires IsCrcTable(table)
      requires sink ==> |destDir| >= |RAMDIR_PATH|
      modifies this
      decreases entries, 2
      ensures var r := CopyDirSpec(env, old(tick), srcDir, destDir, entries, sink);
        status == r.status && created == r.created && tick == r.t &&
        bytesCopied == old(bytesCopied) + r.counted && manifest == old(manifest) + r.lines
    {
      if Find(srcDir, SYSTEM_VOLUME_INFORMATION).Some? { return 0, None; }
      if env.Fails(tick) { tick := tick + 1; return -1, None; }      // opendir
      tick := tick + 1;
      if env.Fails(tick) { tick := tick + 1; return -1, None; }      // mkdir
      tick := tick + 1;
      var listed, ok := ReadNames(entries);
      if !ok { return -1, Some([]); }
      var sorted := SortByName(listed);
      SortByNameMembers(listed);
      ListedMembers(entries);
      if env.HaltSeen(tick) { return 0, Some([]); }
      ghost var m0 := manifest;
      var exit, children := FilesLoop(destDir, sorted, sink, table);
      if exit.Some? { return exit.value, Some(children); }
      ghost var m1 := manifest;
      exit, children := DirsLoop(srcDir, destDir, entries, sorted, sink, table, children);
      AppendAssoc(m0, m1[|m0|..], manifest[|m1|..]);
      status := if exit.Some? then exit.value else 0;
      created := Some(children);
    }
  }
}
