/**
 * What a scan leaves behind on a disk that is a tree of uniquely named entries: the index holds words of files that
 * are really there, and no two stored files have the same contents.
 */
module ScanTheorems {
  import opened Basics
  import opened Disksim
  import opened CacheSpec
  import opened Inode
  import opened File
  import opened Directory
  import opened Pathname
  import opened Fileops
  import opened Pathstore
  import opened Words
  import opened Index
  import opened Scan

  // ---------------------------------------------------------------- disks that are trees

  /** The two names that a directory has for itself and for its parent: "." and "..". */
  predicate NamesDirectoryItself(name: CString) { name == [46] || name == [46, 46] }

  /** The entry at byte `at` is found by its own name, and what it names has a smaller rank. */
  ghost predicate EntryFits(data: seq<Byte>, at: nat, rank: int -> nat, inumber: int)
    requires at + DIRENT_SIZE <= |data|
  {
    var d: Dirent := data[at..at + DIRENT_SIZE];
    var name := EntryName(d);
    NamesDirectoryItself(name)
    || (IsName(name) && FindEntry(data, Key(name), 0) == Some(EntryInumber(d)) && rank(EntryInumber(d)) < rank(inumber))
  }

  ghost predicate DirectoryFits(data: seq<Byte>, rank: int -> nat, inumber: int) {
    forall e :: 0 <= e < NumEntries(data) ==> EntryFits(data, DIRENT_SIZE * e, rank, inumber)
  }

  /** Allocated inodes are regular files or directories, and the rank of an inode bounds the depth below it. */
  ghost predicate IsTree(m: Setting, rank: int -> nat)
    requires Good(m)
  {
    forall n :: ValidInumber(m.isize, n) && IsAllocated(InodeOnDisk(m.disk, m.isize, n))
                && !IsRegular(InodeOnDisk(m.disk, m.isize, n)) ==>
      && IsDir(InodeOnDisk(m.disk, m.isize, n))
      && DirectoryFits(Contents(m.disk, InodeOnDisk(m.disk, m.isize, n)), rank, n)
  }

  // ---------------------------------------------------------------- what is promised

  /** The posting is a word of the file that its path stands for: a maximal run of letters, cut at full length, at
      its 1-based offset. */
  ghost predicate SoundPosting(m: Setting, p: Posting)
    requires Good(m)
  {
    var file := FileAt(m.disk, m.isize, p.loc.pathname);
    file.Some? && exists k :: 0 <= k < |Spans(file.value, 0)|
                              && p == PostingOf(p.loc.pathname, file.value, Spans(file.value, 0)[k])
  }

  ghost predicate SoundLog(m: Setting, log: seq<Posting>)
    requires Good(m)
  {
    forall k :: 0 <= k < |log| ==> SoundPosting(m, log[k])
  }

  /** Every word of the file is posted under the path. */
  ghost predicate WordsPosted(log: seq<Posting>, pathname: CString, data: seq<Byte>) {
    forall k :: 0 <= k < |Spans(data, 0)| ==> PostingOf(pathname, data, Spans(data, 0)[k]) in log
  }

  ghost predicate FileIndexed(m: Setting, log: seq<Posting>, pathname: CString)
    requires Good(m)
  {
    var file := FileAt(m.disk, m.isize, pathname);
    file.Some? && WordsPosted(log, pathname, file.value)
  }

  ghost predicate StoredFilesIndexed(m: Setting, st: State)
    requires Good(m)
  {
    forall e :: e in st.elements ==> FileIndexed(m, st.log, e.pathname)
  }

  ghost predicate Sound(m: Setting, st: State)
    requires Good(m)
  {
    && ConsistentStore(m.disk, m.isize, m.sha1, st.elements)
    && SoundLog(m, st.log) && StoredFilesIndexed(m, st)
  }

  /** Walking along the path, or along the empty prefix that stands for "/", leads to the inode. */
  ghost predicate LeadsTo(m: Setting, prefix: CString, inumber: int)
    requires Good(m)
  {
    Walk(m.disk, m.isize, Components(prefix), ROOT_INUMBER) == inumber
  }

  /** An absolute path, or the empty prefix that stands for "/". */
  predicate Rooted(prefix: CString) { prefix != [] ==> prefix[0] == SLASH }

  lemma PathLeads(m: Setting, pathname: CString, inumber: int)
    requires Good(m) && ValidPath(pathname) && LeadsTo(m, Prefix(pathname), inumber)
    ensures Resolve(m.disk, m.isize, pathname) == inumber
  {
    if |pathname| == 1 {
      assert pathname[1..] == [] && SkipSlashes(pathname) == SkipSlashes([]);
      assert Components(pathname) == [] == Components([]);
    }
  }

  /** A name that is found in the directory that a prefix leads to leads on. */
  lemma ChildLeads(m: Setting, prefix: CString, inumber: int, name: CString, child: int)
    requires Good(m) && LeadsTo(m, prefix, inumber) && IsName(name)
    requires FindNameOnDisk(m.disk, m.isize, name, inumber) == Some(child)
    requires |prefix| <= MAXPATH - 16 && Rooted(prefix) && |name| <= NAME_SIZE
    ensures ValidPath(Child(prefix, name)) && Prefix(Child(prefix, name)) == Child(prefix, name)
    ensures LeadsTo(m, Child(prefix, name), child)
  {
    ComponentsOfChild(prefix, name);
    WalkChild(m.disk, m.isize, Components(prefix), name, ROOT_INUMBER);
  }

  // ---------------------------------------------------------------- one file

  lemma PostingsAreSound(m: Setting, pathname: CString, data: seq<Byte>)
    requires Good(m) && FileAt(m.disk, m.isize, pathname) == Some(data)
    ensures SoundLog(m, PostingsFrom(pathname, data, 0))
  {
  }

  lemma SoundLogs(m: Setting, a: seq<Posting>, b: seq<Posting>)
    requires Good(m) && SoundLog(m, a) && SoundLog(m, b)
    ensures SoundLog(m, a + b)
  {
  }

  lemma NewFileIndexed(m: Setting, st: State, e: Element, data: seq<Byte>)
    requires Good(m) && StoredFilesIndexed(m, st) && FileAt(m.disk, m.isize, e.pathname) == Some(data)
    ensures StoredFilesIndexed(m, State([e] + st.elements, st.log + PostingsFrom(e.pathname, data, 0)))
  {
    var added := PostingsFrom(e.pathname, data, 0);
    forall x | x in [e] + st.elements ensures FileIndexed(m, st.log + added, x.pathname) {
      if x == e {
        PostingsPostWords(e.pathname, data, st.log);
      }
    }
  }

  lemma PostingsPostWords(pathname: CString, data: seq<Byte>, log: seq<Posting>)
    ensures WordsPosted(log + PostingsFrom(pathname, data, 0), pathname, data)
  {
    var added := PostingsFrom(pathname, data, 0);
    forall k | 0 <= k < |Spans(data, 0)| ensures PostingOf(pathname, data, Spans(data, 0)[k]) in log + added {
      assert (log + added)[|log| + k] == added[k];
    }
  }

  lemma FileKeepsSound(m: Setting, free: nat, pathname: CString, inode: Ino, st: State)
    requires Good(m) && m.discardDups && free >= 2 && Sound(m, st)
    requires InodeOfPath(m.disk, m.isize, pathname, inode)
    ensures Sound(m, FileInTree(m, free, pathname, inode, st).0)
  {
    RejectsDuplicatesOnly(m.disk, m.isize, free, m.sha1, st.elements, pathname, inode);
    PostingsAreSound(m, pathname, Contents(m.disk, inode));
    SoundLogs(m, st.log, PostingsFrom(pathname, Contents(m.disk, inode), 0));
    NewFileIndexed(m, st, Element(pathname, Some(ChecksumOf(m.disk, m.sha1, inode, SUCCESS))), Contents(m.disk, inode));
  }

  // ---------------------------------------------------------------- entries by their index

  ghost predicate IsDirectory(m: Setting, inumber: int)
    requires Good(m)
  {
    ValidInumber(m.isize, inumber) && !IsFile(m, inumber) && IsAllocated(InodeOnDisk(m.disk, m.isize, inumber))
  }

  ghost function DataOf(m: Setting, inumber: int): seq<Byte>
    requires Good(m) && IsDirectory(m, inumber)
  {
    Contents(m.disk, InodeOnDisk(m.disk, m.isize, inumber))
  }

  /** Entry `e` of a directory. */
  function DirentAt(data: seq<Byte>, e: nat): Dirent
    requires e < NumEntries(data)
  {
    data[DIRENT_SIZE * e..DIRENT_SIZE * e + DIRENT_SIZE]
  }

  /** An entry of a tree may be skipped or leads down. */
  ghost predicate LeadsDown(m: Setting, rank: int -> nat, inumber: int, d: Dirent)
    requires Good(m)
  {
    NamesDirectoryItself(EntryName(d))
    || (IsName(EntryName(d)) && rank(EntryInumber(d)) < rank(inumber)
        && FindNameOnDisk(m.disk, m.isize, EntryName(d), inumber) == Some(EntryInumber(d)))
  }

  lemma TreeEntryFits(m: Setting, rank: int -> nat, inumber: int, e: nat)
    requires Good(m) && IsTree(m, rank) && IsDirectory(m, inumber) && e < NumEntries(DataOf(m, inumber))
    ensures LeadsDown(m, rank, inumber, DirentAt(DataOf(m, inumber), e))
  {
    assert EntryFits(DataOf(m, inumber), DIRENT_SIZE * e, rank, inumber);
  }

  ghost function EntriesAt(m: Setting, free: nat, prefix: CString, data: seq<Byte>, i: nat, st: State): State
    requires Good(m) && i <= NumEntries(data)
  {
    EntriesFrom(m, free, prefix, data, DIRENT_SIZE * i, st).0
  }

  lemma EntriesStep(m: Setting, free: nat, prefix: CString, data: seq<Byte>, i: nat, st: State)
    requires Good(m) && i < NumEntries(data)
    ensures EntriesAt(m, free, prefix, data, i, st)
            == EntriesAt(m, free, prefix, data, i + 1, AfterEntry(m, free, prefix, DirentAt(data, i), st))
  {
  }

  // ---------------------------------------------------------------- the whole tree

  /** On a tree that fits in the table of open files, the scan of a path that leads to an inode keeps the index and
      the store sound. */
  lemma {:induction false} TreeKeepsSound(m: Setting, rank: int -> nat, free: nat, pathname: CString, inumber: int,
                                          st: State, after: State)
    requires Good(m) && m.discardDups && IsTree(m, rank) && Sound(m, st)
    requires ValidPath(pathname) && LeadsTo(m, Prefix(pathname), inumber) && rank(inumber) + 2 <= free
    requires after == TreeOf(m, free, pathname, inumber, st).0
    ensures Sound(m, after)
    decreases free, 0, 1
  {
    if IsFile(m, inumber) {
      FileScanKeepsSound(m, free, pathname, inumber, st, after);
    } else if IsDirectory(m, inumber) && |pathname| <= MAXPATH - 16 {
      DirectoryScanKeepsSound(m, rank, free, pathname, inumber, st, after);
    } else {
      TreeOfNothing(m, free, pathname, inumber, st);
    }
  }

  /** The prefix under which the entries of a directory are scanned. */
  lemma StartOfDirectory(m: Setting, free: nat, pathname: CString, inumber: int, st: State, after: State)
    returns (prefix: CString, left: nat)
    requires Good(m) && IsDirectory(m, inumber) && LeadsTo(m, Prefix(pathname), inumber)
    requires ValidPath(pathname) && |pathname| <= MAXPATH - 16 && free > 0
    requires after == TreeOf(m, free, pathname, inumber, st).0
    ensures LeadsTo(m, prefix, inumber) && |prefix| <= |pathname| && Rooted(prefix) && left == free - 1
    ensures after == EntriesAt(m, left, prefix, DataOf(m, inumber), 0, st)
  {
    prefix, left := Prefix(pathname), free - 1;
    TreeOfDirectory(m, free, pathname, inumber, st);
  }

  lemma {:induction false} DirectoryScanKeepsSound(m: Setting, rank: int -> nat, free: nat, pathname: CString,
                                                   inumber: int, st: State, after: State)
    requires Good(m) && m.discardDups && IsTree(m, rank) && Sound(m, st)
    requires IsDirectory(m, inumber) && LeadsTo(m, Prefix(pathname), inumber) && rank(inumber) + 2 <= free
    requires ValidPath(pathname) && |pathname| <= MAXPATH - 16
    requires after == TreeOf(m, free, pathname, inumber, st).0
    ensures Sound(m, after)
    decreases free, 0, 0
  {
    var prefix, left := StartOfDirectory(m, free, pathname, inumber, st, after);
    EntriesKeepSound(m, rank, left, prefix, inumber, DataOf(m, inumber), 0, st, after);
  }

  lemma FileScanKeepsSound(m: Setting, free: nat, pathname: CString, f: int, st: State, after: State)
    requires Good(m) && m.discardDups && free >= 2 && Sound(m, st) && IsFile(m, f)
    requires ValidPath(pathname) && LeadsTo(m, Prefix(pathname), f)
    requires after == TreeOf(m, free, pathname, f, st).0
    ensures Sound(m, after)
  {
    PathLeads(m, pathname, f);
    FileKeepsSound(m, free, pathname, InodeOnDisk(m.disk, m.isize, f), st);
  }

  lemma TreeOfDirectory(m: Setting, free: nat, pathname: CString, inumber: int, st: State)
    requires Good(m) && IsDirectory(m, inumber) && free > 0 && |pathname| <= MAXPATH - 16
    ensures TreeOf(m, free, pathname, inumber, st).0
            == EntriesAt(m, free - 1, Prefix(pathname), DataOf(m, inumber), 0, st)
  {
  }

  lemma TreeOfNothing(m: Setting, free: nat, pathname: CString, inumber: int, st: State)
    requires Good(m) && !IsFile(m, inumber) && !(IsDirectory(m, inumber) && |pathname| <= MAXPATH - 16)
    ensures TreeOf(m, free, pathname, inumber, st).0 == st
  {
  }

  lemma {:induction false} EntriesKeepSound(m: Setting, rank: int -> nat, free: nat, prefix: CString, inumber: int,
                                            dir: seq<Byte>, i: nat, st: State, after: State)
    requires Good(m) && m.discardDups && IsTree(m, rank) && Sound(m, st)
    requires IsDirectory(m, inumber) && LeadsTo(m, prefix, inumber)
    requires |prefix| <= MAXPATH - 16 && Rooted(prefix) && rank(inumber) + 1 <= free
    requires dir == DataOf(m, inumber) && i <= NumEntries(dir)
    requires after == EntriesAt(m, free, prefix, dir, i, st)
    ensures Sound(m, after)
    decreases free, 1, NumEntries(dir) - i
  {
    if i < NumEntries(dir) {
      var next := AfterEntry(m, free, prefix, DirentAt(dir, i), st);
      TreeEntryFits(m, rank, inumber, i);
      EntryKeepsSound(m, rank, free, prefix, inumber, DirentAt(dir, i), st, next);
      EntriesStep(m, free, prefix, dir, i, st);
      EntriesKeepSound(m, rank, free, prefix, inumber, dir, i + 1, next, after);
    }
  }

  lemma {:induction false} EntryKeepsSound(m: Setting, rank: int -> nat, free: nat, prefix: CString, inumber: int,
                                           d: Dirent, st: State, after: State)
    requires Good(m) && m.discardDups && IsTree(m, rank) && Sound(m, st)
    requires LeadsTo(m, prefix, inumber) && rank(inumber) + 1 <= free
    requires |prefix| <= MAXPATH - 16 && Rooted(prefix)
    requires LeadsDown(m, rank, inumber, d) && after == AfterEntry(m, free, prefix, d, st)
    ensures Sound(m, after)
    decreases free, 0, 2
  {
    if !NamesDirectoryItself(EntryName(d)) {
      ChildLeads(m, prefix, inumber, EntryName(d), EntryInumber(d));
      TreeKeepsSound(m, rank, free, Child(prefix, EntryName(d)), EntryInumber(d), st, after);
    }
  }

  // ---------------------------------------------------------------- nothing is left out

  ghost predicate Grows(before: State, after: State) {
    && (forall e :: e in before.elements ==> e in after.elements)
    && (forall p :: p in before.log ==> p in after.log)
  }

  lemma {:induction false} TreeGrows(m: Setting, free: nat, pathname: CString, inumber: int, st: State)
    requires Good(m)
    ensures Grows(st, TreeOf(m, free, pathname, inumber, st).0)
    decreases free, 0, 0
  {
    if IsFile(m, inumber) {
    } else if !(|pathname| > MAXPATH - 16 || !ValidInumber(m.isize, inumber) || free == 0) {
      EntriesGrow(m, free - 1, Prefix(pathname), StreamOf(m.disk, InodeOnDisk(m.disk, m.isize, inumber)), 0, st);
    }
  }

  lemma {:induction false} EntriesGrow(m: Setting, free: nat, prefix: CString, data: seq<Byte>, at: nat, st: State)
    requires Good(m) && at <= |data|
    ensures Grows(st, EntriesFrom(m, free, prefix, data, at, st).0)
    decreases free, 1, |data| - at
  {
    if at + DIRENT_SIZE <= |data| {
      var d: Dirent := data[at..at + DIRENT_SIZE];
      if !NamesDirectoryItself(EntryName(d)) {
        TreeGrows(m, free, Child(prefix, EntryName(d)), EntryInumber(d), st);
      }
      EntriesGrow(m, free, prefix, data, at + DIRENT_SIZE, AfterEntry(m, free, prefix, d, st));
    }
  }

  /** Some stored path has these contents, and all their words are posted under it. */
  ghost predicate Represented(m: Setting, st: State, data: seq<Byte>)
    requires Good(m)
  {
    exists e :: e in st.elements && FileAt(m.disk, m.isize, e.pathname) == Some(data)
                && WordsPosted(st.log, e.pathname, data)
  }

  lemma GrowsRepresented(m: Setting, before: State, after: State, data: seq<Byte>)
    requires Good(m) && Grows(before, after) && Represented(m, before, data)
    ensures Represented(m, after, data)
  {
    var e :| e in before.elements && FileAt(m.disk, m.isize, e.pathname) == Some(data)
             && WordsPosted(before.log, e.pathname, data);
    assert e in after.elements && WordsPosted(after.log, e.pathname, data);
  }

  lemma StoredIsRepresented(m: Setting, st: State, data: seq<Byte>, k: nat)
    requires Good(m) && Sound(m, st) && k < |st.elements|
    requires FileAt(m.disk, m.isize, st.elements[k].pathname) == Some(data)
    ensures Represented(m, st, data)
  {
    assert FileIndexed(m, st.log, st.elements[k].pathname);
  }

  lemma FileRepresented(m: Setting, free: nat, pathname: CString, inode: Ino, st: State)
    requires Good(m) && m.discardDups && free >= 2 && Sound(m, st)
    requires InodeOfPath(m.disk, m.isize, pathname, inode)
    ensures Represented(m, FileInTree(m, free, pathname, inode, st).0, Contents(m.disk, inode))
  {
    var after := FileInTree(m, free, pathname, inode, st).0;
    FileKeepsSound(m, free, pathname, inode, st);
    RejectsDuplicatesOnly(m.disk, m.isize, free, m.sha1, st.elements, pathname, inode);
    if IsNew(m.disk, m.isize, Names(st.elements), pathname) {
      StoredIsRepresented(m, after, Contents(m.disk, inode), 0);
    } else {
      var k :| 0 <= k < |st.elements| && (Names(st.elements)[k] == pathname
               || FileAt(m.disk, m.isize, Names(st.elements)[k]) == FileAt(m.disk, m.isize, pathname));
      StoredIsRepresented(m, after, Contents(m.disk, inode), k);
    }
  }

  /** `f` is `n` or is reached from it through entries other than "." and "..". */
  ghost predicate Below(m: Setting, rank: int -> nat, n: int, f: int)
    requires Good(m)
    decreases rank(n)
  {
    n == f || (IsDirectory(m, n) && exists e :: 0 <= e < NumEntries(DataOf(m, n)) && LeadsBelow(m, rank, n, e, f))
  }

  ghost predicate LeadsBelow(m: Setting, rank: int -> nat, n: int, e: nat, f: int)
    requires Good(m) && IsDirectory(m, n) && e < NumEntries(DataOf(m, n))
    decreases rank(n), 0
  {
    var d := DirentAt(DataOf(m, n), e);
    !NamesDirectoryItself(EntryName(d)) && rank(EntryInumber(d)) < rank(n) && Below(m, rank, EntryInumber(d), f)
  }

  ghost predicate IsFileWith(m: Setting, f: int, data: seq<Byte>)
    requires Good(m)
  {
    IsFile(m, f) && Contents(m.disk, InodeOnDisk(m.disk, m.isize, f)) == data
  }

  /** There is room, in the table of open files and in the path buffer, for the tree below the inode. */
  ghost predicate Fits(rank: int -> nat, free: nat, path: CString, inumber: int) {
    rank(inumber) + 2 <= free && |path| + (NAME_SIZE + 1) * rank(inumber) <= MAXPATH - 16
  }

  /** Every file below the inode is represented after the scan. Long paths cannot occur: a name has at most 14
      bytes. */
  lemma {:induction false} TreeCovers(m: Setting, rank: int -> nat, free: nat, pathname: CString, inumber: int,
                                      st: State, f: int, data: seq<Byte>, after: State)
    requires Good(m) && m.discardDups && IsTree(m, rank) && Sound(m, st) && IsFileWith(m, f, data)
    requires ValidPath(pathname) && LeadsTo(m, Prefix(pathname), inumber) && Fits(rank, free, pathname, inumber)
    requires Below(m, rank, inumber, f) && after == TreeOf(m, free, pathname, inumber, st).0
    ensures Represented(m, after, data)
    decreases free, 0, 1
  {
    if inumber == f {
      FileCovers(m, free, pathname, f, st, data);
    } else {
      var e := EntryBelow(m, rank, inumber, f);
      DirectoryCovers(m, rank, free, pathname, inumber, st, e, f, data, after);
    }
  }

  lemma {:induction false} DirectoryCovers(m: Setting, rank: int -> nat, free: nat, pathname: CString, inumber: int,
                                           st: State, e: nat, f: int, data: seq<Byte>, after: State)
    requires Good(m) && m.discardDups && IsTree(m, rank) && Sound(m, st) && IsFileWith(m, f, data)
    requires ValidPath(pathname) && LeadsTo(m, Prefix(pathname), inumber) && Fits(rank, free, pathname, inumber)
    requires IsDirectory(m, inumber) && e < NumEntries(DataOf(m, inumber)) && LeadsBelow(m, rank, inumber, e, f)
    requires after == TreeOf(m, free, pathname, inumber, st).0
    ensures Represented(m, after, data)
    decreases free, 0, 0
  {
    var prefix, left := StartOfDirectory(m, free, pathname, inumber, st, after);
    EntriesCover(m, rank, left, prefix, inumber, DataOf(m, inumber), 0, st, e, f, data, after);
  }

  lemma FileCovers(m: Setting, free: nat, pathname: CString, f: int, st: State, data: seq<Byte>)
    requires Good(m) && m.discardDups && free >= 2 && Sound(m, st) && IsFileWith(m, f, data)
    requires ValidPath(pathname) && LeadsTo(m, Prefix(pathname), f)
    ensures Represented(m, TreeOf(m, free, pathname, f, st).0, data)
  {
    PathLeads(m, pathname, f);
    FileRepresented(m, free, pathname, InodeOnDisk(m.disk, m.isize, f), st);
  }

  lemma EntryBelow(m: Setting, rank: int -> nat, n: int, f: int) returns (e: nat)
    requires Good(m) && Below(m, rank, n, f) && n != f
    ensures IsDirectory(m, n) && e < NumEntries(DataOf(m, n)) && LeadsBelow(m, rank, n, e, f)
  {
    e :| e < NumEntries(DataOf(m, n)) && LeadsBelow(m, rank, n, e, f);
  }

  lemma {:induction false} EntriesCover(m: Setting, rank: int -> nat, free: nat, prefix: CString, inumber: int,
                                        dir: seq<Byte>, i: nat, st: State, e: nat, f: int, data: seq<Byte>,
                                        after: State)
    requires Good(m) && m.discardDups && IsTree(m, rank) && Sound(m, st) && IsFileWith(m, f, data)
    requires IsDirectory(m, inumber) && LeadsTo(m, prefix, inumber) && Rooted(prefix)
    requires Fits(rank, free + 1, prefix, inumber)
    requires dir == DataOf(m, inumber) && i <= e < NumEntries(dir) && LeadsBelow(m, rank, inumber, e, f)
    requires after == EntriesAt(m, free, prefix, dir, i, st)
    ensures Represented(m, after, data)
    decreases free, 1, e - i
  {
    var d := DirentAt(dir, i);
    var next := AfterEntry(m, free, prefix, d, st);
    TreeEntryFits(m, rank, inumber, i);
    EntriesStep(m, free, prefix, dir, i, st);
    if i < e {
      EntryKeepsSound(m, rank, free, prefix, inumber, d, st, next);
      EntriesCover(m, rank, free, prefix, inumber, dir, i + 1, next, e, f, data, after);
    } else {
      EntryLeadsBelow(m, rank, inumber, e, d, f);
      EntryCovers(m, rank, free, prefix, inumber, d, st, f, data, next);
      RestKeepsRepresented(m, free, prefix, dir, i + 1, next, data, after);
    }
  }

  lemma EntryLeadsBelow(m: Setting, rank: int -> nat, n: int, e: nat, d: Dirent, f: int)
    requires Good(m) && IsDirectory(m, n) && e < NumEntries(DataOf(m, n)) && LeadsBelow(m, rank, n, e, f)
    requires d == DirentAt(DataOf(m, n), e)
    ensures !NamesDirectoryItself(EntryName(d)) && Below(m, rank, EntryInumber(d), f)
  {
  }

  lemma RestKeepsRepresented(m: Setting, free: nat, prefix: CString, dir: seq<Byte>, i: nat, st: State,
                             data: seq<Byte>, after: State)
    requires Good(m) && i <= NumEntries(dir) && Represented(m, st, data)
    requires after == EntriesAt(m, free, prefix, dir, i, st)
    ensures Represented(m, after, data)
  {
    EntriesGrow(m, free, prefix, dir, DIRENT_SIZE * i, st);
    GrowsRepresented(m, st, after, data);
  }

  lemma {:induction false} EntryCovers(m: Setting, rank: int -> nat, free: nat, prefix: CString, inumber: int,
                                       d: Dirent, st: State, f: int, data: seq<Byte>, after: State)
    requires Good(m) && m.discardDups && IsTree(m, rank) && Sound(m, st) && IsFileWith(m, f, data)
    requires LeadsTo(m, prefix, inumber) && Rooted(prefix)
    requires Fits(rank, free + 1, prefix, inumber) && LeadsDown(m, rank, inumber, d)
    requires !NamesDirectoryItself(EntryName(d)) && Below(m, rank, EntryInumber(d), f)
    requires after == AfterEntry(m, free, prefix, d, st)
    ensures Represented(m, after, data)
    decreases free, 0, 2
  {
    ChildLeads(m, prefix, inumber, EntryName(d), EntryInumber(d));
    TreeCovers(m, rank, free, Child(prefix, EntryName(d)), EntryInumber(d), st, f, data, after);
  }

  /** The scan of a directory succeeds exactly if the directory holds whole entries, whatever became of them. */
  lemma {:induction false} EntriesReturn(m: Setting, free: nat, prefix: CString, data: seq<Byte>, at: nat, st: State)
    requires Good(m) && at <= |data|
    ensures EntriesFrom(m, free, prefix, data, at, st).1 == if (|data| - at) % 16 == 0 then 0 else -1
    decreases |data| - at
  {
    if at + DIRENT_SIZE <= |data| {
      EntriesReturn(m, free, prefix, data, at + DIRENT_SIZE,
                    AfterEntry(m, free, prefix, data[at..at + DIRENT_SIZE], st));
    }
  }

  lemma ScanReturns(m: Setting, free: nat, pathname: CString, inumber: int, st: State)
    requires Good(m) && IsDirectory(m, inumber)
    ensures TreeOf(m, free, pathname, inumber, st).1
            == if free > 0 && |pathname| <= MAXPATH - 16 && |DataOf(m, inumber)| % 16 == 0 then 0 else -1
  {
    if free > 0 && |pathname| <= MAXPATH - 16 {
      EntriesReturn(m, free - 1, Prefix(pathname), DataOf(m, inumber), 0, st);
    }
  }

  /** A scan from the root that starts with an empty index and a free table, on a tree of depth at most 62: every
      posting is a word of the file at its path, the stored files are pairwise different, and every file of the tree
      has the contents of a stored path under which all its words are posted. */
  lemma ScanOfTree(m: Setting, rank: int -> nat)
    requires Good(m) && m.discardDups && IsTree(m, rank) && rank(ROOT_INUMBER) + 2 <= MAX_FILES
    ensures var st := TreeOf(m, MAX_FILES, [SLASH], ROOT_INUMBER, State([], [])).0;
            && SoundLog(m, st.log) && DistinctFiles(m.disk, m.isize, Names(st.elements))
            && forall f :: IsFile(m, f) && Below(m, rank, ROOT_INUMBER, f) ==>
                 Represented(m, st, Contents(m.disk, InodeOnDisk(m.disk, m.isize, f)))
  {
    assert Components([]) == [];
    var none := State([], []);
    TreeKeepsSound(m, rank, MAX_FILES, [SLASH], ROOT_INUMBER, none,
                   TreeOf(m, MAX_FILES, [SLASH], ROOT_INUMBER, none).0);
    forall f | IsFile(m, f) && Below(m, rank, ROOT_INUMBER, f)
      ensures Represented(m, TreeOf(m, MAX_FILES, [SLASH], ROOT_INUMBER, none).0,
                          Contents(m.disk, InodeOnDisk(m.disk, m.isize, f)))
    {
      TreeCovers(m, rank, MAX_FILES, [SLASH], ROOT_INUMBER, none, f,
                 Contents(m.disk, InodeOnDisk(m.disk, m.isize, f)),
                 TreeOf(m, MAX_FILES, [SLASH], ROOT_INUMBER, none).0);
    }
  }
}
