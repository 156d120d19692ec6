/**
 * Indexing a directory tree (assign2/scan.c): the tokenizer and the recursive walk. Both are proved against a walk
 * over the flat contents of the inodes.
 */
module Scan {
  import opened Basics
  import opened Disksim
  import opened CacheSpec
  import opened CacheMem
  import opened Inode
  import opened File
  import opened Directory
  import opened Pathname
  import opened Fileops
  import opened Pathstore
  import opened Words
  import opened Index

  const DOT: Byte := 46

  // ---------------------------------------------------------------- the scan on flat contents

  /** The index and the store as the walk over flat contents builds them. */
  datatype State = State(elements: seq<Element>, log: seq<Posting>)

  /** What does not change during a scan. */
  datatype Setting = Setting(disk: Disk, isize: nat, sha1: seq<Byte> -> Checksum, discardDups: bool)

  ghost predicate Good(m: Setting) { GoodDisk(m.disk, m.isize) }

  function PostingOf(pathname: CString, data: seq<Byte>, s: Span): Posting {
    Posting(WordOf(data, s), Location(pathname, s.offset))
  }

  function PostingsOf(pathname: CString, data: seq<Byte>, spans: seq<Span>): seq<Posting> {
    seq(|spans|, k requires 0 <= k < |spans| => PostingOf(pathname, data, spans[k]))
  }

  function PostingsFrom(pathname: CString, data: seq<Byte>, from: nat): seq<Posting>
    requires from <= |data|
  {
    PostingsOf(pathname, data, Spans(data, from))
  }

  ghost function FileInTree(m: Setting, free: nat, pathname: CString, inode: Ino, st: State): (State, int)
    requires Good(m) && IsAllocated(inode) && WellFormed(m.disk, inode)
  {
    var c := ChecksumOf(m.disk, m.sha1, inode, SUCCESS);
    if m.discardDups && Rejects(m.disk, m.isize, free, st.elements, pathname, c) then (st, 0)
    else
      var stored := st.(elements := [Element(pathname, if m.discardDups then Some(c) else None)] + st.elements);
      if free == 0 then (stored, -1)
      else (stored.(log := st.log + PostingsFrom(pathname, Contents(m.disk, inode), 0)), 0)
  }

  ghost predicate IsFile(m: Setting, inumber: int)
    requires Good(m)
  {
    ValidInumber(m.isize, inumber)
    && IsAllocated(InodeOnDisk(m.disk, m.isize, inumber)) && IsRegular(InodeOnDisk(m.disk, m.isize, inumber))
  }

  /** The 16 bytes of a directory entry. */
  type Dirent = d: seq<Byte> | |d| == DIRENT_SIZE witness seq(DIRENT_SIZE, i => 0)

  /** The name of an entry: d_name up to its first NUL. */
  function EntryName(d: Dirent): (name: CString)
    ensures |name| <= NAME_SIZE
  {
    UpToNul(d[2..])
  }

  function EntryInumber(d: Dirent): Word {
    d[0] as int + 256 * d[1] as int
  }

  predicate IsDots(name: CString) { name == [DOT] || name == [DOT, DOT] }

  /** A path is a prefix for its children, except "/" which stands for the empty prefix. */
  function Prefix(pathname: CString): CString {
    if |pathname| == 1 then [] else pathname
  }

  function Child(prefix: CString, name: CString): (r: CString)
    ensures r != []
  {
    prefix + [SLASH] + name
  }

  /** Scan_TreeAndIndex on flat contents, with `free` free slots in the table of open files. */
  ghost function TreeOf(m: Setting, free: nat, pathname: CString, inumber: int, st: State): (State, int)
    requires Good(m)
    decreases free, 0, 0
  {
    if IsFile(m, inumber) then FileInTree(m, free, pathname, InodeOnDisk(m.disk, m.isize, inumber), st)
    else if |pathname| > MAXPATH - 16 || !ValidInumber(m.isize, inumber) || free == 0 then (st, -1)
    else EntriesFrom(m, free - 1, Prefix(pathname), StreamOf(m.disk, InodeOnDisk(m.disk, m.isize, inumber)), 0, st)
  }

  /** The entries of a directory from byte `at` on. */
  ghost function EntriesFrom(m: Setting, free: nat, prefix: CString, data: seq<Byte>, at: nat, st: State): (State, int)
    requires Good(m) && at <= |data|
    decreases free, 1, |data| - at
  {
    if at == |data| then (st, 0)
    else if at + DIRENT_SIZE > |data| then (st, -1)
    else
      EntriesFrom(m, free, prefix, data, at + DIRENT_SIZE,
                  AfterEntry(m, free, prefix, data[at..at + DIRENT_SIZE], st))
  }

  /** One entry: "." and ".." are skipped, any other is scanned under the path prefix/name. */
  ghost function AfterEntry(m: Setting, free: nat, prefix: CString, d: Dirent, st: State): State
    requires Good(m)
    decreases free, 1, 0
  {
    if IsDots(EntryName(d)) then st else TreeOf(m, free, Child(prefix, EntryName(d)), EntryInumber(d), st).0
  }

  // ---------------------------------------------------------------- reading one file

  /** The stream of bytes of a slot, if it is known. */
  ghost function KnownStream(disk: Disk, s: Slot): Option<seq<Byte>> {
    if HasStream(disk, s) then Some(StreamOf(disk, s.inode)) else None
  }

  ghost predicate OnlyCursor(before: Slot, after: Slot) {
    ViewOf(after) == ViewOf(before).(cursor := after.cursor)
  }

  lemma SameStream(disk: Disk, s: Slot, t: Slot)
    requires OnlyCursor(s, t)
    ensures KnownStream(disk, s) == KnownStream(disk, t)
  {
  }

  /** `ch` is the byte at `at` of the stream, or -1 at its end. */
  predicate IsCharAt(data: Option<seq<Byte>>, at: nat, ch: int) {
    data.Some? ==> at <= |data.value| && ch == ByteOrEnd(data.value, at)
  }

  /** `ch` has been read from byte `at` of an open slot: the cursor is one further on unless the stream has ended. */
  ghost predicate Reading(disk: Disk, s: Slot, data: Option<seq<Byte>>, at: nat, ch: int) {
    && Open(s) && s.cursor == at + One(ch >= 0) && (ch >= 0 ==> s.cursor <= GetSize(s.inode))
    && data == KnownStream(disk, s) && IsCharAt(data, at, ch)
  }

  method FirstChar(files: FileTable, fd: nat, ghost data: Option<seq<Byte>>) returns (ch: int)
    requires files.Ok() && fd < MAX_FILES && Open(files.table[fd]) && files.table[fd].cursor == 0
    requires data == KnownStream(files.fs.disk, files.table[fd])
    modifies files.table, files.fs.cache.plain, files.fs.cache.prot
    ensures files.Ok() && -1 <= ch < 256
    ensures forall k :: 0 <= k < MAX_FILES && k != fd ==> files.table[k] == old(files.table[k])
    ensures OnlyCursor(old(files.table[fd]), files.table[fd]) && Reading(files.fs.disk, files.table[fd], data, 0, ch)
  {
    ch := files.Getchar(fd);
    SameStream(files.fs.disk, old(files.table[fd]), files.table[fd]);
  }

  method NextChar(files: FileTable, fd: nat, ch0: int, ghost data: Option<seq<Byte>>, ghost at: nat) returns (ch: int)
    requires files.Ok() && fd < MAX_FILES && Reading(files.fs.disk, files.table[fd], data, at, ch0) && ch0 >= 0
    modifies files.table, files.fs.cache.plain, files.fs.cache.prot
    ensures files.Ok() && -1 <= ch < 256
    ensures forall k :: 0 <= k < MAX_FILES && k != fd ==> files.table[k] == old(files.table[k])
    ensures OnlyCursor(old(files.table[fd]), files.table[fd])
    ensures Reading(files.fs.disk, files.table[fd], data, at + 1, ch)
  {
    ch := files.Getchar(fd);
    SameStream(files.fs.disk, old(files.table[fd]), files.table[fd]);
  }

  /** From `a` on the stream has the same words as from `b` on. */
  ghost predicate SameWords(data: Option<seq<Byte>>, a: nat, b: nat) {
    data.Some? ==> a <= |data.value| && b <= |data.value| && Spans(data.value, a) == Spans(data.value, b)
  }

  lemma SkipByte(data: Option<seq<Byte>>, a: nat, b: nat, ch: int)
    requires SameWords(data, a, b) && IsCharAt(data, b, ch) && ch >= 0 && !IsAlpha(ch)
    ensures SameWords(data, a, b + 1)
  {
  }

  /** The loop over leading characters that are not letters. */
  method SkipToWord(files: FileTable, fd: nat, ch0: int, ghost data: Option<seq<Byte>>, ghost at0: nat)
    returns (ch: int, ghost at: nat)
    requires files.Ok() && fd < MAX_FILES && Reading(files.fs.disk, files.table[fd], data, at0, ch0) && 0 <= ch0 < 256
    modifies files.table, files.fs.cache.plain, files.fs.cache.prot
    ensures files.Ok() && at0 <= at && -1 <= ch < 256 && (ch >= 0 ==> IsAlpha(ch))
    ensures forall k :: 0 <= k < MAX_FILES && k != fd ==> files.table[k] == old(files.table[k])
    ensures OnlyCursor(old(files.table[fd]), files.table[fd]) && Reading(files.fs.disk, files.table[fd], data, at, ch)
    ensures SameWords(data, at0, at)
  {
    ch, at := ch0, at0;
    while !IsAlpha(ch)
      invariant files.Ok() && at0 <= at && 0 <= ch < 256
      invariant forall k :: 0 <= k < MAX_FILES && k != fd ==> files.table[k] == old(files.table[k])
      invariant OnlyCursor(old(files.table[fd]), files.table[fd])
      invariant Reading(files.fs.disk, files.table[fd], data, at, ch)
      invariant SameWords(data, at0, at)
      decreases GetSize(files.table[fd].inode) - at
    {
      SkipByte(data, at0, at, ch);
      ch := NextChar(files, fd, ch, data, at);
      at := at + 1;
      if ch < 0 {
        return;
      }
    }
  }

  /** The bytes stand at `at` in the data. */
  ghost predicate StandAt(data: seq<Byte>, at: nat, bytes: seq<Byte>) {
    bytes == []
    || (at + |bytes| <= |data| && bytes[|bytes| - 1] == data[at + |bytes| - 1]
        && StandAt(data, at, bytes[..|bytes| - 1]))
  }

  lemma {:induction false} StandAtIsSlice(data: seq<Byte>, at: nat, bytes: seq<Byte>)
    requires StandAt(data, at, bytes) && at + |bytes| <= |data|
    ensures bytes == data[at..at + |bytes|]
  {
    if bytes != [] {
      StandAtIsSlice(data, at, bytes[..|bytes| - 1]);
    }
  }

  /** The letters read so far belong to the word that starts at `at`. */
  ghost predicate InWord(data: Option<seq<Byte>>, at: nat, word: seq<Byte>) {
    |word| <= MAX_WORD_SIZE
    && (data.Some? ==>
          && at + |word| <= |data.value| && StandAt(data.value, at, word)
          && RunLength(data.value, at, MAX_WORD_SIZE)
             == |word| + RunLength(data.value, at + |word|, MAX_WORD_SIZE - |word|))
  }

  /** The word starts at `at` and is as long as it can be. */
  ghost predicate IsWordAt(data: Option<seq<Byte>>, at: nat, word: seq<Byte>) {
    data.Some? ==> at + |word| <= |data.value| && |word| == RunLength(data.value, at, MAX_WORD_SIZE)
                   && StandAt(data.value, at, word)
  }

  lemma InWordStep(data: Option<seq<Byte>>, at: nat, word: seq<Byte>, letter: Byte)
    requires InWord(data, at, word) && |word| < MAX_WORD_SIZE
    requires IsCharAt(data, at + |word|, letter) && IsAlpha(letter)
    ensures InWord(data, at, word + [letter])
  {
    assert (word + [letter])[..|word|] == word;
  }

  lemma WholeWord(data: Option<seq<Byte>>, at: nat, word: seq<Byte>, ch: int)
    requires InWord(data, at, word) && IsCharAt(data, at + |word|, ch)
    requires |word| == MAX_WORD_SIZE || ch < 0 || !IsAlpha(ch)
    ensures IsWordAt(data, at, word)
  {
  }

  /** `ch` follows the letters read so far. */
  ghost predicate ReadingWord(disk: Disk, s: Slot, data: Option<seq<Byte>>, at: nat, word: seq<Byte>, ch: int) {
    Reading(disk, s, data, at + |word|, ch) && InWord(data, at, word)
  }

  /** The character after a letter. */
  method NextLetter(files: FileTable, fd: nat, letter: Byte, ghost data: Option<seq<Byte>>, ghost at: nat,
                    ghost word: seq<Byte>)
    returns (ch: int)
    requires files.Ok() && fd < MAX_FILES && ReadingWord(files.fs.disk, files.table[fd], data, at, word, letter)
    requires |word| < MAX_WORD_SIZE && IsAlpha(letter)
    modifies files.table, files.fs.cache.plain, files.fs.cache.prot
    ensures files.Ok() && -1 <= ch < 256
    ensures forall k :: 0 <= k < MAX_FILES && k != fd ==> files.table[k] == old(files.table[k])
    ensures OnlyCursor(old(files.table[fd]), files.table[fd])
    ensures ReadingWord(files.fs.disk, files.table[fd], data, at, word + [letter], ch)
  {
    InWordStep(data, at, word, letter);
    ch := NextChar(files, fd, letter, data, at + |word|);
  }

  /** The body of the loop that fills the word buffer: the letter is stored, and the next character is read. */
  method StoreLetter(files: FileTable, fd: nat, letter: Byte, buffer: array<Byte>, pos: nat,
                     ghost data: Option<seq<Byte>>, ghost at: nat)
    returns (ch: int)
    requires files.Ok() && fd < MAX_FILES && buffer.Length == MAX_WORD_SIZE + 1 && pos < MAX_WORD_SIZE
    requires ReadingWord(files.fs.disk, files.table[fd], data, at, buffer[..pos], letter) && IsAlpha(letter)
    modifies buffer, files.table, files.fs.cache.plain, files.fs.cache.prot
    ensures files.Ok() && -1 <= ch < 256
    ensures forall k :: 0 <= k < MAX_FILES && k != fd ==> files.table[k] == old(files.table[k])
    ensures OnlyCursor(old(files.table[fd]), files.table[fd])
    ensures buffer[..pos + 1] == old(buffer[..pos]) + [letter]
    ensures ReadingWord(files.fs.disk, files.table[fd], data, at, buffer[..pos + 1], ch)
  {
    ghost var before := buffer[..pos];
    buffer[pos] := letter;
    ch := NextLetter(files, fd, letter, data, at, before);
    assert buffer[..pos + 1] == before + [letter];
  }

  /** The loop that fills the word buffer: at most MAX_WORD_SIZE letters. */
  method FillBuffer(files: FileTable, fd: nat, ch0: int, buffer: array<Byte>, ghost data: Option<seq<Byte>>,
                    ghost at: nat)
    returns (pos: nat, ch: int)
    requires files.Ok() && fd < MAX_FILES && Reading(files.fs.disk, files.table[fd], data, at, ch0) && 0 <= ch0 < 256
    requires IsAlpha(ch0) && buffer.Length == MAX_WORD_SIZE + 1
    modifies buffer, files.table, files.fs.cache.plain, files.fs.cache.prot
    ensures files.Ok() && 1 <= pos <= MAX_WORD_SIZE && -1 <= ch < 256
    ensures forall k :: 0 <= k < MAX_FILES && k != fd ==> files.table[k] == old(files.table[k])
    ensures OnlyCursor(old(files.table[fd]), files.table[fd])
    ensures ReadingWord(files.fs.disk, files.table[fd], data, at, buffer[..pos], ch)
    ensures pos == MAX_WORD_SIZE || ch < 0 || !IsAlpha(ch)
  {
    pos, ch := 0, ch0;
    while pos < MAX_WORD_SIZE && !(ch < 0) && IsAlpha(ch)
      invariant files.Ok() && 0 <= pos <= MAX_WORD_SIZE && -1 <= ch < 256 && (pos == 0 ==> ch == ch0)
      invariant forall k :: 0 <= k < MAX_FILES && k != fd ==> files.table[k] == old(files.table[k])
      invariant OnlyCursor(old(files.table[fd]), files.table[fd])
      invariant ReadingWord(files.fs.disk, files.table[fd], data, at, buffer[..pos], ch)
      decreases MAX_WORD_SIZE - pos
    {
      ch := StoreLetter(files, fd, ch, buffer, pos, data, at);
      pos := pos + 1;
    }
  }

  method ReadWord(files: FileTable, fd: nat, ch0: int, ghost data: Option<seq<Byte>>, ghost at: nat)
    returns (word: seq<Byte>, ch: int)
    requires files.Ok() && fd < MAX_FILES && Reading(files.fs.disk, files.table[fd], data, at, ch0) && 0 <= ch0 < 256
    requires IsAlpha(ch0)
    modifies files.table, files.fs.cache.plain, files.fs.cache.prot
    ensures files.Ok() && 1 <= |word| <= MAX_WORD_SIZE && -1 <= ch < 256
    ensures forall k :: 0 <= k < MAX_FILES && k != fd ==> files.table[k] == old(files.table[k])
    ensures OnlyCursor(old(files.table[fd]), files.table[fd])
    ensures Reading(files.fs.disk, files.table[fd], data, at + |word|, ch) && IsWordAt(data, at, word)
  {
    var buffer := new Byte[MAX_WORD_SIZE + 1];
    var pos;
    pos, ch := FillBuffer(files, fd, ch0, buffer, data, at);
    word := buffer[..pos];
    WholeWord(data, at, word, ch);
    buffer[pos] := 0;
  }

  // ---------------------------------------------------------------- Scan_File

  lemma FirstPosting(pathname: CString, data: seq<Byte>, at: nat, word: seq<Byte>)
    requires IsWordAt(Some(data), at, word) && at < |data| && IsAlpha(data[at])
    ensures PostingsFrom(pathname, data, at)
            == [Posting(word, Location(pathname, at + 1))] + PostingsFrom(pathname, data, at + |word|)
  {
    var rest := Spans(data, at + |word|);
    assert Spans(data, at) == [Span(at + 1, |word|)] + rest by {
      SpansAtLetter(data, at, |word|);
    }
    WordOfSpan(data, at, word);
    PostingsOfCons(pathname, data, Span(at + 1, |word|), rest);
  }

  lemma WordOfSpan(data: seq<Byte>, at: nat, word: seq<Byte>)
    requires StandAt(data, at, word) && at + |word| <= |data|
    ensures WordOf(data, Span(at + 1, |word|)) == word
  {
    StandAtIsSlice(data, at, word);
  }

  lemma PostingsOfCons(pathname: CString, data: seq<Byte>, s: Span, rest: seq<Span>)
    ensures PostingsOf(pathname, data, [s] + rest)
            == [PostingOf(pathname, data, s)] + PostingsOf(pathname, data, rest)
  {
  }

  /** The log so far followed by the postings of the words from byte `at` on. */
  ghost function WholeLog(data: Option<seq<Byte>>, at: nat, pathname: CString, log: seq<Posting>)
    : Option<seq<Posting>>
  {
    if data.Some? && at <= |data.value| then Some(log + PostingsFrom(pathname, data.value, at)) else None
  }

  /** Nothing but postings with this path was appended to the log. */
  ghost predicate AppendedFor(pathname: CString, before: seq<Posting>, log: seq<Posting>) {
    before <= log && forall k :: |before| <= k < |log| ==> log[k].loc.pathname == pathname
  }

  lemma SkippedToWord(data: Option<seq<Byte>>, a: nat, b: nat, pathname: CString, log: seq<Posting>)
    requires SameWords(data, a, b)
    ensures WholeLog(data, a, pathname, log) == WholeLog(data, b, pathname, log)
  {
  }

  lemma StoredWord(data: Option<seq<Byte>>, at: nat, ch: int, word: seq<Byte>, pathname: CString, log: seq<Posting>)
    requires IsCharAt(data, at, ch) && IsAlpha(ch) && IsWordAt(data, at, word)
    ensures WholeLog(data, at, pathname, log)
            == WholeLog(data, at + |word|, pathname, log + [Posting(word, Location(pathname, at + 1))])
  {
    if data.Some? {
      FirstPosting(pathname, data.value, at, word);
      MoveFirst(log, Posting(word, Location(pathname, at + 1)), PostingsFrom(pathname, data.value, at + |word|));
    }
  }

  lemma MoveFirst<T>(a: seq<T>, x: T, b: seq<T>)
    ensures a + ([x] + b) == (a + [x]) + b
  {
  }

  /** Read the word that starts with the letter `ch0` and record it in the index. */
  method RecordWord(files: FileTable, fd: nat, ch0: int, pathname: CString, ind: Index, ghost data: Option<seq<Byte>>,
                    ghost at0: nat, ghost before: seq<Posting>)
    returns (ch: int, ghost at: nat)
    requires files.Ok() && fd < MAX_FILES && Reading(files.fs.disk, files.table[fd], data, at0, ch0) && 0 <= ch0 < 256
    requires IsAlpha(ch0) && ind.Valid() && AppendedFor(pathname, before, ind.log)
    modifies ind, files.table, files.fs.cache.plain, files.fs.cache.prot
    ensures files.Ok() && -1 <= ch < 256 && at0 < at
    ensures forall k :: 0 <= k < MAX_FILES && k != fd ==> files.table[k] == old(files.table[k])
    ensures OnlyCursor(old(files.table[fd]), files.table[fd]) && Reading(files.fs.disk, files.table[fd], data, at, ch)
    ensures ind.Valid() && AppendedFor(pathname, before, ind.log)
    ensures WholeLog(data, at, pathname, ind.log) == WholeLog(data, at0, pathname, old(ind.log))
  {
    var offset := files.Tell(fd);
    var word;
    word, ch := ReadWord(files, fd, ch0, data, at0);
    StoredWord(data, at0, ch0, word, pathname, ind.log);
    ind.StoreEntry(word, pathname, offset);
    at := at0 + |word|;
  }

  /** One word of the file: skip to it, read it, store it. `more` is false if the file ended first. */
  method ScanWord(files: FileTable, fd: nat, ch0: int, pathname: CString, ind: Index, ghost data: Option<seq<Byte>>,
                  ghost at0: nat, ghost before: seq<Posting>)
    returns (more: bool, ch: int, ghost at: nat)
    requires files.Ok() && fd < MAX_FILES && Reading(files.fs.disk, files.table[fd], data, at0, ch0) && 0 <= ch0 < 256
    requires ind.Valid() && AppendedFor(pathname, before, ind.log)
    modifies ind, files.table, files.fs.cache.plain, files.fs.cache.prot
    ensures files.Ok() && -1 <= ch < 256 && at0 <= at && (more ==> at0 < at) && (!more ==> ch < 0)
    ensures forall k :: 0 <= k < MAX_FILES && k != fd ==> files.table[k] == old(files.table[k])
    ensures OnlyCursor(old(files.table[fd]), files.table[fd]) && Reading(files.fs.disk, files.table[fd], data, at, ch)
    ensures ind.Valid() && AppendedFor(pathname, before, ind.log)
    ensures WholeLog(data, at, pathname, ind.log) == WholeLog(data, at0, pathname, old(ind.log))
  {
    ch, at := SkipToWord(files, fd, ch0, data, at0);
    SkippedToWord(data, at0, at, pathname, ind.log);
    if ch < 0 {
      return false, ch, at;
    }
    ch, at := RecordWord(files, fd, ch, pathname, ind, data, at, before);
    more := true;
  }

  lemma AllLogged(data: Option<seq<Byte>>, at: nat, pathname: CString, log0: seq<Posting>, log: seq<Posting>)
    requires IsCharAt(data, at, -1) && WholeLog(data, at, pathname, log) == WholeLog(data, 0, pathname, log0)
    ensures data.Some? ==> log == log0 + PostingsFrom(pathname, data.value, 0)
  {
  }

  /** The words of an open file at its start. */
  method ScanWords(files: FileTable, fd: nat, pathname: CString, ind: Index, ghost data: Option<seq<Byte>>)
    requires files.Ok() && fd < MAX_FILES && Open(files.table[fd]) && files.table[fd].cursor == 0 && ind.Valid()
    requires data == KnownStream(files.fs.disk, files.table[fd])
    modifies ind, files.table, files.fs.cache.plain, files.fs.cache.prot
    ensures files.Ok() && Open(files.table[fd])
    ensures forall k :: 0 <= k < MAX_FILES && k != fd ==> files.table[k] == old(files.table[k])
    ensures ind.Valid() && AppendedFor(pathname, old(ind.log), ind.log)
    ensures data.Some? ==> ind.log == old(ind.log) + PostingsFrom(pathname, data.value, 0)
  {
    var ch := FirstChar(files, fd, data);
    ghost var at := 0;
    while !(ch < 0)
      invariant files.Ok() && -1 <= ch < 256
      invariant forall k :: 0 <= k < MAX_FILES && k != fd ==> files.table[k] == old(files.table[k])
      invariant OnlyCursor(old(files.table[fd]), files.table[fd])
      invariant Reading(files.fs.disk, files.table[fd], data, at, ch)
      invariant ind.Valid() && AppendedFor(pathname, old(ind.log), ind.log)
      invariant WholeLog(data, at, pathname, ind.log) == WholeLog(data, 0, pathname, old(ind.log))
      decreases ch >= 0, GetSize(files.table[fd].inode) - at
    {
      var more;
      more, ch, at := ScanWord(files, fd, ch, pathname, ind, data, at, old(ind.log));
      if !more {
        break;
      }
    }
    AllLogged(data, at, pathname, old(ind.log), ind.log);
  }

  /** The older elements are the last ones of the newer list. */
  predicate KeepsAtEnd(before: seq<Element>, after: seq<Element>)
    requires |before| <= |after|
  {
    forall k :: 0 <= k < |before| ==> after[|after| - |before| + k] == before[k]
  }

  /** The store and the index only grow, and only by paths that start with `prefix`. */
  ghost predicate Extends(before: State, after: State, prefix: CString) {
    && before.log <= after.log
    && (forall k :: |before.log| <= k < |after.log| ==> prefix <= after.log[k].loc.pathname)
    && |before.elements| <= |after.elements|
    && KeepsAtEnd(before.elements, after.elements)
    && (forall k :: 0 <= k < |after.elements| - |before.elements| ==> prefix <= after.elements[k].pathname)
  }

  function SettingOf(store: Pathstore, discardDups: bool): Setting {
    Setting(store.files.fs.disk, store.files.fs.isize, store.sha1, discardDups)
  }

  ghost function Current(store: Pathstore, ind: Index): State
    reads store, ind
  {
    State(store.elements, ind.log)
  }

  /** Open the stored file, record its words, close it. */
  method IndexFile(pathname: CString, ind: Index, files: FileTable, inumber: int, inode: Ino, inp: nat, igetRet: int)
    returns (ret: int)
    requires files.Ok() && ind.Valid()
    modifies ind, files.table, files.fs.cache.plain, files.fs.cache.prot
    ensures files.Ok() && ind.Valid() && SameOpenFiles(old(files.table[..]), files.table[..])
    ensures AppendedFor(pathname, old(ind.log), ind.log)
    ensures inumber >= 0 && igetRet >= 0 && IsAllocated(inode) && WellFormed(files.fs.disk, inode) ==>
              if FreeSlots(old(files.table[..])) == 0 then ret == -1 && ind.log == old(ind.log)
              else ret == 0 && ind.log == old(ind.log) + PostingsFrom(pathname, Contents(files.fs.disk, inode), 0)
  {
    FreeSlotIff(files.table[..]);
    var fd := files.OptimizedOpen(pathname, inumber, inode, inp, igetRet);
    if fd < 0 {
      return -1;
    }
    ScanWords(files, fd, pathname, ind, KnownStream(files.fs.disk, files.table[fd]));
    var _ := files.Close(fd);
    return 0;
  }

  method ScanFile(inpathname: CString, ind: Index, store: Pathstore, discardDups: bool, inumber: int, inode: Ino,
                  inp: nat, igetRet: int, frame: nat)
    returns (ret: int)
    requires store.files.Ok() && ind.Valid()
    modifies ind, store, store.files.table, store.files.fs.cache.plain, store.files.fs.cache.prot
    ensures store.files.Ok() && ind.Valid() && SameOpenFiles(old(store.files.table[..]), store.files.table[..])
    ensures Extends(old(Current(store, ind)), Current(store, ind), inpathname)
    ensures discardDups && AllHashed(old(store.elements)) ==> AllHashed(store.elements)
    ensures var m := SettingOf(store, discardDups);
            Good(m) && (discardDups ==> AllHashed(old(store.elements)))
            && inumber >= 0 && igetRet >= 0 && IsAllocated(inode) && WellFormed(m.disk, inode) ==>
              (Current(store, ind), ret)
              == FileInTree(m, FreeSlots(old(store.files.table[..])), inpathname, inode, old(Current(store, ind)))
  {
    var stored := store.Path(inpathname, discardDups, inode, inp, igetRet, frame);
    if !stored {
      return 0;
    }
    SameOpenFilesSameFree(old(store.files.table[..]), store.files.table[..]);
    ret := IndexFile(inpathname, ind, store.files, inumber, inode, inp, igetRet);
  }

  // ---------------------------------------------------------------- Scan_TreeAndIndex

  lemma ExtendsTransitive(a: State, b: State, c: State, prefix: CString, longer: CString)
    requires Extends(a, b, prefix) && Extends(b, c, longer) && prefix <= longer
    ensures Extends(a, c, prefix)
  {
    var n := |c.elements| - |b.elements|;
    forall k | 0 <= k < |c.elements| - |a.elements| ensures prefix <= c.elements[k].pathname {
      if k >= n {
        assert c.elements[n + (k - n)] == b.elements[k - n];
      }
    }
    forall k | 0 <= k < |a.elements|
      ensures c.elements[|c.elements| - |a.elements| + k] == a.elements[k]
    {
      var j := |b.elements| - |a.elements| + k;
      assert c.elements[|c.elements| - |b.elements| + j] == b.elements[j];
    }
  }

  /** The slot stands at byte `at` of its stream. */
  ghost predicate StandsAt(disk: Disk, s: Slot, data: Option<seq<Byte>>, at: nat) {
    Open(s) && s.cursor == at && data == KnownStream(disk, s) && (data.Some? ==> at <= |data.value|)
  }

  method ReadDirent(files: FileTable, fd: nat, ghost data: Option<seq<Byte>>, ghost at: nat) returns (bytes: seq<Byte>)
    requires files.Ok() && fd < MAX_FILES && StandsAt(files.fs.disk, files.table[fd], data, at)
    modifies files.table, files.fs.cache.plain, files.fs.cache.prot
    ensures files.Ok() && |bytes| <= DIRENT_SIZE && (bytes != [] ==> at + |bytes| <= GetSize(files.table[fd].inode))
    ensures forall k :: 0 <= k < MAX_FILES && k != fd ==> files.table[k] == old(files.table[k])
    ensures OnlyCursor(old(files.table[fd]), files.table[fd])
    ensures StandsAt(files.fs.disk, files.table[fd], data, at + |bytes|)
    ensures data.Some? ==> at <= |data.value| && bytes == Stretch(data.value, at, DIRENT_SIZE)
  {
    bytes := files.Read(fd, DIRENT_SIZE);
    SameStream(files.fs.disk, old(files.table[fd]), files.table[fd]);
  }

  /** The other slots are in use as before, and those in use hold what they held. */
  ghost predicate SameExcept(before: seq<Slot>, after: seq<Slot>, fd: nat) {
    |after| == |before| && forall k :: 0 <= k < |before| && k != fd ==>
      Open(after[k]) == Open(before[k]) && (Open(before[k]) ==> after[k] == before[k])
  }

  /** The scan may be compared with the walk over flat contents. */
  ghost predicate Comparable(m: Setting, st: State) {
    Good(m) && (m.discardDups ==> AllHashed(st.elements))
  }

  method ScanTreeAndIndex(pathname: CString, ind: Index, store: Pathstore, discardDups: bool, inumber: int, frame: nat)
    returns (ret: int)
    requires store.files.Ok() && ind.Valid() && pathname != []
    modifies ind, store, store.files.table, store.files.fs.cache.plain, store.files.fs.cache.prot
    ensures store.files.Ok() && ind.Valid() && SameOpenFiles(old(store.files.table[..]), store.files.table[..])
    ensures Extends(old(Current(store, ind)), Current(store, ind), Prefix(pathname))
    ensures discardDups && AllHashed(old(store.elements)) ==> AllHashed(store.elements)
    ensures var m := SettingOf(store, discardDups);
            Comparable(m, old(Current(store, ind))) ==>
              (Current(store, ind), ret)
              == TreeOf(m, FreeSlots(old(store.files.table[..])), pathname, inumber, old(Current(store, ind)))
    decreases FreeSlots(store.files.table[..]), 1
  {
    var inode: Ino := *;
    var isFile, igetRet;
    isFile, inode, igetRet := store.files.OptimizedIsFile(inumber, inode);
    if isFile {
      ret := ScanFile(pathname, ind, store, discardDups, inumber, inode, frame, igetRet, frame);
    } else {
      ret := ScanDirectory(pathname, ind, store, discardDups, inumber, inode, igetRet, frame);
    }
  }

  /** Anything but a file is scanned as a directory. */
  method ScanDirectory(pathname: CString, ind: Index, store: Pathstore, discardDups: bool, inumber: int, inode: Ino,
                       igetRet: int, frame: nat)
    returns (ret: int)
    requires store.files.Ok() && ind.Valid() && pathname != []
    modifies ind, store, store.files.table, store.files.fs.cache.plain, store.files.fs.cache.prot
    ensures store.files.Ok() && ind.Valid() && SameOpenFiles(old(store.files.table[..]), store.files.table[..])
    ensures Extends(old(Current(store, ind)), Current(store, ind), Prefix(pathname))
    ensures discardDups && AllHashed(old(store.elements)) ==> AllHashed(store.elements)
    ensures var m := SettingOf(store, discardDups);
            Comparable(m, old(Current(store, ind))) && !IsFile(m, inumber) && FetchedAs(m, inumber, inode, igetRet) ==>
              (Current(store, ind), ret)
              == TreeOf(m, FreeSlots(old(store.files.table[..])), pathname, inumber, old(Current(store, ind)))
    decreases FreeSlots(store.files.table[..]), 0
  {
    ExtendsItself(Current(store, ind), Prefix(pathname));
    if |pathname| > MAXPATH - 16 {
      return -1;
    }
    FreeSlotIff(store.files.table[..]);
    var dirfd := store.files.OptimizedOpen(pathname, inumber, inode, frame, igetRet);
    if dirfd < 0 {
      return -1;
    }
    ghost var entered := store.files.table[..];
    FreeSlotsUpdate(old(store.files.table[..]), dirfd, store.files.table[dirfd]);
    ret := ScanAndClose(Prefix(pathname), dirfd, ind, store, discardDups, frame,
                        KnownStream(store.files.fs.disk, store.files.table[dirfd]));
    ClosedAgain(old(store.files.table[..]), entered, store.files.table[..], dirfd);
  }

  lemma ClosedAgain(before: seq<Slot>, entered: seq<Slot>, after: seq<Slot>, fd: nat)
    requires fd < |before| && !Open(before[fd]) && |entered| == |before| && entered == before[fd := entered[fd]]
    requires SameExcept(entered, after, fd) && !Open(after[fd])
    ensures SameOpenFiles(before, after)
  {
  }

  method ScanAndClose(prefix: CString, dirfd: nat, ind: Index, store: Pathstore, discardDups: bool, frame: nat,
                      ghost data: Option<seq<Byte>>)
    returns (ret: int)
    requires store.files.Ok() && ind.Valid() && |prefix| <= MAXPATH - 16
    requires dirfd < MAX_FILES && StandsAt(store.files.fs.disk, store.files.table[dirfd], data, 0)
    modifies ind, store, store.files.table, store.files.fs.cache.plain, store.files.fs.cache.prot
    ensures store.files.Ok() && ind.Valid() && !Open(store.files.table[dirfd])
    ensures SameExcept(old(store.files.table[..]), store.files.table[..], dirfd)
    ensures Extends(old(Current(store, ind)), Current(store, ind), prefix)
    ensures discardDups && AllHashed(old(store.elements)) ==> AllHashed(store.elements)
    ensures var m := SettingOf(store, discardDups);
            Comparable(m, old(Current(store, ind))) && data.Some? ==>
              Remains(m, FreeSlots(old(store.files.table[..])), prefix, data, 0, old(Current(store, ind)))
              == Some((Current(store, ind), ret))
    decreases FreeSlots(store.files.table[..]), 5
  {
    ret := ScanEntries(prefix, dirfd, ind, store, discardDups, frame, data);
    var _ := store.files.Close(dirfd);
  }

  /** The result of inode_iget. */
  ghost predicate FetchedAs(m: Setting, inumber: int, inode: Ino, igetRet: int)
    requires Good(m)
  {
    && (igetRet >= 0 <==> ValidInumber(m.isize, inumber))
    && (igetRet >= 0 ==> inode == InodeOnDisk(m.disk, m.isize, inumber))
  }

  /** The loop over the entries of an open directory at its start. */
  method ScanEntries(prefix: CString, dirfd: nat, ind: Index, store: Pathstore, discardDups: bool, frame: nat,
                      ghost data: Option<seq<Byte>>)
    returns (ret: int)
    requires store.files.Ok() && ind.Valid() && |prefix| <= MAXPATH - 16
    requires dirfd < MAX_FILES && StandsAt(store.files.fs.disk, store.files.table[dirfd], data, 0)
    modifies ind, store, store.files.table, store.files.fs.cache.plain, store.files.fs.cache.prot
    ensures store.files.Ok() && ind.Valid() && Open(store.files.table[dirfd])
    ensures SameExcept(old(store.files.table[..]), store.files.table[..], dirfd)
    ensures Extends(old(Current(store, ind)), Current(store, ind), prefix)
    ensures discardDups && AllHashed(old(store.elements)) ==> AllHashed(store.elements)
    ensures var m := SettingOf(store, discardDups);
            Comparable(m, old(Current(store, ind))) && data.Some? ==>
              Remains(m, FreeSlots(old(store.files.table[..])), prefix, data, 0, old(Current(store, ind)))
              == Some((Current(store, ind), ret))
    decreases FreeSlots(store.files.table[..]), 4
  {
    ghost var before := store.files.table[..];
    ghost var st0 := Current(store, ind);
    ghost var m := SettingOf(store, discardDups);
    ghost var s := store.files.table[dirfd];
    ghost var at := 0;
    ghost var free := FreeSlots(before);
    ghost var goal := if Good(m) then Remains(m, free, prefix, data, 0, st0) else None;
    ExtendsItself(st0, prefix);
    while true
      invariant store.files.Ok() && ind.Valid()
      invariant StandsAt(m.disk, store.files.table[dirfd], data, at) && OnlyCursor(s, store.files.table[dirfd])
      invariant SameExcept(before, store.files.table[..], dirfd)
      invariant Extends(st0, Current(store, ind), prefix)
      invariant discardDups && AllHashed(st0.elements) ==> AllHashed(store.elements)
      invariant Comparable(m, st0) ==> Remains(m, free, prefix, data, at, Current(store, ind)) == goal
      decreases GetSize(s.inode) - at
    {
      SameOpenFilesSameFree(before, store.files.table[..]);
      ghost var st := Current(store, ind);
      var more;
      more, ret := NextEntry(prefix, dirfd, ind, store, discardDups, frame, data, at);
      ExtendsTransitive(st0, st, Current(store, ind), prefix, prefix);
      if !more {
        return;
      }
      at := at + DIRENT_SIZE;
    }
  }

  lemma ExtendsItself(st: State, prefix: CString)
    ensures Extends(st, st, prefix)
  {
  }

  /** What the walk over flat contents makes of a directory from byte `at` on, if its contents are known. */
  ghost function Remains(m: Setting, free: nat, prefix: CString, data: Option<seq<Byte>>, at: nat, st: State)
    : Option<(State, int)>
    requires Good(m)
  {
    if data.Some? && at <= |data.value| then Some(EntriesFrom(m, free, prefix, data.value, at, st)) else None
  }

  /** The body of the loop: read one entry, scan it. */
  method NextEntry(prefix: CString, dirfd: nat, ind: Index, store: Pathstore, discardDups: bool, frame: nat,
                   ghost data: Option<seq<Byte>>, ghost at: nat)
    returns (more: bool, ret: int)
    requires store.files.Ok() && ind.Valid() && |prefix| <= MAXPATH - 16
    requires dirfd < MAX_FILES && StandsAt(store.files.fs.disk, store.files.table[dirfd], data, at)
    modifies ind, store, store.files.table, store.files.fs.cache.plain, store.files.fs.cache.prot
    ensures store.files.Ok() && ind.Valid() && Open(store.files.table[dirfd])
    ensures more ==> at + DIRENT_SIZE <= GetSize(store.files.table[dirfd].inode)
                     && StandsAt(store.files.fs.disk, store.files.table[dirfd], data, at + DIRENT_SIZE)
    ensures OnlyCursor(old(store.files.table[dirfd]), store.files.table[dirfd])
    ensures SameExcept(old(store.files.table[..]), store.files.table[..], dirfd)
    ensures Extends(old(Current(store, ind)), Current(store, ind), prefix)
    ensures discardDups && AllHashed(old(store.elements)) ==> AllHashed(store.elements)
    ensures var m := SettingOf(store, discardDups);
            var free := FreeSlots(old(store.files.table[..]));
            Comparable(m, old(Current(store, ind))) && data.Some? ==>
              Remains(m, free, prefix, data, at, old(Current(store, ind)))
              == if more then Remains(m, free, prefix, data, at + DIRENT_SIZE, Current(store, ind))
                 else Some((Current(store, ind), ret))
    decreases FreeSlots(store.files.table[..]), 3
  {
    ghost var before := store.files.table[..];
    ghost var st := Current(store, ind);
    var bytes := ReadDirent(store.files, dirfd, data, at);
    ExtendsItself(st, prefix);
    if |bytes| == 0 {
      return false, 0;
    }
    if |bytes| != DIRENT_SIZE {
      return false, -1;
    }
    SameOpenFilesSameFree(before, store.files.table[..]);
    ScanEntry(prefix, bytes, ind, store, discardDups, frame);
    return true, 0;
  }

  /** One entry of a directory. */
  method ScanEntry(prefix: CString, d: Dirent, ind: Index, store: Pathstore, discardDups: bool, frame: nat)
    requires store.files.Ok() && ind.Valid() && |prefix| <= MAXPATH - 16
    modifies ind, store, store.files.table, store.files.fs.cache.plain, store.files.fs.cache.prot
    ensures store.files.Ok() && ind.Valid() && SameOpenFiles(old(store.files.table[..]), store.files.table[..])
    ensures Extends(old(Current(store, ind)), Current(store, ind), prefix)
    ensures discardDups && AllHashed(old(store.elements)) ==> AllHashed(store.elements)
    ensures var m := SettingOf(store, discardDups);
            Comparable(m, old(Current(store, ind))) ==>
              Current(store, ind)
              == AfterEntry(m, FreeSlots(old(store.files.table[..])), prefix, d, old(Current(store, ind)))
    decreases FreeSlots(store.files.table[..]), 2
  {
    var name := EntryName(d);
    if IsDots(name) {
      return;
    }
    var nextpath := Child(prefix, name);
    assert |nextpath| < MAXPATH;   // the buffer holds it with its terminator
    var _ := ScanTreeAndIndex(nextpath, ind, store, discardDups, EntryInumber(d), frame + 1);
    WidenPrefix(old(Current(store, ind)), Current(store, ind), prefix, Prefix(nextpath));
  }

  lemma WidenPrefix(a: State, b: State, prefix: CString, longer: CString)
    requires Extends(a, b, longer) && prefix <= longer
    ensures Extends(a, b, prefix)
  {
  }
}
