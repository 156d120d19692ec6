/** Building the index of a whole disk (assign2/disksearch.c), and what a query of it then returns. */
module DiskSearch {
  import opened Basics
  import opened Disksim
  import opened CacheMem
  import opened Inode
  import opened File
  import opened Directory
  import opened Pathname
  import opened Fileops
  import opened Pathstore
  import opened Words
  import opened Index
  import opened Scan
  import opened ScanTheorems

  /** The disk is a tree that fits in the table of open files. */
  ghost predicate IndexableDisk(m: Setting, rank: int -> nat) {
    Good(m) && m.discardDups && IsTree(m, rank) && rank(ROOT_INUMBER) + 2 <= MAX_FILES
  }

  lemma {:induction false} AllFree(slots: seq<Slot>, n: nat)
    requires n <= |slots| && forall k :: 0 <= k < |slots| ==> !Open(slots[k])
    ensures FreeBelow(slots, n) == n
  {
    if n > 0 {
      AllFree(slots, n - 1);
    }
  }

  /** BuildDiskIndex: whatever the image, the scan ends with every file closed. On a tree it leaves an index of words
      that are really there and a store of pairwise different files, in which every file of the disk is represented. */
  method BuildDiskIndex(fs: UnixFileSystem, prefetched: nat, sha1: seq<Byte> -> Checksum, ghost rank: int -> nat)
    returns (ret: int, ind: Index, store: Pathstore)
    requires fs.Ok() && prefetched >= 1
    modifies fs.cache.plain, fs.cache.prot
    ensures ind.Valid() && store.files.Ok() && forall fd :: 0 <= fd < MAX_FILES ==> !Open(store.files.table[fd])
    ensures var m := Setting(fs.disk, fs.isize, sha1, true);
            IndexableDisk(m, rank) ==>
              && SoundLog(m, ind.log) && DistinctFiles(m.disk, m.isize, Names(store.elements))
              && forall f :: IsFile(m, f) && Below(m, rank, ROOT_INUMBER, f) ==>
                   Represented(m, State(store.elements, ind.log), Contents(m.disk, InodeOnDisk(m.disk, m.isize, f)))
    ensures var m := Setting(fs.disk, fs.isize, sha1, true);
            Good(m) && IsDirectory(m, ROOT_INUMBER) ==>
              ret == if |DataOf(m, ROOT_INUMBER)| % 16 == 0 then 0 else -1
  {
    var files := new FileTable(fs, prefetched);
    store := new Pathstore(files, sha1);
    ind := new Index();
    ghost var m := Setting(fs.disk, fs.isize, sha1, true);
    AllFree(files.table[..], MAX_FILES);
    ret := ScanTreeAndIndex([SLASH], ind, store, true, ROOT_INUMBER, 0);
    if IndexableDisk(m, rank) {
      ScanOfTree(m, rank);
    }
    if Good(m) && IsDirectory(m, ROOT_INUMBER) {
      ScanReturns(m, MAX_FILES, [SLASH], ROOT_INUMBER, State([], []));
    }
  }

  /** Every location that a query returns holds the queried word: the file at that path has it, letter for letter, at
      that 1-based offset. And every posting of the word is returned. */
  method Search(ind: Index, word: seq<Byte>, ghost m: Setting) returns (locations: seq<Location>)
    requires ind.Valid() && Good(m) && SoundLog(m, ind.log)
    ensures forall k :: 0 <= k < |locations| ==> HasWordAt(m, locations[k], word)
    ensures forall p :: p in ind.log && p.word == word ==> p.loc in locations
  {
    locations := ind.RetrieveEntry(word);
    forall p | p in ind.log && p.word == word ensures p.loc in locations {
      PostingIsFound(ind.log, p);
    }
    forall k | 0 <= k < |locations| ensures HasWordAt(m, locations[k], word) {
      FoundWord(m, ind.log, word, k);
    }
  }

  /** The data have the word at this 1-based offset. */
  predicate WordAt(data: seq<Byte>, offset: int, word: seq<Byte>) {
    1 <= offset && offset - 1 + |word| <= |data| && data[offset - 1..offset - 1 + |word|] == word
  }

  ghost predicate HasWordAt(m: Setting, loc: Location, word: seq<Byte>)
    requires Good(m)
  {
    var file := FileAt(m.disk, m.isize, loc.pathname);
    file.Some? && WordAt(file.value, loc.offset, word)
  }

  lemma FoundWord(m: Setting, log: seq<Posting>, word: seq<Byte>, k: nat)
    requires Good(m) && SoundLog(m, log) && k < |LocationsOf(log, word)|
    ensures HasWordAt(m, LocationsOf(log, word)[k], word)
  {
    var i := PostingOfLocation(log, word, k);
    PostedWord(m, log[i]);
  }

  lemma {:induction false} PostingOfLocation(log: seq<Posting>, word: seq<Byte>, k: nat) returns (i: nat)
    requires k < |LocationsOf(log, word)|
    ensures i < |log| && log[i] == Posting(word, LocationsOf(log, word)[k])
  {
    var last, front := log[|log| - 1], log[..|log| - 1];
    if last.word == word && k == 0 {
      i := |log| - 1;
    } else {
      i := PostingOfLocation(front, word, if last.word == word then k - 1 else k);
    }
  }

  lemma {:induction false} PostingIsFound(log: seq<Posting>, p: Posting)
    requires p in log
    ensures p.loc in LocationsOf(log, p.word)
  {
    var last, front := log[|log| - 1], log[..|log| - 1];
    if last != p {
      var i :| 0 <= i < |log| && log[i] == p;
      assert front[i] == p;
      PostingIsFound(front, p);
    }
  }

  lemma PostedWord(m: Setting, p: Posting)
    requires Good(m) && SoundPosting(m, p)
    ensures HasWordAt(m, p.loc, p.word)
  {
    var data := FileAt(m.disk, m.isize, p.loc.pathname).value;
    var k :| 0 <= k < |Spans(data, 0)| && p == PostingOf(p.loc.pathname, data, Spans(data, 0)[k]);
    SpanIsRun(data, 0, k);
    SpanHasWord(data, Spans(data, 0)[k]);
  }

  lemma SpanHasWord(data: seq<Byte>, s: Span)
    requires LetterRun(data, s)
    ensures WordAt(data, s.offset, WordOf(data, s))
  {
  }
}
