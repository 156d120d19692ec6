/** The in-memory word index (assign2/index.c), over an lhash table taken to be a map. */
module Index {
  import opened Basics
  import opened Disksim

  datatype Location = Location(pathname: CString, offset: int)

  /** One call of Index_StoreEntry. */
  datatype Posting = Posting(word: seq<Byte>, loc: Location)

  /** The places where a word was stored, latest first. */
  function LocationsOf(log: seq<Posting>, word: seq<Byte>): seq<Location> {
    if log == [] then []
    else
      var last := log[|log| - 1];
      (if last.word == word then [last.loc] else []) + LocationsOf(log[..|log| - 1], word)
  }

  /** A posting goes to the front of its word's list, and leaves all other lists alone. */
  lemma LatestFirst(log: seq<Posting>, p: Posting, word: seq<Byte>)
    ensures LocationsOf(log + [p], word)
            == if p.word == word then [p.loc] + LocationsOf(log, word) else LocationsOf(log, word)
  {
    assert (log + [p])[..|log + [p]| - 1] == log;
    assert [] + LocationsOf(log, word) == LocationsOf(log, word);
  }

  class Index {
    var table: map<seq<Byte>, seq<Location>>
    ghost var log: seq<Posting>   // every posting so far, in order

    ghost predicate Valid()
      reads this
    {
      forall word :: (if word in table then table[word] else []) == LocationsOf(log, word)
    }

    constructor ()
      ensures Valid() && log == []
    {
      table := map[];
      log := [];
    }

    method StoreEntry(keyword: seq<Byte>, pathname: CString, offset: int)
      requires Valid()
      modifies this
      ensures Valid() && log == old(log) + [Posting(keyword, Location(pathname, offset))]
    {
      var locations := if keyword in table then table[keyword] else [];
      ghost var before := log;
      ghost var p := Posting(keyword, Location(pathname, offset));
      table := table[keyword := [Location(pathname, offset)] + locations];
      log := log + [p];
      forall word ensures (if word in table then table[word] else []) == LocationsOf(log, word) {
        LatestFirst(before, p, word);
      }
    }

    method RetrieveEntry(keyword: seq<Byte>) returns (locations: seq<Location>)
      requires Valid()
      ensures locations == LocationsOf(log, keyword)
    {
      locations := if keyword in table then table[keyword] else [];
    }
  }
}
