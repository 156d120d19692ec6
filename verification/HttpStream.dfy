/** An istream that holds the rest of its text. */
module HttpStream {
  import opened Basics
  import opened HttpText

  const NUL := '\0'

  /** `count` characters of the text; a read that comes up short leaves the zeros of the buffer in place. */
  function ReadChars(s: string, count: nat): (r: string)
    ensures |r| == count
  {
    if count <= |s| then s[..count] else s + seq(count - |s|, i => NUL)
  }

  function Skip(s: string, count: nat): string {
    if count <= |s| then s[count..] else []
  }

  class IStream {
    var rest: string

    constructor (text: string)
      ensures rest == text
    {
      rest := text;
    }

    /** getline up to a line break. */
    method NextLine() returns (line: string)
      modifies this
      ensures (line, rest) == GetLine(old(rest), '\n')
    {
      var n := 0;
      assert rest[0..] == rest;
      while n < |rest| && rest[n] != '\n'
        invariant n <= |rest| && rest == old(rest) && n + Find(rest[n..], '\n') == Find(rest, '\n')
      {
        assert rest[n..][1..] == rest[n + 1..];
        n := n + 1;
      }
      line := rest[..n];
      rest := if n < |rest| then rest[n + 1..] else [];
    }

    method Read(count: nat) returns (data: string)
      modifies this
      ensures data == ReadChars(old(rest), count) && rest == Skip(old(rest), count)
    {
      data := ReadChars(rest, count);
      rest := Skip(rest, count);
    }
  }
}
