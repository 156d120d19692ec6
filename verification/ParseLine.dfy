/** parseLine in place: the tokens stay where they are in the command buffer and are cut off by NULs. */
module ParseLine {
  import opened Basics
  import opened Parse

  const NUL := '\0'
  const NULL := -1

  /** The C string at index `p` of a buffer, which ends before `limit`. */
  ghost predicate IsStr(buf: seq<char>, p: int, s: string, limit: nat) {
    && 0 <= p && p + |s| < limit <= |buf| && NUL !in s
    && (forall k :: 0 <= k < |s| ==> buf[p + k] == s[k]) && buf[p + |s|] == NUL
  }

  ghost predicate IsStrOrNull(buf: seq<char>, p: int, s: Option<string>, limit: nat) {
    match s
    case None => p == NULL
    case Some(t) => IsStr(buf, p, t, limit)
  }

  /** From `pos` on the buffer still holds the line. */
  ghost predicate Holds(buf: seq<char>, line: string, pos: nat) {
    && pos <= |line| < |buf| && buf[|line|] == NUL && NUL !in line
    && forall k :: pos <= k < |line| ==> buf[k] == line[k]
  }

  lemma NulIsEnd(buf: seq<char>, line: string, pos: nat, p: nat)
    requires Holds(buf, line, pos) && pos <= p <= |line|
    ensures buf[p] == NUL <==> p == |line|
    ensures p < |line| ==> buf[p] == line[p]
  {
  }

  /** strspn: the first place from `pos` on that is not white space. */
  method SkipSpace(command: array<char>, pos: nat, ghost line: string) returns (p: nat)
    requires Holds(command[..], line, pos)
    ensures p == pos + SpaceLength(line[pos..]) <= |line| && line[pos..][SpaceLength(line[pos..])..] == line[p..]
    ensures command[p] == NUL <==> p == |line|
    ensures p < |line| ==> command[p] == line[p]
  {
    p := pos;
    assert line[pos..] == line[p..];
    while IsSpace(command[p])
      invariant pos <= p <= |line|
      invariant p - pos + SpaceLength(line[p..]) == SpaceLength(line[pos..])
      decreases |line| - p
    {
      assert line[p..][1..] == line[p + 1..] && command[p] == line[p];
      p := p + 1;
    }
    NulIsEnd(command[..], line, pos, p);
    assert line[pos..][p - pos..] == line[p..];
  }

  /** strchr for a character other than NUL. */
  method StrChr(command: array<char>, start: nat, c: char, ghost line: string) returns (end: int)
    requires Holds(command[..], line, start) && c != NUL
    ensures end == NULL <==> FindChar(line[start..], c) == |line| - start
    ensures end != NULL ==> end == start + FindChar(line[start..], c) < |line|
  {
    end := start;
    while command[end] != c
      invariant start <= end <= |line|
      invariant end - start + FindChar(line[end..], c) == FindChar(line[start..], c)
      decreases |line| - end
    {
      NulIsEnd(command[..], line, start, end);
      if command[end] == NUL {
        return NULL;
      }
      assert line[end..][1..] == line[end + 1..] && command[end] == line[end];
      end := end + 1;
    }
  }

  /** Every string found so far is in the buffer and ends before `limit`. */
  ghost predicate Stored(buf: seq<char>, args: seq<int>, infile: int, outfile: int, f: Found, limit: nat) {
    && |f.args| <= |args| && limit <= |buf|
    && (forall i :: 0 <= i < |f.args| ==> IsStr(buf, args[i], f.args[i], limit))
    && IsStrOrNull(buf, infile, f.infile, limit) && IsStrOrNull(buf, outfile, f.outfile, limit)
  }

  lemma StoredKept(buf: seq<char>, buf': seq<char>, args: seq<int>, infile: int, outfile: int, f: Found, limit: nat,
                   limit': nat)
    requires Stored(buf, args, infile, outfile, f, limit) && limit <= limit' <= |buf'| == |buf|
    requires forall k :: 0 <= k < limit ==> buf'[k] == buf[k]
    ensures Stored(buf', args, infile, outfile, f, limit')
  {
    forall i | 0 <= i < |f.args| ensures IsStr(buf', args[i], f.args[i], limit') {
      assert IsStr(buf, args[i], f.args[i], limit);
    }
  }

  /** What one turn of the loop of Scan does after white space has been skipped. */
  datatype Turn = Ends(f: Found) | Goes(f: Found, pos: nat)

  function TurnAt(line: string, p: nat, maxArguments: nat, f: Found): Turn
    requires p <= |line|
  {
    if |f.args| == maxArguments || p == |line| then Ends(f)
    else if line[p] == QUOTE then TokenAt(line, p + 1, QUOTE, f)
    else if f.state == Normal && (line[p] == '<' || line[p] == '>') then
      if (line[p] == '<' && f.infile.Some?) || (line[p] == '>' && f.outfile.Some?) then Ends(f.(args := []))
      else Goes(f.(state := if line[p] == '<' then Infile else Outfile), p + 1)
    else TokenAt(line, p, ' ', f)
  }

  function TokenAt(line: string, start: nat, termch: char, f: Found): Turn
    requires start <= |line|
  {
    var end := start + FindChar(line[start..], termch);
    if f.state != Normal && (start == |line| || line[start] == '<' || line[start] == '>') then Ends(f)
    else
      var g := Put(f, line[start..end]);
      if end == |line| then Ends(if termch == QUOTE then g.(args := []) else g) else Goes(g, end + 1)
  }

  /** What a turn and the rest of the loop come to. */
  function Resume(line: string, maxArguments: nat, t: Turn): Found {
    match t
    case Ends(f) => f
    case Goes(f, pos) => if pos <= |line| then Scan(line[pos..], maxArguments, f) else f
  }

  lemma ScanTakesTurn(line: string, pos: nat, maxArguments: nat, f: Found)
    requires pos <= |line|
    ensures var p := pos + SpaceLength(line[pos..]);
            Scan(line[pos..], maxArguments, f)
            == Resume(line, maxArguments, TurnAt(line, p, maxArguments, f))
  {
    var p := pos + SpaceLength(line[pos..]);
    assert line[pos..][SpaceLength(line[pos..])..] == line[p..];
    HereTakesTurn(line, p, maxArguments, f);
  }

  lemma HereTakesTurn(line: string, p: nat, maxArguments: nat, f: Found)
    requires p <= |line|
    ensures ScanHere(line[p..], maxArguments, f) == Resume(line, maxArguments, TurnAt(line, p, maxArguments, f))
  {
    if p < |line| {
      assert line[p..][1..] == line[p + 1..];
      if line[p] == QUOTE {
        TokenTakesTurn(line, p + 1, QUOTE, maxArguments, f);
      } else {
        TokenTakesTurn(line, p, ' ', maxArguments, f);
      }
    }
  }

  lemma TokenTakesTurn(line: string, start: nat, termch: char, maxArguments: nat, f: Found)
    requires start <= |line|
    ensures ScanToken(line[start..], termch, maxArguments, f)
            == Resume(line, maxArguments, TokenAt(line, start, termch, f))
  {
    var n := FindChar(line[start..], termch);
    assert line[start..][..n] == line[start..start + n];
    if n < |line| - start {
      assert line[start..][n + 1..] == line[start + n + 1..];
    }
  }

  // ---------------------------------------------------------------- parseLine

  /** The variables of parseLine: the arguments found so far are in the arguments array. */
  datatype Vars = Vars(count: nat, infile: int, outfile: int, state: Redirection)

  /** The variables say what `f` says, with every string in the buffer and ended before `limit`. */
  ghost predicate Tells(buf: seq<char>, args: seq<int>, v: Vars, f: Found, limit: nat) {
    v.count == |f.args| && v.state == f.state && Stored(buf, args, v.infile, v.outfile, f, limit)
  }

  /** The variables after a token that starts at `start` has been recorded (lines 53-63). */
  function Recorded(v: Vars, start: nat): Vars {
    match v.state
    case Normal => v.(count := v.count + 1)
    case Infile => v.(infile := start, state := Normal)
    case Outfile => v.(outfile := start, state := Normal)
  }

  method RecordToken(command: array<char>, arguments: array<int>, start: nat, v0: Vars, ghost line: string)
    returns (refused: bool, v: Vars)
    requires Holds(command[..], line, start) && start <= |line| && v0.count < arguments.Length
    modifies arguments
    ensures refused <==> Refused(line, start, v0.state)
    ensures v == if refused then v0 else Recorded(v0, start)
    ensures arguments[..] == if v0.state == Normal then old(arguments[..])[v0.count := start] else old(arguments[..])
  {
    NulIsEnd(command[..], line, start, start);
    v := v0;
    if v.state.Normal? {
      arguments[v.count] := start;
      v := v.(count := v.count + 1);
    } else if v.state.Infile? {
      if command[start] == '<' || command[start] == '>' || command[start] == NUL {
        return true, v;
      }
      v := v.(infile := start);
    } else {
      if command[start] == '<' || command[start] == '>' || command[start] == NUL {
        return true, v;
      }
      v := v.(outfile := start);
    }
    v := v.(state := Normal);
    refused := false;
  }

  /** The part of one turn that deals with a token from `start` on. */
  method TakeToken(command: array<char>, arguments: array<int>, start: nat, quoted: bool, v0: Vars,
                   ghost line: string, ghost f: Found)
    returns (done: bool, pos: nat, v: Vars, ghost g: Found)
    requires Holds(command[..], line, start) && start <= |line| && v0.count < arguments.Length
    requires Tells(command[..], arguments[..], v0, f, start)
    modifies command, arguments
    ensures TokenAt(line, start, if quoted then QUOTE else ' ', f) == if done then Ends(g) else Goes(g, pos)
    ensures !done ==> start < pos <= |line| && Holds(command[..], line, pos)
    ensures Tells(command[..], arguments[..], v, g, if done then |line| + 1 else pos)
  {
    pos := start;
    var end := StrChr(command, start, if quoted then QUOTE else ' ', line);
    var refused;
    refused, v := RecordToken(command, arguments, start, v0, line);
    TokenIs(line, start, if quoted then QUOTE else ' ', f, end);
    if refused {
      StoredKept(command[..], command[..], arguments[..], v.infile, v.outfile, f, start, |line| + 1);
      done, g := true, f;
    } else {
      done, pos, v, g := EndToken(command, arguments, start, end, quoted, v0, v, line, f, old(arguments[..]));
    }
  }

  predicate Refused(line: string, start: nat, state: Redirection)
    requires start <= |line|
  {
    state != Normal && (start == |line| || line[start] == '<' || line[start] == '>')
  }

  lemma TokenIs(line: string, start: nat, termch: char, f: Found, end: int)
    requires start <= |line|
    requires if end == NULL then FindChar(line[start..], termch) == |line| - start
             else end == start + FindChar(line[start..], termch) < |line|
    ensures TokenAt(line, start, termch, f)
            == if Refused(line, start, f.state) then Ends(f)
               else
                 var g := Put(f, line[start..if end == NULL then |line| else end]);
                 if end == NULL then Ends(if termch == QUOTE then g.(args := []) else g) else Goes(g, end + 1)
  {
  }

  /** The end of a token (lines 64-72): the last one, or cut off by a NUL. */
  method EndToken(command: array<char>, arguments: array<int>, start: nat, end: int, quoted: bool, ghost v0: Vars,
                  v1: Vars, ghost line: string, ghost f: Found, ghost args0: seq<int>)
    returns (done: bool, pos: nat, v: Vars, ghost g: Found)
    requires Holds(command[..], line, start) && start <= |line| && v0.count < |args0|
    requires end == NULL || start <= end < |line|
    requires Tells(command[..], args0, v0, f, start) && v1 == Recorded(v0, start)
    requires arguments[..] == if v0.state == Normal then args0[v0.count := start] else args0
    modifies command
    ensures done == (end == NULL)
    ensures var h := Put(f, line[start..if done then |line| else end]);
            g == if done && quoted then h.(args := []) else h
    ensures !done ==> pos == end + 1 && Holds(command[..], line, pos)
    ensures Tells(command[..], arguments[..], v, g, if done then |line| + 1 else pos)
  {
    v, pos, done := v1, start, end == NULL;
    if done {
      g := Put(f, line[start..|line|]);
      TokenStored(command[..], command[..], args0, arguments[..], v0, f, line, start, |line|, |line| + 1);
      if quoted {
        v, g := v.(count := 0), g.(args := []);
      }
      return;
    }
    command[end] := NUL;
    pos := end + 1;
    g := Put(f, line[start..end]);
    TokenStored(old(command[..]), command[..], args0, arguments[..], v0, f, line, start, end, pos);
  }

  /** After the token has been recorded and is ended by a NUL, the variables tell of it. */
  lemma TokenStored(buf0: seq<char>, buf: seq<char>, args0: seq<int>, args: seq<int>, v: Vars, f: Found, line: string,
                    start: nat, stop: nat, limit: nat)
    requires start <= stop <= |line| && NUL !in line && stop < limit <= |buf| == |buf0| && buf[stop] == NUL
    requires forall k :: start <= k < stop ==> buf[k] == line[k]
    requires forall k :: 0 <= k < start ==> buf[k] == buf0[k]
    requires Tells(buf0, args0, v, f, start) && v.count < |args0| && start < limit
    requires args == if v.state == Normal then args0[v.count := start] else args0
    ensures Tells(buf, args, Recorded(v, start), Put(f, line[start..stop]), limit)
  {
    var token := line[start..stop];
    assert IsStr(buf, start, token, limit);
    StoredKept(buf0, buf, args0, v.infile, v.outfile, f, start, limit);
  }

  /** One turn of the loop at `p`, where white space has been skipped and neither limit is reached. */
  method TakeTurn(command: array<char>, arguments: array<int>, p: nat, v0: Vars, ghost line: string, ghost f: Found)
    returns (done: bool, pos: nat, v: Vars, ghost g: Found)
    requires Holds(command[..], line, p) && p < |line| && v0.count < arguments.Length
    requires Tells(command[..], arguments[..], v0, f, p)
    modifies command, arguments
    ensures TurnAt(line, p, arguments.Length, f) == if done then Ends(g) else Goes(g, pos)
    ensures !done ==> p < pos <= |line| && Holds(command[..], line, pos)
    ensures Tells(command[..], arguments[..], v, g, if done then |line| + 1 else pos)
  {
    NulIsEnd(command[..], line, p, p);
    var quoted := command[p] == QUOTE;
    if v0.state.Normal? && !quoted && (command[p] == '<' || command[p] == '>') {
      done, pos, v, g := TakeOperator(command, arguments, p, v0, line, f);
    } else {
      var start := if quoted then p + 1 else p;
      StoredKept(command[..], command[..], arguments[..], v0.infile, v0.outfile, f, p, start);
      done, pos, v, g := TakeToken(command, arguments, start, quoted, v0, line, f);
    }
  }

  /** A redirection operator (lines 39-50): a second one of its kind spoils the line. */
  method TakeOperator(command: array<char>, arguments: array<int>, p: nat, v0: Vars, ghost line: string,
                      ghost f: Found)
    returns (done: bool, pos: nat, v: Vars, ghost g: Found)
    requires Holds(command[..], line, p) && p < |line| && (line[p] == '<' || line[p] == '>') && v0.state.Normal?
    requires Tells(command[..], arguments[..], v0, f, p) && |f.args| != arguments.Length
    ensures TurnAt(line, p, arguments.Length, f) == if done then Ends(g) else Goes(g, pos)
    ensures !done ==> pos == p + 1 && Holds(command[..], line, pos)
    ensures Tells(command[..], arguments[..], v, g, if done then |line| + 1 else pos)
  {
    v, g, pos := v0, f, p;
    StoredKept(command[..], command[..], arguments[..], v.infile, v.outfile, f, p, |line| + 1);
    if command[p] == '<' && v.infile != NULL {
      v, g := v.(count := 0), g.(args := []);
      return true, pos, v, g;
    } else if command[p] == '>' && v.outfile != NULL {
      v, g := v.(count := 0), g.(args := []);
      return true, pos, v, g;
    }
    var state := if command[p] == '<' then Infile else Outfile;
    v, g := v.(state := state), g.(state := state);
    StoredKept(command[..], command[..], arguments[..], v.infile, v.outfile, f, p, p + 1);
    return false, p + 1, v, g;
  }

  /** The body of the loop of parseLine. */
  method Advance(command: array<char>, arguments: array<int>, pos0: nat, v0: Vars, ghost line: string, ghost f: Found)
    returns (done: bool, pos: nat, v: Vars, ghost g: Found)
    requires pos0 <= |line| && Holds(command[..], line, pos0) && Tells(command[..], arguments[..], v0, f, pos0)
    modifies command, arguments
    ensures Resume(line, arguments.Length, if done then Ends(g) else Goes(g, pos))
            == Scan(line[pos0..], arguments.Length, f)
    ensures !done ==> pos0 < pos <= |line| && Holds(command[..], line, pos)
    ensures Tells(command[..], arguments[..], v, g, if done then |line| + 1 else pos)
  {
    ScanTakesTurn(line, pos0, arguments.Length, f);
    var p := SkipSpace(command, pos0, line);
    if v0.count == arguments.Length || command[p] == NUL {
      StoredKept(command[..], command[..], arguments[..], v0.infile, v0.outfile, f, pos0, |line| + 1);
      done, pos, v, g := true, p, v0, f;
    } else {
      StoredKept(command[..], command[..], arguments[..], v0.infile, v0.outfile, f, pos0, p);
      done, pos, v, g := TakeTurn(command, arguments, p, v0, line, f);
    }
  }

  /** The loop of parseLine. */
  method ScanLine(command: array<char>, arguments: array<int>, ghost line: string) returns (v: Vars, ghost f: Found)
    requires Holds(command[..], line, 0)
    modifies command, arguments
    ensures f == Scan(line, arguments.Length, NOTHING) && |f.args| <= arguments.Length
    ensures Tells(command[..], arguments[..], v, f, |line| + 1)
  {
    v, f := Vars(0, NULL, NULL, Normal), NOTHING;
    var pos, done := 0, false;
    assert line[0..] == line;
    while !done
      invariant !done ==> pos <= |line| && Holds(command[..], line, pos)
      invariant Tells(command[..], arguments[..], v, f, if done then |line| + 1 else pos)
      invariant Resume(line, arguments.Length, if done then Ends(f) else Goes(f, pos))
                == Scan(line, arguments.Length, NOTHING)
      decreases !done, |line| - pos
    {
      done, pos, v, f := Advance(command, arguments, pos, v, line, f);
    }
  }

  /** parseLine: the buffer and the arguments array end up holding what the parser on strings makes of the line. The
      program exits if the array has room for fewer than two arguments. */
  method ParseLine(command: array<char>, arguments: array<int>, ghost line: string)
    returns (background: bool, infile: int, outfile: int)
    requires Holds(command[..], line, 0) && arguments.Length > 1
    modifies command, arguments
    ensures var r := ParseString(line, arguments.Length);
            && background == r.background
            && |r.args| < arguments.Length && arguments[|r.args|] == NULL
            && (forall i :: 0 <= i < |r.args| ==> IsStr(command[..], arguments[i], r.args[i], |line| + 1))
            && IsStrOrNull(command[..], infile, r.infile, |line| + 1)
            && IsStrOrNull(command[..], outfile, r.outfile, |line| + 1)
  {
    var v;
    ghost var f;
    v, f := ScanLine(command, arguments, line);
    infile, outfile := v.infile, v.outfile;
    var count := v.count;
    if count == arguments.Length {
      count := 0;
    } else if v.state != Normal {
      count := 0;
    }
    ghost var args := if count == 0 then [] else f.args;
    arguments[count] := NULL;
    if count == 0 {
      return false, infile, outfile;
    }
    assert IsStr(command[..], arguments[count - 1], args[count - 1], |line| + 1);
    background := command[arguments[count - 1]] == '&';
    if background {
      count := count - 1;
      arguments[count] := NULL;
    }
  }

  /** What parsing a printed line must give. */
  predicate IsParsed(r: Parsed, args: seq<string>, infile: Option<string>, outfile: Option<string>) {
    && r.infile == infile && r.outfile == outfile && (r.background <==> EndsInAmpersand(args))
    && r.args == if r.background then args[..|args| - 1] else args
  }

  /** Parsing in place a line of which that is known. */
  method ParseInto(command: array<char>, arguments: array<int>, ghost line: string, ghost args: seq<string>,
                   ghost infileName: Option<string>, ghost outfileName: Option<string>)
    returns (background: bool, infile: int, outfile: int)
    requires Holds(command[..], line, 0) && 1 < arguments.Length && |args| < arguments.Length
    requires IsParsed(ParseString(line, arguments.Length), args, infileName, outfileName)
    modifies command, arguments
    ensures background <==> EndsInAmpersand(args)
    ensures var count := |args| - if background then 1 else 0;
            && arguments[count] == NULL
            && forall i :: 0 <= i < count ==> IsStr(command[..], arguments[i], args[i], |line| + 1)
    ensures IsStrOrNull(command[..], infile, infileName, |line| + 1)
    ensures IsStrOrNull(command[..], outfile, outfileName, |line| + 1)
  {
    background, infile, outfile := ParseLine(command, arguments, line);
  }

  lemma PrintedIsParsed(items: seq<Item>, tail: string, maxArguments: nat)
    requires LineOk(items, tail) && AllSpace(tail)
    requires |Arguments(items)| < maxArguments && CountOf(items, Input) <= 1 && CountOf(items, Output) <= 1
    ensures IsParsed(ParseString(Print(items, tail), maxArguments), Arguments(items), FileOf(items, Input, None),
                     FileOf(items, Output, None))
  {
    ParseUndoesPrint(items, tail, maxArguments);
  }

  /** A buffer that holds a printed line leads, once parsed in place, to just what was printed: both files, and all the
      arguments unless the last one starts with '&', which is then taken for the mark of a background job. */
  method ParsePrinted(command: array<char>, arguments: array<int>, ghost items: seq<Item>, ghost tail: string,
                      ghost line: string, ghost args: seq<string>)
    returns (background: bool, infile: int, outfile: int)
    requires LineOk(items, tail) && AllSpace(tail) && arguments.Length > 1
    requires line == Print(items, tail) && args == Arguments(items)
    requires |args| < arguments.Length && CountOf(items, Input) <= 1 && CountOf(items, Output) <= 1
    requires Holds(command[..], line, 0)
    modifies command, arguments
    ensures background <==> EndsInAmpersand(args)
    ensures var count := |args| - if background then 1 else 0;
            && arguments[count] == NULL
            && forall i :: 0 <= i < count ==> IsStr(command[..], arguments[i], args[i], |line| + 1)
    ensures IsStrOrNull(command[..], infile, FileOf(items, Input, None), |line| + 1)
    ensures IsStrOrNull(command[..], outfile, FileOf(items, Output, None), |line| + 1)
  {
    PrintedIsParsed(items, tail, arguments.Length);
    background, infile, outfile := ParseInto(command, arguments, line, args, FileOf(items, Input, None),
                                             FileOf(items, Output, None));
  }
}
