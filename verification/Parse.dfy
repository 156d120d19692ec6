/** The command-line parser of the tiny shell (assign3/tsh-parse.c), which cuts the line into strings in place. */
module Parse {
  import opened Basics

  datatype Redirection = Normal | Infile | Outfile

  /** What has been found so far. */
  datatype Found = Found(args: seq<string>, infile: Option<string>, outfile: Option<string>, state: Redirection)

  datatype Parsed = Parsed(args: seq<string>, infile: Option<string>, outfile: Option<string>, background: bool)

  const QUOTE := '\''

  predicate IsSpace(c: char) { c == ' ' || c == '\t' || c == '\n' || c == '\r' }

  /** strspn(s, kWhitespace). */
  function SpaceLength(s: string): (n: nat)
    ensures n <= |s| && (forall i :: 0 <= i < n ==> IsSpace(s[i])) && (n < |s| ==> !IsSpace(s[n]))
  {
    if s == [] || !IsSpace(s[0]) then 0 else 1 + SpaceLength(s[1..])
  }

  /** The place of the first `c`, or the length of the string. */
  function FindChar(s: string, c: char): (n: nat)
    ensures n <= |s| && (forall i :: 0 <= i < n ==> s[i] != c) && (n < |s| ==> s[n] == c)
  {
    if s == [] || s[0] == c then 0 else 1 + FindChar(s[1..], c)
  }

  predicate StartsWithAngle(s: string) { s != [] && (s[0] == '<' || s[0] == '>') }

  // ---------------------------------------------------------------- the parser on strings

  /** A token goes where the last operator said. */
  function Put(f: Found, token: string): Found {
    match f.state
    case Normal => f.(args := f.args + [token])
    case Infile => f.(infile := Some(token), state := Normal)
    case Outfile => f.(outfile := Some(token), state := Normal)
  }

  /** The loop of parseLine on what is left of the line. */
  function Scan(rest: string, maxArguments: nat, f: Found): Found
    decreases |rest|, 2
  {
    ScanHere(rest[SpaceLength(rest)..], maxArguments, f)
  }

  /** The rest of one turn, after white space has been skipped. */
  function ScanHere(s: string, maxArguments: nat, f: Found): Found
    decreases |s|, 1
  {
    if |f.args| == maxArguments || s == [] then f
    else if s[0] == QUOTE then ScanToken(s[1..], QUOTE, maxArguments, f)
    else if f.state == Normal && StartsWithAngle(s) then
      if (s[0] == '<' && f.infile.Some?) || (s[0] == '>' && f.outfile.Some?) then f.(args := [])
      else Scan(s[1..], maxArguments, f.(state := if s[0] == '<' then Infile else Outfile))
    else ScanToken(s, ' ', maxArguments, f)
  }

  /** One token, which ends at `termch`. A redirection refuses a name that is missing or starts with an operator. */
  function ScanToken(s: string, termch: char, maxArguments: nat, f: Found): Found
    decreases |s|, 0
  {
    var end := FindChar(s, termch);
    if f.state != Normal && (s == [] || StartsWithAngle(s)) then f
    else
      var g := Put(f, s[..end]);
      if end == |s| then if termch == QUOTE then g.(args := []) else g
      else Scan(s[end + 1..], maxArguments, g)
  }

  function Finish(f: Found, maxArguments: nat): Parsed {
    var args := if |f.args| == maxArguments || f.state != Normal then [] else f.args;
    var background := EndsInAmpersand(args);
    Parsed(if background then args[..|args| - 1] else args, f.infile, f.outfile, background)
  }

  const NOTHING := Found([], None, None, Normal)

  function ParseString(line: string, maxArguments: nat): Parsed {
    Finish(Scan(line, maxArguments, NOTHING), maxArguments)
  }

  // ---------------------------------------------------------------- printing, and reading back

  datatype Kind = Argument | Input | Output

  /** A token, in quotes or not: `gap` is the white space in front of it, `inner` that after its operator. */
  datatype Item = Item(kind: Kind, gap: string, inner: string, quoted: bool, text: string)

  /** What separates tokens. */
  predicate White(c: char) { c in {' ', '\t', '\n', '\r'} }

  predicate AllSpace(s: string) { forall i :: 0 <= i < |s| ==> White(s[i]) }

  function Operator(kind: Kind): string {
    match kind
    case Argument => ""
    case Input => "<"
    case Output => ">"
  }

  /** The text of an item and what follows it. */
  function TextThen(i: Item, s: string): string {
    if i.quoted then [QUOTE] + (i.text + [QUOTE] + s) else i.text + s
  }

  function Print(items: seq<Item>, tail: string): string {
    if items == [] then tail
    else
      var i := items[0];
      i.gap + (Operator(i.kind) + (i.inner + TextThen(i, Print(items[1..], tail))))
  }

  /** A text that may stand without quotes. Other white space, quotes and operators may follow its first character. */
  predicate IsBare(text: string) {
    text != [] && ' ' !in text && !White(text[0]) && text[0] != QUOTE && !StartsWithAngle(text)
  }

  predicate ItemOk(i: Item) {
    && AllSpace(i.gap) && AllSpace(i.inner) && (i.kind == Argument ==> i.inner == [])
    && (i.kind != Argument ==> !StartsWithAngle(i.text))
    && if i.quoted then QUOTE !in i.text else IsBare(i.text)
  }

  /** A token without quotes ends at a blank or at the end of the line. */
  predicate EndsBare(s: string) { s == [] || s[0] == ' ' }

  /** Every item is well-formed, and what follows a token without quotes ends it. */
  predicate LineOk(items: seq<Item>, tail: string) {
    items == []
    || (ItemOk(items[0]) && (items[0].quoted || EndsBare(Print(items[1..], tail))) && LineOk(items[1..], tail))
  }

  function Arguments(items: seq<Item>): seq<string> {
    if items == [] then []
    else (if items[0].kind == Argument then [items[0].text] else []) + Arguments(items[1..])
  }

  /** The file of the redirections of one kind: that of the last one. */
  function FileOf(items: seq<Item>, kind: Kind, before: Option<string>): Option<string> {
    if items == [] then before
    else FileOf(items[1..], kind, if items[0].kind == kind then Some(items[0].text) else before)
  }

  function CountOf(items: seq<Item>, kind: Kind): nat {
    if items == [] then 0 else (if items[0].kind == kind then 1 else 0) + CountOf(items[1..], kind)
  }

  lemma {:induction false} SpaceThen(gap: string, s: string)
    requires AllSpace(gap) && (s != [] ==> !IsSpace(s[0]))
    ensures SpaceLength(gap + s) == |gap| && (gap + s)[|gap|..] == s
  {
    if gap == [] {
      assert gap + s == s;
    } else {
      assert (gap + s)[1..] == gap[1..] + s;
      SpaceThen(gap[1..], s);
    }
  }

  lemma {:induction false} FindQuote(text: string, s: string)
    requires QUOTE !in text
    ensures FindChar(text + [QUOTE] + s, QUOTE) == |text|
    ensures (text + [QUOTE] + s)[..|text|] == text && (text + [QUOTE] + s)[|text| + 1..] == s
  {
    if text != [] {
      assert (text + [QUOTE] + s)[1..] == text[1..] + [QUOTE] + s;
      FindQuote(text[1..], s);
    }
  }

  lemma ScanSkips(gap: string, s: string, maxArguments: nat, f: Found)
    requires AllSpace(gap) && s != [] && !IsSpace(s[0])
    ensures Scan(gap + s, maxArguments, f) == ScanHere(s, maxArguments, f)
  {
    SpaceThen(gap, s);
  }

  lemma ScanOpens(u: string, maxArguments: nat, f: Found)
    requires |f.args| < maxArguments
    ensures ScanHere([QUOTE] + u, maxArguments, f) == ScanToken(u, QUOTE, maxArguments, f)
  {
    assert ([QUOTE] + u)[1..] == u;
  }

  lemma TokenCloses(text: string, s: string, maxArguments: nat, f: Found)
    requires QUOTE !in text && (f.state != Normal ==> !StartsWithAngle(text))
    ensures ScanToken(text + [QUOTE] + s, QUOTE, maxArguments, f) == Scan(s, maxArguments, Put(f, text))
  {
    FindQuote(text, s);
    assert |text + [QUOTE] + s| > |text|;
  }

  lemma ScanQuoted(gap: string, text: string, s: string, maxArguments: nat, f: Found)
    requires AllSpace(gap) && QUOTE !in text && |f.args| < maxArguments
    requires f.state != Normal ==> !StartsWithAngle(text)
    ensures Scan(gap + ([QUOTE] + (text + [QUOTE] + s)), maxArguments, f) == Scan(s, maxArguments, Put(f, text))
  {
    var u := text + [QUOTE] + s;
    ScanSkips(gap, [QUOTE] + u, maxArguments, f);
    ScanOpens(u, maxArguments, f);
    TokenCloses(text, s, maxArguments, f);
  }

  lemma {:induction false} FindBlank(text: string, s: string)
    requires ' ' !in text && EndsBare(s)
    ensures FindChar(text + s, ' ') == |text| && (text + s)[..|text|] == text
    ensures s != [] ==> (text + s)[|text| + 1..] == s[1..]
  {
    if text == [] {
      assert text + s == s;
    } else {
      assert (text + s)[1..] == text[1..] + s;
      FindBlank(text[1..], s);
    }
  }

  lemma ScanSkipsBlank(s: string, maxArguments: nat, f: Found)
    requires s != [] && IsSpace(s[0])
    ensures Scan(s, maxArguments, f) == Scan(s[1..], maxArguments, f)
  {
    assert s[SpaceLength(s)..] == s[1..][SpaceLength(s[1..])..];
  }

  lemma BareTokenEnds(text: string, s: string, maxArguments: nat, f: Found)
    requires IsBare(text) && EndsBare(s)
    ensures ScanToken(text + s, ' ', maxArguments, f) == Scan(s, maxArguments, Put(f, text))
  {
    FindBlank(text, s);
    assert (text + s)[0] == text[0];
    if s != [] {
      ScanSkipsBlank(s, maxArguments, Put(f, text));
    }
  }

  lemma ScanBare(gap: string, text: string, s: string, maxArguments: nat, f: Found)
    requires AllSpace(gap) && IsBare(text) && EndsBare(s) && |f.args| < maxArguments
    ensures Scan(gap + (text + s), maxArguments, f) == Scan(s, maxArguments, Put(f, text))
  {
    assert (text + s)[0] == text[0];
    ScanSkips(gap, text + s, maxArguments, f);
    BareTokenEnds(text, s, maxArguments, f);
  }

  lemma ScanText(gap: string, i: Item, s: string, maxArguments: nat, f: Found)
    requires AllSpace(gap) && ItemOk(i) && (i.quoted || EndsBare(s)) && |f.args| < maxArguments
    requires f.state != Normal ==> !StartsWithAngle(i.text)
    ensures Scan(gap + TextThen(i, s), maxArguments, f) == Scan(s, maxArguments, Put(f, i.text))
  {
    if i.quoted {
      ScanQuoted(gap, i.text, s, maxArguments, f);
    } else {
      ScanBare(gap, i.text, s, maxArguments, f);
    }
  }

  lemma ScanOperator(gap: string, angle: char, after: string, maxArguments: nat, f: Found)
    requires AllSpace(gap) && (angle == '<' || angle == '>') && |f.args| < maxArguments && f.state == Normal
    requires if angle == '<' then f.infile.None? else f.outfile.None?
    ensures Scan(gap + ([angle] + after), maxArguments, f)
            == Scan(after, maxArguments, f.(state := if angle == '<' then Infile else Outfile))
  {
    ScanSkips(gap, [angle] + after, maxArguments, f);
    HereAtOperator(angle, after, maxArguments, f);
  }

  lemma HereAtOperator(angle: char, after: string, maxArguments: nat, f: Found)
    requires (angle == '<' || angle == '>') && |f.args| < maxArguments && f.state == Normal
    requires if angle == '<' then f.infile.None? else f.outfile.None?
    ensures ScanHere([angle] + after, maxArguments, f)
            == Scan(after, maxArguments, f.(state := if angle == '<' then Infile else Outfile))
  {
    assert ([angle] + after)[1..] == after;
  }

  function AddItem(f: Found, i: Item): Found {
    match i.kind
    case Argument => f.(args := f.args + [i.text])
    case Input => f.(infile := Some(i.text))
    case Output => f.(outfile := Some(i.text))
  }

  lemma ScanItem(i: Item, s: string, maxArguments: nat, f: Found)
    requires ItemOk(i) && (i.quoted || EndsBare(s)) && f.state == Normal && |f.args| < maxArguments
    requires (i.kind == Input ==> f.infile.None?) && (i.kind == Output ==> f.outfile.None?)
    ensures Scan(i.gap + (Operator(i.kind) + (i.inner + TextThen(i, s))), maxArguments, f)
            == Scan(s, maxArguments, AddItem(f, i))
  {
    var after := i.inner + TextThen(i, s);
    if i.kind == Argument {
      assert Operator(i.kind) + after == TextThen(i, s);
      ScanText(i.gap, i, s, maxArguments, f);
    } else {
      ScanOperator(i.gap, if i.kind == Input then '<' else '>', after, maxArguments, f);
      ScanText(i.inner, i, s, maxArguments, f.(state := if i.kind == Input then Infile else Outfile));
    }
  }

  /** What scanning all the items adds. */
  function AddItems(f: Found, items: seq<Item>): Found
    decreases |items|
  {
    if items == [] then f else AddItems(AddItem(f, items[0]), items[1..])
  }

  lemma {:induction false} AddItemsMeaning(f: Found, items: seq<Item>)
    ensures AddItems(f, items)
            == Found(f.args + Arguments(items),
                     FileOf(items, Input, f.infile), FileOf(items, Output, f.outfile), f.state)
    decreases |items|
  {
    if items == [] {
      assert f.args + [] == f.args;
    } else {
      var i, rest := items[0], Arguments(items[1..]);
      AddItemsMeaning(AddItem(f, i), items[1..]);
      assert i.kind == Argument ==> (f.args + [i.text]) + rest == f.args + ([i.text] + rest);
      assert i.kind != Argument ==> [] + rest == rest;
    }
  }

  /** There is room for the items: few enough arguments, and no file of a kind that is there already. */
  predicate Fits(items: seq<Item>, maxArguments: nat, f: Found) {
    && f.state == Normal && |f.args| + |Arguments(items)| < maxArguments
    && CountOf(items, Input) + (if f.infile.Some? then 1 else 0) <= 1
    && CountOf(items, Output) + (if f.outfile.Some? then 1 else 0) <= 1
  }

  /** The items are found one after the other, whatever follows them. */
  lemma {:induction false} ScanPrinted(items: seq<Item>, tail: string, maxArguments: nat, f: Found)
    requires LineOk(items, tail) && Fits(items, maxArguments, f)
    ensures Scan(Print(items, tail), maxArguments, f) == Scan(tail, maxArguments, AddItems(f, items))
    decreases |items|
  {
    if items != [] {
      ScanItem(items[0], Print(items[1..], tail), maxArguments, f);
      ScanPrinted(items[1..], tail, maxArguments, AddItem(f, items[0]));
    }
  }

  lemma ScanSpaces(tail: string, maxArguments: nat, f: Found)
    requires AllSpace(tail)
    ensures Scan(tail, maxArguments, f) == f
  {
    SpaceThen(tail, []);
    assert tail + [] == tail;
  }

  /** The last argument starts with '&'. */
  predicate EndsInAmpersand(args: seq<string>) {
    args != [] && args[|args| - 1] != [] && args[|args| - 1][0] == '&'
  }

  lemma ScanOfLine(items: seq<Item>, tail: string, maxArguments: nat)
    requires LineOk(items, tail) && AllSpace(tail) && Fits(items, maxArguments, NOTHING)
    ensures Scan(Print(items, tail), maxArguments, NOTHING)
            == Found(Arguments(items), FileOf(items, Input, None), FileOf(items, Output, None), Normal)
  {
    ScanPrinted(items, tail, maxArguments, NOTHING);
    AddItemsMeaning(NOTHING, items);
    ScanSpaces(tail, maxArguments, AddItems(NOTHING, items));
    assert [] + Arguments(items) == Arguments(items);
  }

  /** Parsing undoes printing: arguments, at most one input and one output file, each in quotes or not, in any order and
      with any white space between them. The arguments come back exactly if the last one does not start with '&':
      although the header speaks of the token "&", any last token that starts so is dropped and makes the command a
      background job. */
  lemma ParseUndoesPrint(items: seq<Item>, tail: string, maxArguments: nat)
    requires LineOk(items, tail) && AllSpace(tail)
    requires |Arguments(items)| < maxArguments && CountOf(items, Input) <= 1 && CountOf(items, Output) <= 1
    ensures var p := ParseString(Print(items, tail), maxArguments);
            && p.infile == FileOf(items, Input, None) && p.outfile == FileOf(items, Output, None)
            && (p.args == Arguments(items) <==> !EndsInAmpersand(Arguments(items)))
            && (p.background <==> EndsInAmpersand(Arguments(items)))
            && (p.background ==> p.args == Arguments(items)[..|Arguments(items)| - 1])
  {
    ScanOfLine(items, tail, maxArguments);
  }

  // ---------------------------------------------------------------- lines that are refused

  /** A second redirection of a kind ends the scan and spoils the line. */
  lemma ScanSpoils(gap: string, angle: char, after: string, maxArguments: nat, f: Found)
    requires AllSpace(gap) && (angle == '<' || angle == '>') && |f.args| < maxArguments && f.state == Normal
    requires if angle == '<' then f.infile.Some? else f.outfile.Some?
    ensures Scan(gap + ([angle] + after), maxArguments, f) == f.(args := [])
  {
    ScanSkips(gap, [angle] + after, maxArguments, f);
  }

  lemma ScanFull(s: string, maxArguments: nat, f: Found)
    requires |f.args| == maxArguments
    ensures Scan(s, maxArguments, f) == f
  {
  }

  lemma {:induction false} ScanUnfit(items: seq<Item>, tail: string, maxArguments: nat, f: Found)
    requires LineOk(items, tail) && f.state == Normal && |f.args| <= maxArguments
    requires !Fits(items, maxArguments, f)
    ensures var r := Scan(Print(items, tail), maxArguments, f); |r.args| == maxArguments || r.args == []
    decreases |items|
  {
    if |f.args| == maxArguments {
      ScanFull(Print(items, tail), maxArguments, f);
    } else {
      var i, rest := items[0], Print(items[1..], tail);
      if (i.kind == Input && f.infile.Some?) || (i.kind == Output && f.outfile.Some?) {
        ScanSpoils(i.gap, if i.kind == Input then '<' else '>', i.inner + TextThen(i, rest), maxArguments, f);
      } else {
        ScanItem(i, rest, maxArguments, f);
        ScanUnfit(items[1..], tail, maxArguments, AddItem(f, i));
      }
    }
  }

  /** A line with too many arguments, or with two redirections of a kind, gives no command, whatever comes after. */
  lemma UnfitIsRefused(items: seq<Item>, tail: string, maxArguments: nat)
    requires LineOk(items, tail)
    requires |Arguments(items)| >= maxArguments || CountOf(items, Input) > 1 || CountOf(items, Output) > 1
    ensures var p := ParseString(Print(items, tail), maxArguments); p.args == [] && !p.background
  {
    ScanUnfit(items, tail, maxArguments, NOTHING);
  }

  /** So does a line that ends in a quote without a partner. */
  lemma UnmatchedQuoteIsRefused(items: seq<Item>, gap: string, text: string, maxArguments: nat)
    requires LineOk(items, gap + ([QUOTE] + text)) && AllSpace(gap) && QUOTE !in text
    requires |Arguments(items)| < maxArguments && CountOf(items, Input) <= 1 && CountOf(items, Output) <= 1
    ensures var p := ParseString(Print(items, gap + ([QUOTE] + text)), maxArguments); p.args == [] && !p.background
  {
    var f := AddItems(NOTHING, items);
    ScanPrinted(items, gap + ([QUOTE] + text), maxArguments, NOTHING);
    AddItemsMeaning(NOTHING, items);
    ScanSkips(gap, [QUOTE] + text, maxArguments, f);
    ScanOpens(text, maxArguments, f);
    NoQuote(text);
  }

  lemma {:induction false} NoQuote(text: string)
    requires QUOTE !in text
    ensures FindChar(text, QUOTE) == |text|
  {
    if text != [] {
      NoQuote(text[1..]);
    }
  }

  /** And one that ends in an operator without a file. */
  lemma MissingFileIsRefused(items: seq<Item>, gap: string, angle: char, spaces: string, maxArguments: nat)
    requires LineOk(items, gap + ([angle] + spaces)) && AllSpace(gap) && AllSpace(spaces)
    requires |Arguments(items)| < maxArguments && CountOf(items, Input) <= 1 && CountOf(items, Output) <= 1
    requires angle == '<' || angle == '>'
    ensures var p := ParseString(Print(items, gap + ([angle] + spaces)), maxArguments); p.args == [] && !p.background
  {
    var f := AddItems(NOTHING, items);
    ScanPrinted(items, gap + ([angle] + spaces), maxArguments, NOTHING);
    AddItemsMeaning(NOTHING, items);
    if if angle == '<' then f.infile.Some? else f.outfile.Some? {
      ScanSpoils(gap, angle, spaces, maxArguments, f);
    } else {
      ScanOperator(gap, angle, spaces, maxArguments, f);
      ScanSpaces(spaces, maxArguments, f.(state := if angle == '<' then Infile else Outfile));
    }
  }
}
