/** The header fields of an HTTP message (assign6/header.cc): reading them with continuation lines, printing them. */
module HttpHeader {
  import opened Basics
  import opened HttpText
  import opened HttpStream

  type Fields = map<string, string>

  // ---------------------------------------------------------------- reading and printing on strings

  function ValueAt(fields: Fields, key: string): string {
    if key in fields then fields[key] else ""
  }

  function Lookup(fields: Fields, name: string): string { ValueAt(fields, ToLower(name)) }

  /** A line that starts with a space extends the last field, any other starts one: the text before the first colon
      is its name. */
  function AfterLine(line: string, name: string, fields: Fields): (string, Fields)
    requires line != []
  {
    if line[0] == ' ' then (name, fields[ToLower(name) := Lookup(fields, name) + " " + Trim(line)])
    else
      var (text, value) := GetLine(line, ':');
      (Trim(text), fields[ToLower(Trim(text)) := Trim(GetLine(value, '\n').0)])
  }

  /** ingestHeader: all lines up to one that is blank. */
  function Ingest(s: string, name: string, fields: Fields): (Fields, string)
    decreases |s|
  {
    var (line, rest) := GetLine(s, '\n');
    if RTrim(line) == [] then (fields, rest)
    else
      var (name', fields') := AfterLine(RTrim(line), name, fields);
      Ingest(rest, name', fields')
  }

  /** The fields in the order in which the map enumerates its keys. */
  function Print(fields: Fields, keys: seq<string>): string
    requires forall k :: k in keys ==> k in fields
  {
    if keys == [] then [] else PrintField(keys[0], fields[keys[0]]) + Print(fields, keys[1..])
  }

  function PrintField(name: string, value: string): string { name + ": " + value + "\r\n" }

  /** A field that can be read back: a lower-case, trimmed name without colon, a trimmed value, no line breaks. */
  predicate CanonicalField(name: string, value: string) {
    && IsLower(name) && Trimmed(name) && ':' !in name && '\n' !in name
    && Trimmed(value) && '\n' !in value
  }

  predicate Canonical(fields: Fields) {
    forall k :: k in fields ==> CanonicalField(k, fields[k])
  }

  predicate CanonicalName(name: string) { IsLower(name) && Trimmed(name) && ':' !in name && '\n' !in name }

  /** A field that can be read: white space around the value does not matter. */
  predicate PlainField(name: string, value: string) { CanonicalName(name) && '\n' !in value }

  predicate Plain(fields: Fields) {
    forall k :: k in fields ==> PlainField(k, fields[k])
  }

  /** The printed line without its white space at the end; an empty value leaves the bare colon. */
  lemma PrintedLine(name: string, value: string)
    requires PlainField(name, value)
    ensures RTrim(name + ": " + value + "\r") == name + (if RTrim(value) == [] then ":" else ": " + RTrim(value))
  {
    RTrimTail(value);
    if RTrim(value) == [] {
      PrintedEmpty(name, value);
    } else {
      PrintedValue(name, RTrim(value), value[|RTrim(value)|..], value);
    }
  }

  lemma PrintedEmpty(name: string, spaces: string)
    requires AllSpace(spaces)
    ensures RTrim(name + ": " + spaces + "\r") == name + ":"
  {
    var start, tail := name + ":", " " + spaces + "\r";
    assert start[|start| - 1] == ':';
    assert name + ": " + spaces + "\r" == start + tail;
    RTrimSpaces(start, tail);
  }

  lemma PrintedValue(name: string, r: string, spaces: string, value: string)
    requires r != [] && !IsSpace(r[|r| - 1]) && AllSpace(spaces) && value == r + spaces
    ensures RTrim(name + ": " + value + "\r") == name + (": " + r)
  {
    var start, tail := name + (": " + r), spaces + "\r";
    assert start[|start| - 1] == r[|r| - 1];
    assert name + ": " + value + "\r" == start + tail;
    RTrimSpaces(start, tail);
  }

  lemma PrintedField(name: string, value: string, last: string, fields: Fields)
    requires PlainField(name, value)
    ensures var line := name + (if RTrim(value) == [] then ":" else ": " + RTrim(value));
            line != [] && AfterLine(line, last, fields) == (name, fields[name := Trim(value)])
  {
    var r := RTrim(value);
    var after := if r == [] then [] else " " + r;
    var line := name + (if r == [] then ":" else ": " + r);
    assert line == name + [':'] + after;
    GetLineOf(name, ':', after);
    TrimOfTrimmed(name);
    ToLowerOfLower(name);
    ValueReadBack(r, after);
  }

  lemma ValueReadBack(r: string, after: string)
    requires RTrim(r) == r && '\n' !in r && after == if r == [] then [] else " " + r
    ensures Trim(GetLine(after, '\n').0) == LTrim(r)
  {
    LineWithoutDelim(after, '\n');
    if r != [] {
      assert after[1..] == r && after[|after| - 1] == r[|r| - 1];
    }
  }

  lemma {:induction false} FindNone(s: string, delim: char)
    requires delim !in s
    ensures Find(s, delim) == |s|
  {
    if s != [] {
      FindNone(s[1..], delim);
    }
  }

  lemma LineWithoutDelim(s: string, delim: char)
    requires delim !in s
    ensures GetLine(s, delim) == (s, [])
  {
    FindNone(s, delim);
    assert s[..|s|] == s;
  }

  /** Reading one printed field and going on: the value comes back without the white space around it. */
  lemma IngestField(name: string, value: string, rest: string, last: string, fields: Fields)
    requires PlainField(name, value)
    ensures Ingest(PrintField(name, value) + rest, last, fields) == Ingest(rest, name, fields[name := Trim(value)])
  {
    var line := name + ": " + value + "\r";
    assert PrintField(name, value) + rest == line + ['\n'] + rest;
    GetLineOf(line, '\n', rest);
    PrintedLine(name, value);
    PrintedField(name, value, last, fields);
  }

  lemma IngestBlank(rest: string, last: string, fields: Fields)
    ensures Ingest("\r\n" + rest, last, fields) == (fields, rest)
  {
    assert "\r\n" + rest == "\r" + ['\n'] + rest;
    GetLineOf("\r", '\n', rest);
    RTrimSpaces([], "\r");
    assert [] + "\r" == "\r";
  }

  /** The fields with those of the given keys set again, one after the other. */
  function SetAgain(before: Fields, fields: Fields, keys: seq<string>): Fields
    requires forall k :: k in keys ==> k in fields
    decreases |keys|
  {
    if keys == [] then before else SetAgain(before[keys[0] := fields[keys[0]]], fields, keys[1..])
  }

  lemma {:induction false} SetAgainAt(before: Fields, fields: Fields, keys: seq<string>, k: string)
    requires forall k :: k in keys ==> k in fields
    ensures k in SetAgain(before, fields, keys) <==> k in before || k in keys
    ensures k in keys ==> SetAgain(before, fields, keys)[k] == fields[k]
    ensures k in before && k !in keys ==> SetAgain(before, fields, keys)[k] == before[k]
    decreases |keys|
  {
    if keys != [] {
      SetAgainAt(before[keys[0] := fields[keys[0]]], fields, keys[1..], k);
      if k == keys[0] && k !in keys[1..] {
        assert k in before[keys[0] := fields[keys[0]]];
      }
    }
  }

  function TrimAll(fields: Fields): Fields { map k | k in fields :: Trim(fields[k]) }

  lemma {:induction false} IngestPrinted(fields: Fields, keys: seq<string>, tail: string, rest: string, last: string,
                                         before: Fields)
    requires Plain(fields) && (forall k :: k in keys ==> k in fields) && tail == "\r\n" + rest
    ensures Ingest(Print(fields, keys) + tail, last, before) == (SetAgain(before, TrimAll(fields), keys), rest)
    decreases |keys|
  {
    if keys == [] {
      IngestBlank(rest, last, before);
      assert Print(fields, keys) + tail == tail;
    } else {
      var k, v := keys[0], fields[keys[0]];
      var more := Print(fields, keys[1..]);
      assert Print(fields, keys) + tail == PrintField(k, v) + (more + tail);
      IngestField(k, v, more + tail, last, before);
      IngestPrinted(fields, keys[1..], tail, rest, k, before[k := Trim(v)]);
    }
  }

  lemma SetAllAgain(fields: Fields, keys: seq<string>)
    requires forall k :: k in keys <==> k in fields
    ensures SetAgain(map[], fields, keys) == fields
  {
    var again := SetAgain(map[], fields, keys);
    forall k ensures (k in again <==> k in fields) && (k in fields ==> again[k] == fields[k]) {
      SetAgainAt(map[], fields, keys, k);
    }
  }

  /** Whatever the order of the keys, reading the printed fields and a blank line gives the fields back, each value
      without the white space around it. */
  lemma ReadBack(fields: Fields, keys: seq<string>, rest: string)
    requires Plain(fields) && forall k :: k in keys <==> k in fields
    ensures Ingest(Print(fields, keys) + ("\r\n" + rest), "", map[]) == (TrimAll(fields), rest)
  {
    IngestPrinted(fields, keys, "\r\n" + rest, rest, "", map[]);
    SetAllAgain(TrimAll(fields), keys);
  }

  /** So they come back unchanged exactly if they are canonical. */
  lemma ReadBackExactly(fields: Fields, keys: seq<string>, rest: string)
    requires Plain(fields) && forall k :: k in keys <==> k in fields
    ensures Ingest(Print(fields, keys) + ("\r\n" + rest), "", map[]) == (fields, rest) <==> Canonical(fields)
  {
    ReadBack(fields, keys, rest);
    forall k | k in fields ensures Trim(fields[k]) == fields[k] <==> Trimmed(fields[k]) {
      TrimIsTrimmed(fields[k], '\n');
    }
    if TrimAll(fields) == fields {
      assert forall k :: k in fields ==> TrimAll(fields)[k] == fields[k];
    }
  }

  lemma HeaderRoundTrip(fields: Fields, keys: seq<string>, rest: string)
    requires Canonical(fields) && forall k :: k in keys <==> k in fields
    ensures Ingest(Print(fields, keys) + ("\r\n" + rest), "", map[]) == (fields, rest)
  {
    ReadBackExactly(fields, keys, rest);
  }

  // ---------------------------------------------------------------- which fields can be read back

  lemma {:induction false} LowerAt(s: string, i: nat)
    requires i < |s|
    ensures ToLower(s)[i] == LowerChar(s[i])
  {
    if i > 0 {
      LowerAt(s[1..], i - 1);
    }
  }

  lemma LowerKeepsName(name: string)
    requires Trimmed(name) && ':' !in name && '\n' !in name
    ensures CanonicalName(ToLower(name))
  {
    ToLowerIsLower(name);
    forall i | 0 <= i < |name| ensures ToLower(name)[i] == LowerChar(name[i]) {
      LowerAt(name, i);
    }
  }

  /** One line keeps the fields canonical exactly if it does not extend an empty value, or one that is not there: the
      space in front of the extension would then be the start of the value. */
  lemma LineKeepsCanonical(line: string, name: string, fields: Fields)
    requires line != [] && RTrim(line) == line && '\n' !in line && Canonical(fields)
    requires Trimmed(name) && ':' !in name && '\n' !in name
    ensures var (name', fields') := AfterLine(line, name, fields);
            && Trimmed(name') && ':' !in name' && '\n' !in name'
            && (Canonical(fields') <==> !(line[0] == ' ' && Lookup(fields, name) == []))
  {
    if line[0] == ' ' {
      ExtensionKeepsCanonical(line, name, fields);
    } else {
      var (text, after) := GetLine(line, ':');
      LineHasNoDelim(line, ':');
      TrimIsTrimmed(text, ':');
      TrimIsTrimmed(text, '\n');
      LowerKeepsName(Trim(text));
      LineHasNoDelim(after, '\n');
      TrimIsTrimmed(GetLine(after, '\n').0, '\n');
    }
  }

  lemma ExtensionKeepsCanonical(line: string, name: string, fields: Fields)
    requires line != [] && RTrim(line) == line && '\n' !in line && Canonical(fields) && line[0] == ' '
    requires Trimmed(name) && ':' !in name && '\n' !in name
    ensures Canonical(fields[ToLower(name) := Lookup(fields, name) + " " + Trim(line)]) <==> Lookup(fields, name) != []
  {
    var key, start, more := ToLower(name), Lookup(fields, name), Trim(line);
    var value := start + " " + more;
    LowerKeepsName(name);
    TrimIsTrimmed(line, '\n');
    LTrimKeepsEnd(line, '\n');
    LTrimNotAll(line);
    assert value[|value| - 1] == more[|more| - 1];
    if start == [] {
      assert value[0] == ' ' && !CanonicalField(key, value);
      assert fields[key := value][key] == value;
    } else {
      assert value[0] == start[0];
      assert CanonicalField(key, value);
    }
  }

  lemma {:induction false} LTrimNotAll(s: string)
    requires s != [] && !IsSpace(s[|s| - 1])
    ensures LTrim(s) != []
  {
    if IsSpace(s[0]) {
      LTrimNotAll(s[1..]);
    }
  }

  /** What every line leaves behind: no white space at the end of a value, and at its start only for the names in
      `spaced`. */
  ghost predicate FieldsOk(fields: Fields, spaced: set<string>) {
    && spaced <= fields.Keys
    && forall k :: k in fields ==>
         PlainField(k, fields[k]) && RTrim(fields[k]) == fields[k] && (k in spaced <==> !Trimmed(fields[k]))
  }

  predicate NameOk(name: string) { Trimmed(name) && ':' !in name && '\n' !in name }

  /** The names whose value starts with the space of a continuation. A line that extends a value that is empty or
      missing adds one, a line that sets the value removes it. */
  function SpacedAfter(line: string, name: string, fields: Fields, spaced: set<string>): set<string>
    requires line != []
  {
    if line[0] != ' ' then spaced - {ToLower(AfterLine(line, name, fields).0)}
    else if Lookup(fields, name) == [] then spaced + {ToLower(name)}
    else spaced
  }

  function Spaced(s: string, name: string, fields: Fields, spaced: set<string>): set<string>
    decreases |s|
  {
    var (line, rest) := GetLine(s, '\n');
    if RTrim(line) == [] then spaced
    else
      var (name', fields') := AfterLine(RTrim(line), name, fields);
      Spaced(rest, name', fields', SpacedAfter(RTrim(line), name, fields, spaced))
  }

  lemma ExtendedValue(start: string, more: string)
    requires RTrim(start) == start && Trimmed(more) && more != []
    ensures var value := start + " " + more;
            RTrim(value) == value && (Trimmed(value) <==> start != [] && Trimmed(start))
  {
    var value := start + " " + more;
    assert value[|value| - 1] == more[|more| - 1];
    assert value[0] == if start == [] then ' ' else start[0];
  }

  lemma ExtensionKeepsFields(line: string, name: string, fields: Fields, spaced: set<string>)
    requires line != [] && RTrim(line) == line && '\n' !in line && FieldsOk(fields, spaced) && NameOk(name)
    requires line[0] == ' '
    ensures FieldsOk(AfterLine(line, name, fields).1, SpacedAfter(line, name, fields, spaced))
  {
    LowerKeepsName(name);
    TrimIsTrimmed(line, '\n');
    LTrimNotAll(line);
    ExtendedValue(Lookup(fields, name), Trim(line));
  }

  lemma FieldKeepsFields(line: string, name: string, fields: Fields, spaced: set<string>)
    requires line != [] && '\n' !in line && FieldsOk(fields, spaced) && line[0] != ' '
    ensures var (name', fields') := AfterLine(line, name, fields);
            NameOk(name') && FieldsOk(fields', SpacedAfter(line, name, fields, spaced))
  {
    var (text, after) := GetLine(line, ':');
    var value := GetLine(after, '\n').0;
    LineHasNoDelim(line, ':');
    TrimIsTrimmed(text, ':');
    TrimIsTrimmed(text, '\n');
    LowerKeepsName(Trim(text));
    LineHasNoDelim(after, '\n');
    TrimIsTrimmed(value, '\n');
    TrimOfTrimmed(Trim(value));
  }

  lemma {:induction false} IngestKeepsFields(s: string, name: string, fields: Fields, spaced: set<string>)
    requires FieldsOk(fields, spaced) && NameOk(name)
    ensures FieldsOk(Ingest(s, name, fields).0, Spaced(s, name, fields, spaced))
    decreases |s|
  {
    var (line, rest) := GetLine(s, '\n');
    var r := RTrim(line);
    if r != [] {
      LineHasNoDelim(s, '\n');
      RTrimTwice(line);
      if r[0] == ' ' {
        ExtensionKeepsFields(r, name, fields, spaced);
      } else {
        FieldKeepsFields(r, name, fields, spaced);
      }
      var (name', fields') := AfterLine(r, name, fields);
      IngestKeepsFields(rest, name', fields', SpacedAfter(r, name, fields, spaced));
    }
  }

  /** Whatever the text, the fields that are read from it are canonical exactly if no value is left that started as the
      extension of an empty or missing one. */
  lemma IngestIsCanonical(s: string)
    ensures Plain(Ingest(s, "", map[]).0)
    ensures Canonical(Ingest(s, "", map[]).0) <==> Spaced(s, "", map[], {}) == {}
  {
    IngestKeepsFields(s, "", map[], {});
    var fields, spaced := Ingest(s, "", map[]).0, Spaced(s, "", map[], {});
    if k :| k in spaced {
      assert k in fields && !CanonicalField(k, fields[k]);
    }
  }

  /** Exactly then can they be printed, in any order, and read back unchanged. */
  lemma IngestedReadBackExactly(s: string, keys: seq<string>, rest: string)
    requires forall k :: k in keys <==> k in Ingest(s, "", map[]).0
    ensures var fields := Ingest(s, "", map[]).0;
            Plain(fields)
            && (Ingest(Print(fields, keys) + ("\r\n" + rest), "", map[]) == (fields, rest)
                <==> Spaced(s, "", map[], {}) == {})
  {
    IngestIsCanonical(s);
    ReadBackExactly(Ingest(s, "", map[]).0, keys, rest);
  }

  lemma SpacedValue(more: string)
    requires Trimmed(more) && more != []
    ensures RTrim(" " + more) == " " + more && Trim(" " + more) == more
  {
    assert (" " + more)[|" " + more| - 1] == more[|more| - 1];
    LTrimSpaces(" ", more);
  }

  lemma IngestEmptyField(name: string, rest: string, fields: Fields)
    requires CanonicalName(name)
    ensures Ingest(name + ":" + "\r\n" + rest, "", fields) == Ingest(rest, name, fields[name := ""])
  {
    var line := name + ":";
    assert line[|line| - 1] == ':';
    PlainLine(line, rest, "", fields);
    PrintedField(name, "", "", fields);
  }

  /** A continuation line joins what it says to the value, with one space between. */
  lemma IngestContinuation(name: string, more: string, rest: string, fields: Fields, joined: string)
    requires CanonicalName(name) && Trimmed(more) && more != [] && '\n' !in more
    requires joined == ValueAt(fields, name) + " " + more
    ensures Ingest(" " + more + "\r\n" + rest, name, fields) == Ingest(rest, name, fields[name := joined])
  {
    SpacedValue(more);
    ToLowerOfLower(name);
    PlainLine(" " + more, rest, name, fields);
  }

  lemma NothingInFront(more: string)
    ensures " " + more == "" + " " + more
  {
  }

  lemma IngestContinued(name: string, more: string, rest: string, second: string, fields: Fields)
    requires CanonicalName(name) && Trimmed(more) && more != [] && '\n' !in more
    requires second == " " + more + "\r\n" + rest
    ensures Ingest(name + ":" + "\r\n" + second, "", fields)
            == Ingest(rest, name, fields[name := ""][name := " " + more])
  {
    IngestEmptyField(name, second, fields);
    NothingInFront(more);
    IngestContinuation(name, more, rest, fields[name := ""], " " + more);
  }

  /** A field that is empty on its own line and continued on the next is read with a space in front of its value. */
  lemma SpaceIsRead(name: string, more: string, rest: string, second: string, blank: string)
    requires CanonicalName(name) && Trimmed(more) && more != [] && '\n' !in more
    requires second == " " + more + "\r\n" + blank && blank == "\r\n" + rest
    ensures Ingest(name + ":" + "\r\n" + second, "", map[]) == (map[][name := ""][name := " " + more], rest)
  {
    IngestContinued(name, more, blank, second, map[]);
    IngestBlank(rest, name, map[][name := ""][name := " " + more]);
  }

  lemma TrimSpaced(name: string, more: string, spaced: Fields)
    requires Trimmed(more) && more != [] && spaced == map[][name := ""][name := " " + more]
    ensures TrimAll(spaced) == map[][name := more] && TrimAll(spaced) != spaced
  {
    SpacedValue(more);
    assert TrimAll(spaced)[name] == more && spaced[name] == " " + more;
  }

  /** The space is lost when the field is printed and read back. */
  lemma SpaceIsLost(name: string, more: string, rest: string, spaced: Fields, lost: Fields)
    requires CanonicalName(name) && Trimmed(more) && more != [] && '\n' !in more
    requires spaced == map[][name := ""][name := " " + more] && lost == map[][name := more]
    ensures Ingest(Print(spaced, [name]) + ("\r\n" + rest), "", map[]) == (lost, rest) && lost != spaced
  {
    TrimSpaced(name, more, spaced);
    ReadBack(spaced, [name], rest);
  }

  /** A line that ends in CR LF. */
  lemma PlainLine(line: string, rest: string, name: string, fields: Fields)
    requires line != [] && RTrim(line) == line && '\n' !in line
    ensures var (name', fields') := AfterLine(line, name, fields);
            Ingest(line + "\r\n" + rest, name, fields) == Ingest(rest, name', fields')
  {
    assert line + "\r\n" + rest == (line + "\r") + ['\n'] + rest;
    GetLineOf(line + "\r", '\n', rest);
    RTrimSpaces(line, "\r");
  }

  lemma RTrimTwice(s: string)
    ensures RTrim(RTrim(s)) == RTrim(s) && ('\n' !in s ==> '\n' !in RTrim(s))
  {
  }

  // ---------------------------------------------------------------- the class

  class Header {
    var headers: Fields

    constructor ()
      ensures headers == map[]
    {
      headers := map[];
    }

    method AddHeader(name: string, value: string)
      modifies this
      ensures headers == old(headers)[ToLower(name) := value] && Lookup(headers, name) == value
      ensures forall other :: ToLower(other) != ToLower(name) ==> Lookup(headers, other) == Lookup(old(headers), other)
    {
      headers := headers[ToLower(name) := value];
    }

    method AddNumber(name: string, value: int)
      modifies this
      ensures headers == old(headers)[ToLower(name) := Decimal(value)] && Lookup(headers, name) == Decimal(value)
      ensures forall other :: ToLower(other) != ToLower(name) ==> Lookup(headers, other) == Lookup(old(headers), other)
    {
      AddHeader(name, Decimal(value));
    }

    method RemoveHeader(name: string)
      modifies this
      ensures headers == old(headers) - {ToLower(name)} && Lookup(headers, name) == ""
      ensures forall other :: ToLower(other) != ToLower(name) ==> Lookup(headers, other) == Lookup(old(headers), other)
    {
      headers := headers - {ToLower(name)};
    }

    method ContainsName(name: string) returns (found: bool)
      ensures found <==> ToLower(name) in headers
    {
      found := ToLower(name) in headers;
    }

    method GetValueAsString(name: string) returns (value: string)
      ensures value == Lookup(headers, name)
    {
      value := if ToLower(name) in headers then headers[ToLower(name)] else "";
    }

    method GetValueAsNumber(name: string) returns (number: int)
      ensures number == NumberOf(Lookup(headers, name))
    {
      var value := GetValueAsString(name);
      if value == [] {
        return 0;
      }
      number := NumberOf(value);
    }

    method ExtendHeader(name: string, value: string)
      modifies this
      ensures headers == old(headers)[ToLower(name) := Lookup(old(headers), name) + " " + value]
    {
      var before := GetValueAsString(name);
      headers := headers[ToLower(name) := before + " " + value];
    }

    method IngestHeader(instream: IStream)
      modifies this, instream
      ensures (headers, instream.rest) == Ingest(old(instream.rest), "", old(headers))
    {
      var name := "";
      while true
        invariant Ingest(instream.rest, name, headers) == Ingest(old(instream.rest), "", old(headers))
        decreases |instream.rest|
      {
        var line := instream.NextLine();
        line := RTrim(line);
        if line == [] {
          break;
        }
        if line[0] == ' ' {
          line := Trim(line);
          ExtendHeader(name, line);
        } else {
          var (text, after) := GetLine(line, ':');
          name := Trim(text);
          var value := Trim(GetLine(after, '\n').0);
          AddHeader(name, value);
        }
      }
    }

    /** operator<<, with the keys in the order in which the map enumerates them. */
    method Publish(keys: seq<string>) returns (text: string)
      requires forall k :: k in keys ==> k in headers
      ensures text == Print(headers, keys)
    {
      text := [];
      var i := 0;
      assert keys[0..] == keys;
      while i < |keys|
        invariant i <= |keys| && text + Print(headers, keys[i..]) == Print(headers, keys)
      {
        assert keys[i..][1..] == keys[i + 1..] && keys[i..][0] == keys[i];
        text := text + PrintField(keys[i], headers[keys[i]]);
        i := i + 1;
      }
      assert keys[i..] == [];
    }
  }
}
