/** What scanning a file is for: its words, cut every MAX_WORD_SIZE letters, each with the 1-based offset of its
    first letter (the tokenizer of assign2/scan.c on a flat byte string). */
module Words {
  import opened Basics
  import opened Disksim

  const MAX_WORD_SIZE := 64

  /** A word of the file: the 1-based offset of its first letter, and its length. */
  datatype Span = Span(offset: nat, length: nat)

  /** isalpha in the C locale. */
  predicate IsAlpha(ch: int) {
    65 <= ch <= 90 || 97 <= ch <= 122
  }

  /** The length of the run of letters at `from`, up to `limit`. */
  function RunLength(data: seq<Byte>, from: nat, limit: nat): (n: nat)
    requires from <= |data|
    ensures n <= limit && from + n <= |data|
    decreases limit
  {
    if limit == 0 || from == |data| || !IsAlpha(data[from]) then 0 else 1 + RunLength(data, from + 1, limit - 1)
  }

  lemma {:induction false} RunLengthIsRun(data: seq<Byte>, from: nat, limit: nat)
    requires from <= |data|
    ensures var n := RunLength(data, from, limit);
            && (forall k :: from <= k < from + n ==> IsAlpha(data[k]))
            && (n < limit && from + n < |data| ==> !IsAlpha(data[from + n]))
    decreases limit
  {
    if !(limit == 0 || from == |data| || !IsAlpha(data[from])) {
      RunLengthIsRun(data, from + 1, limit - 1);
    }
  }

  function Spans(data: seq<Byte>, from: nat): seq<Span>
    requires from <= |data|
    decreases |data| - from
  {
    if from == |data| then []
    else if !IsAlpha(data[from]) then Spans(data, from + 1)
    else
      var n := RunLength(data, from, MAX_WORD_SIZE);
      [Span(from + 1, n)] + Spans(data, from + n)
  }

  /** A byte that stands for a letter of the alphabet. */
  predicate Letter(b: Byte) { 'A' as int <= b <= 'Z' as int || 'a' as int <= b <= 'z' as int }

  /** The letters of the file from `from` on, in order. */
  function Letters(data: seq<Byte>, from: nat): seq<Byte>
    requires from <= |data|
    decreases |data| - from
  {
    if from == |data| then []
    else if Letter(data[from]) then [data[from]] + Letters(data, from + 1)
    else Letters(data, from + 1)
  }

  predicate Inside(data: seq<Byte>, s: Span) {
    1 <= s.offset && s.offset - 1 + s.length <= |data|
  }

  function WordOf(data: seq<Byte>, s: Span): seq<Byte> {
    if Inside(data, s) then data[s.offset - 1..s.offset - 1 + s.length] else []
  }

  function Concat(data: seq<Byte>, spans: seq<Span>): seq<Byte> {
    if spans == [] then [] else WordOf(data, spans[0]) + Concat(data, spans[1..])
  }

  /** A stretch of 1 to 64 letters that ends at a non-letter, at the end of the file or at the cut. */
  ghost predicate LetterRun(data: seq<Byte>, s: Span) {
    && Inside(data, s) && 1 <= s.length <= 64
    && (forall i :: s.offset - 1 <= i < s.offset - 1 + s.length ==> Letter(data[i]))
    && (s.offset - 1 + s.length == |data| || !Letter(data[s.offset - 1 + s.length]) || s.length == 64)
  }

  /** The word starts at the start of the file, after a non-letter, or where a word of 64 letters ended. */
  ghost predicate StartsAfterCut(data: seq<Byte>, spans: seq<Span>, k: nat)
    requires k < |spans|
  {
    var start := spans[k].offset - 1;
    && 0 <= start <= |data|
    && (start == 0 || !Letter(data[start - 1])
        || (k > 0 && spans[k - 1].length == 64 && spans[k - 1].offset - 1 + 64 == start))
  }

  /** The word that a letter at `from` starts, and the words that follow it. */
  lemma SpansAtLetter(data: seq<Byte>, from: nat, n: nat)
    requires from < |data| && IsAlpha(data[from]) && n == RunLength(data, from, MAX_WORD_SIZE)
    ensures from + n <= |data| && Spans(data, from) == [Span(from + 1, n)] + Spans(data, from + n)
  {
  }

  lemma FirstRun(data: seq<Byte>, from: nat, n: nat)
    requires from < |data| && IsAlpha(data[from]) && n == RunLength(data, from, MAX_WORD_SIZE)
    ensures n >= 1 && LetterRun(data, Span(from + 1, n))
    ensures from + n < |data| && IsAlpha(data[from + n]) ==> n == MAX_WORD_SIZE
  {
    RunLengthIsRun(data, from, MAX_WORD_SIZE);
  }

  lemma {:induction false} SpanIsRun(data: seq<Byte>, from: nat, k: nat)
    requires from <= |data| && k < |Spans(data, from)|
    ensures LetterRun(data, Spans(data, from)[k])
    decreases |data| - from
  {
    if !IsAlpha(data[from]) {
      SpanIsRun(data, from + 1, k);
    } else {
      var n := RunLength(data, from, MAX_WORD_SIZE);
      SpansAtLetter(data, from, n);
      FirstRun(data, from, n);
      if k > 0 {
        SpanIsRun(data, from + n, k - 1);
      }
    }
  }

  lemma {:induction false} SpanStarts(data: seq<Byte>, from: nat, k: nat)
    requires from <= |data| && k < |Spans(data, from)|
    ensures StartsAfterCut(data, Spans(data, from), k) || (k == 0 && Spans(data, from)[0].offset - 1 == from)
    decreases |data| - from
  {
    if !IsAlpha(data[from]) {
      SpanStarts(data, from + 1, k);
    } else {
      var n := RunLength(data, from, MAX_WORD_SIZE);
      SpansAtLetter(data, from, n);
      FirstRun(data, from, n);
      if k > 0 {
        SpanStarts(data, from + n, k - 1);
        SpanIsRun(data, from + n, k - 1);
        StartsAfterFirst(data, from, n, Spans(data, from + n), Spans(data, from), k);
      }
    }
  }

  lemma StartsAfterFirst(data: seq<Byte>, from: nat, n: nat, rest: seq<Span>, spans: seq<Span>, k: nat)
    requires from < |data| && IsAlpha(data[from]) && n == RunLength(data, from, MAX_WORD_SIZE)
    requires spans == [Span(from + 1, n)] + rest && 0 < k < |spans| && LetterRun(data, rest[k - 1])
    requires StartsAfterCut(data, rest, k - 1) || (k == 1 && rest[0].offset - 1 == from + n)
    ensures StartsAfterCut(data, spans, k)
  {
    RunLengthIsRun(data, from, MAX_WORD_SIZE);
    assert spans[k] == rest[k - 1] && (k > 1 ==> spans[k - 1] == rest[k - 2]);
  }

  lemma PrependToSlice(data: seq<Byte>, from: nat, n: nat, rest: seq<Byte>)
    requires n > 0 && from + n <= |data|
    ensures [data[from]] + (data[from + 1..from + n] + rest) == data[from..from + n] + rest
  {
  }

  lemma {:induction false} LettersOfRun(data: seq<Byte>, from: nat, n: nat)
    requires from + n <= |data| && forall k :: from <= k < from + n ==> IsAlpha(data[k])
    ensures Letters(data, from) == data[from..from + n] + Letters(data, from + n)
    decreases n
  {
    if n > 0 {
      LettersOfRun(data, from + 1, n - 1);
      PrependToSlice(data, from, n, Letters(data, from + n));
    }
  }

  lemma ConcatStep(data: seq<Byte>, from: nat, n: nat, spans: seq<Span>, rest: seq<Span>)
    requires from + n <= |data| && spans == [Span(from + 1, n)] + rest
    requires Letters(data, from) == data[from..from + n] + Letters(data, from + n)
    requires Concat(data, rest) == Letters(data, from + n)
    ensures Concat(data, spans) == Letters(data, from)
  {
    assert spans[1..] == rest;
  }

  lemma ConcatAtLetter(data: seq<Byte>, from: nat, n: nat, spans: seq<Span>, rest: seq<Span>)
    requires from < |data| && IsAlpha(data[from]) && n == RunLength(data, from, MAX_WORD_SIZE)
    requires spans == [Span(from + 1, n)] + rest && Concat(data, rest) == Letters(data, from + n)
    ensures Concat(data, spans) == Letters(data, from)
  {
    RunLengthIsRun(data, from, MAX_WORD_SIZE);
    LettersOfRun(data, from, n);
    ConcatStep(data, from, n, spans, rest);
  }

  lemma {:induction false} ConcatIsLetters(data: seq<Byte>, from: nat, spans: seq<Span>)
    requires from <= |data| && spans == Spans(data, from)
    ensures Concat(data, spans) == Letters(data, from)
    decreases |data| - from
  {
    if from < |data| {
      if !IsAlpha(data[from]) {
        ConcatIsLetters(data, from + 1, spans);
      } else {
        var n := RunLength(data, from, MAX_WORD_SIZE);
        SpansAtLetter(data, from, n);
        FirstRun(data, from, n);
        var rest := Spans(data, from + n);
        ConcatIsLetters(data, from + n, rest);
        ConcatAtLetter(data, from, n, spans, rest);
      }
    }
  }

  lemma SpansConcat(data: seq<Byte>, from: nat)
    requires from <= |data|
    ensures Concat(data, Spans(data, from)) == Letters(data, from)
  {
    ConcatIsLetters(data, from, Spans(data, from));
  }

  /** The words of a file are its maximal runs of letters, cut at full length, and in order they make up all its
      letters. */
  lemma WordsOfFile(data: seq<Byte>)
    ensures forall k :: 0 <= k < |Spans(data, 0)| ==>
              LetterRun(data, Spans(data, 0)[k]) && StartsAfterCut(data, Spans(data, 0), k)
    ensures Concat(data, Spans(data, 0)) == Letters(data, 0)
  {
    forall k | 0 <= k < |Spans(data, 0)|
      ensures LetterRun(data, Spans(data, 0)[k]) && StartsAfterCut(data, Spans(data, 0), k)
    {
      SpanIsRun(data, 0, k);
      SpanStarts(data, 0, k);
    }
    SpansConcat(data, 0);
  }
}
