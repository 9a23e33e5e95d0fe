/** Formatted extraction from a `std::istringstream` built over one line:
    `stream >> word` for a `std::string` and `stream >> number` for a `long`.
    A stream is the text it has not consumed yet and its failbit; once the
    failbit is set every further extraction fails and leaves its target
    alone. */
module InputStream {
  import opened Wrappers
  import opened Text
  import opened Conversions

  datatype Stream = Stream(rest: string, failed: bool)

  /** `std::istringstream iss(line)`. */
  function Open(line: string): Stream {
    Stream(line, false)
  }

  /** What an extraction leaves in its target: a value it stored, or nothing
      (the variable keeps whatever it held, for a fresh local an
      indeterminate value). */
  datatype Extracted<T> = Stored(value: T) | Untouched

  /** The stream after one extraction, and what the target received. */
  datatype Extraction<T> = Extraction(stream: Stream, target: Extracted<T>)

  /** `stream >> word`: skip white space, then take the longest run of
      non-space characters. At the end of the text nothing is stored and the
      failbit is set. Successive extractions return the words of the text. */
  function ReadWord(st: Stream): (r: Extraction<string>)
    ensures r.target.Stored? <==> !st.failed && Words(st.rest) != []
    ensures r.target.Stored? ==> !r.stream.failed && r.target.value == Words(st.rest)[0]
    ensures r.target.Stored? ==> Words(r.stream.rest) == Words(st.rest)[1..]
    ensures r.target.Untouched? ==> r.stream.failed
  {
    if st.failed then Extraction(st, Untouched)
    else
      var t := SkipSpace(st.rest);
      if |t| == 0 then Extraction(Stream(t, true), Untouched)
      else
        var n := WordLength(t);
        Extraction(Stream(t[n..], false), Stored(t[..n]))
  }

  /** `stream >> number` for a `long`: skip white space, then read an
      optional sign and decimal digits. At the end of the text nothing is
      stored; when no digit follows, 0 is stored; when the number does not
      fit a `long`, `LONG_MAX` or `LONG_MIN` is stored. Each of these sets
      the failbit. A successful extraction reads exactly what `strtol` would
      and consumes at least one character. */
  function ReadLong(st: Stream): (r: Extraction<int>)
    ensures st.failed ==> r == Extraction(st, Untouched)
    ensures !st.failed && Words(st.rest) == [] ==> r.stream.failed && r.target.Untouched?
    ensures r.target.Stored? ==> InLongRange(r.target.value)
    ensures !r.stream.failed ==> r.target.Stored? && |r.stream.rest| < |st.rest|
    ensures !r.stream.failed ==> LeadingInteger(st.rest) == Some(Scanned(r.target.value, r.stream.rest))
  {
    if st.failed then Extraction(st, Untouched)
    else
      var t := SkipSpace(st.rest);
      if |t| == 0 then Extraction(Stream(t, true), Untouched)
      else
        match LeadingSigned(t)
        case None => Extraction(Stream(t, true), Stored(0))
        case Some(sc) =>
          if InLongRange(sc.value) then Extraction(Stream(sc.rest, false), Stored(sc.value))
          else Extraction(Stream(sc.rest, true), Stored(SaturateLong(sc.value)))
  }

  /** A word that does not start a number: 0 is stored and the failbit is
      set. */
  lemma {:induction false} ReadLongOfNonNumber(st: Stream)
    requires !st.failed && Words(st.rest) != [] && LeadingInteger(st.rest).None?
    ensures ReadLong(st) == Extraction(Stream(SkipSpace(st.rest), true), Stored(0))
  {
  }

  /** k successive `stream >> dummy` extractions into a string. */
  function SkipWords(st: Stream, k: nat): (r: Stream)
    decreases k
  {
    if k == 0 then st else SkipWords(ReadWord(st).stream, k - 1)
  }

  /** Skipping k words of a text that has at least k words leaves exactly
      the remaining words. */
  lemma {:induction false} SkipWordsOfWords(st: Stream, k: nat)
    requires !st.failed && |Words(st.rest)| >= k
    ensures !SkipWords(st, k).failed && Words(SkipWords(st, k).rest) == Words(st.rest)[k..]
    decreases k
  {
    if k > 0 {
      var ws := Words(st.rest);
      var next := ReadWord(st).stream;
      var j := k - 1;
      assert !next.failed && Words(next.rest) == ws[1..];
      SkipWordsOfWords(next, j);
      assert SkipWords(st, k) == SkipWords(next, j);
      DropDrop(ws, j);
    }
  }

  lemma {:induction false} DropDrop<X>(xs: seq<X>, j: nat)
    requires j < |xs|
    ensures xs[1..][j..] == xs[j + 1..]
  {
  }

  /** With fewer than k words the stream ends up failed. */
  lemma {:induction false} SkipWordsOfFewWords(st: Stream, k: nat)
    requires !st.failed ==> |Words(st.rest)| < k
    ensures SkipWords(st, k).failed
    decreases k
  {
    if k > 0 {
      var e := ReadWord(st);
      assert !e.stream.failed ==> |Words(e.stream.rest)| < k - 1 by {
        if !e.stream.failed {
          assert e.target.Stored?;
        }
      }
      SkipWordsOfFewWords(e.stream, k - 1);
    }
  }

  /** A word that is the decimal text of a `long` is extracted as that
      number, and the stream moves on to the next word. */
  lemma {:induction false} ReadLongOfWord(st: Stream, v: int)
    requires !st.failed && InLongRange(v)
    requires |Words(st.rest)| > 0 && Words(st.rest)[0] == IntToString(v)
    ensures ReadLong(st).target == Stored(v) && !ReadLong(st).stream.failed
    ensures Words(ReadLong(st).stream.rest) == Words(st.rest)[1..]
  {
    var t := SkipSpace(st.rest);
    var n := WordLength(t);
    var rest := t[n..];
    FirstWord(st.rest, t, n, rest);
    AfterWord(t, n, IntToString(v), rest);
    LeadingSignedOfIntToString(t, v, rest);
    ReadLongOfSigned(st, t, Scanned(v, rest));
  }

  /** The first word of a text and what follows it. */
  lemma {:induction false} FirstWord(s: string, t: string, n: nat, rest: string)
    requires Words(s) != []
    requires t == SkipSpace(s) && n == WordLength(t) && rest == t[n..]
    ensures |t| > 0 && Words(s) == [t[..n]] + Words(rest)
  {
  }

  /** A word followed by the rest of the text. */
  lemma {:induction false} AfterWord(t: string, n: nat, w: string, rest: string)
    requires n == WordLength(t) && w == t[..n] && rest == t[n..]
    ensures t == w + rest && (rest == [] || !IsDigit(rest[0]))
  {
  }

  /** A number that fits a `long` right after the white space is read
      without failure. */
  lemma {:induction false} ReadLongOfSigned(st: Stream, t: string, sc: Scanned)
    requires !st.failed && t == SkipSpace(st.rest) && |t| > 0
    requires LeadingSigned(t) == Some(sc) && InLongRange(sc.value)
    ensures ReadLong(st) == Extraction(Stream(sc.rest, false), Stored(sc.value))
  {
  }

  /** An extraction into a `long`, as a value: `ReadLong`, or any other
      reader that stores a value whenever it succeeds and then has consumed
      input. The reading loops below are stated for any such reader. */
  type Reader = Stream -> Extraction<int>

  ghost predicate Consumes(read: Reader) {
    forall st: Stream :: !read(st).stream.failed ==> read(st).target.Stored? && |read(st).stream.rest| < |st.rest|
  }

  lemma {:induction false} ReadLongConsumes()
    ensures Consumes(ReadLong)
  {
    forall st: Stream | !ReadLong(st).stream.failed
      ensures ReadLong(st).target.Stored? && |ReadLong(st).stream.rest| < |st.rest|
    {
    }
  }

  /** The values `while (stream >> number)` hands to its body: every
      extraction up to the first one that fails. */
  function LongsRead(st: Stream): (vs: seq<int>)
  {
    ReadLongConsumes();
    LongsReadWith(ReadLong, st)
  }

  function LongsReadWith(read: Reader, st: Stream): (vs: seq<int>)
    requires Consumes(read)
    decreases |st.rest|
  {
    var e := read(st);
    if e.stream.failed then [] else [e.target.value] + LongsReadWith(read, e.stream)
  }

  /** The loop reads back every word of a text made of `long` numerals. */
  lemma {:induction false} LongsReadOfNumerals(st: Stream, vs: seq<int>)
    requires !st.failed
    requires |Words(st.rest)| == |vs|
    requires forall i :: 0 <= i < |vs| ==> Words(st.rest)[i] == IntToString(vs[i]) && InLongRange(vs[i])
    ensures LongsRead(st) == vs
    decreases |vs|
  {
    var e := ReadLong(st);
    if |vs| > 0 {
      ReadLongOfWord(st, vs[0]);
      LongsReadOfNumerals(e.stream, vs[1..]);
      ConsTail(vs);
    }
  }

  /** k successive `stream >> number` extractions into fresh `long`
      variables, as in `stream >> a >> b >> c`: what each variable holds
      afterwards. */
  function Extractions(st: Stream, k: nat): (ts: seq<Extracted<int>>)
    ensures |ts| == k
  {
    ExtractionsWith(ReadLong, st, k)
  }

  function ExtractionsWith(read: Reader, st: Stream, k: nat): (ts: seq<Extracted<int>>)
    ensures |ts| == k
    decreases k
  {
    if k == 0 then []
    else
      var e := read(st);
      [e.target] + ExtractionsWith(read, e.stream, k - 1)
  }

  /** Every value stored. */
  function AllStored(vs: seq<int>): (ts: seq<Extracted<int>>)
    ensures |ts| == |vs|
  {
    if |vs| == 0 then [] else [Stored(vs[0])] + AllStored(vs[1..])
  }

  /** One successful extraction hands its value to the loop body and the
      loop goes on with the rest; a failed one ends the loop. */
  lemma {:induction false} LongsReadStep(st: Stream)
    ensures ReadLong(st).stream.failed ==> LongsRead(st) == []
    ensures !ReadLong(st).stream.failed ==> LongsRead(st) == [ReadLong(st).target.value] + LongsRead(ReadLong(st).stream)
  {
  }

  /** k extractions store the first k values the reading loop would see,
      when it sees that many. */
  lemma {:induction false} ExtractionsOfLongsRead(st: Stream, k: nat)
    requires |LongsRead(st)| >= k
    ensures Extractions(st, k) == AllStored(LongsRead(st)[..k])
  {
    ReadLongConsumes();
    ExtractionsOfLongsReadWith(ReadLong, st, k);
  }

  lemma {:induction false} ExtractionsOfLongsReadWith(read: Reader, st: Stream, k: nat)
    requires Consumes(read) && |LongsReadWith(read, st)| >= k
    ensures ExtractionsWith(read, st, k) == AllStored(LongsReadWith(read, st)[..k])
    decreases k
  {
    if k > 0 {
      var e := read(st);
      ExtractionsOfLongsReadWith(read, e.stream, k - 1);
      StoredCons(ExtractionsWith(read, st, k), ExtractionsWith(read, e.stream, k - 1),
                 LongsReadWith(read, st), LongsReadWith(read, e.stream), e.target.value, k);
    }
  }

  lemma {:induction false} StoredCons(stored: seq<Extracted<int>>, later: seq<Extracted<int>>, vs: seq<int>, rest: seq<int>, v: int, k: nat)
    requires k > 0 && stored == [Stored(v)] + later && vs == [v] + rest
    requires |rest| >= k - 1 && later == AllStored(rest[..k - 1])
    ensures stored == AllStored(vs[..k])
  {
    assert vs[..k][0] == v && vs[..k][1..] == rest[..k - 1];
  }

  /** Numerals at the front of the text are the first values the reading
      loop sees. */
  lemma {:induction false} LongsReadOfLeadingNumerals(st: Stream, vs: seq<int>)
    requires !st.failed
    requires |Words(st.rest)| >= |vs|
    requires forall i :: 0 <= i < |vs| ==> Words(st.rest)[i] == IntToString(vs[i]) && InLongRange(vs[i])
    ensures |LongsRead(st)| >= |vs| && LongsRead(st)[..|vs|] == vs
    decreases |vs|
  {
    if |vs| > 0 {
      var next := ReadLong(st).stream;
      var tail := vs[1..];
      ReadLongOfWord(st, vs[0]);
      ShiftNumerals(Words(st.rest), Words(next.rest), vs, tail);
      LongsReadOfLeadingNumerals(next, tail);
      LongsReadStep(st);
      PrefixCons(vs[0], LongsRead(next), tail, LongsRead(st), vs);
    }
  }

  lemma {:induction false} ShiftNumerals(ws: seq<string>, later: seq<string>, vs: seq<int>, tail: seq<int>)
    requires |vs| > 0 && tail == vs[1..] && |ws| > 0 && later == ws[1..] && |ws| >= |vs|
    requires forall i :: 0 <= i < |vs| ==> ws[i] == IntToString(vs[i]) && InLongRange(vs[i])
    ensures |later| >= |tail|
    ensures forall i :: 0 <= i < |tail| ==> later[i] == IntToString(tail[i]) && InLongRange(tail[i])
  {
    forall i | 0 <= i < |tail|
      ensures later[i] == IntToString(tail[i]) && InLongRange(tail[i])
    {
      assert later[i] == ws[i + 1] && tail[i] == vs[i + 1];
    }
  }

  lemma {:induction false} PrefixCons<X>(x: X, rest: seq<X>, tail: seq<X>, all: seq<X>, xs: seq<X>)
    requires all == [x] + rest && |rest| >= |tail| && rest[..|tail|] == tail
    requires |xs| > 0 && xs[0] == x && xs[1..] == tail
    ensures |all| >= |xs| && all[..|xs|] == xs
  {
    assert all[..|xs|] == [x] + rest[..|tail|];
  }

  /** As many extractions as there are numerals at the front of the text
      store every one of them. */
  lemma {:induction false} ExtractionsOfNumerals(st: Stream, vs: seq<int>)
    requires !st.failed && |Words(st.rest)| >= |vs|
    requires forall i :: 0 <= i < |vs| ==> Words(st.rest)[i] == IntToString(vs[i]) && InLongRange(vs[i])
    ensures Extractions(st, |vs|) == AllStored(vs)
  {
    LongsReadOfLeadingNumerals(st, vs);
    ExtractionsOfLongsRead(st, |vs|);
  }

  /** The decimal texts of a list of numbers, as `std::to_string` writes
      them. */
  function Numerals(vs: seq<int>): (ws: seq<string>)
    ensures |ws| == |vs|
  {
    seq(|vs|, i requires 0 <= i < |vs| => IntToString(vs[i]))
  }

  lemma {:induction false} NumeralsPointwise(vs: seq<int>)
    ensures forall i :: 0 <= i < |vs| ==> Numerals(vs)[i] == IntToString(vs[i])
  {
  }

  /** The decimal text of a number is one word. */
  lemma {:induction false} NumeralIsWord(i: int)
    ensures |IntToString(i)| > 0 && NoSpace(IntToString(i))
  {
    var s := IntToString(i);
    if i < 0 {
      assert forall k :: 1 <= k < |s| ==> s[k] == NatToString(-i)[k - 1];
    }
  }

  /** White space, then numerals separated by single spaces: its words are
      the numerals. */
  lemma {:induction false} WordsOfNumerals(pad: string, vs: seq<int>)
    requires AllSpaces(pad)
    ensures Words(pad + Join(Numerals(vs), ' ')) == Numerals(vs)
  {
    var ws := Numerals(vs);
    NumeralsPointwise(vs);
    forall i | 0 <= i < |ws|
      ensures |ws[i]| > 0 && NoSpace(ws[i])
    {
      NumeralIsWord(vs[i]);
    }
    WordsPadded(pad, Join(ws, ' '));
    WordsOfJoin(ws, ' ');
  }

  /** Reading a word that is the decimal text of a `long`, as `strtol` and
      `sscanf` do, gives that number and leaves the following words. */
  lemma {:induction false} LeadingIntegerOfWord(s: string, v: int) returns (rest: string)
    requires InLongRange(v)
    requires |Words(s)| > 0 && Words(s)[0] == IntToString(v)
    ensures LeadingInteger(s) == Some(Scanned(v, rest))
    ensures Words(rest) == Words(s)[1..]
  {
    ReadLongOfWord(Open(s), v);
    rest := ReadLong(Open(s)).stream.rest;
  }

  /** A text without words holds no number. */
  lemma {:induction false} LeadingIntegerOfBlank(s: string)
    requires Words(s) == []
    ensures LeadingInteger(s).None?
  {
    assert SkipSpace(s) == [];
  }
}
