/** Character classes and the pieces of C and C++ string handling the monitor
    relies on: white-space skipping, decimal numbers, `std::to_string`,
    `std::string::find` and `substr`, splitting with `getline` and
    extracting white-space separated words. Strings stand for byte strings;
    every character is one byte of the file. */
module Text {
  import opened Wrappers

  /** `isspace` in the C locale: space, tab, newline, vertical tab, form feed
      and carriage return. */
  predicate IsSpace(c: char) {
    c == ' ' || '\t' <= c <= '\r'
  }

  predicate IsDigit(c: char) {
    '0' <= c <= '9'
  }

  /** The value of a decimal digit character (0 for any other character). */
  function DigitValue(c: char): (d: nat)
    ensures d < 10
  {
    if IsDigit(c) then c as int - '0' as int else 0
  }

  function DigitChar(d: nat): (c: char)
    requires d < 10
    ensures IsDigit(c) && DigitValue(c) == d
  {
    ('0' as int + d) as char
  }

  predicate AllDigits(s: string) {
    forall i :: 0 <= i < |s| ==> IsDigit(s[i])
  }

  predicate AllSpaces(s: string) {
    forall i :: 0 <= i < |s| ==> IsSpace(s[i])
  }

  predicate NoSpace(s: string) {
    forall i :: 0 <= i < |s| ==> !IsSpace(s[i])
  }

  /** `line.find(prefix) == 0`. */
  predicate StartsWith(s: string, prefix: string) {
    |prefix| <= |s| && s[..|prefix|] == prefix
  }

  /** The line a single `getline` reads from a file given as its lines:
      the first one, or "" when the file is empty. */
  function FirstLine(lines: seq<string>): string {
    if |lines| == 0 then "" else lines[0]
  }

  // ---------------------------------------------------------------------------
  // White space and decimal numbers
  // ---------------------------------------------------------------------------

  /** The length of the run of white space s starts with. */
  function SpaceRun(s: string): (k: nat)
    ensures k <= |s| && forall i :: 0 <= i < k ==> IsSpace(s[i])
    ensures k < |s| ==> !IsSpace(s[k])
  {
    if |s| > 0 && IsSpace(s[0]) then
      1 + SpaceRun(s[1..])
    else 0
  }

  /** The length of the run of decimal digits s starts with. */
  function DigitRun(s: string): (n: nat)
    ensures n <= |s| && forall i :: 0 <= i < n ==> IsDigit(s[i])
    ensures n < |s| ==> !IsDigit(s[n])
  {
    if |s| > 0 && IsDigit(s[0]) then
      1 + DigitRun(s[1..])
    else 0
  }

  /** The number a string of decimal digits denotes. */
  function DigitsValue(d: string): nat
  {
    if |d| == 0 then 0 else 10 * DigitsValue(d[..|d| - 1]) + DigitValue(d[|d| - 1])
  }

  /** The decimal digits of n, as `std::to_string` writes them: no leading
      zero, and reading them back gives n. */
  function NatToString(n: nat): (s: string)
    ensures |s| > 0 && AllDigits(s)
  {
    if n < 10 then [DigitChar(n)]
    else NatToString(n / 10) + [DigitChar(n % 10)]
  }

  /** Reading the digits back gives n. */
  lemma {:induction false} NatToStringValue(n: nat)
    ensures DigitsValue(NatToString(n)) == n
    decreases n
  {
    if n >= 10 {
      var p := NatToString(n / 10);
      var s := p + [DigitChar(n % 10)];
      NatToStringValue(n / 10);
      assert s[..|s| - 1] == p;
    }
  }

  /** `std::to_string` of a signed integer. */
  function IntToString(i: int): (s: string)
    ensures |s| > 0 && (IsDigit(s[0]) || s[0] == '-')
    ensures i >= 0 <==> IsDigit(s[0])
  {
    if i < 0 then "-" + NatToString(-i) else NatToString(i)
  }

  /** A number read from the front of a string, and what follows it. */
  datatype Scanned = Scanned(value: int, rest: string)

  /** The digits t starts with, read as a number, and what follows them. */
  function LeadingDigits(t: string): (r: Option<Scanned>)
    ensures r.Some? ==> |r.value.rest| < |t|
    ensures r.Some? ==> r.value.rest == [] || !IsDigit(r.value.rest[0])
    ensures r.Some? ==> r.value.value >= 0
  {
    var n := DigitRun(t);
    if n == 0 then None else Some(Scanned(DigitsValue(t[..n]), t[n..]))
  }

  /** An optional sign, then digits. */
  function LeadingSigned(t: string): (r: Option<Scanned>)
    ensures r.Some? ==> |r.value.rest| < |t|
    ensures r.Some? ==> r.value.rest == [] || !IsDigit(r.value.rest[0])
  {
    if |t| > 0 && (t[0] == '-' || t[0] == '+') then
      match LeadingDigits(t[1..])
      case None => None
      case Some(sc) => Some(Scanned(if t[0] == '-' then -sc.value else sc.value, sc.rest))
    else LeadingDigits(t)
  }

  /** The decimal number `strtol`, `sscanf("%ld")` and stream extraction read
      at the head of s: leading white space, an optional sign, then the
      longest run of digits. None when no digit follows (nothing converted). */
  function LeadingInteger(s: string): (r: Option<Scanned>)
    ensures r.Some? ==> |r.value.rest| < |s|
    ensures r.Some? ==> r.value.rest == [] || !IsDigit(r.value.rest[0])
  {
    LeadingSigned(s[SpaceRun(s)..])
  }

  lemma {:induction false} SpaceRunPadded(pad: string, s: string)
    requires AllSpaces(pad)
    ensures SpaceRun(pad + s) == |pad| + SpaceRun(s)
  {
    if |pad| > 0 {
      assert (pad + s)[1..] == pad[1..] + s;
      SpaceRunPadded(pad[1..], s);
    } else {
      assert pad + s == s;
    }
  }

  lemma {:induction false} DigitRunOfDigits(d: string, rest: string)
    requires AllDigits(d)
    requires rest == [] || !IsDigit(rest[0])
    ensures DigitRun(d + rest) == |d|
  {
    if |d| > 0 {
      assert (d + rest)[1..] == d[1..] + rest;
      DigitRunOfDigits(d[1..], rest);
    }
  }

  lemma {:induction false} LeadingDigitsOf(d: string, rest: string)
    requires |d| > 0 && AllDigits(d)
    requires rest == [] || !IsDigit(rest[0])
    ensures LeadingDigits(d + rest) == Some(Scanned(DigitsValue(d), rest))
  {
    DigitRunOfDigits(d, rest);
    assert (d + rest)[..|d|] == d;
    assert (d + rest)[|d|..] == rest;
  }

  lemma {:induction false} LeadingSignedNegative(t: string, sc: Scanned)
    requires |t| > 0 && t[0] == '-'
    requires LeadingDigits(t[1..]) == Some(sc)
    ensures LeadingSigned(t) == Some(Scanned(-sc.value, sc.rest))
  {
  }

  lemma {:induction false} LeadingSignedUnsigned(t: string)
    requires |t| > 0 && IsDigit(t[0])
    ensures LeadingSigned(t) == LeadingDigits(t)
  {
  }

  lemma {:induction false} LeadingIntegerPadded(s: string, pad: string, body: string)
    requires AllSpaces(pad)
    requires |body| > 0 && !IsSpace(body[0])
    requires s == pad + body
    ensures LeadingInteger(s) == LeadingSigned(body)
  {
    SpaceRunPadded(pad, body);
    assert SpaceRun(body) == 0;
    assert s[SpaceRun(s)..] == body;
  }

  /** Reading back what `std::to_string` wrote, after any white space and
      before anything that is not a digit, gives the same number: the
      decimal writer and the reader are inverses. */
  lemma {:induction false} LeadingIntegerOfIntToString(s: string, pad: string, i: int, rest: string)
    requires AllSpaces(pad)
    requires rest == [] || !IsDigit(rest[0])
    requires s == pad + IntToString(i) + rest
    ensures LeadingInteger(s) == Some(Scanned(i, rest))
  {
    var body := IntToString(i) + rest;
    assert s == pad + body;
    LeadingIntegerPadded(s, pad, body);
    LeadingSignedOfIntToString(body, i, rest);
  }

  /** A sign and digits read back what `std::to_string` wrote. */
  lemma {:induction false} LeadingSignedOfIntToString(body: string, i: int, rest: string)
    requires rest == [] || !IsDigit(rest[0])
    requires body == IntToString(i) + rest
    ensures LeadingSigned(body) == Some(Scanned(i, rest))
  {
    if i < 0 {
      LeadingSignedOfNegative(body, i, rest);
    } else {
      LeadingSignedOfNatural(body, i, rest);
    }
  }

  lemma {:induction false} LeadingSignedOfNegative(body: string, i: int, rest: string)
    requires i < 0
    requires rest == [] || !IsDigit(rest[0])
    requires body == IntToString(i) + rest
    ensures LeadingSigned(body) == Some(Scanned(i, rest))
  {
    var d := NatToString(-i);
    NatToStringValue(-i);
    IntToStringNegative(i);
    DropFirst(body, IntToString(i), d, rest);
    LeadingDigitsOf(d, rest);
    LeadingSignedNegative(body, Scanned(-i, rest));
  }

  lemma {:induction false} IntToStringNegative(i: int)
    requires i < 0
    ensures IntToString(i)[0] == '-' && IntToString(i)[1..] == NatToString(-i)
  {
  }

  lemma {:induction false} DropFirst(body: string, h: string, d: string, rest: string)
    requires |h| > 0 && h[1..] == d && body == h + rest
    ensures body[0] == h[0] && body[1..] == d + rest
  {
  }

  lemma {:induction false} LeadingSignedOfNatural(body: string, i: int, rest: string)
    requires i >= 0
    requires rest == [] || !IsDigit(rest[0])
    requires body == IntToString(i) + rest
    ensures LeadingSigned(body) == Some(Scanned(i, rest))
  {
    var d := NatToString(i);
    NatToStringValue(i);
    assert body == d + rest;
    LeadingDigitsOf(d, rest);
    LeadingSignedUnsigned(body);
  }

  // ---------------------------------------------------------------------------
  // find and substr
  // ---------------------------------------------------------------------------

  predicate OccursAt(s: string, pat: string, i: nat) {
    i + |pat| <= |s| && s[i..i + |pat|] == pat
  }

  function FindFrom(s: string, pat: string, k: nat): (r: Option<nat>)
    ensures r.Some? ==> k <= r.value && OccursAt(s, pat, r.value)
    ensures forall i: nat :: k <= i && (r.None? || i < r.value) ==> !OccursAt(s, pat, i)
    decreases |s| - k
  {
    if k + |pat| > |s| then None
    else if OccursAt(s, pat, k) then Some(k)
    else FindFrom(s, pat, k + 1)
  }

  /** `s.find(pat)`: the first position where pat occurs, None for `npos`. */
  function Find(s: string, pat: string): (r: Option<nat>)
    ensures r.Some? ==> OccursAt(s, pat, r.value)
    ensures forall i: nat :: (r.None? || i < r.value) ==> !OccursAt(s, pat, i)
  {
    FindFrom(s, pat, 0)
  }

  /** `s.substr(0, s.find(pat))`: the text before the first occurrence of
      pat, or all of s when pat does not occur (`npos` as a length). */
  function Before(s: string, pat: string): (r: string)
    ensures |r| <= |s| && r == s[..|r|]
    ensures Find(s, pat).None? ==> r == s
    ensures Find(s, pat).Some? ==> OccursAt(s, pat, |r|)
  {
    match Find(s, pat)
    case None => s
    case Some(i) => s[..i]
  }

  /** `s.find(pat) == 0` holds exactly when s starts with pat. */
  lemma {:induction false} FindAtStart(s: string, pat: string)
    ensures Find(s, pat) == Some(0) <==> StartsWith(s, pat)
  {
    if StartsWith(s, pat) {
      assert OccursAt(s, pat, 0);
    }
  }

  /** The text before pat is x when s starts with x and pat occurs first
      right after it. */
  lemma {:induction false} BeforeOccurrence(s: string, pat: string, x: string)
    requires StartsWith(s, x) && OccursAt(s, pat, |x|)
    requires forall i: nat :: i < |x| ==> !OccursAt(s, pat, i)
    ensures Before(s, pat) == x
  {
    assert Find(s, pat) == Some(|x|);
  }

  /** `s.substr(pos, len)`, where len None stands for `npos`: throws
      `out_of_range` exactly when pos is past the end, otherwise the at most
      len characters from pos. */
  function Substr(s: string, pos: nat, len: Option<nat>): (r: Result<string>)
    ensures r.Thrown? <==> pos > |s|
    ensures r.Ok? ==> pos + |r.value| <= |s| && r.value == s[pos..pos + |r.value|]
    ensures r.Ok? && len.None? ==> pos + |r.value| == |s|
    ensures r.Ok? && len.Some? ==> |r.value| == if pos + len.value <= |s| then len.value else |s| - pos
  {
    if pos > |s| then Thrown(OutOfRange)
    else match len
      case None => Ok(s[pos..])
      case Some(n) => Ok(if pos + n <= |s| then s[pos..pos + n] else s[pos..])
  }

  // ---------------------------------------------------------------------------
  // Splitting with getline and white-space words
  // ---------------------------------------------------------------------------

  /** The pieces of s between occurrences of sep (one more piece than there
      are separators). */
  function Split(s: string, sep: char): (parts: seq<string>)
    ensures |parts| > 0
    ensures forall i :: 0 <= i < |parts| ==> sep !in parts[i]
  {
    if |s| == 0 then [""]
    else
      var tail := Split(s[1..], sep);
      if s[0] == sep then [""] + tail
      else [[s[0]] + tail[0]] + tail[1..]
  }

  function Join(parts: seq<string>, sep: char): string {
    if |parts| == 0 then ""
    else if |parts| == 1 then parts[0]
    else parts[0] + [sep] + Join(parts[1..], sep)
  }

  lemma {:induction false} JoinSplit(s: string, sep: char)
    ensures Join(Split(s, sep), sep) == s
  {
    if |s| > 0 {
      var tail := Split(s[1..], sep);
      JoinSplit(s[1..], sep);
      if s[0] == sep {
        assert ([""] + tail)[1..] == tail;
      } else if |tail| > 1 {
        var parts := [[s[0]] + tail[0]] + tail[1..];
        assert parts[1..] == tail[1..];
        assert Join(tail, sep) == tail[0] + [sep] + Join(tail[1..], sep);
      }
    }
  }

  lemma {:induction false} SplitWithoutSeparator(s: string, sep: char)
    requires sep !in s
    ensures Split(s, sep) == [s]
  {
    if |s| > 0 {
      SplitWithoutSeparator(s[1..], sep);
      assert [s[0]] + s[1..] == s;
    }
  }

  lemma {:induction false} SplitAfterPiece(a: string, sep: char, b: string)
    requires sep !in a
    ensures Split(a + [sep] + b, sep) == [a] + Split(b, sep)
  {
    if |a| == 0 {
      assert a + [sep] + b == [sep] + b;
      assert ([sep] + b)[1..] == b;
    } else {
      assert (a + [sep] + b)[1..] == a[1..] + [sep] + b;
      SplitAfterPiece(a[1..], sep, b);
      assert [a[0]] + a[1..] == a;
    }
  }

  /** Splitting what Join wrote gives back the pieces, as long as no piece
      holds the separator. */
  lemma {:induction false} SplitJoin(parts: seq<string>, sep: char)
    requires |parts| > 0
    requires forall i :: 0 <= i < |parts| ==> sep !in parts[i]
    ensures Split(Join(parts, sep), sep) == parts
  {
    if |parts| == 1 {
      SplitWithoutSeparator(parts[0], sep);
    } else {
      SplitJoin(parts[1..], sep);
      SplitAfterPiece(parts[0], sep, Join(parts[1..], sep));
      assert [parts[0]] + parts[1..] == parts;
    }
  }

  lemma {:induction false} SplitLastPiece(s: string, sep: char)
    ensures var parts := Split(s, sep);
      parts[|parts| - 1] == "" <==> (|s| == 0 || s[|s| - 1] == sep)
  {
    if |s| > 0 {
      SplitLastPiece(s[1..], sep);
    }
  }

  lemma {:induction false} JoinSnoc(parts: seq<string>, last: string, sep: char)
    requires |parts| > 0
    ensures Join(parts + [last], sep) == Join(parts, sep) + [sep] + last
  {
    if |parts| > 1 {
      assert (parts + [last])[1..] == parts[1..] + [last];
      JoinSnoc(parts[1..], last, sep);
    }
  }

  /** The tokens `while (getline(stream, token, sep))` collects from a line:
      every sep ends a token, and the text after the last sep becomes a token
      only when it is not empty. Joining the tokens back gives the line, less
      one trailing separator. */
  function GetlineTokens(line: string, sep: char): (tokens: seq<string>)
    ensures forall i :: 0 <= i < |tokens| ==> sep !in tokens[i]
    ensures Join(tokens, sep) + (if |line| > 0 && line[|line| - 1] == sep then [sep] else []) == line
  {
    var parts := Split(line, sep);
    JoinSplit(line, sep);
    SplitLastPiece(line, sep);
    if parts[|parts| - 1] == "" then
      var tokens := parts[..|parts| - 1];
      assert parts == tokens + [""];
      if |tokens| > 0 then JoinSnoc(tokens, "", sep); tokens else tokens
    else parts
  }

  /** Tokenising a line that Join built from pieces without separators, the
      last of them not empty, gives back exactly those pieces. */
  lemma {:induction false} GetlineTokensOfJoin(parts: seq<string>, sep: char)
    requires |parts| > 0 && parts[|parts| - 1] != ""
    requires forall i :: 0 <= i < |parts| ==> sep !in parts[i]
    ensures GetlineTokens(Join(parts, sep), sep) == parts
  {
    SplitJoin(parts, sep);
  }

  /** The length of the run of non-space characters s starts with. */
  function WordLength(s: string): (n: nat)
    ensures n <= |s| && forall i :: 0 <= i < n ==> !IsSpace(s[i])
    ensures n < |s| ==> IsSpace(s[n])
  {
    if |s| > 0 && !IsSpace(s[0]) then
      1 + WordLength(s[1..])
    else 0
  }

  /** What is left of s after its leading white space. */
  function SkipSpace(s: string): (t: string)
    ensures |t| <= |s|
    ensures t == [] || !IsSpace(t[0])
  {
    s[SpaceRun(s)..]
  }

  lemma {:induction false} SkipSpacePadded(pad: string, s: string)
    requires AllSpaces(pad)
    ensures SkipSpace(pad + s) == SkipSpace(s)
  {
    SpaceRunPadded(pad, s);
    assert (pad + s)[|pad| + SpaceRun(s)..] == s[SpaceRun(s)..];
  }

  /** The words successive `stream >> word` extractions return: the maximal
      runs of non-space characters, in order. */
  function Words(s: string): (ws: seq<string>)
    decreases |s|
  {
    var t := SkipSpace(s);
    if |t| == 0 then []
    else
      var n := WordLength(t);
      [t[..n]] + Words(t[n..])
  }

  lemma {:induction false} WordLengthOfWord(w: string, rest: string)
    requires NoSpace(w)
    requires rest == [] || IsSpace(rest[0])
    ensures WordLength(w + rest) == |w|
  {
    if |w| > 0 {
      assert (w + rest)[1..] == w[1..] + rest;
      WordLengthOfWord(w[1..], rest);
    }
  }

  lemma {:induction false} WordsPadded(pad: string, s: string)
    requires AllSpaces(pad)
    ensures Words(pad + s) == Words(s)
  {
    SkipSpacePadded(pad, s);
  }

  /** The words of a word followed by white space (or nothing): that word,
      then the words of the rest. */
  lemma {:induction false} WordsCons(s: string, w: string, rest: string)
    requires |w| > 0 && NoSpace(w)
    requires rest == [] || IsSpace(rest[0])
    requires s == w + rest
    ensures Words(s) == [w] + Words(rest)
  {
    assert SpaceRun(s) == 0;
    assert SkipSpace(s) == s;
    WordLengthOfWord(w, rest);
    assert s[..|w|] == w;
    assert s[|w|..] == rest;
  }

  lemma {:induction false} WordsOfEmpty()
    ensures Words("") == []
  {
    assert SpaceRun("") == 0;
  }

  lemma {:induction false} WordsOfSingle(ws: seq<string>, sep: char)
    requires |ws| == 1 && |ws[0]| > 0 && NoSpace(ws[0])
    ensures Words(Join(ws, sep)) == ws
  {
    assert Join(ws, sep) == ws[0] + [];
    WordsCons(Join(ws, sep), ws[0], []);
    WordsOfEmpty();
    Singleton(ws);
  }

  lemma {:induction false} Singleton<X>(xs: seq<X>)
    requires |xs| == 1
    ensures [xs[0]] + [] == xs
  {
  }

  lemma {:induction false} WordsOfJoinStep(ws: seq<string>, sep: char)
    requires IsSpace(sep)
    requires |ws| > 1 && |ws[0]| > 0 && NoSpace(ws[0])
    requires Words(Join(ws[1..], sep)) == ws[1..]
    ensures Words(Join(ws, sep)) == ws
  {
    var tail := Join(ws[1..], sep);
    var rest := [sep] + tail;
    assert Join(ws, sep) == ws[0] + rest;
    WordsCons(Join(ws, sep), ws[0], rest);
    WordsPadded([sep], tail);
    ConsTail(ws);
  }

  lemma {:induction false} ConsTail<X>(xs: seq<X>)
    requires |xs| > 0
    ensures [xs[0]] + xs[1..] == xs
  {
  }

  /** Splitting words joined by a white-space separator into white-space
      words gives back the words. */
  lemma {:induction false} WordsOfJoin(ws: seq<string>, sep: char)
    requires IsSpace(sep)
    requires forall i :: 0 <= i < |ws| ==> |ws[i]| > 0 && NoSpace(ws[i])
    ensures Words(Join(ws, sep)) == ws
    decreases |ws|
  {
    if |ws| == 0 {
      WordsOfEmpty();
    } else if |ws| == 1 {
      WordsOfSingle(ws, sep);
    } else {
      WordsOfJoin(ws[1..], sep);
      WordsOfJoinStep(ws, sep);
    }
  }
}
