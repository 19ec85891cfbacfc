/** String primitives of the C++ standard library as the server uses them:
    `find`, `rfind`, `find_first_of`, `find_first_not_of`, the `>>` word
    extraction, `std::getline`, and the decimal conversions `ftItos`, `atoi`
    and `stoul`. Strings are `seq<char>`; a missing position (`npos`) is `None`. */
module TextUtil {

  datatype Option<T> = None | Some(value: T)

  // ---------------------------------------------------------------------------
  // Searching

  /** `s.find(c, from)`: the first index at or after `from` holding `c`. */
  function FindChar(s: string, c: char, from: nat): (r: Option<nat>)
    decreases |s| - from
    ensures r.Some? ==> from <= r.value < |s| && s[r.value] == c
  {
    if from >= |s| then None
    else if s[from] == c then Some(from)
    else FindChar(s, c, from + 1)
  }

  /** `find` returns the first occurrence, and `npos` only when there is none. */
  lemma {:induction false} FindCharSpec(s: string, c: char, from: nat)
    ensures var r := FindChar(s, c, from);
      && (r.Some? ==> forall k :: from <= k < r.value ==> s[k] != c)
      && (r.None? ==> forall k :: from <= k < |s| ==> s[k] != c)
    decreases |s| - from
  {
    if from < |s| && s[from] != c {
      FindCharSpec(s, c, from + 1);
    }
  }

  /** `s.find_first_of(chars, from)`. */
  function FindIn(s: string, chars: set<char>, from: nat): (r: Option<nat>)
    decreases |s| - from
    ensures r.Some? ==> from <= r.value < |s| && s[r.value] in chars
  {
    if from >= |s| then None
    else if s[from] in chars then Some(from)
    else FindIn(s, chars, from + 1)
  }

  /** The first occurrence at or after `from` is the one `find` reports. */
  lemma FindCharAt(s: string, c: char, from: nat, e: nat)
    requires from <= e < |s| && s[e] == c
    requires forall k :: from <= k < e ==> s[k] != c
    ensures FindChar(s, c, from) == Some(e)
  {
    FindCharSpec(s, c, from);
  }

  lemma {:induction false} FindInSpec(s: string, chars: set<char>, from: nat)
    ensures var r := FindIn(s, chars, from);
      && (r.Some? ==> forall k :: from <= k < r.value ==> s[k] !in chars)
      && (r.None? ==> forall k :: from <= k < |s| ==> s[k] !in chars)
    decreases |s| - from
  {
    if from < |s| && s[from] !in chars {
      FindInSpec(s, chars, from + 1);
    }
  }

  /** `s.find_first_not_of(chars, from)`. */
  function FindNotIn(s: string, chars: set<char>, from: nat): (r: Option<nat>)
    decreases |s| - from
    ensures r.Some? ==> from <= r.value < |s| && s[r.value] !in chars
  {
    if from >= |s| then None
    else if s[from] !in chars then Some(from)
    else FindNotIn(s, chars, from + 1)
  }

  lemma {:induction false} FindNotInSpec(s: string, chars: set<char>, from: nat)
    ensures var r := FindNotIn(s, chars, from);
      && (r.Some? ==> forall k :: from <= k < r.value ==> s[k] in chars)
      && (r.None? ==> forall k :: from <= k < |s| ==> s[k] in chars)
    decreases |s| - from
  {
    if from < |s| && s[from] in chars {
      FindNotInSpec(s, chars, from + 1);
    }
  }

  /** `s.rfind(c)`: the last index holding `c`. */
  function RFindChar(s: string, c: char): (r: Option<nat>)
    ensures r.Some? ==> r.value < |s| && s[r.value] == c
    ensures r.Some? ==> forall k :: r.value < k < |s| ==> s[k] != c
    ensures r.None? ==> forall k :: 0 <= k < |s| ==> s[k] != c
  {
    if s == [] then None
    else if s[|s| - 1] == c then Some(|s| - 1)
    else RFindChar(s[..|s| - 1], c)
  }

  /** `pat` occurs in `s` starting at index `k`. */
  predicate IsAt(s: string, pat: string, k: nat)
  {
    k + |pat| <= |s| && s[k..k + |pat|] == pat
  }

  /** `s.find(pat, from)`: the first occurrence of `pat` at or after `from`. */
  function FindSub(s: string, pat: string, from: nat): (r: Option<nat>)
    decreases |s| - from
    ensures r.Some? ==> from <= r.value && IsAt(s, pat, r.value)
  {
    if from + |pat| > |s| then None
    else if s[from..from + |pat|] == pat then Some(from)
    else FindSub(s, pat, from + 1)
  }

  lemma {:induction false} FindSubSpec(s: string, pat: string, from: nat)
    ensures var r := FindSub(s, pat, from);
      && (r.Some? ==> forall k :: from <= k < r.value ==> !IsAt(s, pat, k))
      && (r.None? ==> forall k :: from <= k ==> !IsAt(s, pat, k))
    decreases |s| - from
  {
    if from + |pat| <= |s| && s[from..from + |pat|] != pat {
      FindSubSpec(s, pat, from + 1);
    }
  }

  /** `s.find(pat) != npos`. */
  predicate Contains(s: string, pat: string)
  {
    FindSub(s, pat, 0).Some?
  }

  lemma ContainsIff(s: string, pat: string)
    ensures Contains(s, pat) <==> exists k :: 0 <= k <= |s| && IsAt(s, pat, k)
  {
    if Contains(s, pat) {
      var k := FindSub(s, pat, 0).value;
      assert IsAt(s, pat, k);
    } else {
      FindSubSpec(s, pat, 0);
    }
  }

  // ---------------------------------------------------------------------------
  // Whitespace and `>>` word extraction

  /** `isspace` in the C locale: the set " \t\n\r\f\v". */
  const Spaces: set<char> := {' ', '\t', '\n', '\r', '\U{000C}', '\U{000B}'}

  predicate IsSpace(c: char)
  {
    c in Spaces
  }

  predicate NoSpace(s: string)
  {
    forall i :: 0 <= i < |s| ==> !IsSpace(s[i])
  }

  /** Length of the leading run of non-space characters. */
  function TokenLen(s: string): (n: nat)
    ensures n <= |s| && NoSpace(s[..n])
    ensures n < |s| ==> IsSpace(s[n])
  {
    if s == [] || IsSpace(s[0]) then 0
    else
      var m := TokenLen(s[1..]);
      assert s[..m + 1] == [s[0]] + s[1..][..m];
      m + 1
  }

  /** The words a sequence of `stream >> word` extractions yields: maximal
      runs of non-space characters, in order. */
  function Words(s: string): (r: seq<string>)
    decreases |s|
    ensures forall i :: 0 <= i < |r| ==> r[i] != [] && NoSpace(r[i])
  {
    if s == [] then []
    else if IsSpace(s[0]) then Words(s[1..])
    else
      var n := TokenLen(s);
      [s[..n]] + Words(s[n..])
  }

  /** The `i`-th extraction stores word `i` when there is one; otherwise the
      stream fails and the target keeps `dflt`. */
  function WordOr(ws: seq<string>, i: nat, dflt: string): string
  {
    if i < |ws| then ws[i] else dflt
  }

  /** A word followed by a space, then the rest: the word comes first. */
  lemma {:induction false} WordsCons(w: string, rest: string)
    requires w != [] && NoSpace(w)
    ensures Words(w + [' '] + rest) == [w] + Words(rest)
  {
    var s := w + [' '] + rest;
    assert s == w + ([' '] + rest);
    TokenLenOf(w, [' '] + rest);
    assert TokenLen(s) == |w|;
    assert s[..|w|] == w;
    assert s[|w|..] == [' '] + rest;
    assert ([' '] + rest)[1..] == rest;
  }

  /** The last word, with nothing after it. */
  lemma {:induction false} WordsSingle(w: string)
    requires w != [] && NoSpace(w)
    ensures Words(w) == [w]
  {
    TokenLenOf(w, []);
    assert w + [] == w;
    assert w[|w|..] == [];
  }

  lemma {:induction false} TokenLenOf(w: string, rest: string)
    requires NoSpace(w)
    requires rest == [] || IsSpace(rest[0])
    ensures TokenLen(w + rest) == |w|
    decreases |w|
  {
    if w == [] {
      assert w + rest == rest;
    } else {
      assert (w + rest)[1..] == w[1..] + rest;
      TokenLenOf(w[1..], rest);
    }
  }

  /** "A B C" with space-free, non-empty A, B and C splits into exactly those three words. */
  lemma ThreeWords(a: string, b: string, c: string)
    requires a != [] && NoSpace(a) && b != [] && NoSpace(b) && c != [] && NoSpace(c)
    ensures Words(a + " " + b + " " + c) == [a, b, c]
  {
    assert a + " " + b + " " + c == a + [' '] + (b + [' '] + c);
    WordsCons(a, b + [' '] + c);
    WordsCons(b, c);
    WordsSingle(c);
  }

  // ---------------------------------------------------------------------------
  // std::getline

  /** One successful `std::getline(stream, line, delim)`: the extracted text,
      the position after it (past the delimiter when there was one), and
      whether it stopped at the end of the input (the stream's eof bit). */
  datatype Line = Line(text: string, next: nat, hitEof: bool)

  /** `std::getline` on a stream reading `s` from `pos`. It fails (None) exactly
      when no character is left to extract. */
  function GetLine(s: string, pos: nat, delim: char): (r: Option<Line>)
    ensures r.None? <==> pos >= |s|
    ensures r.Some? ==> pos < r.value.next <= |s|
    ensures r.Some? ==> delim !in r.value.text
    ensures r.Some? && !r.value.hitEof ==> s[pos..r.value.next] == r.value.text + [delim]
    ensures r.Some? && r.value.hitEof ==> r.value.next == |s| && s[pos..] == r.value.text
  {
    if pos >= |s| then None
    else
      FindCharSpec(s, delim, pos);
      match FindChar(s, delim, pos)
      case Some(k) =>
        assert s[pos..k + 1] == s[pos..k] + [delim];
        Some(Line(s[pos..k], k + 1, false))
      case None => Some(Line(s[pos..], |s|, true))
  }

  /** Reading `a` off the front of what is left leaves `b`. */
  lemma SplitRest(s: string, pos: nat, a: string, b: string)
    requires pos <= |s| && s[pos..] == a + b
    ensures pos + |a| <= |s| && s[pos..pos + |a|] == a && s[pos + |a|..] == b
  {
    assert s[pos..pos + |a|] == s[pos..][..|a|];
    assert s[pos + |a|..] == s[pos..][|a|..];
  }

  /** What the loop `while (getline(ss, line)) { out += line; if (!ss.eof()) out += '\n'; }`
      collects from position `pos` on. */
  function RejoinedLines(s: string, pos: nat): string
    decreases |s| - pos
  {
    match GetLine(s, pos, '\n')
    case None => []
    case Some(l) => l.text + (if l.hitEof then [] else ['\n']) + RejoinedLines(s, l.next)
  }

  /** What one `getline` consumed, as a cut of the input. */
  lemma LineRest(s: string, pos: nat, l: Line)
    requires GetLine(s, pos, '\n') == Some(l)
    ensures !l.hitEof ==> s[pos..] == l.text + "\n" + s[l.next..] && s[l.next - 1] == '\n'
    ensures l.hitEof ==> l.next == |s| && s[pos..] == l.text && s[|s| - 1] != '\n'
  {
    if l.hitEof {
      assert s[|s| - 1] == s[pos..][|s| - 1 - pos] == l.text[|l.text| - 1];
    } else {
      assert s[pos..] == s[pos..l.next] + s[l.next..];
      assert s[l.next - 1] == s[pos..l.next][l.next - 1 - pos];
    }
  }

  /** That loop reproduces the rest of the input verbatim. */
  lemma {:induction false} RejoinedLinesIsRest(s: string, pos: nat)
    requires pos <= |s|
    ensures RejoinedLines(s, pos) == s[pos..]
    decreases |s| - pos
  {
    if pos < |s| {
      var l := GetLine(s, pos, '\n').value;
      RejoinedLinesIsRest(s, l.next);
      LineRest(s, pos, l);
    }
  }

  /** What the loop `while (getline(ss, line)) out += line + "\n";` collects. */
  function TerminatedLines(s: string, pos: nat): string
    decreases |s| - pos
  {
    match GetLine(s, pos, '\n')
    case None => []
    case Some(l) => l.text + "\n" + TerminatedLines(s, l.next)
  }

  /** That loop gives the rest of the input, plus one '\n' when the rest is
      non-empty and does not already end in '\n'. */
  lemma {:induction false} TerminatedLinesIsRest(s: string, pos: nat)
    requires pos <= |s|
    ensures TerminatedLines(s, pos) ==
            s[pos..] + (if pos < |s| && s[|s| - 1] != '\n' then "\n" else "")
    decreases |s| - pos
  {
    if pos < |s| {
      var l := GetLine(s, pos, '\n').value;
      TerminatedLinesIsRest(s, l.next);
      LineRest(s, pos, l);
      assert TerminatedLines(s, pos) == l.text + "\n" + TerminatedLines(s, l.next);
      if l.hitEof {
        assert TerminatedLines(s, l.next) == [];
      }
    }
  }

  // ---------------------------------------------------------------------------
  // Decimal numbers

  predicate IsDigit(c: char)
  {
    '0' <= c <= '9'
  }

  predicate AllDigits(s: string)
  {
    forall i :: 0 <= i < |s| ==> IsDigit(s[i])
  }

  function DigitChar(d: nat): (c: char)
    requires d < 10
    ensures IsDigit(c) && (c as int) - ('0' as int) == d
  {
    ('0' as int + d) as char
  }

  /** `ftItos` on a non-negative value: its shortest decimal spelling. */
  function Decimal(n: nat): (r: string)
    decreases n
    ensures r != [] && AllDigits(r)
    ensures |r| > 1 ==> r[0] != '0'
  {
    if n < 10 then [DigitChar(n)] else Decimal(n / 10) + [DigitChar(n % 10)]
  }

  /** The value of a string of decimal digits. */
  function DigitsValue(s: string): nat
    requires AllDigits(s)
  {
    if s == [] then 0
    else DigitsValue(s[..|s| - 1]) * 10 + ((s[|s| - 1] as int) - ('0' as int))
  }

  /** Appending a digit to a positive number appends its character. */
  lemma DecimalAppend(n: nat, d: nat)
    requires 0 < n && d < 10
    ensures Decimal(10 * n + d) == Decimal(n) + [DigitChar(d)]
  {
    assert (10 * n + d) / 10 == n && (10 * n + d) % 10 == d;
  }

  lemma {:induction false} DecimalValue(n: nat)
    ensures DigitsValue(Decimal(n)) == n
    decreases n
  {
    if n >= 10 {
      DecimalValue(n / 10);
      var d := Decimal(n);
      assert d[..|d| - 1] == Decimal(n / 10);
    }
  }

  /** Number of leading decimal digits. */
  function DigitRun(s: string): (n: nat)
    ensures n <= |s| && AllDigits(s[..n])
    ensures n < |s| ==> !IsDigit(s[n])
  {
    if s == [] || !IsDigit(s[0]) then 0
    else
      var m := DigitRun(s[1..]);
      assert s[..m + 1] == [s[0]] + s[1..][..m];
      m + 1
  }

  lemma {:induction false} DigitRunAll(s: string)
    requires AllDigits(s)
    ensures DigitRun(s) == |s|
    decreases |s|
  {
    if s != [] {
      DigitRunAll(s[1..]);
    }
  }

  /** Number of leading `isspace` characters. */
  function SpaceRun(s: string): (n: nat)
    ensures n <= |s|
    ensures forall i :: 0 <= i < n ==> IsSpace(s[i])
    ensures n < |s| ==> !IsSpace(s[n])
  {
    if s == [] || !IsSpace(s[0]) then 0 else SpaceRun(s[1..]) + 1
  }

  /** The optional sign after leading whitespace: -1, +1, and where the digits start. */
  function SignAndStart(s: string): (r: (int, nat))
    ensures r.0 == 1 || r.0 == -1
    ensures r.1 <= |s|
  {
    var i := SpaceRun(s);
    if i < |s| && s[i] == '-' then (-1, i + 1)
    else if i < |s| && s[i] == '+' then (1, i + 1)
    else (1, i)
  }

  /** C `atoi`: skip whitespace, read an optional sign and the longest run of
      digits; no digits gives 0. The value is not truncated to `int` width. */
  function Atoi(s: string): int
  {
    var (sign, start) := SignAndStart(s);
    var digits := s[start..][..DigitRun(s[start..])];
    sign * DigitsValue(digits)
  }

  /** `atoi` reads back what `ftItos` writes. */
  lemma AtoiDecimal(n: nat)
    ensures Atoi(Decimal(n)) == n
  {
    var d := Decimal(n);
    assert SpaceRun(d) == 0;
    assert SignAndStart(d) == (1, 0);
    DigitRunAll(d);
    assert d[0..] == d && d[..|d|] == d;
    DecimalValue(n);
  }

  /** `atoi` stops at the first character that is not a digit. */
  lemma {:induction false} AtoiStopsAtNonDigit(digits: string, rest: string)
    requires digits != [] && AllDigits(digits)
    requires rest == [] || !IsDigit(rest[0])
    ensures Atoi(digits + rest) == DigitsValue(digits)
  {
    var s := digits + rest;
    assert SpaceRun(s) == 0;
    assert SignAndStart(s) == (1, 0);
    assert s[0..] == s;
    DigitRunPrefix(digits, rest);
    assert s[..|digits|] == digits;
  }

  lemma {:induction false} DigitRunPrefix(digits: string, rest: string)
    requires AllDigits(digits)
    requires rest == [] || !IsDigit(rest[0])
    ensures DigitRun(digits + rest) == |digits|
    decreases |digits|
  {
    if digits == [] {
      assert digits + rest == rest;
    } else {
      assert (digits + rest)[1..] == digits[1..] + rest;
      DigitRunPrefix(digits[1..], rest);
    }
  }

  /** 2^64: the range of `unsigned long` on the platform the server targets. */
  const ULongModulus: nat := 0x1_0000_0000_0000_0000

  /** `std::stoul(s)` in base 10: skip whitespace, optional sign, at least one
      digit (otherwise it throws invalid_argument, None); a magnitude above
      ULONG_MAX throws out_of_range (None); a '-' sign negates modulo 2^64. */
  function Stoul(s: string): (r: Option<nat>)
    ensures r.Some? ==> r.value < ULongModulus
  {
    var (sign, start) := SignAndStart(s);
    var n := DigitRun(s[start..]);
    if n == 0 then None
    else
      var v := DigitsValue(s[start..][..n]);
      if v >= ULongModulus then None
      else if sign < 0 then Some((ULongModulus - v) % ULongModulus)
      else Some(v)
  }

  /** `stoul` throws on a value with no leading digits. */
  lemma StoulNeedsDigits(s: string)
    requires s == [] || (!IsDigit(s[0]) && !IsSpace(s[0]) && s[0] != '+' && s[0] != '-')
    ensures Stoul(s) == None
  {
    assert SignAndStart(s) == (1, 0);
    assert s[0..] == s;
  }

  /** `stoul` reads back what `ftItos` writes, for every `unsigned long`. */
  lemma StoulDecimal(n: nat)
    requires n < ULongModulus
    ensures Stoul(Decimal(n)) == Some(n)
  {
    var d := Decimal(n);
    assert SpaceRun(d) == 0;
    assert SignAndStart(d) == (1, 0);
    DigitRunAll(d);
    assert d[0..] == d && d[..|d|] == d;
    DecimalValue(n);
  }
}
