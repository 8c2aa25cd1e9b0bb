/** String helpers with the semantics of the Python and JavaScript built-ins the source calls:
    whitespace stripping and splitting, ASCII case mapping, substring tests, decimal digits. */
module Text {
  import Wrappers

  /** A character Python's `str.isspace` (and so `str.strip()` and the regex class `\s`) treats as whitespace. */
  predicate IsSpace(c: char) {
    var n := c as int;
    (9 <= n <= 13) || (28 <= n <= 32) || n == 0x85 || n == 0xA0 || n == 0x1680
    || (0x2000 <= n <= 0x200A) || n == 0x2028 || n == 0x2029 || n == 0x202F || n == 0x205F || n == 0x3000
  }

  predicate NoSpace(s: string) {
    forall i :: 0 <= i < |s| ==> !IsSpace(s[i])
  }

  /** The non-whitespace characters of s, in order. */
  function Visible(s: string): string {
    if s == [] then [] else (if IsSpace(s[0]) then [] else [s[0]]) + Visible(s[1..])
  }

  lemma {:induction false} VisibleAppend(a: string, b: string)
    ensures Visible(a + b) == Visible(a) + Visible(b)
  {
    if a != [] {
      assert (a + b)[0] == a[0];
      assert (a + b)[1..] == a[1..] + b;
      VisibleAppend(a[1..], b);
    } else {
      assert a + b == b;
    }
  }

  lemma {:induction false} VisibleOfNoSpace(s: string)
    requires NoSpace(s)
    ensures Visible(s) == s
  {
    if s != [] {
      VisibleOfNoSpace(s[1..]);
    }
  }

  lemma {:induction false} VisibleOfSpaces(s: string)
    requires forall i :: 0 <= i < |s| ==> IsSpace(s[i])
    ensures Visible(s) == []
  {
    if s != [] {
      VisibleOfSpaces(s[1..]);
    }
  }

  /** `s.lstrip()`: s without its leading whitespace. */
  function TrimStart(s: string): (r: string)
    ensures |r| <= |s| && r == s[|s| - |r|..]
    ensures forall i :: 0 <= i < |s| - |r| ==> IsSpace(s[i])
    ensures r == [] || !IsSpace(r[0])
  {
    if s != [] && IsSpace(s[0]) then TrimStart(s[1..]) else s
  }

  /** `s.rstrip()`: s without its trailing whitespace. */
  function TrimEnd(s: string): (r: string)
    ensures |r| <= |s| && r == s[..|r|]
    ensures forall i :: |r| <= i < |s| ==> IsSpace(s[i])
    ensures r == [] || !IsSpace(r[|r| - 1])
  {
    if s != [] && IsSpace(s[|s| - 1]) then TrimEnd(s[..|s| - 1]) else s
  }

  /** `s.strip()`. */
  function Strip(s: string): (r: string)
    ensures r == [] || (!IsSpace(r[0]) && !IsSpace(r[|r| - 1]))
  {
    TrimEnd(TrimStart(s))
  }

  /** Stripping removes whitespace only: the visible text is untouched. */
  lemma StripKeepsVisible(s: string)
    ensures Visible(Strip(s)) == Visible(s)
  {
    TrimStartKeepsVisible(s);
    TrimEndKeepsVisible(TrimStart(s));
  }

  lemma {:induction false} TrimStartKeepsVisible(s: string)
    ensures Visible(TrimStart(s)) == Visible(s)
  {
    if s != [] && IsSpace(s[0]) {
      TrimStartKeepsVisible(s[1..]);
    }
  }

  lemma {:induction false} TrimEndKeepsVisible(s: string)
    ensures Visible(TrimEnd(s)) == Visible(s)
  {
    if s != [] && IsSpace(s[|s| - 1]) {
      var init := s[..|s| - 1];
      assert s == init + [s[|s| - 1]];
      VisibleAppend(init, [s[|s| - 1]]);
      assert Visible([s[|s| - 1]]) == [];
      TrimEndKeepsVisible(init);
    }
  }

  /** A string that neither starts nor ends with whitespace is its own strip. */
  lemma StripOfTrimmed(s: string)
    requires s == [] || (!IsSpace(s[0]) && !IsSpace(s[|s| - 1]))
    ensures Strip(s) == s
  {
  }

  /** The longest prefix of s without whitespace. */
  function Word(s: string): (w: string)
    ensures |w| <= |s| && w == s[..|w|] && NoSpace(w)
    ensures |w| == |s| || IsSpace(s[|w|])
  {
    if s == [] || IsSpace(s[0]) then [] else [s[0]] + Word(s[1..])
  }

  /** The pieces `re.split(r'\s+', t)` returns: the text around each maximal run of whitespace
      (an empty piece before a leading run and after a trailing one). */
  function SplitRuns(t: string): (ps: seq<string>)
    ensures |ps| >= 1
    ensures forall k :: 0 <= k < |ps| ==> NoSpace(ps[k])
    decreases |t|
  {
    var w := Word(t);
    var rest := t[|w|..];
    if rest == [] then [w]
    else
      assert IsSpace(rest[0]);
      [w] + SplitRuns(TrimStart(rest))
  }

  /** The concatenation of a list of strings. */
  function Concat(ps: seq<string>): string {
    if ps == [] then [] else ps[0] + Concat(ps[1..])
  }

  /** `sep.join(ps)`. */
  function Join(ps: seq<string>, sep: string): string {
    if ps == [] then []
    else if |ps| == 1 then ps[0]
    else ps[0] + sep + Join(ps[1..], sep)
  }

  /** The non-empty entries of ps, in order (`[p for p in ps if p]`). */
  function NonEmpty(ps: seq<string>): (r: seq<string>)
    ensures forall k :: 0 <= k < |r| ==> r[k] != [] && r[k] in ps
    ensures Concat(r) == Concat(ps)
  {
    if ps == [] then []
    else if ps[0] == [] then NonEmpty(ps[1..])
    else [ps[0]] + NonEmpty(ps[1..])
  }

  /** Splitting on whitespace runs loses only the whitespace. */
  lemma {:induction false} SplitRunsKeepsVisible(t: string)
    ensures Concat(SplitRuns(t)) == Visible(t)
    decreases |t|
  {
    var rest := t[|Word(t)|..];
    if rest != [] {
      SplitRunsKeepsVisible(TrimStart(rest));
      KeepsVisibleAfterGap(t);
    } else {
      KeepsVisibleWord(t);
    }
  }

  /** The step of `SplitRunsKeepsVisible` when a gap follows the first word. */
  lemma KeepsVisibleAfterGap(t: string)
    requires t[|Word(t)|..] != []
    requires Concat(SplitRuns(TrimStart(t[|Word(t)|..]))) == Visible(TrimStart(t[|Word(t)|..]))
    ensures Concat(SplitRuns(t)) == Visible(t)
  {
    var w := Word(t);
    var u := TrimStart(t[|w|..]);
    VisibleAfterWord(t);
    assert SplitRuns(t) == [w] + SplitRuns(u);
    ConcatCons(w, SplitRuns(u));
  }

  /** The step of `SplitRunsKeepsVisible` when the first word is all of `t`. */
  lemma KeepsVisibleWord(t: string)
    requires t[|Word(t)|..] == []
    ensures Concat(SplitRuns(t)) == Visible(t)
  {
    var w := Word(t);
    VisibleAfterWord(t);
    TrimStartKeepsVisible(t[|w|..]);
    assert SplitRuns(t) == [w] + [];
    ConcatCons(w, []);
  }

  lemma ConcatCons(w: string, ps: seq<string>)
    ensures Concat([w] + ps) == w + Concat(ps)
  {
    assert ([w] + ps)[1..] == ps;
  }

  /** The visible text of t is its first word followed by the visible text after the next gap. */
  lemma VisibleAfterWord(t: string)
    ensures Visible(t) == Word(t) + Visible(TrimStart(t[|Word(t)|..]))
  {
    var w := Word(t);
    var rest := t[|w|..];
    VisibleSplitAt(t, |w|);
    VisibleOfNoSpace(w);
    TrimStartKeepsVisible(rest);
  }

  lemma VisibleSplitAt(s: string, k: nat)
    requires k <= |s|
    ensures Visible(s) == Visible(s[..k]) + Visible(s[k..])
  {
    assert s == s[..k] + s[k..];
    VisibleAppend(s[..k], s[k..]);
  }

  /** Splitting single-space-joined words gives the words back. */
  lemma {:induction false} SplitRunsOfJoin(ws: seq<string>)
    requires ws != []
    requires forall k :: 0 <= k < |ws| ==> ws[k] != [] && NoSpace(ws[k])
    ensures SplitRuns(Join(ws, " ")) == ws
  {
    if |ws| == 1 {
      SplitRunsOfWord(ws[0]);
    } else {
      SplitRunsOfJoin(ws[1..]);
      JoinStartsVisible(ws[1..]);
      SplitRunsOfJoinCons(ws);
    }
  }

  /** The inductive step: a first word and a space in front of joined words that split back. */
  lemma SplitRunsOfJoinCons(ws: seq<string>)
    requires |ws| > 1 && NoSpace(ws[0])
    requires Join(ws[1..], " ") != [] && !IsSpace(Join(ws[1..], " ")[0])
    requires SplitRuns(Join(ws[1..], " ")) == ws[1..]
    ensures SplitRuns(Join(ws, " ")) == ws
  {
    var tail := Join(ws[1..], " ");
    assert Join(ws, " ") == ws[0] + " " + tail;
    SplitRunsAfterWord(ws[0], tail);
    assert [ws[0]] + ws[1..] == ws;
  }

  /** A single word splits into itself. */
  lemma SplitRunsOfWord(w: string)
    requires NoSpace(w)
    ensures SplitRuns(w) == [w]
  {
    WordOfPrefix(w, []);
    assert w + [] == w;
  }

  lemma SplitRunsAfterWord(w: string, tail: string)
    requires NoSpace(w) && tail != [] && !IsSpace(tail[0])
    ensures SplitRuns(w + " " + tail) == [w] + SplitRuns(tail)
  {
    var t := w + " " + tail;
    assert t == w + (" " + tail);
    WordOfPrefix(w, " " + tail);
    assert t[|w|..] == " " + tail;
    TrimStartPastSpace(tail);
  }

  lemma {:induction false} WordOfPrefix(w: string, rest: string)
    requires NoSpace(w) && (rest == [] || IsSpace(rest[0]))
    ensures Word(w + rest) == w
  {
    if w == [] {
      assert w + rest == rest;
    } else {
      assert (w + rest)[0] == w[0];
      assert (w + rest)[1..] == w[1..] + rest;
      WordOfPrefix(w[1..], rest);
    }
  }

  lemma TrimStartPastSpace(tail: string)
    requires tail != [] && !IsSpace(tail[0])
    ensures TrimStart(" " + tail) == tail
  {
    assert (" " + tail)[1..] == tail;
  }

  lemma {:induction false} JoinStartsVisible(ws: seq<string>)
    requires ws != []
    requires forall k :: 0 <= k < |ws| ==> ws[k] != [] && NoSpace(ws[k])
    ensures Join(ws, " ") != [] && !IsSpace(Join(ws, " ")[0])
    ensures !IsSpace(Join(ws, " ")[|Join(ws, " ")| - 1])
  {
    if |ws| > 1 {
      JoinStartsVisible(ws[1..]);
      var tail := Join(ws[1..], " ");
      assert Join(ws, " ") == ws[0] + " " + tail;
    }
  }

  /** ASCII upper case of one character (`str.upper` / `toUpperCase` on ASCII letters). */
  function UpperChar(c: char): (u: char)
    ensures ('a' <= c <= 'z') ==> 'A' <= u <= 'Z'
    ensures !('a' <= c <= 'z') ==> u == c
  {
    if 'a' <= c <= 'z' then (c as int - 32) as char else c
  }

  /** ASCII lower case of one character. */
  function LowerChar(c: char): (l: char)
    ensures ('A' <= c <= 'Z') ==> 'a' <= l <= 'z'
    ensures !('A' <= c <= 'Z') ==> l == c
  {
    if 'A' <= c <= 'Z' then (c as int + 32) as char else c
  }

  function Upper(s: string): (r: string)
    ensures |r| == |s| && forall i :: 0 <= i < |s| ==> r[i] == UpperChar(s[i])
  {
    seq(|s|, i requires 0 <= i < |s| => UpperChar(s[i]))
  }

  function Lower(s: string): (r: string)
    ensures |r| == |s| && forall i :: 0 <= i < |s| ==> r[i] == LowerChar(s[i])
  {
    seq(|s|, i requires 0 <= i < |s| => LowerChar(s[i]))
  }

  predicate StartsWith(s: string, p: string) {
    |p| <= |s| && s[..|p|] == p
  }

  /** Python's `sub in s` / JavaScript's `s.includes(sub)`. */
  predicate Contains(s: string, sub: string) {
    exists i :: 0 <= i <= |s| - |sub| && OccursAt(s, sub, i)
  }

  predicate OccursAt(s: string, sub: string, i: int) {
    0 <= i <= |s| - |sub| && s[i..i + |sub|] == sub
  }

  predicate IsDigit(c: char) { '0' <= c <= '9' }

  predicate AllDigits(s: string) {
    forall i :: 0 <= i < |s| ==> IsDigit(s[i])
  }

  function DigitChar(d: nat): (c: char)
    requires d < 10
    ensures IsDigit(c) && c as int - '0' as int == d
  {
    ('0' as int + d) as char
  }

  /** `String(n)` for a non-negative integer. */
  function Decimal(n: nat): (s: string)
    ensures s != [] && AllDigits(s)
  {
    if n < 10 then [DigitChar(n)] else Decimal(n / 10) + [DigitChar(n % 10)]
  }

  /** The value of a digit string, as `parseInt(s, 10)` reads it (leading zeros allowed). */
  function DigitsValue(s: string): nat
    requires AllDigits(s)
  {
    if s == [] then 0 else DigitsValue(s[..|s| - 1]) * 10 + (s[|s| - 1] as int - '0' as int)
  }

  /** Reading back a printed number gives the number. */
  lemma {:induction false} DecimalRoundTrip(n: nat)
    ensures DigitsValue(Decimal(n)) == n
  {
    if n >= 10 {
      var s := Decimal(n);
      assert s[..|s| - 1] == Decimal(n / 10);
      DecimalRoundTrip(n / 10);
    }
  }

  /** Leading zeros do not change the value of a digit string. */
  lemma {:induction false} LeadingZerosValue(k: nat, s: string)
    requires AllDigits(s)
    ensures AllDigits(Repeat('0', k) + s) && DigitsValue(Repeat('0', k) + s) == DigitsValue(s)
    decreases |s|
  {
    var z := Repeat('0', k);
    if s == [] {
      assert z + s == z;
      ZerosValue(k);
    } else {
      var t := z + s;
      assert t[..|t| - 1] == z + s[..|s| - 1];
      LeadingZerosValue(k, s[..|s| - 1]);
    }
  }

  lemma {:induction false} ZerosValue(k: nat)
    ensures AllDigits(Repeat('0', k)) && DigitsValue(Repeat('0', k)) == 0
  {
    if k > 0 {
      var z := Repeat('0', k);
      assert z[..|z| - 1] == Repeat('0', k - 1);
      ZerosValue(k - 1);
    }
  }

  function Repeat(c: char, k: nat): (r: string)
    ensures |r| == k && forall i :: 0 <= i < k ==> r[i] == c
  {
    if k == 0 then [] else [c] + Repeat(c, k - 1)
  }

  /** `s.padStart(width, c)`. */
  function PadStart(s: string, width: int, c: char): (r: string)
    ensures |r| == Wrappers.Max(|s|, width)
  {
    if |s| >= width then s else Repeat(c, width - |s|) + s
  }

  /** `String(n).padStart(4, "0")`: the running counter of a generated document number. */
  function Counter(n: nat): string {
    PadStart(Decimal(n), 4, '0')
  }

  /** The counter reads back as the number it was made from, is at least four characters long, and is
      exactly four when the number has at most four digits. */
  lemma CounterReadsBack(n: nat)
    ensures AllDigits(Counter(n)) && DigitsValue(Counter(n)) == n
    ensures |Counter(n)| >= 4 && (n < 10000 ==> |Counter(n)| == 4)
  {
    var d := Decimal(n);
    DecimalRoundTrip(n);
    if |d| < 4 {
      LeadingZerosValue(4 - |d|, d);
    }
    if n < 10000 {
      DecimalWidth(n, 4);
    }
  }

  function Pow10(k: nat): (p: nat)
    ensures p >= 1
  {
    if k == 0 then 1 else 10 * Pow10(k - 1)
  }

  /** A number below 10^k prints with at most k digits. */
  lemma {:induction false} DecimalWidth(n: nat, k: nat)
    requires 1 <= k && n < Pow10(k)
    ensures |Decimal(n)| <= k
    decreases k
  {
    if n >= 10 {
      DecimalWidth(n / 10, k - 1);
    }
  }

  /** The counter after a prefix reads back as the number it was made from. */
  lemma NumberedReadsBack(prefix: string, n: nat)
    ensures var c := (prefix + Counter(n))[|prefix|..]; AllDigits(c) && DigitsValue(c) == n
  {
    assert (prefix + Counter(n))[|prefix|..] == Counter(n);
    CounterReadsBack(n);
  }

  /** Distinct counters give distinct document numbers under the same prefix. */
  lemma NumberedInjective(prefix: string, a: nat, b: nat)
    requires prefix + Counter(a) == prefix + Counter(b)
    ensures a == b
  {
    assert Counter(a) == (prefix + Counter(a))[|prefix|..];
    assert Counter(b) == (prefix + Counter(b))[|prefix|..];
    CounterReadsBack(a);
    CounterReadsBack(b);
  }
}
