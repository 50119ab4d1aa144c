/**
 * String helpers shared by the firmware and host-side models: the pieces of
 * the C library (strchr, strrchr, strlen, atoi, snprintf truncation) and of
 * Python/JavaScript string handling (strip/trim, split, lower, `in`) that the
 * modelled code relies on. Characters stand for bytes; only ASCII behaviour is
 * modelled (no Unicode case mapping or Unicode whitespace).
 */
module Text {

  datatype Option<T> = None | Some(value: T)

  const NUL: char := '\0'
  const ESC: char := '\U{1B}'

  /** C `isspace` in the "C" locale, and the ASCII part of the JavaScript
      `trim` whitespace set. Python's `str.isspace` (and so `strip()` and
      `split()`) also counts the separators 0x1C-0x1F, which this does not. */
  predicate IsSpace(c: char) {
    c == ' ' || c == '\t' || c == '\n' || c == '\r' || c == '\U{0B}' || c == '\U{0C}'
  }

  predicate IsDigit(c: char) {
    '0' <= c <= '9'
  }

  predicate AllDigits(s: string) {
    forall k :: 0 <= k < |s| ==> IsDigit(s[k])
  }

  predicate StartsWith(s: string, prefix: string) {
    |prefix| <= |s| && s[..|prefix|] == prefix
  }

  /** First `n` characters of `s`, as `snprintf`/`strncpy` into an `n + 1` byte buffer keep them. */
  function Truncate(s: string, n: nat): (r: string)
    ensures |r| == if |s| <= n then |s| else n
    ensures StartsWith(s, r)
  {
    if |s| <= n then s else s[..n]
  }

  /** `strchr`: index of the first `c` in `s`, or -1. */
  function FirstIndexOf(s: string, c: char): (r: int)
    ensures -1 <= r < |s|
    ensures r >= 0 ==> s[r] == c && c !in s[..r]
    ensures r < 0 <==> c !in s
  {
    if s == [] then -1
    else if s[0] == c then 0
    else
      var k := FirstIndexOf(s[1..], c);
      assert s[1..][..if k < 0 then 0 else k] == s[1..if k < 0 then 1 else k + 1];
      if k < 0 then -1 else k + 1
  }

  /** `strrchr`: index of the last `c` in `s`, or -1. */
  function LastIndexOf(s: string, c: char): (r: int)
    ensures -1 <= r < |s|
    ensures r >= 0 ==> s[r] == c && c !in s[r + 1..]
    ensures r < 0 <==> c !in s
  {
    if s == [] then -1
    else if s[|s| - 1] == c then |s| - 1
    else
      var k := LastIndexOf(s[..|s| - 1], c);
      assert k >= 0 ==> s[k + 1..] == s[..|s| - 1][k + 1..] + [s[|s| - 1]];
      assert s == s[..|s| - 1] + [s[|s| - 1]];
      k
  }

  lemma {:induction false} FirstIndexOfAfterPrefix(a: string, c: char, b: string)
    requires c !in a
    ensures FirstIndexOf(a + [c] + b, c) == |a|
  {
    var s := a + [c] + b;
    assert s[|a|] == c;
    assert s[..|a|] == a;
  }

  /** C string view of a byte buffer: the prefix before the first NUL (`strlen` is its length). */
  function CStr(s: string): (r: string)
    ensures StartsWith(s, r) && NUL !in r
    ensures |r| < |s| ==> s[|r|] == NUL
    ensures NUL !in s ==> r == s
  {
    var k := FirstIndexOf(s, NUL);
    if k < 0 then s else s[..k]
  }

  lemma FirstIndexOfConcat(a: string, b: string, c: char)
    requires c in a
    ensures FirstIndexOf(a + b, c) == FirstIndexOf(a, c)
  {
    var i := FirstIndexOf(a, c);
    var s := a + b;
    assert s[..i] == a[..i];
    assert s[i] == c;
  }

  /** Storing `c` at `i` splits the sequence around position `i`. */
  lemma UpdateSplit(s: string, i: nat, c: char)
    requires i < |s|
    ensures s[i := c] == s[..i] + [c] + s[i + 1..]
  {
  }

  /** A character missing from the first `n` elements is found at `n` or later. */
  lemma FirstIndexOfBeyond(s: string, c: char, n: nat)
    requires n <= |s| && c !in s[..n]
    ensures FirstIndexOf(s, c) < 0 || FirstIndexOf(s, c) >= n
  {
    forall t | 0 <= t < n
      ensures s[t] != c
    {
      assert s[t] == s[..n][t];
    }
  }

  /** The C string in a buffer ends at the first NUL, whatever follows it. */
  lemma CStrAtNul(a: string, b: string)
    ensures CStr(a + [NUL] + b) == CStr(a)
  {
    if NUL in a {
      FirstIndexOfConcat(a, [NUL] + b, NUL);
      assert a + [NUL] + b == a + ([NUL] + b);
      var k := FirstIndexOf(a, NUL);
      assert (a + [NUL] + b)[..k] == a[..k];
    } else {
      FirstIndexOfAfterPrefix(a, NUL, b);
      assert (a + [NUL] + b)[..|a|] == a;
    }
  }

  /** Python `sub in s`. */
  predicate Contains(s: string, sub: string): (b: bool)
    ensures b ==> |sub| <= |s|
    decreases |s|
  {
    StartsWith(s, sub) || (s != [] && Contains(s[1..], sub))
  }

  lemma {:induction false} ContainsAt(s: string, sub: string, i: nat)
    requires i + |sub| <= |s| && s[i..i + |sub|] == sub
    ensures Contains(s, sub)
    decreases i
  {
    if i > 0 {
      assert s[1..][i - 1..i - 1 + |sub|] == s[i..i + |sub|];
      ContainsAt(s[1..], sub, i - 1);
    }
  }

  lemma {:induction false} ContainsWitness(s: string, sub: string) returns (i: nat)
    requires Contains(s, sub)
    ensures i + |sub| <= |s| && s[i..i + |sub|] == sub
    decreases |s|
  {
    if StartsWith(s, sub) {
      i := 0;
    } else {
      var j := ContainsWitness(s[1..], sub);
      assert s[1..][j..j + |sub|] == s[j + 1..j + 1 + |sub|];
      i := j + 1;
    }
  }

  /** A string that holds `sub` holds every character of `sub`. */
  lemma ContainsChars(s: string, sub: string, c: char)
    requires Contains(s, sub) && c in sub
    ensures c in s
  {
    var i := ContainsWitness(s, sub);
    var k :| 0 <= k < |sub| && sub[k] == c;
    assert s[i + k] == s[i..i + |sub|][k];
  }

  function TrimStart(s: string): (r: string)
    ensures |r| <= |s| && r == s[|s| - |r|..]
    ensures r == [] || !IsSpace(r[0])
    ensures forall k :: 0 <= k < |s| - |r| ==> IsSpace(s[k])
  {
    if s != [] && IsSpace(s[0]) then TrimStart(s[1..]) else s
  }

  function TrimEnd(s: string): (r: string)
    ensures |r| <= |s| && r == s[..|r|]
    ensures r == [] || !IsSpace(r[|r| - 1])
    ensures forall k :: |r| <= k < |s| ==> IsSpace(s[k])
  {
    if s != [] && IsSpace(s[|s| - 1]) then TrimEnd(s[..|s| - 1]) else s
  }

  /** Python `str.strip()` and JavaScript `String.prototype.trim()`. */
  function Trim(s: string): (r: string)
    ensures NoSurroundingSpace(r)
  {
    TrimEnd(TrimStart(s))
  }

  predicate NoSurroundingSpace(s: string) {
    s == [] || (!IsSpace(s[0]) && !IsSpace(s[|s| - 1]))
  }

  lemma TrimOfTrimmed(s: string)
    requires NoSurroundingSpace(s)
    ensures Trim(s) == s
  {
  }

  /** Trimming never invents characters: the result is a slice of the input. */
  lemma TrimIsSlice(s: string)
    ensures exists i: nat, j: nat :: i <= j <= |s| && Trim(s) == s[i..j]
  {
    var t := TrimStart(s);
    var i := |s| - |t|;
    var r := TrimEnd(t);
    assert r == s[i..i + |r|];
  }

  lemma TrimAllSpace(s: string)
    ensures Trim(s) == [] <==> forall k :: 0 <= k < |s| ==> IsSpace(s[k])
  {
    var t := TrimStart(s);
    if t != [] {
      assert !IsSpace(s[|s| - |t|]);
      assert !IsSpace(t[0]);
      assert TrimEnd(t) != [];
    }
  }

  lemma {:induction false} TrimStartAppendSpace(s: string, c: char)
    requires IsSpace(c)
    ensures TrimStart(s + [c]) == if TrimStart(s) == [] then [] else TrimStart(s) + [c]
  {
    var u := s + [c];
    if s == [] {
      assert u[1..] == [];
      assert TrimStart(u) == TrimStart(u[1..]);
    } else if IsSpace(s[0]) {
      assert u[0] == s[0] && u[1..] == s[1..] + [c];
      assert TrimStart(u) == TrimStart(s[1..] + [c]);
      assert TrimStart(s) == TrimStart(s[1..]);
      TrimStartAppendSpace(s[1..], c);
    } else {
      assert u[0] == s[0];
      assert TrimStart(u) == u;
      assert TrimStart(s) == s;
    }
  }

  /** Trailing whitespace (such as the newline a shell prints) does not
      survive trimming. */
  lemma TrimTrailingSpace(s: string, c: char)
    requires IsSpace(c)
    ensures Trim(s + [c]) == Trim(s)
  {
    TrimStartAppendSpace(s, c);
    var t := TrimStart(s);
    if t != [] {
      assert (t + [c])[..|t|] == t;
    }
  }

  /** One character of `Lower`: an ASCII capital becomes its small letter. */
  function LowerChar(c: char): (r: char)
    ensures !('A' <= r <= 'Z')
    ensures 'a' <= r <= 'z' <==> 'a' <= c <= 'z' || 'A' <= c <= 'Z'
  {
    if 'A' <= c <= 'Z' then (c as int + 32) as char else c
  }

  /** Python `str.lower()` restricted to ASCII letters. */
  function Lower(s: string): (r: string)
    ensures |r| == |s|
    ensures forall i :: 0 <= i < |s| ==> r[i] == LowerChar(s[i])
  {
    if s == [] then []
    else [LowerChar(s[0])] + Lower(s[1..])
  }

  /** Lower-casing keeps a prefix that has no capital letters. */
  lemma {:induction false} LowerPrefix(p: string, s: string)
    requires forall k :: 0 <= k < |p| ==> !('A' <= p[k] <= 'Z')
    ensures StartsWith(Lower(p + s), p)
    decreases |p|
  {
    if p != [] {
      assert (p + s)[1..] == p[1..] + s;
      LowerPrefix(p[1..], s);
      assert Lower(p + s) == [Lower(p + s)[0]] + Lower(p[1..] + s);
    }
  }

  /** Python `str.split()` with no separator: maximal runs of non-whitespace. */
  function Words(s: string): (r: seq<string>)
    ensures |r| <= |s|
    decreases |s|
  {
    var t := TrimStart(s);
    if t == [] then []
    else
      var k := FirstSpace(t);
      assert k >= 1 by { assert !IsSpace(t[0]); }
      var rest := t[k..];
      assert |rest| < |s|;
      [t[..k]] + Words(rest)
  }

  /** Every piece `split()` returns is a word. */
  lemma {:induction false} WordsAreWords(s: string)
    ensures forall k :: 0 <= k < |Words(s)| ==> IsWord(Words(s)[k])
    decreases |s|
  {
    var t := TrimStart(s);
    if t != [] {
      var k := FirstSpace(t);
      assert !IsSpace(t[0]);
      LeadingWord(t, k);
      WordsAreWords(t[k..]);
      var ws := Words(t[k..]);
      assert Words(s) == [t[..k]] + ws;
      assert forall j :: 0 < j < |Words(s)| ==> Words(s)[j] == ws[j - 1];
    }
  }

  /** The characters before the first whitespace, when there are any, form a word. */
  lemma LeadingWord(t: string, k: nat)
    requires 1 <= k <= |t| && forall j :: 0 <= j < k ==> !IsSpace(t[j])
    ensures IsWord(t[..k])
  {
    forall i | 0 <= i < k ensures !IsSpace(t[..k][i]) { assert t[..k][i] == t[i]; }
  }

  /** Index of the first whitespace character of `s`, or `|s|`. */
  function FirstSpace(s: string): (k: nat)
    ensures k <= |s| && (k < |s| ==> IsSpace(s[k]))
    ensures forall j :: 0 <= j < k ==> !IsSpace(s[j])
  {
    if s == [] || IsSpace(s[0]) then 0 else 1 + FirstSpace(s[1..])
  }

  /** JavaScript `s.split(c)` for a one-character separator: always at least one piece. */
  function Split(s: string, c: char): (r: seq<string>)
    ensures |r| >= 1
    ensures forall k :: 0 <= k < |r| ==> c !in r[k]
    decreases |s|
  {
    var i := FirstIndexOf(s, c);
    if i < 0 then [s]
    else
      var rest := Split(s[i + 1..], c);
      SplitPieces(s[..i], rest, c);
      [s[..i]] + rest
  }

  lemma SplitPieces(head: string, rest: seq<string>, c: char)
    requires c !in head && forall k :: 0 <= k < |rest| ==> c !in rest[k]
    ensures forall k :: 0 <= k < |[head] + rest| ==> c !in ([head] + rest)[k]
  {
  }

  /** Pieces glued with one separator character between neighbours. */
  function Join(xs: seq<string>, c: char): string {
    if xs == [] then []
    else if |xs| == 1 then xs[0]
    else xs[0] + [c] + Join(xs[1..], c)
  }

  /** Splitting undoes joining when no piece holds the separator. */
  lemma {:induction false} SplitJoin(xs: seq<string>, c: char)
    requires |xs| >= 1
    requires forall k :: 0 <= k < |xs| ==> c !in xs[k]
    ensures Split(Join(xs, c), c) == xs
  {
    if |xs| > 1 {
      var rest := Join(xs[1..], c);
      FirstIndexOfAfterPrefix(xs[0], c, rest);
      assert (xs[0] + [c] + rest)[..|xs[0]|] == xs[0];
      assert (xs[0] + [c] + rest)[|xs[0]| + 1..] == rest;
      SplitJoin(xs[1..], c);
    }
  }

  /** A non-empty run of non-whitespace characters. */
  predicate IsWord(w: string) {
    w != [] && forall i :: 0 <= i < |w| ==> !IsSpace(w[i])
  }

  lemma FirstSpaceAfterWord(w: string, tail: string)
    requires IsWord(w) && (tail == [] || IsSpace(tail[0]))
    ensures FirstSpace(w + tail) == |w|
  {
    var s := w + tail;
    var k := FirstSpace(s);
    forall j | 0 <= j < |w| ensures !IsSpace(s[j]) { assert s[j] == w[j]; }
    if tail != [] { assert IsSpace(s[|w|]); }
  }

  lemma WordsAfterSpace(rest: string)
    ensures Words([' '] + rest) == Words(rest)
  {
    assert ([' '] + rest)[1..] == rest;
    assert TrimStart([' '] + rest) == TrimStart(rest);
  }

  /** A word followed by a space and more text splits off first. */
  lemma WordsCons(w: string, rest: string)
    requires IsWord(w)
    ensures Words(w + [' '] + rest) == [w] + Words(rest)
  {
    var s := w + [' '] + rest;
    assert TrimStart(s) == s;
    FirstSpaceAfterWord(w, [' '] + rest);
    assert s == w + ([' '] + rest);
    assert s[..|w|] == w;
    assert s[|w|..] == [' '] + rest;
    WordsAfterSpace(rest);
  }

  lemma WordsOfWord(w: string)
    requires IsWord(w)
    ensures Words(w) == [w]
  {
    assert TrimStart(w) == w;
    FirstSpaceAfterWord(w, []);
    assert w + [] == w;
    assert w[|w|..] == [];
  }

  /** Every element is a word. */
  predicate AllWords(ws: seq<string>) {
    ws == [] || (IsWord(ws[0]) && AllWords(ws[1..]))
  }

  lemma AllWordsCons(w: string, ws: seq<string>)
    requires IsWord(w) && AllWords(ws)
    ensures AllWords([w] + ws)
  {
    assert ([w] + ws)[1..] == ws;
  }

  /** Whitespace splitting undoes joining words with single spaces, which is
      how a shell line built by string interpolation reaches `argv`. */
  lemma {:induction false} WordsJoin(ws: seq<string>)
    requires AllWords(ws)
    ensures Words(Join(ws, ' ')) == ws
  {
    if |ws| == 1 {
      WordsOfWord(ws[0]);
    } else if |ws| > 1 {
      WordsCons(ws[0], Join(ws[1..], ' '));
      WordsJoin(ws[1..]);
      assert ws == [ws[0]] + ws[1..];
    }
  }

  lemma Join4(a: string, b: string, c: string, d: string, sep: char)
    ensures Join([a, b, c, d], sep) == a + [sep] + b + [sep] + c + [sep] + d
  {
    assert Join([d], sep) == d;
    assert [c, d][1..] == [d];
    assert Join([c, d], sep) == c + [sep] + d;
    assert [b, c, d][1..] == [c, d];
    assert Join([b, c, d], sep) == b + [sep] + (c + [sep] + d);
    assert [a, b, c, d][1..] == [b, c, d];
    assert Join([a, b, c, d], sep) == a + [sep] + (b + [sep] + (c + [sep] + d));
  }

  lemma SplitAbsent(s: string, c: char)
    requires c !in s
    ensures Split(s, c) == [s]
  {
  }

  lemma {:induction false} LowerUnchanged(s: string)
    requires forall i :: 0 <= i < |s| ==> !('A' <= s[i] <= 'Z')
    ensures Lower(s) == s
  {
    if s != [] {
      LowerUnchanged(s[1..]);
    }
  }

  /** Decimal digits of `n`, as `%d` prints a non-negative value. */
  function NatToString(n: nat): (r: string)
    ensures |r| >= 1
    ensures forall k :: 0 <= k < |r| ==> IsDigit(r[k])
    decreases n
  {
    if n < 10 then [('0' as int + n) as char]
    else NatToString(n / 10) + [('0' as int + n % 10) as char]
  }

  /** Value of a string of decimal digits. */
  function DigitsValue(s: string): nat
    requires forall k :: 0 <= k < |s| ==> IsDigit(s[k])
  {
    if s == [] then 0
    else
      assert IsDigit(s[|s| - 1]);
      DigitsValue(s[..|s| - 1]) * 10 + (s[|s| - 1] as int - '0' as int)
  }

  /** Reading the printed digits back gives the number printed. */
  lemma {:induction false} DigitsRoundTrip(n: nat)
    ensures DigitsValue(NatToString(n)) == n
    decreases n
  {
    if n >= 10 {
      var r := NatToString(n);
      assert r[..|r| - 1] == NatToString(n / 10);
      DigitsRoundTrip(n / 10);
    }
  }

  /** Number of leading decimal digits of `s`. */
  function DigitRun(s: string): (k: nat)
    ensures k <= |s| && (k < |s| ==> !IsDigit(s[k]))
    ensures forall j :: 0 <= j < k ==> IsDigit(s[j])
  {
    if s == [] || !IsDigit(s[0]) then 0 else 1 + DigitRun(s[1..])
  }

  /** C `atoi`: leading whitespace, an optional sign, then the longest run of
      digits; 0 when there are none. Overflow (undefined in C) is not modelled. */
  function Atoi(s: string): (r: int)
    ensures TrimStart(s) != [] && TrimStart(s)[0] == '-' ==> r <= 0
    ensures TrimStart(s) == [] || TrimStart(s)[0] != '-' ==> r >= 0
    ensures TrimStart(s) == [] || !(IsDigit(TrimStart(s)[0]) || TrimStart(s)[0] in "+-") ==> r == 0
  {
    var t := TrimStart(s);
    if t != [] && (t[0] == '-' || t[0] == '+') then
      var d := t[1..][..DigitRun(t[1..])];
      var v: int := DigitsValue(d);
      if t[0] == '-' then -v else v
    else
      DigitsValue(t[..DigitRun(t)])
  }

  lemma DigitRunAll(s: string)
    requires forall k :: 0 <= k < |s| ==> IsDigit(s[k])
    ensures DigitRun(s) == |s|
  {
  }

  /** `atoi` reads back what `%d` printed. */
  lemma AtoiOfDecimal(n: nat)
    ensures Atoi(NatToString(n)) == n
  {
    var r := NatToString(n);
    assert !IsSpace(r[0]) && r[0] != '-' && r[0] != '+' by { assert IsDigit(r[0]); }
    assert TrimStart(r) == r;
    DigitRunAll(r);
    assert r[..DigitRun(r)] == r;
    DigitsRoundTrip(n);
  }
}
