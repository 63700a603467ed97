/**
 Go string operations that the rest of the model is written in, as functions on `string`,
 with the laws the proofs need.
 */
module Strings {

  datatype Option<+T> = None | Some(value: T)

  /** `p` stands in `s` at index `i`. */
  predicate At(s: string, p: string, i: int) {
    0 <= i && i + |p| <= |s| && s[i..i + |p|] == p
  }

  /** `strings.Contains(s, p)`. */
  predicate Occurs(s: string, p: string) {
    exists i | 0 <= i <= |s| :: At(s, p, i)
  }

  /** `strings.Index`: the first position of `p` at or after `from`, or -1. */
  function IndexFrom(s: string, p: string, from: nat): (r: int)
    requires from <= |s|
    ensures r == -1 ==> forall i | from <= i :: !At(s, p, i)
    ensures r != -1 ==> from <= r && At(s, p, r) && forall i | from <= i < r :: !At(s, p, i)
    decreases |s| - from
  {
    if At(s, p, from) then from
    else if from == |s| then -1
    else IndexFrom(s, p, from + 1)
  }

  function Index(s: string, p: string): (r: int)
    ensures r == -1 <==> !Occurs(s, p)
    ensures r != -1 ==> At(s, p, r) && forall i | 0 <= i < r :: !At(s, p, i)
  {
    IndexFrom(s, p, 0)
  }

  /** `strings.Split(s, sep)` for a non-empty separator. */
  function Split(s: string, sep: string): (parts: seq<string>)
    requires sep != ""
    ensures |parts| >= 1
    ensures parts[0] == if Occurs(s, sep) then s[..Index(s, sep)] else s
    decreases |s|
  {
    var i := Index(s, sep);
    if i == -1 then [s] else [s[..i]] + Split(s[i + |sep|..], sep)
  }

  /** `strings.ReplaceAll(s, p, "")` for a non-empty pattern. */
  function RemoveAll(s: string, p: string): (r: string)
    requires p != ""
    ensures !Occurs(s, p) ==> r == s
    ensures Occurs(s, p) ==> |r| < |s|
    decreases |s|
  {
    var i := Index(s, p);
    if i == -1 then s else s[..i] + RemoveAll(s[i + |p|..], p)
  }

  predicate HasPrefix(s: string, p: string) { At(s, p, 0) }

  predicate HasSuffix(s: string, p: string) { At(s, p, |s| - |p|) }

  /** A pattern holding a character that `s` lacks does not occur in `s`. */
  lemma AbsentChar(s: string, p: string, c: char)
    requires c in p && c !in s
    ensures !Occurs(s, p)
  {}

  lemma AtChar(s: string, p: string, i: int, k: nat)
    requires At(s, p, i) && k < |p|
    ensures s[i + k] == p[k]
  {}

  /** One differing character rules an occurrence out. */
  lemma NotAt(s: string, p: string, i: nat, k: nat)
    requires k < |p| && (i + k < |s| ==> s[i + k] != p[k])
    ensures !At(s, p, i)
  {}

  /** The first separator of `a + c + b` stands right after `a` when `a` has no `c`. */
  lemma FirstChar(a: string, c: char, b: string)
    requires c !in a
    ensures Occurs(a + [c] + b, [c])
    ensures Index(a + [c] + b, [c]) == |a|
    ensures Split(a + [c] + b, [c])[0] == a
  {
    var s := a + [c] + b;
    assert At(s, [c], |a|);
    forall i | 0 <= i < |a| ensures !At(s, [c], i) {
      assert s[i..i + 1] == [a[i]];
    }
    assert s[..|a|] == a;
  }

  /** The text before the first separator, and the text after it. */
  function Head(s: string, sep: string): string
    requires Occurs(s, sep)
  {
    s[..Index(s, sep)]
  }

  function Rest(s: string, sep: string): (r: string)
    requires Occurs(s, sep)
    ensures sep != "" ==> |r| < |s|
  {
    s[Index(s, sep) + |sep|..]
  }

  lemma SplitUnfolds(s: string, sep: string)
    requires sep != ""
    ensures Split(s, sep) == if Occurs(s, sep) then [Head(s, sep)] + Split(Rest(s, sep), sep) else [s]
  {}

  /** The pieces of a split hold only characters of the text. */
  lemma {:induction false} SplitChars(s: string, sep: string, k: nat, c: char)
    requires sep != "" && k < |Split(s, sep)| && c in Split(s, sep)[k]
    ensures c in s
    decreases |s|
  {
    SplitUnfolds(s, sep);
    if Occurs(s, sep) {
      CutChars(s, sep, c);
      if k > 0 { SplitChars(Rest(s, sep), sep, k - 1, c); }
    }
  }

  lemma OccursChar(s: string, c: char)
    ensures Occurs(s, [c]) <==> c in s
  {
    if i :| 0 <= i < |s| && s[i] == c {
      assert s[i..i + 1] == [c];
      assert At(s, [c], i);
    }
    if c !in s { AbsentChar(s, [c], c); }
  }

  function Last(parts: seq<string>): string
    requires parts != []
  {
    parts[|parts| - 1]
  }

  lemma LastOfMore(head: string, tail: seq<string>)
    requires tail != []
    ensures Last([head] + tail) == Last(tail)
  {}

  /** The last of the pieces stands at the end of the text, behind a separator, or is all of it. */
  predicate EndsWithLast(s: string, sep: string, parts: seq<string>) {
    parts != [] && var n := |s| - |Last(parts)|;
    0 <= n && s[n..] == Last(parts) && !Occurs(Last(parts), sep) && (if |parts| > 1 then n >= |sep| && s[n - |sep|..n] == sep else n == 0)
  }

  lemma OnePiece(s: string, sep: string)
    requires !Occurs(s, sep)
    ensures EndsWithLast(s, sep, [s])
  {}

  /** The rest stands at the end, behind a separator. */
  predicate EndsWith(s: string, sep: string, rest: string) {
    |sep| + |rest| <= |s| && s[|s| - |rest|..] == rest && s[|s| - |rest| - |sep|..|s| - |rest|] == sep
  }

  lemma RestAtEnd(s: string, sep: string)
    requires Occurs(s, sep)
    ensures EndsWith(s, sep, Rest(s, sep))
  {}

  lemma Nested(s: string, rest: string, n: nat, m: nat)
    requires |rest| <= |s| && s[|s| - |rest|..] == rest && n <= m <= |rest|
    ensures rest[n..m] == s[|s| - |rest| + n..|s| - |rest| + m]
  {}

  lemma OneMorePiece(s: string, sep: string, rest: string, head: string, tail: seq<string>)
    requires EndsWith(s, sep, rest) && EndsWithLast(rest, sep, tail)
    ensures EndsWithLast(s, sep, [head] + tail)
  {
    LastOfMore(head, tail);
    var n := |rest| - |Last(tail)|;
    Nested(s, rest, n, |rest|);
    assert rest[n..] == rest[n..|rest|];
    if |tail| > 1 { Nested(s, rest, n - |sep|, n); }
  }

  lemma {:induction false} LastPiece(s: string, sep: string)
    requires sep != ""
    ensures EndsWithLast(s, sep, Split(s, sep))
    decreases |s|
  {
    SplitUnfolds(s, sep);
    if Occurs(s, sep) {
      LastPiece(Rest(s, sep), sep);
      RestAtEnd(s, sep);
      OneMorePiece(s, sep, Rest(s, sep), Head(s, sep), Split(Rest(s, sep), sep));
    } else {
      OnePiece(s, sep);
    }
  }

  lemma MorePieces(s: string, sep: string)
    requires sep != "" && Occurs(s, sep)
    ensures |Split(s, sep)| > 1
  {
    SplitUnfolds(s, sep);
  }

  lemma CutChars(s: string, sep: string, c: char)
    requires Occurs(s, sep)
    ensures c in Head(s, sep) || c in Rest(s, sep) ==> c in s
  {}

  // ------------------------------------------------------------------ case and space

  /** `strings.EqualFold`, for the canonical representative `fold` that case folding gives a character. */
  predicate EqualFold(fold: char -> char, s: string, t: string) {
    |s| == |t| && forall i | 0 <= i < |s| :: fold(s[i]) == fold(t[i])
  }

  function AsciiFold(c: char): char {
    if 'A' <= c <= 'Z' then ((c as int) + 32) as char else c
  }

  /** Matching ignoring case sorts texts into kinds. */
  lemma EqualFoldSorts(fold: char -> char, s: string, t: string, u: string)
    ensures EqualFold(fold, s, s)
    ensures EqualFold(fold, s, t) <==> EqualFold(fold, t, s)
    ensures EqualFold(fold, s, t) && EqualFold(fold, t, u) ==> EqualFold(fold, s, u)
    ensures EqualFold(fold, s, t) ==> |s| == |t|
  {}

  /** `unicode.IsSpace`. */
  predicate IsSpace(c: char) {
    '\t' <= c <= '\r' || c == ' ' || c == '\U{85}' || c == '\U{A0}' || c == '\U{1680}' ||
    '\U{2000}' <= c <= '\U{200A}' || c == '\U{2028}' || c == '\U{2029}' || c == '\U{202F}' ||
    c == '\U{205F}' || c == '\U{3000}'
  }

  /** Among the Latin-1 characters these eight are spaces. */
  lemma Latin1Spaces(c: char)
    requires c <= '\U{FF}'
    ensures IsSpace(c) <==> c in {'\t', '\n', '\U{0B}', '\U{0C}', '\r', ' ', '\U{85}', '\U{A0}'}
  {}

  /** `strings.TrimSpace`. */
  function TrimSpace(s: string): (r: string)
    ensures Trimmed(r) && (Trimmed(s) ==> r == s)
  {
    if s == "" then s
    else if IsSpace(s[0]) then TrimSpace(s[1..])
    else if IsSpace(s[|s| - 1]) then TrimSpace(s[..|s| - 1])
    else s
  }

  /** No space at either end. */
  predicate Trimmed(s: string) { s == "" || !(IsSpace(s[0]) || IsSpace(s[|s| - 1])) }

  predicate AllSpaces(s: string) { forall i | 0 <= i < |s| :: IsSpace(s[i]) }

  /** Trimming takes off spaces at both ends and nothing else. */
  lemma {:induction false} TrimSpaceTakesOff(s: string) returns (a: string, b: string)
    ensures s == a + TrimSpace(s) + b && AllSpaces(a) && AllSpaces(b)
  {
    if s == "" {
      a, b := "", "";
    } else if IsSpace(s[0]) {
      a, b := TrimSpaceTakesOff(s[1..]);
      assert s == [s[0]] + s[1..] == [s[0]] + a + TrimSpace(s) + b;
      a := [s[0]] + a;
    } else if IsSpace(s[|s| - 1]) {
      a, b := TrimSpaceTakesOff(s[..|s| - 1]);
      assert s == s[..|s| - 1] + [s[|s| - 1]] == a + TrimSpace(s) + (b + [s[|s| - 1]]);
      b := b + [s[|s| - 1]];
    } else {
      a, b := "", "";
    }
  }

  // ------------------------------------------------------------------ decimal numerals

  function Digit(d: nat): char
    requires d < 10
  {
    '0' + d as char
  }

  predicate IsDigit(c: char) { '0' <= c <= '9' }

  function DigitValue(c: char): (d: nat)
    requires IsDigit(c)
    ensures d < 10 && Digit(d) == c
  {
    (c - '0') as nat
  }

  /** `strconv.Itoa` on a natural number. */
  function Itoa(n: nat): (s: string)
    ensures |s| >= 1 && forall i | 0 <= i < |s| :: IsDigit(s[i])
  {
    if n < 10 then [Digit(n)] else Itoa(n / 10) + [Digit(n % 10)]
  }

  /** The number a run of digits stands for, leading zeros allowed. */
  function DigitsValue(s: string): nat
    requires forall i | 0 <= i < |s| :: IsDigit(s[i])
  {
    if s == "" then 0 else DigitsValue(s[..|s| - 1]) * 10 + DigitValue(s[|s| - 1])
  }

  lemma {:induction false} ItoaValue(n: nat)
    ensures DigitsValue(Itoa(n)) == n
  {
    if n >= 10 {
      ItoaValue(n / 10);
      var s := Itoa(n / 10) + [Digit(n % 10)];
      assert s[..|s| - 1] == Itoa(n / 10);
    } else {
      assert [Digit(n)][..0] == "";
    }
  }

  lemma ItoaInjective(m: nat, n: nat)
    requires Itoa(m) == Itoa(n)
    ensures m == n
  {
    ItoaValue(m);
    ItoaValue(n);
  }

  /** `fmt.Sprintf("%0wd", n)`: at least `w` digits, padded with zeros on the left. */
  function Padded(n: nat, w: nat): (s: string)
    ensures |s| >= w
    ensures forall i | 0 <= i < |s| :: IsDigit(s[i])
    ensures DigitsValue(s) == n
  {
    var s := Itoa(n);
    ItoaValue(n);
    if |s| >= w then s else
      ZerosValue(w - |s|, s);
      Zeros(w - |s|) + s
  }

  function Zeros(k: nat): (s: string)
    ensures |s| == k && forall i | 0 <= i < k :: s[i] == '0'
  {
    seq(k, i => '0')
  }

  lemma {:induction false} ZerosValue(k: nat, s: string)
    requires forall i | 0 <= i < |s| :: IsDigit(s[i])
    ensures DigitsValue(Zeros(k) + s) == DigitsValue(s)
    decreases k + |s|
  {
    if s == "" {
      if k > 0 {
        assert (Zeros(k) + s)[..k - 1] == Zeros(k - 1) + "";
        ZerosValue(k - 1, "");
      }
    } else {
      var t := Zeros(k) + s;
      assert t[..|t| - 1] == Zeros(k) + s[..|s| - 1];
      ZerosValue(k, s[..|s| - 1]);
    }
  }

  // ------------------------------------------------------------------ the size of numerals

  function Pow10(n: nat): (p: nat)
    ensures p >= 1
  {
    if n == 0 then 1 else 10 * Pow10(n - 1)
  }

  predicate Digits(s: string) { forall i | 0 <= i < |s| :: IsDigit(s[i]) }

  lemma Powers()
    ensures Pow10(2) == 100 && Pow10(4) == 10_000 && Pow10(5) == 100_000 && Pow10(6) == 1_000_000
  {}

  /** A numeral cut in two. */
  lemma {:induction false} DigitsSplit(s: string, k: nat)
    requires Digits(s) && k <= |s|
    ensures DigitsValue(s) == DigitsValue(s[..k]) * Pow10(|s| - k) + DigitsValue(s[k..])
  {
    if k == |s| {
      assert s[..k] == s && s[k..] == "";
    } else {
      var n := |s| - 1;
      DigitsSplit(s[..n], k);
      assert s[..n][..k] == s[..k] && s[k..][..n - k] == s[..n][k..] && s[k..][n - k] == s[n];
      assert Pow10(|s| - k) == 10 * Pow10(n - k);
      ShiftDigit(DigitsValue(s[..k]), Pow10(n - k), DigitsValue(s[..n][k..]), DigitValue(s[n]));
    }
  }

  lemma ShiftDigit(h: nat, p: nat, q: nat, d: nat)
    ensures (h * p + q) * 10 + d == h * (10 * p) + (q * 10 + d)
  {}

  lemma {:induction false} DigitsBound(s: string)
    requires Digits(s)
    ensures DigitsValue(s) < Pow10(|s|)
  {
    if s != "" { DigitsBound(s[..|s| - 1]); }
  }

  lemma DigitsHead(s: string)
    requires s != "" && Digits(s)
    ensures DigitsValue(s) == DigitValue(s[0]) * Pow10(|s| - 1) + DigitsValue(s[1..])
    ensures DigitsValue(s[1..]) < Pow10(|s| - 1)
  {
    DigitsSplit(s, 1);
    DigitsBound(s[1..]);
    OneDigit(s[0]);
    assert s[..1] == [s[0]];
  }

  lemma OneDigit(c: char)
    requires IsDigit(c)
    ensures DigitsValue([c]) == DigitValue(c)
  {
    assert [c][..0] == "";
  }

  lemma {:induction false} ItoaSize(n: nat, w: nat)
    requires w >= 1 && n < Pow10(w)
    ensures |Itoa(n)| <= w
  {
    if n >= 10 {
      assert w >= 2;
      ItoaSize(n / 10, w - 1);
    }
  }

  lemma PaddedSize(n: nat, w: nat)
    requires w >= 1 && n < Pow10(w)
    ensures |Padded(n, w)| == w
  {
    ItoaSize(n, w);
  }
}
