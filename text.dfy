/**
  The few functions of Go's `strings` and `strconv` packages that the review
  template protocol relies on. A `char` stands for one byte of the document.
 */
module Text {
  import opened Wrappers

  /** Go's largest `int` on a 64-bit platform. */
  const MaxInt64: int := 0x7FFF_FFFF_FFFF_FFFF

  /** `strings.HasPrefix(s, p)`. */
  predicate HasPrefix(s: string, p: string) {
    |p| <= |s| && s[..|p|] == p
  }

  /** A complete line: non-empty, ends with its only newline. */
  predicate IsLine(l: string) {
    |l| > 0 && l[|l| - 1] == '\n' && '\n' !in l[..|l| - 1]
  }

  /** The pieces of a list written one after the other. */
  function Concat(ls: seq<string>): string {
    if ls == [] then "" else Concat(ls[..|ls| - 1]) + ls[|ls| - 1]
  }

  lemma {:induction false} ConcatAppend(a: seq<string>, b: seq<string>)
    ensures Concat(a + b) == Concat(a) + Concat(b)
    decreases |b|
  {
    if b == [] {
      assert a + b == a;
    } else {
      var b', x := b[..|b| - 1], b[|b| - 1];
      assert (a + b)[..|a + b| - 1] == a + b';
      assert (a + b)[|a + b| - 1] == x;
      ConcatAppend(a, b');
      assert Concat(a + b) == Concat(a) + Concat(b') + x;
    }
  }

  lemma AppendAssoc(a: string, b: string, c: string)
    ensures (a + b) + c == a + (b + c)
  {
  }

  lemma {:induction false} ConcatCons(l: string, ls: seq<string>)
    ensures Concat([l] + ls) == l + Concat(ls)
  {
    ConcatAppend([l], ls);
    assert Concat([l]) == Concat([]) + l;
  }

  /** Index of the first newline of `s`, or -1 when there is none. */
  function IndexOfNewline(s: string): (r: int)
    ensures -1 <= r < |s|
    ensures r == -1 ==> '\n' !in s
    ensures r >= 0 ==> s[r] == '\n' && '\n' !in s[..r]
  {
    if s == [] then -1
    else if s[0] == '\n' then 0
    else
      var k := IndexOfNewline(s[1..]);
      assert s[1..][..if k < 0 then 0 else k] == s[1..if k < 0 then 1 else k + 1];
      if k == -1 then -1 else k + 1
  }

  /**
    `strings.SplitAfter(s, "\n")`: the lines of `s`, each keeping its newline,
    followed by the unterminated remainder (empty when `s` ends with a newline).
   */
  function SplitAfter(s: string): (r: seq<string>)
    ensures |r| > 0
    ensures '\n' !in r[|r| - 1]
    decreases |s|
  {
    var i := IndexOfNewline(s);
    if i == -1 then [s] else [s[..i + 1]] + SplitAfter(s[i + 1..])
  }

  /** Every piece of a split but the last is a complete line. */
  lemma {:induction false} SplitAfterPiecesAreLines(s: string)
    ensures forall k :: 0 <= k < |SplitAfter(s)| - 1 ==> IsLine(SplitAfter(s)[k])
    decreases |s|
  {
    var i := IndexOfNewline(s);
    if i != -1 {
      var l := s[..i + 1];
      assert l[..|l| - 1] == s[..i];
      SplitAfterPiecesAreLines(s[i + 1..]);
      var r := SplitAfter(s);
      assert r == [l] + SplitAfter(s[i + 1..]);
      forall k | 0 < k < |r| - 1
        ensures IsLine(r[k])
      {
        assert r[k] == SplitAfter(s[i + 1..])[k - 1];
      }
    }
  }

  lemma {:induction false} SplitAfterConcat(s: string)
    ensures Concat(SplitAfter(s)) == s
    decreases |s|
  {
    var i := IndexOfNewline(s);
    if i == -1 {
      assert Concat([s]) == Concat([]) + s;
    } else {
      SplitAfterConcat(s[i + 1..]);
      ConcatCons(s[..i + 1], SplitAfter(s[i + 1..]));
      assert s == s[..i + 1] + s[i + 1..];
    }
  }

  /** The first pieces of a split are the beginning of the text. */
  lemma {:induction false} SplitAfterPrefix(s: string, i: int)
    requires 0 <= i <= |SplitAfter(s)|
    ensures |Concat(SplitAfter(s)[..i])| <= |s|
    ensures Concat(SplitAfter(s)[..i]) == s[..|Concat(SplitAfter(s)[..i])|]
  {
    var ls := SplitAfter(s);
    assert ls == ls[..i] + ls[i..];
    ConcatAppend(ls[..i], ls[i..]);
    SplitAfterConcat(s);
  }

  /** Only the final piece of a split may be empty. */
  lemma {:induction false} SplitAfterEmptyIsLast(s: string, k: int)
    requires 0 <= k < |SplitAfter(s)| && SplitAfter(s)[k] == ""
    ensures k == |SplitAfter(s)| - 1
  {
    SplitAfterPiecesAreLines(s);
  }

  lemma {:induction false} IndexOfNewlineInLine(l: string, rest: string)
    requires IsLine(l)
    ensures IndexOfNewline(l + rest) == |l| - 1
  {
    var s := l + rest;
    assert s[|l| - 1] == '\n' && s[|l| - 1] in s;
    forall j | 0 <= j < |l| - 1
      ensures s[j] != '\n'
    {
      assert s[j] == l[..|l| - 1][j];
    }
  }

  /** Splitting text made of whole lines gives those lines back, then the tail. */
  lemma {:induction false} SplitAfterLines(ls: seq<string>, tail: string)
    requires forall k :: 0 <= k < |ls| ==> IsLine(ls[k])
    requires '\n' !in tail
    ensures SplitAfter(Concat(ls) + tail) == ls + [tail]
    decreases |ls|
  {
    if ls == [] {
      assert Concat(ls) + tail == tail;
    } else {
      var rest := ls[1..];
      assert ls == [ls[0]] + rest;
      ConcatCons(ls[0], rest);
      var s := Concat(ls) + tail;
      assert s == ls[0] + (Concat(rest) + tail);
      IndexOfNewlineInLine(ls[0], Concat(rest) + tail);
      assert s[..|ls[0]|] == ls[0];
      assert s[|ls[0]|..] == Concat(rest) + tail;
      SplitAfterLines(rest, tail);
    }
  }

  /** `strings.TrimRight(s, "\n")`: drops every trailing newline. */
  function TrimNewlines(s: string): (r: string)
    ensures |r| <= |s| && r == s[..|r|]
    ensures '\n' !in s ==> r == s
    ensures IsLine(s) ==> r == s[..|s| - 1]
  {
    if |s| > 0 && s[|s| - 1] == '\n' then
      (var r := TrimNewlines(s[..|s| - 1]);
       assert IsLine(s) ==> '\n' !in s[..|s| - 1];
       r)
    else s
  }

  /** The text of one piece of `SplitAfter`: the piece without its final newline. */
  function TrimLine(s: string): (r: string)
    ensures |r| <= |s| && r == s[..|r|]
    ensures |s| - 1 <= |r|
  {
    if |s| > 0 && s[|s| - 1] == '\n' then s[..|s| - 1] else s
  }

  /**
    A piece of `SplitAfter` holds no newline but its last byte, so
    `strings.TrimRight(piece, "\n")` removes exactly that newline.
   */
  lemma {:induction false} TrimNewlinesOfPiece(s: string)
    requires |s| > 0 ==> '\n' !in s[..|s| - 1]
    ensures TrimNewlines(s) == TrimLine(s)
  {
    if |s| > 0 && s[|s| - 1] == '\n' {
      assert IsLine(s);
    } else if |s| > 0 {
      assert s == s[..|s| - 1] + [s[|s| - 1]];
      assert '\n' !in s;
    }
  }

  /** `strings.Split(s, "\n")`: the newline-free pieces between newlines. */
  function SplitLines(s: string): (r: seq<string>)
    ensures |r| > 0
    decreases |s|
  {
    var i := IndexOfNewline(s);
    if i == -1 then [s] else [s[..i]] + SplitLines(s[i + 1..])
  }

  /** One step of `strings.Split`: the text before the first newline, then the split of the rest. */
  lemma {:induction false} SplitLinesUnfold(s: string, i: int)
    requires i == IndexOfNewline(s) && i != -1
    ensures SplitLines(s) == [s[..i]] + SplitLines(s[i + 1..])
    ensures s == s[..i] + "\n" + s[i + 1..]
    ensures '\n' !in s[..i]
  {
    assert s[..i] + "\n" == s[..i + 1];
    assert s[..i + 1] + s[i + 1..] == s;
  }

  /** The pieces of `strings.Split(s, "\n")` hold no newline. */
  lemma {:induction false} SplitLinesHaveNoNewline(s: string)
    ensures forall k :: 0 <= k < |SplitLines(s)| ==> '\n' !in SplitLines(s)[k]
    decreases |s|
  {
    var i := IndexOfNewline(s);
    if i != -1 {
      SplitLinesHaveNoNewline(s[i + 1..]);
      SplitLinesUnfold(s, i);
      PrependPreserves(s[..i], SplitLines(s[i + 1..]));
    }
  }

  lemma {:induction false} PrependPreserves(x: string, rest: seq<string>)
    requires '\n' !in x
    requires forall k :: 0 <= k < |rest| ==> '\n' !in rest[k]
    ensures forall k :: 0 <= k < |[x] + rest| ==> '\n' !in ([x] + rest)[k]
  {
    forall k | 0 < k < |[x] + rest|
      ensures '\n' !in ([x] + rest)[k]
    {
      assert ([x] + rest)[k] == rest[k - 1];
    }
  }

  /** `strings.Join(ls, sep)`, defined from the last element. */
  function Join(ls: seq<string>, sep: string): string {
    if |ls| == 0 then ""
    else if |ls| == 1 then ls[0]
    else Join(ls[..|ls| - 1], sep) + sep + ls[|ls| - 1]
  }

  lemma {:induction false} JoinCons(x: string, ls: seq<string>, sep: string)
    requires |ls| > 0
    ensures Join([x] + ls, sep) == x + sep + Join(ls, sep)
    decreases |ls|
  {
    if |ls| == 1 {
    } else {
      var ls' := ls[..|ls| - 1];
      assert ([x] + ls)[..|[x] + ls| - 1] == [x] + ls';
      JoinCons(x, ls', sep);
    }
  }

  /** Joining the pieces of `strings.Split` with newlines gives the text back. */
  lemma {:induction false} JoinSplitLines(s: string)
    ensures Join(SplitLines(s), "\n") == s
    decreases |s|
  {
    var i := IndexOfNewline(s);
    if i != -1 {
      var x, t := s[..i], s[i + 1..];
      JoinSplitLines(t);
      SplitLinesUnfold(s, i);
      JoinCons(x, SplitLines(t), "\n");
    }
  }

  /** `strings.Replace(t, "\r\n", "\n", -1)`. */
  function ReplaceCrlf(t: string): (r: string)
    decreases |t|
  {
    if |t| >= 2 && t[0] == '\r' && t[1] == '\n' then "\n" + ReplaceCrlf(t[2..])
    else if t == [] then ""
    else [t[0]] + ReplaceCrlf(t[1..])
  }

  /** `strings.LastIndex(s, string(c))`. */
  function LastIndexOf(s: string, c: char): (r: int)
    ensures -1 <= r < |s|
    ensures r >= 0 ==> s[r] == c
    ensures forall j :: r < j < |s| ==> s[j] != c
  {
    if s == [] then -1
    else if s[|s| - 1] == c then |s| - 1
    else LastIndexOf(s[..|s| - 1], c)
  }

  /** `strings.Contains(s, sub)`. */
  predicate Contains(s: string, sub: string)
    decreases |s|
  {
    HasPrefix(s, sub) || (|s| > 0 && Contains(s[1..], sub))
  }

  /** The bytes Go's `unicode.IsSpace` accepts below 0x80. */
  predicate IsSpace(c: char) {
    c == ' ' || c == '\t' || c == '\n' || c == '\r' || c == '\U{0B}' || c == '\U{0C}'
  }

  function TrimLeftSpace(s: string): (r: string)
    ensures |r| <= |s| && r == s[|s| - |r|..]
    ensures r == [] || !IsSpace(r[0])
  {
    if |s| > 0 && IsSpace(s[0]) then TrimLeftSpace(s[1..]) else s
  }

  function TrimRightSpace(s: string): (r: string)
    ensures |r| <= |s| && r == s[..|r|]
    ensures r == [] || !IsSpace(r[|r| - 1])
  {
    if |s| > 0 && IsSpace(s[|s| - 1]) then TrimRightSpace(s[..|s| - 1]) else s
  }

  /** `strings.TrimSpace(s)`, for ASCII white space. */
  function TrimSpace(s: string): (r: string)
    ensures r == [] || (!IsSpace(r[0]) && !IsSpace(r[|r| - 1]))
  {
    TrimRightSpace(TrimLeftSpace(s))
  }

  /** `strings.Repeat(s, n)`. */
  function Repeat(s: string, n: nat): (r: string)
    ensures |r| == n * |s|
  {
    if n == 0 then "" else Repeat(s, n - 1) + s
  }

  predicate IsDigit(c: char) {
    '0' <= c <= '9'
  }

  /** A byte matched by the regular-expression class `\w`. */
  predicate IsWordChar(c: char) {
    IsDigit(c) || ('a' <= c <= 'z') || ('A' <= c <= 'Z') || c == '_'
  }

  predicate AllDigits(s: string) {
    forall i :: 0 <= i < |s| ==> IsDigit(s[i])
  }

  /** The number a string of decimal digits denotes. */
  function DecimalValue(s: string): nat
    requires AllDigits(s)
  {
    if s == [] then 0 else DecimalValue(s[..|s| - 1]) * 10 + (s[|s| - 1] as int - '0' as int)
  }

  function DigitChar(d: nat): (c: char)
    requires d < 10
    ensures IsDigit(c) && c as int - '0' as int == d
  {
    ('0' as int + d) as char
  }

  /** The shortest decimal spelling of `n`. */
  function NatToDecimal(n: nat): (r: string)
    ensures |r| > 0 && AllDigits(r)
    ensures DecimalValue(r) == n
  {
    if n < 10 then [DigitChar(n)]
    else
      var r := NatToDecimal(n / 10) + [DigitChar(n % 10)];
      assert r[..|r| - 1] == NatToDecimal(n / 10);
      r
  }

  /** `strconv.Itoa(n)` and `fmt`'s `%d`. */
  function Itoa(n: int): (r: string)
    ensures |r| > 0
    ensures n >= 0 ==> AllDigits(r) && DecimalValue(r) == n
    ensures n < 0 ==> r[0] == '-' && AllDigits(r[1..]) && |r| > 1 && DecimalValue(r[1..]) == -n
  {
    if n < 0 then "-" + NatToDecimal(-n) else NatToDecimal(n)
  }

  /** The error `strconv.Atoi` reports for a digit string whose value does not fit an `int`. */
  datatype RangeError = RangeError(digits: string)

  /**
    `strconv.Atoi` on a string already known to be a run of decimal digits:
    it fails exactly when the value exceeds the 64-bit `int` range.
   */
  function Atoi(digits: string): (r: Result<int, RangeError>)
    requires AllDigits(digits)
    ensures r.Ok? <==> DecimalValue(digits) <= MaxInt64
    ensures r.Ok? ==> r.value == DecimalValue(digits)
    ensures r.Err? ==> r.error.digits == digits
  {
    var v := DecimalValue(digits);
    if v <= MaxInt64 then Ok(v) else Err(RangeError(digits))
  }

  /** What `%d` prints, `strconv.Atoi` reads back. */
  lemma {:induction false} AtoiItoa(n: int)
    requires 0 <= n <= MaxInt64
    ensures AllDigits(Itoa(n)) && Atoi(Itoa(n)) == Ok(n)
  {
  }
}
