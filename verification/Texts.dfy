/** Words, numerals and trimming inside a line. */
module Texts {
  import opened Splitting
  import opened Characters

  predicate AllDigits(s: string) {
    forall i :: 0 <= i < |s| ==> IsDigit(s[i])
  }

  function DigitChar(d: nat): char
    requires d < 10
  {
    '0' + d as char
  }

  function DigitValue(c: char): nat
    requires IsDigit(c)
  {
    (c - '0') as nat
  }

  /** `n` in decimal, without leading zeros. */
  function Digits(n: nat): (s: string)
    ensures s != "" && AllDigits(s)
  {
    if n < 10 then [DigitChar(n)] else Digits(n / 10) + [DigitChar(n % 10)]
  }

  function Number(s: string): nat
    requires AllDigits(s)
  {
    if s == "" then 0 else 10 * Number(Front(s)) + DigitValue(Last(s))
  }

  lemma {:induction false} NumberOfDigits(n: nat)
    ensures Number(Digits(n)) == n
  {
    if n >= 10 {
      NumberOfDigits(n / 10);
      assert Front(Digits(n)) == Digits(n / 10);
    }
  }

  /** Different numbers print differently. */
  lemma DigitsInjective(a: nat, b: nat)
    requires Digits(a) == Digits(b)
    ensures a == b
  {
    NumberOfDigits(a);
    NumberOfDigits(b);
  }

  function Signed(n: int): string {
    if n < 0 then "-" + Digits(-n) else Digits(n)
  }

  /** `isdigit()` then `int()`, with a fallback for anything else. */
  function NumberOr(s: string, fallback: nat): nat {
    if s != "" && AllDigits(s) then Number(s) else fallback
  }

  // --- Words ---

  /** A field that survives being written between separators: non-empty, no whitespace. */
  predicate IsWord(s: string) {
    s != "" && forall i :: 0 <= i < |s| ==> !IsSpace(s[i])
  }

  predicate AllWords(ws: seq<string>) {
    forall i :: 0 <= i < |ws| ==> IsWord(ws[i])
  }

  /** Length of the leading run of non-whitespace. */
  function WordLength(s: string): (n: nat)
    ensures n <= |s|
    ensures forall i :: 0 <= i < n ==> !IsSpace(s[i])
    ensures n < |s| ==> IsSpace(s[n])
  {
    if s == "" || IsSpace(s[0]) then 0 else 1 + WordLength(s[1..])
  }

  /** Python's `split()`: the maximal runs of non-whitespace. */
  function Words(s: string): (ws: seq<string>)
    ensures AllWords(ws)
    decreases |s|
  {
    if s == "" then []
    else if IsSpace(s[0]) then Words(s[1..])
    else
      var n := WordLength(s);
      [s[..n]] + Words(s[n..])
  }

  lemma {:induction false} WordLengthOf(w: string, rest: string)
    requires forall i :: 0 <= i < |w| ==> !IsSpace(w[i])
    requires rest == "" || IsSpace(rest[0])
    ensures WordLength(w + rest) == |w|
  {
    if w == "" {
      assert w + rest == rest;
    } else {
      assert (w + rest)[1..] == w[1..] + rest;
      WordLengthOf(w[1..], rest);
    }
  }

  /** A word followed by whitespace is the first word, and the rest is read on its own. */
  lemma WordThen(w: string, c: char, rest: string)
    requires IsWord(w) && IsSpace(c)
    ensures Words(w + [c] + rest) == [w] + Words(rest)
  {
    var s := w + [c] + rest;
    assert s == w + ([c] + rest);
    WordLengthOf(w, [c] + rest);
    assert s[|w|..] == [c] + rest;
    assert ([c] + rest)[1..] == rest;
    assert s[..|w|] == w;
  }

  lemma OneWord(w: string)
    requires IsWord(w)
    ensures Words(w) == [w]
  {
    WordLengthOf(w, "");
    assert w + "" == w;
    assert w[|w|..] == "";
  }

  /** Words joined by a whitespace character read back as the same words. */
  lemma {:induction false} WordsOfJoin(ws: seq<string>, c: char)
    requires AllWords(ws) && IsSpace(c)
    ensures Words(Join(ws, c)) == ws
  {
    if |ws| == 1 {
      OneWord(ws[0]);
    } else if |ws| > 1 {
      WordThen(ws[0], c, Join(ws[1..], c));
      WordsOfJoin(ws[1..], c);
    }
  }

  /** Words carry no newline, so a line built from them is one line. */
  lemma {:induction false} JoinStaysFree(ws: seq<string>, c: char, banned: char)
    requires c != banned
    requires forall i :: 0 <= i < |ws| ==> banned !in ws[i]
    ensures banned !in Join(ws, c)
  {
    if |ws| > 1 {
      JoinStaysFree(ws[1..], c, banned);
    }
  }

  lemma DigitsAreWords(n: nat)
    ensures IsWord(Digits(n)) && '\n' !in Digits(n) && ',' !in Digits(n)
  {
    var s := Digits(n);
    forall i | 0 <= i < |s| ensures !IsSpace(s[i]) && s[i] != ',' {
      assert IsDigit(s[i]);
    }
  }

  function TrimStart(s: string): string {
    if s != "" && IsSpace(s[0]) then TrimStart(s[1..]) else s
  }

  function TrimEnd(s: string): string {
    if s != "" && IsSpace(Last(s)) then TrimEnd(Front(s)) else s
  }

  function Strip(s: string): string {
    TrimEnd(TrimStart(s))
  }

  lemma {:induction false} TrimEndIsPrefix(s: string)
    ensures TrimEnd(s) <= s
  {
    if s != "" && IsSpace(Last(s)) {
      TrimEndIsPrefix(Front(s));
    }
  }

  predicate AllSpaces(s: string) {
    forall i :: 0 <= i < |s| ==> IsSpace(s[i])
  }

  lemma {:induction false} TrimStartDrops(pad: string, s: string)
    requires AllSpaces(pad)
    ensures TrimStart(pad + s) == TrimStart(s)
  {
    if pad == "" {
      assert pad + s == s;
    } else {
      assert (pad + s)[1..] == pad[1..] + s;
      TrimStartDrops(pad[1..], s);
    }
  }

  lemma {:induction false} TrimEndDrops(s: string, pad: string)
    requires AllSpaces(pad)
    ensures TrimEnd(s + pad) == TrimEnd(s)
  {
    if pad == "" {
      assert s + pad == s;
    } else {
      assert Front(s + pad) == s + Front(pad) && Last(s + pad) == Last(pad);
      TrimEndDrops(s, Front(pad));
    }
  }

  /** Stripping takes the padding off both ends and nothing else. */
  lemma StripOfPadded(a: string, w: string, b: string)
    requires AllSpaces(a) && AllSpaces(b)
    requires w == "" || (!IsSpace(w[0]) && !IsSpace(Last(w)))
    ensures Strip(a + (w + b)) == w
  {
    TrimStartDrops(a, w + b);
    if w == "" {
      assert w + b == b + "";
      TrimStartDrops(b, "");
    } else {
      assert (w + b)[0] == w[0];
      TrimEndDrops(w, b);
    }
  }
}
