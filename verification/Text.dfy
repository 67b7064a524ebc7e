/** A value that may be absent: the source's null or undefined. */
module Options {
  datatype Option<+T> = None | Some(value: T) {
    function GetOr(default: T): T {
      match this
      case None => default
      case Some(v) => v
    }
  }
}

/** Lists without repeats, and what a loop that appends to a list computes. */
module Sequences {

  predicate NoRepeats<T(==)>(items: seq<T>) {
    forall i, j :: 0 <= i < j < |items| ==> items[i] != items[j]
  }

  /** The pieces of all items, one after another. */
  function FlatMap<T, U>(items: seq<T>, piece: T -> seq<U>): seq<U>
    decreases |items|
  {
    if items == [] then [] else FlatMap(items[..|items| - 1], piece) + piece(items[|items| - 1])
  }

  lemma FlatMapSnoc<T, U>(items: seq<T>, item: T, piece: T -> seq<U>)
    ensures FlatMap(items + [item], piece) == FlatMap(items, piece) + piece(item)
  {
    assert (items + [item])[..|items|] == items;
  }

  lemma {:induction false} FlatMapAppend<T, U>(a: seq<T>, b: seq<T>, piece: T -> seq<U>)
    ensures FlatMap(a + b, piece) == FlatMap(a, piece) + FlatMap(b, piece)
    decreases |b|
  {
    if b == [] {
      assert a + b == a;
    } else {
      var n := |b| - 1;
      FlatMapAppend(a, b[..n], piece);
      assert (a + b)[..|a + b| - 1] == a + b[..n];
    }
  }
}

/**
 The string operations the admin panel's readers are built on: String.prototype.trim,
 split, join and padStart, and decimal text. Strings are sequences of characters.
 */
module Text {

  // ---- trim ----

  /** The characters String.prototype.trim removes (WhiteSpace and LineTerminator of ECMA-262). */
  predicate IsSpace(c: char) {
    var n := c as int;
    || n == 0x20 || 0x09 <= n <= 0x0D || n == 0xA0 || n == 0x1680 || 0x2000 <= n <= 0x200A
    || n == 0x2028 || n == 0x2029 || n == 0x202F || n == 0x205F || n == 0x3000 || n == 0xFEFF
  }

  function TrimStart(s: string): string {
    if s != "" && IsSpace(s[0]) then TrimStart(s[1..]) else s
  }

  function TrimEnd(s: string): string {
    if s != "" && IsSpace(s[|s| - 1]) then TrimEnd(s[..|s| - 1]) else s
  }

  function Trim(s: string): string {
    TrimEnd(TrimStart(s))
  }

  /** Nothing left to trim. */
  predicate Trimmed(s: string) {
    s == "" || (!IsSpace(s[0]) && !IsSpace(s[|s| - 1]))
  }

  lemma {:induction false} TrimStartTrims(s: string)
    ensures TrimStart(s) == "" || !IsSpace(TrimStart(s)[0])
  {
    if s != "" && IsSpace(s[0]) { TrimStartTrims(s[1..]); }
  }

  lemma {:induction false} TrimEndKeepsHead(s: string)
    requires s == "" || !IsSpace(s[0])
    ensures Trimmed(TrimEnd(s))
  {
    if s != "" && IsSpace(s[|s| - 1]) {
      var t := s[..|s| - 1];
      assert t == "" || t[0] == s[0];
      TrimEndKeepsHead(t);
    }
  }

  /** A trimmed text is a fixed point of trim, and trim always yields one. */
  lemma TrimIsTrimmed(s: string)
    ensures Trimmed(Trim(s))
    ensures Trimmed(s) ==> Trim(s) == s
    ensures Trim(Trim(s)) == Trim(s)
  {
    TrimStartTrims(s);
    TrimEndKeepsHead(TrimStart(s));
  }

  lemma TrimDropsLeadingSpace(s: string)
    requires Trimmed(s)
    ensures Trim(" " + s) == s
  {
    assert (" " + s)[1..] == s;
    TrimIsTrimmed(s);
    if s == "" {
    } else {
      assert TrimStart(" " + s) == TrimStart(s);
    }
  }

  predicate Blank(s: string) {
    forall k :: 0 <= k < |s| ==> IsSpace(s[k])
  }

  lemma {:induction false} TrimStartDrops(front: string, s: string)
    requires Blank(front) && (s == "" || !IsSpace(s[0]))
    ensures TrimStart(front + s) == s
    decreases |front|
  {
    if front == "" {
      assert front + s == s;
    } else {
      assert (front + s)[1..] == front[1..] + s && (front + s)[0] == front[0];
      TrimStartDrops(front[1..], s);
    }
  }

  lemma {:induction false} TrimEndDrops(s: string, back: string)
    requires Blank(back) && (s == "" || !IsSpace(s[|s| - 1]))
    ensures TrimEnd(s + back) == s
    decreases |back|
  {
    if back == "" {
      assert s + back == s;
    } else {
      var n := |back| - 1;
      assert (s + back)[..|s + back| - 1] == s + back[..n];
      TrimEndDrops(s, back[..n]);
    }
  }

  /** What trim leaves of a text is the text without the white space around it. */
  lemma TrimIsMiddle(front: string, s: string, back: string)
    requires Blank(front) && Trimmed(s) && Blank(back)
    ensures Trim(front + s + back) == s
  {
    if s == "" {
      TrimStartDrops(front + back, "");
      assert front + s + back == front + back + "";
    } else {
      TrimStartDrops(front, s + back);
      assert front + s + back == front + (s + back) && (s + back)[0] == s[0];
      TrimEndDrops(s, back);
    }
  }

  // ---- split and join ----

  predicate Free(s: string, c: char) {
    forall k :: 0 <= k < |s| ==> s[k] != c
  }

  function Split(s: string, sep: char): (pieces: seq<string>)
    ensures |pieces| >= 1
    ensures forall k :: 0 <= k < |pieces| ==> Free(pieces[k], sep)
  {
    if s == "" then
      [""]
    else
      var rest := Split(s[1..], sep);
      if s[0] == sep then [""] + rest else [[s[0]] + rest[0]] + rest[1..]
  }

  function Join(items: seq<string>, glue: string): string {
    if |items| == 0 then ""
    else if |items| == 1 then items[0]
    else items[0] + glue + Join(items[1..], glue)
  }

  lemma {:induction false} SplitWhole(s: string, sep: char)
    requires Free(s, sep)
    ensures Split(s, sep) == [s]
  {
    if s != "" {
      assert forall k :: 0 <= k < |s| - 1 ==> s[1..][k] == s[k + 1];
      SplitWhole(s[1..], sep);
      assert [s[0]] + s[1..] == s;
    }
  }

  lemma {:induction false} SplitFirst(a: string, sep: char, b: string)
    requires Free(a, sep)
    ensures Split(a + [sep] + b, sep) == [a] + Split(b, sep)
  {
    var s := a + [sep] + b;
    if a == "" {
      assert s[1..] == b;
    } else {
      assert forall k :: 0 <= k < |a| - 1 ==> a[1..][k] == a[k + 1];
      assert s[1..] == a[1..] + [sep] + b;
      SplitFirst(a[1..], sep, b);
      assert [s[0]] + a[1..] == a;
    }
  }

  /** The pieces of a list written with "sep, then a space" between its items. */
  function Spaced(items: seq<string>): (pieces: seq<string>)
    ensures |pieces| == |items|
  {
    seq(|items|, i requires 0 <= i < |items| => if i == 0 then items[0] else " " + items[i])
  }

  lemma SplitAfterSpace(t: string, sep: char)
    requires sep != ' '
    ensures Split(" " + t, sep) == [" " + Split(t, sep)[0]] + Split(t, sep)[1..]
  {
    assert (" " + t)[1..] == t;
  }

  lemma {:induction false} SplitOfJoin(items: seq<string>, sep: char)
    requires |items| >= 1
    requires sep != ' '
    requires forall k :: 0 <= k < |items| ==> Free(items[k], sep)
    ensures Split(Join(items, [sep, ' ']), sep) == Spaced(items)
    decreases |items|
  {
    if |items| == 1 {
      SplitWhole(items[0], sep);
    } else {
      var rest := items[1..];
      var tail := Join(rest, [sep, ' ']);
      SplitOfJoin(rest, sep);
      SplitAfterSpace(tail, sep);
      SplitFirst(items[0], sep, " " + tail);
      assert Join(items, [sep, ' ']) == items[0] + [sep] + (" " + tail);
      SpacedSplitsOff(items);
    }
  }

  lemma SpacedSplitsOff(items: seq<string>)
    requires |items| >= 2
    ensures Spaced(items) == [items[0], " " + Spaced(items[1..])[0]] + Spaced(items[1..])[1..]
  {
  }

  function TrimAll(pieces: seq<string>): (r: seq<string>)
    ensures |r| == |pieces|
    ensures forall k :: 0 <= k < |r| ==> r[k] == Trim(pieces[k])
  {
    seq(|pieces|, i requires 0 <= i < |pieces| => Trim(pieces[i]))
  }

  lemma TrimAllOfSpaced(items: seq<string>)
    requires forall k :: 0 <= k < |items| ==> Trimmed(items[k])
    ensures TrimAll(Spaced(items)) == items
  {
    forall k | 0 <= k < |items| ensures Trim(Spaced(items)[k]) == items[k] {
      TrimIsTrimmed(items[k]);
      TrimDropsLeadingSpace(items[k]);
    }
  }

  // ---- decimal text ----

  predicate IsDigit(c: char) {
    '0' <= c <= '9'
  }

  predicate AllDigits(s: string) {
    forall k :: 0 <= k < |s| ==> IsDigit(s[k])
  }

  function DigitValue(c: char): (d: nat)
    requires IsDigit(c)
    ensures d < 10
  {
    c as int - '0' as int
  }

  function DigitChar(d: nat): (c: char)
    requires d < 10
    ensures IsDigit(c) && DigitValue(c) == d
  {
    (d + '0' as int) as char
  }

  lemma DigitsAreTrimmed(text: string)
    requires text != "" && AllDigits(text)
    ensures Trim(text) == text
  {
    assert IsDigit(text[0]) && IsDigit(text[|text| - 1]);
    TrimIsTrimmed(text);
  }

  /** The number a digit string denotes. */
  function Value(s: string): nat
    requires AllDigits(s)
  {
    if s == "" then 0 else 10 * Value(s[..|s| - 1]) + DigitValue(s[|s| - 1])
  }

  /** String(n) for a natural number. */
  function Decimal(n: nat): (s: string)
    ensures s != "" && AllDigits(s)
    ensures |s| > 1 ==> s[0] != '0'
  {
    if n < 10 then [DigitChar(n)] else Decimal(n / 10) + [DigitChar(n % 10)]
  }

  lemma {:induction false} ValueOfDecimal(n: nat)
    ensures Value(Decimal(n)) == n
  {
    if n >= 10 {
      ValueOfDecimal(n / 10);
      assert Decimal(n)[..|Decimal(n)| - 1] == Decimal(n / 10);
    }
  }

  lemma DecimalInjective(m: nat, n: nat)
    ensures Decimal(m) == Decimal(n) ==> m == n
  {
    ValueOfDecimal(m);
    ValueOfDecimal(n);
  }

  function Power10(k: nat): (p: nat)
    ensures p >= 1
  {
    if k == 0 then 1 else 10 * Power10(k - 1)
  }

  /** A digit string of length k denotes less than 10^k, and at least 10^(k-1) without a leading zero. */
  lemma {:induction false} ValueBounds(s: string)
    requires AllDigits(s)
    ensures Value(s) < Power10(|s|)
    ensures s != "" && s[0] != '0' ==> Power10(|s| - 1) <= Value(s)
  {
    if s != "" {
      var t := s[..|s| - 1];
      ValueBounds(t);
      if t != "" {
        assert t[0] == s[0];
      }
    }
  }

  lemma {:induction false} Power10Grows(a: nat, b: nat)
    requires a <= b
    ensures Power10(a) <= Power10(b)
  {
    if a < b { Power10Grows(a, b - 1); }
  }

  lemma {:induction false} ValueIgnoresLeadingZero(s: string)
    requires AllDigits(s) && s != "" && s[0] == '0'
    ensures Value(s[1..]) == Value(s)
  {
    if |s| > 1 {
      var t := s[..|s| - 1];
      ValueIgnoresLeadingZero(t);
      assert s[1..][..|s| - 2] == t[1..];
    }
  }

  /** padStart(width, '0') */
  function PadZeros(s: string, width: nat): (r: string)
    ensures |r| >= width && |r| >= |s|
    decreases width - |s|
  {
    if |s| >= width then s else PadZeros("0" + s, width)
  }

  lemma {:induction false} PadZerosKeepsValue(s: string, width: nat)
    requires AllDigits(s)
    ensures AllDigits(PadZeros(s, width))
    ensures Value(PadZeros(s, width)) == Value(s)
    ensures |s| <= width ==> |PadZeros(s, width)| == width
    decreases width - |s|
  {
    if |s| < width {
      ValueIgnoresLeadingZero("0" + s);
      assert ("0" + s)[1..] == s;
      PadZerosKeepsValue("0" + s, width);
    }
  }

  // ---- runs of characters ----

  /** How many characters from the start satisfy p: the length a greedy character class matches. */
  function Run(s: string, p: char -> bool): (n: nat)
    ensures n <= |s|
    ensures forall k :: 0 <= k < n ==> p(s[k])
    ensures n < |s| ==> !p(s[n])
  {
    if s == "" || !p(s[0]) then 0 else 1 + Run(s[1..], p)
  }

  lemma {:induction false} RunStops(s: string, rest: string, p: char -> bool)
    requires forall k :: 0 <= k < |s| ==> p(s[k])
    requires rest == "" || !p(rest[0])
    ensures Run(s + rest, p) == |s|
  {
    if s == "" {
      assert s + rest == rest;
    } else {
      assert (s + rest)[1..] == s[1..] + rest;
      RunStops(s[1..], rest, p);
    }
  }
}
