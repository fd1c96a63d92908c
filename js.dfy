/** The JavaScript value semantics the tool handlers depend on: optional
    arguments, truthiness, the outcome of an awaited remote call, and the
    string built-ins (toLowerCase, trim, split, join, includes, number
    rendering) they use. */
module Js {

  /** An argument or field that may be missing (`undefined`/`null`). */
  datatype Option<+T> = None | Some(value: T)

  /** What an awaited remote call produced: its payload, or the message of
      the error it threw. */
  datatype Remote<+T> = Ok(value: T) | Err(message: string)

  type NonEmptyString = s: string | s != "" witness "?"

  /** Truthiness of an optional string: present and not "". */
  predicate Truthy(s: Option<string>) {
    s.Some? && s.value != ""
  }

  /** Truthiness of an optional number: present and not 0. */
  predicate TruthyNumber(n: Option<int>) {
    n.Some? && n.value != 0
  }

  /** `s || fallback` for an optional string. */
  function OrElse(s: Option<string>, fallback: string): (r: string)
    ensures Truthy(s) ==> r == s.value
    ensures !Truthy(s) ==> r == fallback
  {
    if Truthy(s) then s.value else fallback
  }

  /** How a template literal renders an optional string (`${undefined}`). */
  function Render(s: Option<string>): string {
    if s.Some? then s.value else "undefined"
  }

  // ---------------------------------------------------------------------
  // toLowerCase

  function LowerChar(c: char): char {
    if 'A' <= c <= 'Z' then (c as int + 32) as char else c
  }

  /** `s.toLowerCase()` on the ASCII letters. */
  function ToLower(s: string): (r: string)
    ensures |r| == |s|
    ensures forall i :: 0 <= i < |s| ==> r[i] == LowerChar(s[i])
  {
    if s == [] then [] else [LowerChar(s[0])] + ToLower(s[1..])
  }

  lemma {:induction false} ToLowerIdempotent(s: string)
    ensures ToLower(ToLower(s)) == ToLower(s)
  {
    var once := ToLower(s);
    var twice := ToLower(once);
    assert |twice| == |once|;
    forall i | 0 <= i < |once| ensures twice[i] == once[i] {
      assert once[i] == LowerChar(s[i]);
    }
  }

  // ---------------------------------------------------------------------
  // trim

  /** The WhiteSpace and LineTerminator code points that `trim` removes. */
  predicate IsSpace(c: char) {
    || c == '\t' || c == '\n' || c == '\U{000B}' || c == '\U{000C}' || c == '\r'
    || c == ' ' || c == '\U{00A0}' || c == '\U{1680}'
    || ('\U{2000}' <= c <= '\U{200A}')
    || c == '\U{2028}' || c == '\U{2029}' || c == '\U{202F}' || c == '\U{205F}'
    || c == '\U{3000}' || c == '\U{FEFF}'
  }

  /** The first index at or after `i` that holds no space, or |s|. */
  function SkipSpaces(s: string, i: nat): (k: nat)
    requires i <= |s|
    ensures i <= k <= |s|
    ensures forall m :: i <= m < k ==> IsSpace(s[m])
    ensures k < |s| ==> !IsSpace(s[k])
    decreases |s| - i
  {
    if i == |s| || !IsSpace(s[i]) then i else SkipSpaces(s, i + 1)
  }

  /** The end of `s[..j]` once trailing spaces at or after `lo` are dropped. */
  function DropTrailingSpaces(s: string, lo: nat, j: nat): (k: nat)
    requires lo <= j <= |s|
    ensures lo <= k <= j
    ensures forall m :: k <= m < j ==> IsSpace(s[m])
    ensures lo < k ==> !IsSpace(s[k - 1])
    decreases j
  {
    if j == lo || !IsSpace(s[j - 1]) then j else DropTrailingSpaces(s, lo, j - 1)
  }

  /** `s.trim()`: `s` without its leading and trailing white space; only
      white space is removed, and only at the two ends. */
  function Trim(s: string): (r: string)
    ensures exists lo, hi :: 0 <= lo <= hi <= |s| && r == s[lo..hi]
                             && (forall m :: 0 <= m < lo ==> IsSpace(s[m]))
                             && (forall m :: hi <= m < |s| ==> IsSpace(s[m]))
    ensures r == [] || (!IsSpace(r[0]) && !IsSpace(r[|r| - 1]))
  {
    var lo := SkipSpaces(s, 0);
    var hi := DropTrailingSpaces(s, lo, |s|);
    s[lo..hi]
  }

  lemma TrimOfUnpadded(s: string)
    requires s == [] || (!IsSpace(s[0]) && !IsSpace(s[|s| - 1]))
    ensures Trim(s) == s
  {
    var lo := SkipSpaces(s, 0);
    assert lo == 0;
    var hi := DropTrailingSpaces(s, lo, |s|);
    assert hi == |s|;
  }

  // ---------------------------------------------------------------------
  // split and join

  /** `s.split(sep)` for a one-character separator. */
  function Split(s: string, sep: char): (r: seq<string>)
    ensures |r| >= 1
    ensures forall i :: 0 <= i < |r| ==> sep !in r[i]
  {
    if s == [] then [[]]
    else
      var rest := Split(s[1..], sep);
      if s[0] == sep then [[]] + rest else [[s[0]] + rest[0]] + rest[1..]
  }

  /** `xs.join(sep)`. */
  function Join(xs: seq<string>, sep: string): string {
    if xs == [] then ""
    else if |xs| == 1 then xs[0]
    else xs[0] + sep + Join(xs[1..], sep)
  }

  /** The number of occurrences of `c` in `s`. */
  function Occurrences(s: string, c: char): nat {
    if s == [] then 0 else (if s[0] == c then 1 else 0) + Occurrences(s[1..], c)
  }

  /** Joining the pieces of a split with the separator gives the string back. */
  lemma {:induction false} JoinSplit(s: string, sep: char)
    ensures Join(Split(s, sep), [sep]) == s
  {
    if s != [] {
      var rest := Split(s[1..], sep);
      JoinSplit(s[1..], sep);
      if s[0] == sep {
        assert Split(s, sep) == [[]] + rest;
        assert ([[]] + rest)[1..] == rest;
      } else {
        var xs := [[s[0]] + rest[0]] + rest[1..];
        assert Split(s, sep) == xs;
        if |rest| == 1 {
          assert Join(rest, [sep]) == rest[0];
        } else {
          assert xs[1..] == rest[1..];
          assert Join(rest, [sep]) == rest[0] + [sep] + Join(rest[1..], [sep]);
        }
      }
    }
  }

  /** The last of two or more joined pieces ends the text, right after a
      separator. */
  lemma {:induction false} JoinLast(xs: seq<string>, sep: string)
    requires |xs| >= 2
    ensures EndsWith(Join(xs, sep), sep + xs[|xs| - 1])
  {
    var tail := sep + xs[|xs| - 1];
    if |xs| == 2 {
      assert xs[1..] == [xs[1]];
      assert Join(xs, sep) == xs[0] + tail;
    } else {
      var rest := Join(xs[1..], sep);
      JoinLast(xs[1..], sep);
      assert xs[1..][|xs[1..]| - 1] == xs[|xs| - 1];
      assert Join(xs, sep) == (xs[0] + sep) + rest;
      assert rest[|rest| - |tail|..] == tail;
      assert ((xs[0] + sep) + rest)[|xs[0] + sep| + |rest| - |tail|..] == rest[|rest| - |tail|..];
    }
  }

  /** A split yields one piece more than there are separators. */
  lemma {:induction false} SplitCount(s: string, sep: char)
    ensures |Split(s, sep)| == Occurrences(s, sep) + 1
  {
    if s != [] {
      SplitCount(s[1..], sep);
    }
  }

  // ---------------------------------------------------------------------
  // includes and endsWith

  /** `s.endsWith(suffix)`. */
  predicate EndsWith(s: string, suffix: string) {
    |suffix| <= |s| && s[|s| - |suffix|..] == suffix
  }

  /** `s.includes(sub)`. */
  predicate Contains(s: string, sub: string) {
    sub <= s || (s != [] && Contains(s[1..], sub))
  }

  lemma {:induction false} ContainsInfix(a: string, sub: string, b: string)
    ensures Contains(a + sub + b, sub)
  {
    if a != [] {
      assert (a + sub + b)[1..] == a[1..] + sub + b;
      ContainsInfix(a[1..], sub, b);
    }
  }

  // ---------------------------------------------------------------------
  // numbers in template literals

  function DigitChar(d: nat): char
    requires d < 10
  {
    "0123456789"[d]
  }

  /** The decimal text of a non-negative integer, as `${n}` renders it. */
  function NatToString(n: nat): (r: string)
    ensures r != []
    ensures forall i :: 0 <= i < |r| ==> '0' <= r[i] <= '9'
  {
    if n < 10 then [DigitChar(n)] else NatToString(n / 10) + [DigitChar(n % 10)]
  }

  /** The value of a string of decimal digits. */
  function ParseNat(s: string): nat
    requires forall i :: 0 <= i < |s| ==> '0' <= s[i] <= '9'
  {
    if s == [] then 0 else ParseNat(s[..|s| - 1]) * 10 + (s[|s| - 1] as int - '0' as int)
  }

  /** The rendered number reads back as itself, so distinct counts render differently. */
  lemma {:induction false} ParseNatToString(n: nat)
    ensures ParseNat(NatToString(n)) == n
  {
    var r := NatToString(n);
    if n >= 10 {
      ParseNatToString(n / 10);
      assert r[..|r| - 1] == NatToString(n / 10);
    }
  }

  lemma NatToStringInjective(m: nat, n: nat)
    requires NatToString(m) == NatToString(n)
    ensures m == n
  {
    ParseNatToString(m);
    ParseNatToString(n);
  }

  predicate IsDigit(c: char) {
    '0' <= c <= '9'
  }

  /** The length of the run of decimal digits `s` starts with. */
  function DigitRun(s: string): (k: nat)
    ensures k <= |s|
    ensures forall i :: 0 <= i < k ==> IsDigit(s[i])
    ensures k < |s| ==> !IsDigit(s[k])
  {
    if s == [] || !IsDigit(s[0]) then 0 else 1 + DigitRun(s[1..])
  }

  /** Reads the number `s` starts with and returns it with the rest of `s`. */
  function TakeNumber(s: string): (nat, string) {
    var k := DigitRun(s);
    (ParseNat(s[..k]), s[k..])
  }

  /** A rendered number followed by text that does not start with a digit
      reads back as that number and that text. */
  lemma {:induction false} TakeNumberOf(n: nat, rest: string)
    requires rest == [] || !IsDigit(rest[0])
    ensures TakeNumber(NatToString(n) + rest) == (n, rest)
  {
    var digits := NatToString(n);
    var s := digits + rest;
    assert DigitRun(s) == |digits| by {
      DigitRunOfDigits(digits, rest);
    }
    assert s[..|digits|] == digits;
    assert s[|digits|..] == rest;
    ParseNatToString(n);
  }

  /** The same, for a number rendered after some leading text. */
  lemma NumberAfter(head: string, n: nat, rest: string)
    requires rest == [] || !IsDigit(rest[0])
    ensures var s := head + NatToString(n) + rest;
      && TakeNumber(s[|head|..]) == (n, rest)
      && s[|head| + |NatToString(n)|..] == rest
  {
    var s := head + NatToString(n) + rest;
    assert s[|head|..] == NatToString(n) + rest;
    TakeNumberOf(n, rest);
  }

  /** A numbered entry `n. middle tail` reads back as `n` and the rest, and
      ends with `tail`. */
  lemma NumberedEntry(n: nat, middle: string, tail: string)
    ensures var s := NatToString(n) + ". " + middle + tail;
      && TakeNumber(s) == (n, ". " + middle + tail)
      && EndsWith(s, tail)
  {
    var rest := ". " + middle + tail;
    var s := NatToString(n) + ". " + middle + tail;
    assert s == "" + NatToString(n) + rest;
    NumberAfter("", n, rest);
    assert s[|s| - |tail|..] == tail;
  }

  lemma {:induction false} DigitRunOfDigits(digits: string, rest: string)
    requires forall i :: 0 <= i < |digits| ==> IsDigit(digits[i])
    requires rest == [] || !IsDigit(rest[0])
    ensures DigitRun(digits + rest) == |digits|
  {
    if digits != [] {
      assert (digits + rest)[1..] == digits[1..] + rest;
      DigitRunOfDigits(digits[1..], rest);
    } else {
      assert digits + rest == rest;
    }
  }

  // ---------------------------------------------------------------------
  // map with the index

  /** `xs.map((x, index) => f(index, x))`, with indices counted from `from`. */
  function MapIndexed<T>(xs: seq<T>, from: nat, f: (nat, T) -> string): (r: seq<string>)
    ensures |r| == |xs|
    ensures forall i :: 0 <= i < |xs| ==> r[i] == f(from + i, xs[i])
    decreases |xs|
  {
    if xs == [] then [] else [f(from, xs[0])] + MapIndexed(xs[1..], from + 1, f)
  }
}
