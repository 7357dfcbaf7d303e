/** Text-level building blocks: positional numerals as strconv prints and reads
    them, and separator-delimited fields as bytes.Split reads them. */
module Text {

  datatype Option<+T> = None | Some(value: T)

  const UINT64_LIMIT: nat := 0x1_0000_0000_0000_0000

  /* ---------- numerals ---------- */

  function Digit(d: nat): char
    requires d < 36
  {
    if d < 10 then (d + 48) as char else (d + 87) as char
  }

  predicate IsDigit(c: char) { '0' <= c <= '9' }

  function DigitValue(c: char): nat
  {
    if IsDigit(c) then c as nat - 48 else if 'a' <= c <= 'z' then c as nat - 87 else 0
  }

  lemma {:induction false} DoubledAtMost(q: nat, base: nat)
    requires 2 <= base
    ensures 2 * q <= q * base
  {
    if base > 2 {
      DoubledAtMost(q, base - 1);
      assert q * base == q * (base - 1) + q;
    }
  }

  lemma QuotientShrinks(n: nat, base: nat)
    requires 2 <= base <= n
    ensures 0 <= n / base < n
    ensures n == (n / base) * base + n % base
  {
    var q, r := n / base, n % base;
    assert n == q * base + r;
    DoubledAtMost(q, base);
  }

  /** The numeral of `n`, as strconv.FormatUint(n, base) prints it. */
  function Format(n: nat, base: nat): (s: string)
    requires 2 <= base <= 36
    ensures |s| > 0
    ensures forall c | c in s :: IsDigit(c) || 'a' <= c <= 'z'
    ensures base == 10 ==> forall c | c in s :: IsDigit(c)
    decreases n
  {
    if n < base then [Digit(n)]
    else
      QuotientShrinks(n, base);
      Format(n / base, base) + [Digit(n % base)]
  }

  function Decimal(n: nat): string { Format(n, 10) }

  /** The number a numeral stands for; leading zeros do not matter. */
  function Value(s: string, base: nat): nat
  {
    if s == "" then 0 else Value(s[..|s| - 1], base) * base + DigitValue(s[|s| - 1])
  }

  lemma {:induction false} ValueOfFormat(n: nat, base: nat)
    requires 2 <= base <= 36
    ensures Value(Format(n, base), base) == n
    decreases n
  {
    var s := Format(n, base);
    if n < base {
      assert s[..0] == "";
    } else {
      QuotientShrinks(n, base);
      ValueOfFormat(n / base, base);
      assert s[..|s| - 1] == Format(n / base, base);
    }
  }

  lemma FormatInjective(a: nat, b: nat, base: nat)
    requires 2 <= base <= 36
    requires Format(a, base) == Format(b, base)
    ensures a == b
  {
    ValueOfFormat(a, base);
    ValueOfFormat(b, base);
  }

  predicate AllDigits(s: string) { s != "" && forall c | c in s :: IsDigit(c) }

  /** strconv.ParseUint(s, 10, 64): digits only, at least one, below 2^64. */
  function ParseUint(s: string): Option<nat>
  {
    if AllDigits(s) && Value(s, 10) < UINT64_LIMIT then Some(Value(s, 10)) else None
  }

  function FormatInt(i: int): string
  {
    if i < 0 then "-" + Decimal(-i) else Decimal(i)
  }

  /** A signed decimal numeral of any size. */
  function ParseInt(s: string): Option<int>
  {
    if AllDigits(s) then Some(Value(s, 10) as int)
    else if s != "" && s[0] == '-' && AllDigits(s[1..]) then Some(0 - Value(s[1..], 10))
    else None
  }

  lemma ParseIntOfFormatInt(i: int)
    ensures ParseInt(FormatInt(i)) == Some(i)
  {
    ValueOfFormat(if i < 0 then -i else i, 10);
    if i < 0 {
      assert FormatInt(i)[1..] == Decimal(-i);
      assert FormatInt(i)[0] in FormatInt(i);
    }
  }

  lemma FormatIntPlain(i: int)
    ensures '|' !in FormatInt(i) && '\n' !in FormatInt(i)
  {
  }

  /* ---------- separated fields ---------- */

  /** Index of the first `c`, or |s| when there is none. */
  function IndexOf(s: string, c: char): (i: nat)
    ensures i <= |s|
    ensures i < |s| ==> s[i] == c
    ensures c !in s[..i]
  {
    if s == "" || s[0] == c then 0
    else
      var i := 1 + IndexOf(s[1..], c);
      assert s[..i] == [s[0]] + s[1..][..i - 1];
      i
  }

  /** bytes.Split with a one-byte separator. */
  function Split(s: string, sep: char): (parts: seq<string>)
    ensures |parts| >= 1
    ensures forall p | p in parts :: sep !in p
    decreases |s|
  {
    var i := IndexOf(s, sep);
    if i == |s| then assert s[..i] == s; [s] else [s[..i]] + Split(s[i + 1..], sep)
  }

  /** bytes.SplitN: at most n fields, the last one unsplit. */
  function SplitN(s: string, sep: char, n: nat): (parts: seq<string>)
    requires n >= 1
    ensures 1 <= |parts| <= n
    decreases n
  {
    var i := IndexOf(s, sep);
    if n == 1 || i == |s| then [s] else [s[..i]] + SplitN(s[i + 1..], sep, n - 1)
  }

  lemma {:induction false} SplitNIsSplit(s: string, sep: char, n: nat)
    requires |Split(s, sep)| <= n
    ensures SplitN(s, sep, n) == Split(s, sep)
    decreases n
  {
    var i := IndexOf(s, sep);
    if i < |s| {
      SplitNIsSplit(s[i + 1..], sep, n - 1);
    }
  }

  /** Every part followed by the terminator, in order. */
  function Terminated(parts: seq<string>, c: char): string
  {
    if parts == [] then "" else parts[0] + [c] + Terminated(parts[1..], c)
  }

  lemma {:induction false} TerminatedConcat(a: seq<string>, b: seq<string>, c: char)
    ensures Terminated(a + b, c) == Terminated(a, c) + Terminated(b, c)
  {
    if a == [] {
      assert a + b == b;
    } else {
      TerminatedConcat(a[1..], b, c);
      assert (a + b)[1..] == a[1..] + b;
    }
  }

  lemma TerminatedSnoc(a: seq<string>, p: string, c: char)
    ensures Terminated(a + [p], c) == Terminated(a, c) + p + [c]
  {
    TerminatedConcat(a, [p], c);
    assert Terminated([p], c) == p + [c];
  }

  function SumLengths(parts: seq<string>): nat
  {
    if parts == [] then 0 else |parts[0]| + 1 + SumLengths(parts[1..])
  }

  lemma {:induction false} TerminatedLength(parts: seq<string>, c: char)
    ensures |Terminated(parts, c)| == SumLengths(parts)
  {
    if parts != [] { TerminatedLength(parts[1..], c); }
  }

  lemma {:induction false} IndexOfFirst(p: string, c: char, rest: string)
    requires c !in p
    ensures IndexOf(p + [c] + rest, c) == |p|
  {
    var s := p + [c] + rest;
    if p != "" {
      assert s[1..] == p[1..] + [c] + rest;
      IndexOfFirst(p[1..], c, rest);
    }
  }

  lemma {:induction false} IndexOfNone(p: string, c: char)
    requires c !in p
    ensures IndexOf(p, c) == |p|
  {
    if p != "" { IndexOfNone(p[1..], c); }
  }

  /** A separator-free field in front is exactly the first field read back. */
  lemma SplitFirst(p: string, c: char, rest: string)
    requires c !in p
    ensures Split(p + [c] + rest, c) == [p] + Split(rest, c)
  {
    var s := p + [c] + rest;
    IndexOfFirst(p, c, rest);
    assert s[..|p|] == p && s[|p| + 1..] == rest;
  }

  lemma SplitLast(p: string, c: char)
    requires c !in p
    ensures Split(p, c) == [p]
  {
    IndexOfNone(p, c);
  }

  /** Reading back terminated parts gives the parts and one empty rest. */
  lemma {:induction false} SplitTerminated(parts: seq<string>, c: char)
    requires forall p | p in parts :: c !in p
    ensures Split(Terminated(parts, c), c) == parts + [""]
  {
    if parts == [] {
    } else {
      SplitTerminated(parts[1..], c);
      SplitFirst(parts[0], c, Terminated(parts[1..], c));
      assert [parts[0]] + (parts[1..] + [""]) == parts + [""];
    }
  }

  lemma TerminatedInjective(a: seq<string>, b: seq<string>, c: char)
    requires forall p | p in a + b :: c !in p
    requires Terminated(a, c) == Terminated(b, c)
    ensures a == b
  {
    assert (forall p | p in a :: p in a + b) && (forall p | p in b :: p in a + b);
    SplitTerminated(a, c);
    SplitTerminated(b, c);
    assert (a + [""])[..|a|] == a && (b + [""])[..|b|] == b;
  }

  /** Splitting loses nothing: the pieces of s, terminated, are s terminated. */
  lemma {:induction false} TerminatedSplit(s: string, c: char)
    ensures Terminated(Split(s, c), c) == s + [c]
    decreases |s|
  {
    var i := IndexOf(s, c);
    if i == |s| {
      assert Terminated([s], c) == s + [c];
    } else {
      TerminatedSplit(s[i + 1..], c);
      var rest := Split(s[i + 1..], c);
      assert ([s[..i]] + rest)[1..] == rest;
      assert s == s[..i] + [c] + s[i + 1..];
    }
  }
}
