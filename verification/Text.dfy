/** The Go string helpers the operator uses: splitting, trimming, decimal numbers. */
module Text {
  import opened Basics

  /** strings.Split for a one-character separator. */
  function Split(s: string, sep: char): (parts: seq<string>)
    ensures |parts| >= 1
  {
    if s == "" then [""]
    else
      var rest := Split(s[1..], sep);
      if s[0] == sep then [""] + rest else [[s[0]] + rest[0]] + rest[1..]
  }

  /** strings.SplitN(s, sep, 2). */
  function SplitFirst(s: string, sep: char): (parts: seq<string>)
    ensures 1 <= |parts| <= 2
  {
    if s == "" then [""]
    else if s[0] == sep then ["", s[1..]]
    else
      var rest := SplitFirst(s[1..], sep);
      [[s[0]] + rest[0]] + rest[1..]
  }

  function TrimSuffix(s: string, c: char): string {
    if s != "" && s[|s| - 1] == c then s[..|s| - 1] else s
  }

  function TrimPrefix(s: string, c: char): string {
    if s != "" && s[0] == c then s[1..] else s
  }

  lemma {:induction false} SplitWithout(s: string, sep: char)
    requires sep !in s
    ensures Split(s, sep) == [s]
  {
    if s != "" {
      SplitWithout(s[1..], sep);
      assert [s[0]] + s[1..] == s;
    }
  }

  lemma {:induction false} SplitAt(a: string, sep: char, b: string)
    requires sep !in a
    ensures Split(a + [sep] + b, sep) == [a] + Split(b, sep)
  {
    var s := a + [sep] + b;
    if a == "" {
      assert s[1..] == b;
    } else {
      assert s[1..] == a[1..] + [sep] + b;
      SplitAt(a[1..], sep, b);
      assert [a[0]] + a[1..] == a;
    }
  }

  lemma {:induction false} SplitCount(s: string, sep: char)
    ensures |Split(s, sep)| == 1 + multiset(s)[sep]
  {
    if s != "" {
      assert s == [s[0]] + s[1..];
      SplitCount(s[1..], sep);
    }
  }

  lemma {:induction false} SplitFirstAt(a: string, sep: char, b: string)
    requires sep !in a
    ensures SplitFirst(a + [sep] + b, sep) == [a, b]
  {
    var s := a + [sep] + b;
    if a == "" {
      assert s[1..] == b;
    } else {
      assert s[1..] == a[1..] + [sep] + b;
      SplitFirstAt(a[1..], sep, b);
      assert [a[0]] + a[1..] == a;
    }
  }

  // ---------- decimal numbers ----------

  const TWO_TO_THE_64: nat := 0x1_0000_0000_0000_0000

  function Digit(d: nat): char
    requires d < 10
  {
    ('0' as int + d) as char
  }

  predicate IsDigit(c: char) {
    '0' <= c <= '9'
  }

  function DigitValue(c: char): nat
    requires IsDigit(c)
  {
    c as int - '0' as int
  }

  /** strconv.FormatUint(n, 10). */
  function FormatUint(n: nat): string {
    if n < 10 then [Digit(n)] else FormatUint(n / 10) + [Digit(n % 10)]
  }

  function DecimalValue(s: string): nat
    requires forall c :: c in s ==> IsDigit(c)
  {
    if s == "" then 0 else 10 * DecimalValue(s[..|s| - 1]) + DigitValue(s[|s| - 1])
  }

  /** strconv.ParseUint(s, 10, 64): no sign, no empty text, no overflow. */
  function ParseUint(s: string): (r: Option<nat>)
    ensures r.Some? ==> r.value < TWO_TO_THE_64
  {
    if s == "" || exists c :: c in s && !IsDigit(c) then None
    else if DecimalValue(s) >= TWO_TO_THE_64 then None
    else Some(DecimalValue(s))
  }

  lemma {:induction false} FormatIsDecimal(n: nat)
    ensures FormatUint(n) != ""
    ensures forall c :: c in FormatUint(n) ==> IsDigit(c)
    ensures DecimalValue(FormatUint(n)) == n
  {
    var s := FormatUint(n);
    if n < 10 {
      assert s[..|s| - 1] == "";
    } else {
      FormatIsDecimal(n / 10);
      assert s[..|s| - 1] == FormatUint(n / 10);
    }
  }

  lemma ParseFormat(n: nat)
    ensures ParseUint(FormatUint(n)) == if n < TWO_TO_THE_64 then Some(n) else None
  {
    FormatIsDecimal(n);
  }
}
