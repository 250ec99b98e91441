/** Splitting, joining and numerals as the path printer and parser use them. */
module Text {
  import opened Wrappers

  // ----- separators -----

  /** The pieces between separators; a text without one is a single piece. */
  function Split(s: string, sep: char): (parts: seq<string>)
    ensures |parts| > 0
  {
    if s == "" then [""]
    else
      var before, c := Split(s[..|s| - 1], sep), s[|s| - 1];
      if c == sep then before + [""] else before[..|before| - 1] + [before[|before| - 1] + [c]]
  }

  function Join(parts: seq<string>, sep: char): string {
    if parts == [] then ""
    else if |parts| == 1 then parts[0]
    else Join(parts[..|parts| - 1], sep) + [sep] + parts[|parts| - 1]
  }

  lemma SplitEmpty(sep: char)
    ensures Split("", sep) == [""]
  {
  }

  lemma SplitLast(s: string, sep: char)
    requires s != ""
    ensures var before, c := Split(s[..|s| - 1], sep), s[|s| - 1];
      Split(s, sep) == if c == sep then before + [""] else before[..|before| - 1] + [before[|before| - 1] + [c]]
  {
  }

  /** A separator ends a piece: what follows it is split on its own. */
  lemma {:induction false} SplitAtSeparator(a: string, b: string, sep: char)
    ensures Split(a + [sep] + b, sep) == Split(a, sep) + Split(b, sep)
    decreases |b|
  {
    hide Split;
    var s := a + [sep] + b;
    if b == "" {
      assert s[..|s| - 1] == a;
      SplitLast(s, sep);
      SplitEmpty(sep);
    } else {
      var init, c := b[..|b| - 1], b[|b| - 1];
      assert s[..|s| - 1] == a + [sep] + init && s[|s| - 1] == c;
      SplitAtSeparator(a, init, sep);
      SplitLast(s, sep);
      SplitLast(b, sep);
      var left, right := Split(a, sep), Split(init, sep);
      assert (left + right)[..|left + right| - 1] == left + right[..|right| - 1];
    }
  }

  lemma {:induction false} SplitPlain(s: string, sep: char)
    requires sep !in s
    ensures Split(s, sep) == [s]
    decreases |s|
  {
    if s != "" {
      SplitPlain(s[..|s| - 1], sep);
      assert s == s[..|s| - 1] + [s[|s| - 1]];
    }
  }

  lemma JoinLast(parts: seq<string>, sep: char)
    requires |parts| > 1
    ensures Join(parts, sep) == Join(parts[..|parts| - 1], sep) + [sep] + parts[|parts| - 1]
  {
  }

  lemma JoinOne(part: string, sep: char)
    ensures Join([part], sep) == part
  {
  }

  lemma {:induction false} SplitInvertsJoin(parts: seq<string>, sep: char)
    requires parts != [] && forall p | p in parts :: sep !in p
    ensures Split(Join(parts, sep), sep) == parts
    decreases |parts|
  {
    hide Split, Join;
    var init, last := parts[..|parts| - 1], parts[|parts| - 1];
    assert parts == init + [last];
    SplitPlain(last, sep);
    if init == [] {
      assert parts == [last];
      JoinOne(last, sep);
    } else {
      SplitInvertsJoin(init, sep);
      SplitAtSeparator(Join(init, sep), last, sep);
      JoinLast(parts, sep);
    }
  }

  lemma JoinExtends(parts: seq<string>, c: char, sep: char)
    requires parts != []
    ensures Join(parts + [""], sep) == Join(parts, sep) + [sep]
    ensures Join(parts[..|parts| - 1] + [parts[|parts| - 1] + [c]], sep) == Join(parts, sep) + [c]
  {
    var init, last := parts[..|parts| - 1], parts[|parts| - 1];
    assert (parts + [""])[..|parts|] == parts;
    assert (init + [last + [c]])[..|init|] == init;
  }

  lemma {:induction false} JoinInvertsSplit(s: string, sep: char)
    ensures Join(Split(s, sep), sep) == s
    decreases |s|
  {
    hide Split, Join;
    if s == "" {
      SplitEmpty(sep);
      JoinOne("", sep);
    } else {
      var init, c := s[..|s| - 1], s[|s| - 1];
      JoinInvertsSplit(init, sep);
      SplitLast(s, sep);
      JoinExtends(Split(init, sep), c, sep);
      assert s == init + [c];
    }
  }

  /** Text added at the end changes the last piece at most, by adding to it. */
  lemma {:induction false} SplitExtends(s: string, r: string, sep: char)
    ensures var p, q := Split(s, sep), Split(s + r, sep);
      |p| <= |q| && q[..|p| - 1] == p[..|p| - 1] && p[|p| - 1] <= q[|p| - 1]
    decreases |r|
  {
    hide Split;
    if r == "" {
      assert s + r == s;
    } else {
      var all := s + r;
      assert all[..|all| - 1] == s + r[..|r| - 1];
      SplitExtends(s, r[..|r| - 1], sep);
      SplitLast(all, sep);
    }
  }

  lemma SplitPrefix(a: string, b: string, sep: char)
    requires a <= b
    ensures var p, q := Split(a, sep), Split(b, sep);
      |p| <= |q| && q[..|p| - 1] == p[..|p| - 1] && p[|p| - 1] <= q[|p| - 1]
  {
    hide Split;
    assert b == a + b[|a|..];
    SplitExtends(a, b[|a|..], sep);
  }

  // ----- numerals -----

  function DigitChar(d: nat): char
    requires d < 16
  {
    if d < 10 then (48 + d) as char else (97 + d - 10) as char
  }

  function DigitValue(c: char, radix: nat): Option<nat> {
    var code := c as int;
    var v := if 48 <= code < 58 then code - 48
             else if 97 <= code < 123 then code - 97 + 10
             else if 65 <= code < 91 then code - 65 + 10
             else radix;
    if v < radix then Some(v) else None
  }

  /** A digit is read as its value and nothing else is read; letters count in either case. */
  lemma DigitValueExactly(c: char, radix: nat, v: nat)
    requires radix <= 36
    ensures DigitValue(c, radix) == Some(v) <==>
      && v < radix
      && (if v < 10 then c as int == '0' as int + v
          else c as int == 'a' as int + (v - 10) || c as int == 'A' as int + (v - 10))
  {
  }

  function NumeralValue(s: string, radix: nat): Option<nat> {
    if s == "" then Some(0)
    else
      var before, d := NumeralValue(s[..|s| - 1], radix), DigitValue(s[|s| - 1], radix);
      if before.None? || d.None? then None else Some(before.value * radix + d.value)
  }

  /** A 64-bit number in the given radix: at least one digit, an optional plus sign, no overflow. */
  function ParseU64(s: string, radix: nat): Option<u64> {
    var digits := if s != "" && s[0] == '+' then s[1..] else s;
    var v := NumeralValue(digits, radix);
    if digits == "" || v.None? || v.value > U64_MAX then None else Some(v.value)
  }

  function Decimal(n: nat): string {
    if n < 10 then [DigitChar(n)] else Decimal(n / 10) + [DigitChar(n % 10)]
  }

  /** The lowest `width` hexadecimal digits. */
  function Hex(n: nat, width: nat): (s: string)
    ensures |s| == width
    decreases width
  {
    if width == 0 then "" else Hex(n / 16, width - 1) + [DigitChar(n % 16)]
  }

  function Power16(width: nat): nat {
    if width == 0 then 1 else 16 * Power16(width - 1)
  }

  predicate Plain(s: string) {
    forall i | 0 <= i < |s| :: DigitValue(s[i], 16).Some?
  }

  lemma {:induction false} DecimalParses(n: nat)
    ensures NumeralValue(Decimal(n), 10) == Some(n) && Plain(Decimal(n)) && Decimal(n) != ""
    decreases n
  {
    if n >= 10 { DecimalParses(n / 10); }
    var s := Decimal(n);
    assert n >= 10 ==> s[..|s| - 1] == Decimal(n / 10);
  }

  lemma {:induction false} HexParses(n: nat, width: nat)
    requires n < Power16(width)
    ensures NumeralValue(Hex(n, width), 16) == Some(n) && Plain(Hex(n, width))
    decreases width
  {
    if width > 0 {
      HexParses(n / 16, width - 1);
      assert Hex(n, width)[..width - 1] == Hex(n / 16, width - 1);
    }
  }

  lemma U64FitsHex32(n: u64)
    ensures n < Power16(32)
  {
    assert Power16(4) == 0x1_0000;
    assert Power16(8) == 0x1_0000_0000;
    assert Power16(12) == 0x1_0000_0000_0000;
    assert Power16(16) == 0x1_0000_0000_0000_0000;
    assert Power16(20) > Power16(16);
    assert Power16(24) > Power16(20);
    assert Power16(28) > Power16(24);
    assert Power16(32) > Power16(28);
  }

  /** Printed numbers are read back. */
  lemma PrintedNumbersParse(n: u64)
    ensures ParseU64(Decimal(n), 10) == Some(n) && ParseU64(Hex(n, 32), 16) == Some(n)
    ensures Plain(Decimal(n)) && Plain(Hex(n, 32))
  {
    hide Power16, Decimal, Hex;
    DecimalParses(n);
    U64FitsHex32(n);
    HexParses(n, 32);
    assert DigitValue('+', 16).None?;
  }
}
