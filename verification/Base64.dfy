/** Unpadded base64 with the URL-safe alphabet: sections 5 and 3.2 of RFC 4648. */
module Base64 {
  import opened Wrappers

  type byte = x: nat | x < 256
  type sextet = x: nat | x < 64

  // ----- the alphabet -----

  function Digit(v: sextet): char {
    if v < 26 then (65 + v) as char
    else if v < 52 then (97 + v - 26) as char
    else if v < 62 then (48 + v - 52) as char
    else if v == 62 then '-'
    else '_'
  }

  function ValueOf(c: char): Option<sextet> {
    var code := c as int;
    if 65 <= code < 91 then Some(code - 65)
    else if 97 <= code < 123 then Some(code - 97 + 26)
    else if 48 <= code < 58 then Some(code - 48 + 52)
    else if c == '-' then Some(62)
    else if c == '_' then Some(63)
    else None
  }

  lemma DigitsAndValues(v: sextet, c: char)
    ensures ValueOf(Digit(v)) == Some(v)
    ensures ValueOf(c).Some? ==> Digit(ValueOf(c).value) == c
  {
  }

  function Spell(v: seq<sextet>): string {
    if v == [] then "" else Spell(v[..|v| - 1]) + [Digit(v[|v| - 1])]
  }

  function Read(s: string): Option<seq<sextet>> {
    if s == "" then Some([])
    else
      var before, v := Read(s[..|s| - 1]), ValueOf(s[|s| - 1]);
      if before.None? || v.None? then None else Some(before.value + [v.value])
  }

  lemma {:induction false} ReadInvertsSpell(v: seq<sextet>)
    ensures Read(Spell(v)) == Some(v) && |Spell(v)| == |v|
    ensures forall i | 0 <= i < |v| :: ValueOf(Spell(v)[i]).Some?
    decreases |v|
  {
    if v != [] {
      ReadInvertsSpell(v[..|v| - 1]);
      DigitsAndValues(v[|v| - 1], 'A');
      var s := Spell(v);
      assert s[..|s| - 1] == Spell(v[..|v| - 1]);
      assert v == v[..|v| - 1] + [v[|v| - 1]];
    }
  }

  lemma {:induction false} SpellInvertsRead(s: string)
    requires Read(s).Some?
    ensures Spell(Read(s).value) == s
    decreases |s|
  {
    if s != "" {
      SpellInvertsRead(s[..|s| - 1]);
      DigitsAndValues(0, s[|s| - 1]);
      var v := Read(s).value;
      assert v[..|v| - 1] == Read(s[..|s| - 1]).value;
      assert s == s[..|s| - 1] + [s[|s| - 1]];
    }
  }

  // ----- regrouping bits -----

  function First(a: nat): sextet requires a < 256 { a / 4 }
  function Second(a: nat, b: nat): sextet requires a < 256 && b < 256 { a % 4 * 16 + b / 16 }
  function Third(b: nat, c: nat): sextet requires b < 256 && c < 256 { b % 16 * 4 + c / 64 }
  function Fourth(c: nat): sextet requires c < 256 { c % 64 }

  function Upper(p: nat, q: nat): byte requires p < 64 && q < 64 { p * 4 + q / 16 }
  function Middle(q: nat, r: nat): byte requires q < 64 && r < 64 { q % 16 * 16 + r / 4 }
  function Lower(r: nat, s: nat): byte requires r < 64 && s < 64 { r % 4 * 64 + s }

  function Sextets(b: seq<byte>): seq<sextet> {
    if |b| == 0 then []
    else if |b| == 1 then [First(b[0]), Second(b[0], 0)]
    else if |b| == 2 then [First(b[0]), Second(b[0], b[1]), Third(b[1], 0)]
    else [First(b[0]), Second(b[0], b[1]), Third(b[1], b[2]), Fourth(b[2])] + Sextets(b[3..])
  }

  /** Refuses a lone last sextet and bits that belong to no byte. */
  function Octets(v: seq<sextet>): Option<seq<byte>> {
    if |v| == 0 then Some([])
    else if |v| == 1 then None
    else if |v| == 2 then (if v[1] % 16 != 0 then None else Some([Upper(v[0], v[1])]))
    else if |v| == 3 then (if v[2] % 4 != 0 then None else Some([Upper(v[0], v[1]), Middle(v[1], v[2])]))
    else
      var rest := Octets(v[4..]);
      if rest.None? then None
      else Some([Upper(v[0], v[1]), Middle(v[1], v[2]), Lower(v[2], v[3])] + rest.value)
  }

  lemma Shift16(x: nat, y: nat)
    requires y < 16
    ensures (x * 16 + y) % 16 == y && (x * 16 + y) / 16 == x
  {
  }

  lemma Shift4(x: nat, y: nat)
    requires y < 4
    ensures (x * 4 + y) % 4 == y && (x * 4 + y) / 4 == x
  {
  }

  lemma RegroupBytes(a: byte, b: byte, c: byte)
    ensures Upper(First(a), Second(a, b)) == a
    ensures Middle(Second(a, b), Third(b, c)) == b
    ensures Lower(Third(b, c), Fourth(c)) == c
    ensures Second(a, 0) % 16 == 0 && Third(b, 0) % 4 == 0
  {
    Shift16(a % 4, b / 16);
    Shift4(b % 16, c / 64);
  }

  lemma RegroupSextets(p: sextet, q: sextet, r: sextet, s: sextet)
    ensures First(Upper(p, q)) == p
    ensures Second(Upper(p, q), Middle(q, r)) == q && (q % 16 == 0 ==> Second(Upper(p, q), 0) == q)
    ensures Third(Middle(q, r), Lower(r, s)) == r && (r % 4 == 0 ==> Third(Middle(q, r), 0) == r)
    ensures Fourth(Lower(r, s)) == s
  {
  }

  lemma {:induction false} OctetsInvertSextets(b: seq<byte>)
    ensures Octets(Sextets(b)) == Some(b)
    decreases |b|
  {
    hide First, Second, Third, Fourth, Upper, Middle, Lower;
    if |b| >= 3 {
      RegroupBytes(b[0], b[1], b[2]);
      assert Sextets(b)[4..] == Sextets(b[3..]);
      OctetsInvertSextets(b[3..]);
      assert b == [b[0], b[1], b[2]] + b[3..];
    } else if |b| == 2 {
      RegroupBytes(b[0], b[1], 0);
      assert b == [b[0], b[1]];
    } else if |b| == 1 {
      RegroupBytes(b[0], 0, 0);
      assert b == [b[0]];
    }
  }

  lemma {:induction false} SextetsInvertOctets(v: seq<sextet>)
    requires Octets(v).Some?
    ensures Sextets(Octets(v).value) == v
    decreases |v|
  {
    hide First, Second, Third, Fourth, Upper, Middle, Lower;
    if |v| >= 4 {
      RegroupSextets(v[0], v[1], v[2], v[3]);
      assert Octets(v).value[3..] == Octets(v[4..]).value;
      SextetsInvertOctets(v[4..]);
      assert v == [v[0], v[1], v[2], v[3]] + v[4..];
    } else if |v| == 3 {
      RegroupSextets(v[0], v[1], v[2], 0);
      assert v == [v[0], v[1], v[2]];
    } else if |v| == 2 {
      RegroupSextets(v[0], v[1], 0, 0);
      assert v == [v[0], v[1]];
    }
  }

  // ----- the codec -----

  function Encode(b: seq<byte>): string {
    Spell(Sextets(b))
  }

  function Decode(s: string): Option<seq<byte>> {
    var v := Read(s);
    if v.None? then None else Octets(v.value)
  }

  /** Encoding and decoding undo each other, and a text decodes only if it is the encoding of what it
      decodes to. */
  lemma DecodeInvertsEncode(b: seq<byte>, s: string)
    ensures Decode(Encode(b)) == Some(b)
    ensures Decode(s).Some? ==> Encode(Decode(s).value) == s
  {
    ReadInvertsSpell(Sextets(b));
    OctetsInvertSextets(b);
    if Decode(s).Some? {
      SpellInvertsRead(s);
      SextetsInvertOctets(Read(s).value);
    }
  }

  lemma EncodeUsesAlphabet(b: seq<byte>)
    ensures forall i | 0 <= i < |Encode(b)| :: ValueOf(Encode(b)[i]).Some?
  {
    ReadInvertsSpell(Sextets(b));
  }
}
