/** Session tokens: 32 random bytes in padded base64url (tools/session_token.go; section 5 of
    RFC 4648). */
module Token {
  import opened Words

  const TOKEN_BYTES: nat := 32

  /** The base64url digit of a six-bit value. */
  function Digit(i: nat): char
    requires i < 64
  {
    if i < 26 then ('A' as int + i) as char
    else if i < 52 then ('a' as int + i - 26) as char
    else if i < 62 then ('0' as int + i - 52) as char
    else if i == 62 then '-' else '_'
  }

  type Six = x: int | 0 <= x < 64

  function First(a: U8): Six { a / 4 }

  function Second(a: U8, b: U8): Six {
    var (x: int, y: int) := (a, b);
    x % 4 * 16 + y / 16
  }

  function Third(b: U8, c: U8): Six {
    var (y: int, z: int) := (b, c);
    y % 16 * 4 + z / 64
  }

  function Fourth(c: U8): Six { c % 64 }

  /** Three bytes as four digits. */
  function Group(a: U8, b: U8, c: U8): string {
    [Digit(First(a)), Digit(Second(a, b)), Digit(Third(b, c)), Digit(Fourth(c))]
  }

  function Encode(bytes: seq<U8>): string {
    if |bytes| == 0 then ""
    else if |bytes| == 1 then Group(bytes[0], 0, 0)[..2] + "=="
    else if |bytes| == 2 then Group(bytes[0], bytes[1], 0)[..3] + "="
    else Group(bytes[0], bytes[1], bytes[2]) + Encode(bytes[3..])
  }

  /** What is known of a token the program issued. */
  predicate Issued(token: string) {
    |token| == 44 && token[43] == '='
  }

  lemma GroupLength(a: U8, b: U8, c: U8)
    ensures |Group(a, b, c)| == 4
  {
  }

  lemma {:induction false} EncodeShape(bytes: seq<U8>)
    requires |bytes| % 3 == 2
    ensures |Encode(bytes)| == (|bytes| + 1) / 3 * 4 && Encode(bytes)[|Encode(bytes)| - 1] == '='
    decreases |bytes|
  {
    hide Group;
    if |bytes| > 2 {
      GroupLength(bytes[0], bytes[1], bytes[2]);
      EncodeShape(bytes[3..]);
    } else {
      GroupLength(bytes[0], bytes[1], 0);
    }
  }

  /** A token made of 32 bytes is 44 characters long and ends in the padding. */
  lemma TokenShape(bytes: seq<U8>)
    requires |bytes| == TOKEN_BYTES
    ensures Issued(Encode(bytes))
  {
    EncodeShape(bytes);
  }

  lemma DigitInjective(i: nat, j: nat)
    requires i < 64 && j < 64
    ensures Digit(i) == Digit(j) <==> i == j
  {
  }

  lemma GroupInjective(a: U8, b: U8, c: U8, a': U8, b': U8, c': U8)
    ensures Group(a, b, c) == Group(a', b', c') <==> a == a' && b == b' && c == c'
  {
    DigitInjective(First(a), First(a'));
    DigitInjective(Second(a, b), Second(a', b'));
    DigitInjective(Third(b, c), Third(b', c'));
    DigitInjective(Fourth(c), Fourth(c'));
    SixBits(a, b, c, a', b', c');
    hide Digit, First, Second, Third, Fourth;
    var g, g' := Group(a, b, c), Group(a', b', c');
    assert g == g' <==> g[0] == g'[0] && g[1] == g'[1] && g[2] == g'[2] && g[3] == g'[3];
  }

  /** Two bytes are determined by three digits. */
  lemma ShortGroupInjective(a: U8, b: U8, a': U8, b': U8)
    ensures Group(a, b, 0)[..3] == Group(a', b', 0)[..3] <==> a == a' && b == b'
  {
    GroupInjective(a, b, 0, a', b', 0);
    hide Digit, First, Second, Third;
    var g, g' := Group(a, b, 0), Group(a', b', 0);
    assert g == g[..3] + [Digit(Fourth(0))] && g' == g'[..3] + [Digit(Fourth(0))];
  }

  /** Three bytes are determined by their four six-bit parts. */
  lemma SixBits(a: U8, b: U8, c: U8, a': U8, b': U8, c': U8)
    ensures (First(a) == First(a') && Second(a, b) == Second(a', b') && Third(b, c) == Third(b', c') && Fourth(c) == Fourth(c'))
       <==> (a == a' && b == b' && c == c')
  {
    var (x: int, y: int, z: int) := (a, b, c);
    var (x': int, y': int, z': int) := (a', b', c');
    SplitAt(Second(a, b), x % 4, y / 16, 16);
    SplitAt(Second(a', b'), x' % 4, y' / 16, 16);
    SplitAt(Third(b, c), y % 16, z / 64, 4);
    SplitAt(Third(b', c'), y' % 16, z' / 64, 4);
    hide Second, Third;
  }

  lemma SplitAt(v: nat, hi: nat, lo: nat, m: nat)
    requires m == 4 || m == 16
    requires v == hi * m + lo && lo < m
    ensures v / m == hi && v % m == lo
  {
  }

  /** Different bytes of the same length make different tokens. */
  lemma {:induction false} EncodeInjective(s: seq<U8>, t: seq<U8>)
    requires |s| == |t| && |s| % 3 == 2
    ensures Encode(s) == Encode(t) <==> s == t
    decreases |s|
  {
    hide Group;
    if |s| == 2 {
      ShortGroupInjective(s[0], s[1], t[0], t[1]);
      GroupLength(s[0], s[1], 0);
      GroupLength(t[0], t[1], 0);
      var g, h := Group(s[0], s[1], 0)[..3], Group(t[0], t[1], 0)[..3];
      assert (g + "=")[..3] == g && (h + "=")[..3] == h;
    } else {
      GroupInjective(s[0], s[1], s[2], t[0], t[1], t[2]);
      EncodeInjective(s[3..], t[3..]);
      var g, h := Group(s[0], s[1], s[2]), Group(t[0], t[1], t[2]);
      GroupLength(s[0], s[1], s[2]);
      GroupLength(t[0], t[1], t[2]);
      assert (g + Encode(s[3..]))[..4] == g && (g + Encode(s[3..]))[4..] == Encode(s[3..]);
      assert (h + Encode(t[3..]))[..4] == h && (h + Encode(t[3..]))[4..] == Encode(t[3..]);
      assert s == [s[0], s[1], s[2]] + s[3..] && t == [t[0], t[1], t[2]] + t[3..];
    }
  }

  // ---------------------------------------------------------------- reading a token back

  /** The six-bit value of a character of the alphabet: letters, digits, '-' and '_'. */
  function SixOf(c: char): int {
    if 'A' <= c <= 'Z' then c as int - 'A' as int
    else if 'a' <= c <= 'z' then c as int - 'a' as int + 26
    else if '0' <= c <= '9' then c as int - '0' as int + 52
    else if c == '-' then 62
    else if c == '_' then 63
    else -1
  }

  /** The bytes of an encoded string: four characters make three bytes, or fewer with padding. */
  function Decode(t: string): seq<int> {
    if |t| < 4 then []
    else
      var a, b, c, d := SixOf(t[0]), SixOf(t[1]), SixOf(t[2]), SixOf(t[3]);
      if t[2] == '=' then [a * 4 + b / 16]
      else if t[3] == '=' then [a * 4 + b / 16, b % 16 * 16 + c / 4]
      else [a * 4 + b / 16, b % 16 * 16 + c / 4, c % 4 * 64 + d] + Decode(t[4..])
  }

  lemma SixOfDigit(i: nat)
    requires i < 64
    ensures SixOf(Digit(i)) == i && Digit(i) != '='
  {
  }

  /** Three bytes from their four six-bit parts. */
  lemma PartsBack(a: U8, b: U8, c: U8)
    ensures First(a) as int * 4 + Second(a, b) as int / 16 == a
    ensures Second(a, b) as int % 16 * 16 + Third(b, c) as int / 4 == b
    ensures Third(b, c) as int % 4 * 64 + Fourth(c) as int == c
  {
    var (x: int, y: int, z: int) := (a, b, c);
    SplitAt(Second(a, b), x % 4, y / 16, 16);
    SplitAt(Third(b, c), y % 16, z / 64, 4);
  }

  lemma GroupBack(a: U8, b: U8, c: U8)
    ensures var g := Group(a, b, c);
      && |g| == 4 && (forall i | 0 <= i < 4 :: g[i] != '=')
      && SixOf(g[0]) == First(a) && SixOf(g[1]) == Second(a, b) && SixOf(g[2]) == Third(b, c) && SixOf(g[3]) == Fourth(c)
  {
    SixOfDigit(First(a));
    SixOfDigit(Second(a, b));
    SixOfDigit(Third(b, c));
    SixOfDigit(Fourth(c));
    hide Digit, SixOf, First, Second, Third, Fourth;
  }

  /** Any bytes are read back from their encoding. */
  lemma {:induction false} DecodeEncode(bytes: seq<U8>)
    ensures Decode(Encode(bytes)) == bytes
    decreases |bytes|
  {
    hide SixOf, Group, First, Second, Third, Fourth;
    if |bytes| == 1 {
      GroupBack(bytes[0], 0, 0);
      PartsBack(bytes[0], 0, 0);
    } else if |bytes| == 2 {
      GroupBack(bytes[0], bytes[1], 0);
      PartsBack(bytes[0], bytes[1], 0);
    } else if |bytes| > 2 {
      var g, rest := Group(bytes[0], bytes[1], bytes[2]), Encode(bytes[3..]);
      GroupBack(bytes[0], bytes[1], bytes[2]);
      PartsBack(bytes[0], bytes[1], bytes[2]);
      DecodeEncode(bytes[3..]);
      assert (g + rest)[4..] == rest;
      assert bytes == [bytes[0], bytes[1], bytes[2]] + bytes[3..];
    }
  }
}
