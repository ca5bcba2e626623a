/**
 The base64url text form (RFC 4648 section 5) of bytes, as src/infrastructure/security/cipher.py:61-65
 writes and reads it. Reading is Python's lenient one: other characters are passed over, the two letters
 of plain base64 are understood as well, and complete padding ends the text.
 */
module Base64Url {
  import opened Common

  type Byte = b: int | 0 <= b < 256
  type Sextet = v: int | 0 <= v < 64

  function Letter(v: Sextet): char {
    if v < 26 then 'A' + v as char
    else if v < 52 then 'a' + (v - 26) as char
    else if v < 62 then '0' + (v - 52) as char
    else if v == 62 then '-'
    else '_'
  }

  function Value(c: char): Option<Sextet> {
    if 'A' <= c <= 'Z' then Some(c as int - 'A' as int)
    else if 'a' <= c <= 'z' then Some(c as int - 'a' as int + 26)
    else if '0' <= c <= '9' then Some(c as int - '0' as int + 52)
    else if c == '-' || c == '+' then Some(62)
    else if c == '_' || c == '/' then Some(63)
    else None
  }

  /** The alphabet of RFC 4648 section 5, value by value. */
  lemma AlphabetTold(v: Sextet)
    ensures Letter(v) as int ==
            if v < 26 then 65 + v
            else if v < 52 then 97 + v - 26
            else if v < 62 then 48 + v - 52
            else if v == 62 then 45 else 95
  {
  }

  predicate IsText(s: string) {
    forall c <- s :: c != '$' && c as int < 128
  }

  function Encode(raw: seq<Byte>): (text: string)
    ensures IsText(text)
  {
    if raw == [] then ""
    else if |raw| == 1 then
      [Letter(raw[0] / 4), Letter(raw[0] % 4 * 16), '=', '=']
    else if |raw| == 2 then
      [Letter(raw[0] / 4), Letter(raw[0] % 4 * 16 + raw[1] / 16), Letter(raw[1] % 16 * 4), '=']
    else Quartet(raw[0], raw[1], raw[2]) + Encode(raw[3..])
  }

  function Quartet(x: Byte, y: Byte, z: Byte): (text: string)
    ensures IsText(text)
  {
    [Letter(x / 4), Letter(x % 4 * 16 + y / 16), Letter(y % 16 * 4 + z / 64), Letter(z % 64)]
  }

  /** Four letters stand for the number three bytes make, six bits each, most significant first. */
  lemma QuartetTold(x: Byte, y: Byte, z: Byte) returns (a: Sextet, b: Sextet, c: Sextet, d: Sextet)
    ensures Quartet(x, y, z) == [Letter(a), Letter(b), Letter(c), Letter(d)]
    ensures a * 262144 + b * 4096 + c * 64 + d == x * 65536 + y * 256 + z
  {
    a, b, c, d := x / 4, x % 4 * 16 + y / 16, y % 16 * 4 + z / 64, z % 64;
  }

  /** One or two bytes at the end are written as if zeros followed, with '=' for each letter that says nothing. */
  lemma EndTold(x: Byte, y: Byte)
    ensures Encode([x]) == Quartet(x, 0, 0)[..2] + "=="
    ensures Encode([x, y]) == Quartet(x, y, 0)[..3] + "="
  {
    hide Letter;
  }

  /** In a group of four letters: how many were read, the bits still to be used, the padding since the last letter. */
  datatype Group = Group(letters: nat, left: nat, pads: nat) {
    predicate Valid() {
      || (letters == 0 && left == 0)
      || (letters == 1 && left < 64)
      || (letters == 2 && left < 16)
      || (letters == 3 && left < 4)
    }
  }

  const START := Group(0, 0, 0)

  /** The bytes a letter completes, and the group after it. */
  function Feed(g: Group, v: Sextet): (r: (seq<Byte>, Group))
    requires g.Valid()
    ensures r.1.Valid()
  {
    if g.letters == 0 then ([], Group(1, v, 0))
    else if g.letters == 1 then ([g.left * 4 + v / 16], Group(2, v % 16, 0))
    else if g.letters == 2 then ([g.left * 16 + v / 4], Group(3, v % 4, 0))
    else ([g.left * 64 + v], START)
  }

  function Scan(text: string, g: Group): Option<seq<Byte>>
    requires g.Valid()
  {
    if text == "" then
      if g.letters == 0 then Some([]) else None
    else if text[0] == '=' then
      if g.letters < 2 then Scan(text[1..], g)
      else if g.letters + g.pads + 1 >= 4 then Some([])
      else Scan(text[1..], g.(pads := g.pads + 1))
    else
      match Value(text[0])
      case None => Scan(text[1..], g)
      case Some(v) =>
        var (bytes, next) := Feed(g, v);
        match Scan(text[1..], next)
        case None => None
        case Some(rest) => Some(bytes + rest)
  }

  function Decode(text: string): Option<seq<Byte>> {
    if exists c <- text :: c as int >= 128 then None else Scan(text, START)
  }

  /** Reading is lenient: plain base64's two letters count, other ASCII is passed over. */
  lemma DecodeTold(c: char, text: string)
    ensures c as int >= 128 ==> Decode([c] + text) == None
    ensures c as int < 128 && c != '=' && Value(c) == None ==> Decode([c] + text) == Decode(text)
    ensures Value('+') == Some(62) && Value('/') == Some(63)
  {
    assert ([c] + text)[1..] == text && c in [c] + text;
    assert forall d :: d in [c] + text <==> d == c || d in text;
  }

  /** But no group may be cut to one letter. */
  lemma LoneLetter(v: Sextet)
    ensures Scan([Letter(v)], START) == None && Scan([Letter(v), '='], START) == None
  {
    ScanLetter(v, "", START);
    ScanLetter(v, "=", START);
    assert [Letter(v)] + "" == [Letter(v)] && [Letter(v)] + "=" == [Letter(v), '='];
    assert Feed(START, v).1 == Group(1, v, 0);
    assert "="[1..] == "";
  }

  /** What is written is read back. */
  lemma {:induction false} RoundTrip(raw: seq<Byte>)
    ensures Decode(Encode(raw)) == Some(raw)
  {
    ScanEncoded(raw);
  }

  lemma {:induction false} ScanEncoded(raw: seq<Byte>)
    ensures Scan(Encode(raw), START) == Some(raw)
  {
    if |raw| == 0 {
    } else if |raw| == 1 {
      ScanOneByte(raw[0]);
      assert raw == [raw[0]];
    } else if |raw| == 2 {
      ScanTwoBytes(raw[0], raw[1]);
      assert raw == [raw[0], raw[1]];
    } else {
      assert Encode(raw) == Quartet(raw[0], raw[1], raw[2]) + Encode(raw[3..]);
      hide Encode, Scan, Quartet;
      ScanEncoded(raw[3..]);
      ScanQuartet(raw[0], raw[1], raw[2], Encode(raw[3..]));
      assert raw == [raw[0], raw[1], raw[2]] + raw[3..];
    }
  }

  lemma ScanOneByte(x: Byte)
    ensures Scan([Letter(x / 4), Letter(x % 4 * 16), '=', '='], START) == Some([x])
  {
    var a, b := x / 4, x % 4 * 16;
    hide Letter;
    ScanTwo(a, b, "==");
    assert b % 16 == 0 && a * 4 + b / 16 == x;
    assert Scan("==", Group(2, 0, 0)) == Scan("=", Group(2, 0, 1)) == Some([]);
    assert [x] + [] == [x];
    assert [Letter(a), Letter(b), '=', '='] == [Letter(a), Letter(b)] + "==";
  }

  lemma ScanTwoBytes(x: Byte, y: Byte)
    ensures Scan([Letter(x / 4), Letter(x % 4 * 16 + y / 16), Letter(y % 16 * 4), '='], START) == Some([x, y])
  {
    var a, b, c := x / 4, x % 4 * 16 + y / 16, y % 16 * 4;
    hide Letter;
    assert Scan("=", Group(3, 0, 0)) == Some([]);
    hide Scan;
    ScanTwo(a, b, [Letter(c)] + "=");
    ScanLetter(c, "=", Group(2, b % 16, 0));
    assert c % 4 == 0 && a * 4 + b / 16 == x && b % 16 * 16 + c / 4 == y;
    PrependTwice([x], [y], Some([]));
    assert [x] + [y] == [x, y] && [x, y] + [] == [x, y];
    assert [Letter(a), Letter(b), Letter(c), '='] == [Letter(a), Letter(b)] + ([Letter(c)] + "=");
  }

  lemma ValueOfLetter(v: Sextet)
    ensures Value(Letter(v)) == Some(v) && Letter(v) != '='
  {
  }

  function Prepend(bytes: seq<Byte>, rest: Option<seq<Byte>>): Option<seq<Byte>> {
    match rest case None => None case Some(r) => Some(bytes + r)
  }

  lemma ScanLetter(v: Sextet, rest: string, g: Group)
    requires g.Valid()
    ensures Scan([Letter(v)] + rest, g) == Prepend(Feed(g, v).0, Scan(rest, Feed(g, v).1))
  {
    ValueOfLetter(v);
    assert ([Letter(v)] + rest)[1..] == rest;
  }

  lemma PrependTwice(x: seq<Byte>, y: seq<Byte>, rest: Option<seq<Byte>>)
    ensures Prepend(x, Prepend(y, rest)) == Prepend(x + y, rest)
  {
    if rest.Some? {
      assert x + (y + rest.value) == x + y + rest.value;
    }
  }

  lemma ScanTwo(a: Sextet, b: Sextet, rest: string)
    ensures Scan([Letter(a), Letter(b)] + rest, START) == Prepend([a * 4 + b / 16], Scan(rest, Group(2, b % 16, 0)))
  {
    ScanLetter(a, [Letter(b)] + rest, START);
    ScanLetter(b, rest, Group(1, a, 0));
    assert Feed(START, a) == ([], Group(1, a, 0));
    assert Feed(Group(1, a, 0), b) == ([a * 4 + b / 16], Group(2, b % 16, 0));
    hide Scan;
    PrependTwice([], [a * 4 + b / 16], Scan(rest, Group(2, b % 16, 0)));
    assert [] + [a * 4 + b / 16] == [a * 4 + b / 16];
    assert [Letter(a)] + ([Letter(b)] + rest) == [Letter(a), Letter(b)] + rest;
  }

  lemma ScanQuartet(x: Byte, y: Byte, z: Byte, rest: string)
    ensures Scan(Quartet(x, y, z) + rest, START) == Prepend([x, y, z], Scan(rest, START))
  {
    hide Scan, Letter;
    var a, b, c, d := x / 4, x % 4 * 16 + y / 16, y % 16 * 4 + z / 64, z % 64;
    ScanTwo(a, b, [Letter(c), Letter(d)] + rest);
    ScanLetter(c, [Letter(d)] + rest, Group(2, b % 16, 0));
    ScanLetter(d, rest, Group(3, c % 4, 0));
    PrependTwice([y], [z], Scan(rest, START));
    PrependTwice([x], [y, z], Scan(rest, START));
    assert b % 16 * 16 + c / 4 == y && c % 4 * 64 + d == z && a * 4 + b / 16 == x;
    assert [x] + [y, z] == [x, y, z] && [y] + [z] == [y, z];
    assert [Letter(c)] + ([Letter(d)] + rest) == [Letter(c), Letter(d)] + rest;
    assert [Letter(a), Letter(b)] + ([Letter(c), Letter(d)] + rest) ==
           [Letter(a), Letter(b), Letter(c), Letter(d)] + rest;
  }
}
