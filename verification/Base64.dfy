/**
 The hand-written base64 codec of the C++ interop client (interop/clients/cpp/main.cpp), the
 encoding of section 4 of RFC 4648. Shifts and masks of non-negative numbers are written as
 division and remainder by powers of two.
 */
module Base64 {

  type Byte = b: int | 0 <= b < 256
  type Sextet = v: int | 0 <= v < 64

  /** kBase64Chars: A-Z, a-z, 0-9, + and /. */
  function CharOf(v: Sextet): char
  {
    if v < 26 then 'A' + v as char
    else if v < 52 then 'a' + (v - 26) as char
    else if v < 62 then '0' + (v - 52) as char
    else if v == 62 then '+'
    else '/'
  }

  /** Base64CharValue, -1 for a character outside the alphabet. */
  function CharValue(c: char): (r: int)
    ensures -1 <= r < 64
  {
    if 'A' <= c <= 'Z' then c as int - 'A' as int
    else if 'a' <= c <= 'z' then c as int - 'a' as int + 26
    else if '0' <= c <= '9' then c as int - '0' as int + 52
    else if c == '+' then 62
    else if c == '/' then 63
    else -1
  }

  /** The two tables are inverse to each other. */
  lemma CharsInvert(v: Sextet, c: char)
    ensures CharValue(CharOf(v)) == v
    ensures CharValue(c) >= 0 ==> CharOf(CharValue(c)) == c
  {
  }

  // ----- Sequences cut into groups of n -----

  /** Whole groups are mapped by `whole`, and what is left over by `rest`. */
  function Grouped<T, U>(n: nat, xs: seq<T>, whole: seq<T> -> seq<U>, rest: seq<T> -> seq<U>): (r: seq<U>)
    requires n > 0
    decreases |xs|
  {
    if |xs| < n then rest(xs) else whole(xs[..n]) + Grouped(n, xs[n..], whole, rest)
  }

  /** The sequence consists of whole groups. */
  predicate Whole<T>(n: nat, xs: seq<T>)
    requires n > 0
    decreases |xs|
  {
    |xs| == 0 || (|xs| >= n && Whole(n, xs[n..]))
  }

  lemma {:induction false} WholeAppends<T>(n: nat, xs: seq<T>, g: seq<T>)
    requires n > 0 && Whole(n, xs) && |g| == n
    ensures Whole(n, xs + g)
    decreases |xs|
  {
    if |xs| == 0 {
      assert xs + g == g && g[n..] == [];
    } else {
      assert (xs + g)[n..] == xs[n..] + g;
      WholeAppends(n, xs[n..], g);
    }
  }

  lemma {:induction false} GroupedSplits<T, U>(n: nat, xs: seq<T>, ys: seq<T>, whole: seq<T> -> seq<U>, rest: seq<T> -> seq<U>)
    requires n > 0 && Whole(n, xs) && rest([]) == []
    ensures Grouped(n, xs + ys, whole, rest) == Grouped(n, xs, whole, rest) + Grouped(n, ys, whole, rest)
    decreases |xs|
  {
    if |xs| == 0 {
      assert xs == [] && xs + ys == ys;
    } else {
      assert (xs + ys)[n..] == xs[n..] + ys && (xs + ys)[..n] == xs[..n];
      GroupedSplits(n, xs[n..], ys, whole, rest);
    }
  }

  lemma GroupedOnce<T, U>(n: nat, g: seq<T>, whole: seq<T> -> seq<U>, rest: seq<T> -> seq<U>)
    requires n > 0 && |g| == n && rest([]) == []
    ensures Grouped(n, g, whole, rest) == whole(g)
  {
    assert g[..n] == g && g[n..] == [];
  }

  // ----- Encoding -----

  /** The four characters of a 24-bit number, most significant first. */
  function Quad(n: nat): (r: string)
    ensures |r| == 4
  {
    [CharOf(n / 262144 % 64), CharOf(n / 4096 % 64), CharOf(n / 64 % 64), CharOf(n % 64)]
  }

  /** Three bytes as a 24-bit number. */
  function Group(a: Byte, b: Byte, c: Byte): nat
  {
    a * 65536 + b * 256 + c
  }

  function EncodeThree(g: seq<Byte>): (r: string)
  {
    if |g| == 3 then Quad(Group(g[0], g[1], g[2])) else ""
  }

  /** One or two bytes left over, padded. */
  function EncodePadded(g: seq<Byte>): (r: string)
  {
    if |g| == 1 then Quad(Group(g[0], 0, 0))[..2] + "=="
    else if |g| == 2 then Quad(Group(g[0], g[1], 0))[..3] + "="
    else ""
  }

  function Encode(data: seq<Byte>): (r: string)
  {
    Grouped(3, data, EncodeThree, EncodePadded)
  }

  // ----- Decoding -----

  /** The sextets of a text; every other character is skipped. */
  function Values(text: string): (r: seq<Sextet>)
  {
    if text == "" then []
    else
      var n := |text| - 1;
      var v := CharValue(text[n]);
      if v < 0 then Values(text[..n]) else Values(text[..n]) + [v]
  }

  function First(v0: Sextet, v1: Sextet): Byte
  {
    v0 * 4 + v1 / 16
  }

  function Second(v1: Sextet, v2: Sextet): Byte
  {
    v1 % 16 * 16 + v2 / 4
  }

  function Third(v2: Sextet, v3: Sextet): Byte
  {
    v2 % 4 * 64 + v3
  }

  function DecodeFour(g: seq<Sextet>): (r: seq<Byte>)
  {
    if |g| == 4 then [First(g[0], g[1]), Second(g[1], g[2]), Third(g[2], g[3])] else []
  }

  /** Two or three sextets left over give one or two bytes, and one gives none. */
  function DecodeRest(g: seq<Sextet>): (r: seq<Byte>)
  {
    if |g| == 2 then [First(g[0], g[1])]
    else if |g| == 3 then [First(g[0], g[1]), Second(g[1], g[2])]
    else []
  }

  function Bytes(vs: seq<Sextet>): (r: seq<Byte>)
  {
    Grouped(4, vs, DecodeFour, DecodeRest)
  }

  function Decode(text: string): (r: seq<Byte>)
  {
    Bytes(Values(text))
  }

  // ----- The methods -----

  /** A loop over groups: the whole groups `done` have been mapped to `out`. */
  ghost predicate Mapped<T, U>(n: nat, done: seq<T>, out: seq<U>, whole: seq<T> -> seq<U>, rest: seq<T> -> seq<U>)
    requires n > 0
  {
    Whole(n, done) && out == Grouped(n, done, whole, rest)
  }

  lemma MappedGrows<T, U>(n: nat, done: seq<T>, out: seq<U>, g: seq<T>, whole: seq<T> -> seq<U>, rest: seq<T> -> seq<U>)
    requires n > 0 && Mapped(n, done, out, whole, rest) && |g| == n && rest([]) == []
    ensures Mapped(n, done + g, out + whole(g), whole, rest)
  {
    WholeAppends(n, done, g);
    GroupedSplits(n, done, g, whole, rest);
    GroupedOnce(n, g, whole, rest);
  }

  lemma MappedEnds<T, U>(n: nat, done: seq<T>, out: seq<U>, g: seq<T>, whole: seq<T> -> seq<U>, rest: seq<T> -> seq<U>)
    requires n > 0 && Mapped(n, done, out, whole, rest) && |g| < n && rest([]) == []
    ensures Grouped(n, done + g, whole, rest) == out + rest(g)
  {
    GroupedSplits(n, done, g, whole, rest);
  }

  /** The end of Base64Encode. */
  method EncodeRemaining(data: seq<Byte>, i: nat) returns (out: string)
    requires i <= |data| < i + 3
    ensures out == EncodePadded(data[i..])
  {
    var remaining := |data| - i;
    out := "";
    if remaining == 1 {
      out := Quad(Group(data[i], 0, 0))[..2] + "==";
    } else if remaining == 2 {
      out := Quad(Group(data[i], data[i + 1], 0))[..3] + "=";
    }
  }

  /** The body of the loop of Base64Encode. */
  method EncodeNext(data: seq<Byte>, i: nat) returns (out: string)
    requires i + 3 <= |data|
    ensures out == EncodeThree(data[i..i + 3])
  {
    var n := Group(data[i], data[i + 1], data[i + 2]);
    out := Quad(n);
  }

  /** Base64Encode. */
  method Base64Encode(data: seq<Byte>) returns (out: string)
    ensures out == Encode(data)
  {
    out := "";
    var i := 0;
    while i + 3 <= |data|
      invariant 0 <= i <= |data| && Mapped(3, data[..i], out, EncodeThree, EncodePadded)
    {
      MappedGrows(3, data[..i], out, data[i..i + 3], EncodeThree, EncodePadded);
      assert data[..i + 3] == data[..i] + data[i..i + 3];
      var group := EncodeNext(data, i);
      out := out + group;
      i := i + 3;
    }
    MappedEnds(3, data[..i], out, data[i..], EncodeThree, EncodePadded);
    assert data == data[..i] + data[i..];
    var tail := EncodeRemaining(data, i);
    out := out + tail;
  }

  lemma ValuesExtend(text: string, c: char)
    ensures Values(text + [c]) == if CharValue(c) < 0 then Values(text) else Values(text) + [CharValue(c)]
  {
    assert (text + [c])[..|text|] == text;
  }

  /** One character for the decoder: skipped, added to the group begun, or completing it. */
  method DecodeChar(c: char, vals: array<Sextet>, count: nat, out: seq<Byte>, ghost vs: seq<Sextet>, ghost done: seq<Sextet>)
    returns (count': nat, out': seq<Byte>, ghost done': seq<Sextet>)
    requires vals.Length == 4 && count < 4 && vs == done + vals[..count] && Mapped(4, done, out, DecodeFour, DecodeRest)
    modifies vals
    ensures count' < 4 && Mapped(4, done', out', DecodeFour, DecodeRest)
    ensures (if CharValue(c) < 0 then vs else vs + [CharValue(c)]) == done' + vals[..count']
  {
    count', out', done' := count, out, done;
    if c == '=' || c == '\n' || c == '\r' {
      return;
    }
    var v := CharValue(c);
    if v < 0 {
      return;
    }
    ghost var group := vals[..count];
    vals[count] := v;
    count' := count + 1;
    assert vals[..count'] == group + [v];
    if count' == 4 {
      ghost var g := vals[..];
      MappedGrows(4, done, out, g, DecodeFour, DecodeRest);
      assert g == vals[..4];
      out' := out + [First(vals[0], vals[1]), Second(vals[1], vals[2]), Third(vals[2], vals[3])];
      count', done' := 0, done + g;
    }
  }

  /** Base64Decode. */
  method Base64Decode(text: string) returns (out: seq<Byte>)
    ensures out == Decode(text)
  {
    out := [];
    var vals := new Sextet[4](_ => 0);
    var count: nat := 0;
    ghost var done: seq<Sextet> := [];
    for i := 0 to |text|
      invariant count < 4 && Values(text[..i]) == done + vals[..count]
      invariant Mapped(4, done, out, DecodeFour, DecodeRest)
    {
      ValuesExtend(text[..i], text[i]);
      assert text[..i + 1] == text[..i] + [text[i]];
      count, out, done := DecodeChar(text[i], vals, count, out, Values(text[..i]), done);
    }
    assert text[..|text|] == text;
    MappedEnds(4, done, out, vals[..count], DecodeFour, DecodeRest);
    if count == 2 {
      out := out + [First(vals[0], vals[1])];
    } else if count == 3 {
      out := out + [First(vals[0], vals[1]), Second(vals[1], vals[2])];
    }
  }

  // ----- Round trip -----

  lemma {:induction false} ValuesConcat(a: string, b: string)
    ensures Values(a + b) == Values(a) + Values(b)
    decreases |b|
  {
    if b == "" {
      assert a + b == a;
    } else {
      var n := |b| - 1;
      assert (a + b)[..|a| + n] == a + b[..n];
      ValuesConcat(a, b[..n]);
    }
  }

  lemma By64(x: int, q: int, r: int)
    requires x == 64 * q + r && 0 <= r < 64
    ensures x / 64 == q && x % 64 == r
  {
  }

  lemma By4096(x: int, q: int, r: int)
    requires x == 4096 * q + r && 0 <= r < 4096
    ensures x / 4096 == q
  {
  }

  lemma By262144(x: int, q: int, r: int)
    requires x == 262144 * q + r && 0 <= r < 262144
    ensures x / 262144 == q
  {
  }

  lemma Sextet0(a: Byte, b: Byte, c: Byte)
    ensures Group(a, b, c) / 262144 % 64 == a / 4
  {
    By262144(Group(a, b, c), a / 4, a % 4 * 65536 + b * 256 + c);
  }

  lemma Sextet1(a: Byte, b: Byte, c: Byte)
    ensures Group(a, b, c) / 4096 % 64 == a % 4 * 16 + b / 16
  {
    By4096(Group(a, b, c), 16 * a + b / 16, b % 16 * 256 + c);
    By64(16 * a + b / 16, a / 4, a % 4 * 16 + b / 16);
  }

  lemma Sextet2(a: Byte, b: Byte, c: Byte)
    ensures Group(a, b, c) / 64 % 64 == b % 16 * 4 + c / 64
  {
    By64(Group(a, b, c), 1024 * a + 4 * b + c / 64, c % 64);
    By64(1024 * a + 4 * b + c / 64, 16 * a + b / 16, b % 16 * 4 + c / 64);
  }

  lemma Sextet3(a: Byte, b: Byte, c: Byte)
    ensures Group(a, b, c) % 64 == c % 64
  {
    By64(Group(a, b, c), 1024 * a + 4 * b + c / 64, c % 64);
  }

  /** The decoder puts the bits of the encoder's sextets back. */
  lemma GroupInverts(a: Byte, b: Byte, c: Byte)
    ensures var n := Group(a, b, c);
            && First(n / 262144 % 64, n / 4096 % 64) == a
            && Second(n / 4096 % 64, n / 64 % 64) == b
            && Third(n / 64 % 64, n % 64) == c
  {
    Sextet0(a, b, c);
    Sextet1(a, b, c);
    Sextet2(a, b, c);
    Sextet3(a, b, c);
  }

  lemma TwoChars(v0: Sextet, v1: Sextet)
    ensures Values([CharOf(v0), CharOf(v1)]) == [v0, v1]
  {
    CharsInvert(v0, '=');
    CharsInvert(v1, '=');
    ValuesExtend([], CharOf(v0));
    ValuesExtend([CharOf(v0)], CharOf(v1));
    assert [] + [CharOf(v0)] == [CharOf(v0)] && [CharOf(v0)] + [CharOf(v1)] == [CharOf(v0), CharOf(v1)];
  }

  lemma FourChars(v0: Sextet, v1: Sextet, v2: Sextet, v3: Sextet)
    ensures var q := [CharOf(v0), CharOf(v1), CharOf(v2), CharOf(v3)];
            && Values(q) == [v0, v1, v2, v3] && Values(q[..3]) == [v0, v1, v2] && Values(q[..2]) == [v0, v1]
  {
    var q := [CharOf(v0), CharOf(v1), CharOf(v2), CharOf(v3)];
    TwoChars(v0, v1);
    CharsInvert(v2, '=');
    CharsInvert(v3, '=');
    assert q[..2] == [CharOf(v0), CharOf(v1)];
    ValuesExtend(q[..2], CharOf(v2));
    assert q[..3] == q[..2] + [CharOf(v2)];
    ValuesExtend(q[..3], CharOf(v3));
    assert q == q[..3] + [CharOf(v3)];
  }

  lemma PaddingIgnored(text: string)
    ensures Values(text + "=") == Values(text) == Values(text + "==")
  {
    ValuesExtend(text, '=');
    ValuesExtend(text + "=", '=');
    assert text + "==" == (text + "=") + "=";
  }

  /** The sextets of an encoded group. */
  lemma QuadValues(n: nat)
    ensures Values(Quad(n)) == [n / 262144 % 64, n / 4096 % 64, n / 64 % 64, n % 64]
    ensures Values(Quad(n)[..3] + "=") == [n / 262144 % 64, n / 4096 % 64, n / 64 % 64]
    ensures Values(Quad(n)[..2] + "==") == [n / 262144 % 64, n / 4096 % 64]
  {
    FourChars(n / 262144 % 64, n / 4096 % 64, n / 64 % 64, n % 64);
    PaddingIgnored(Quad(n)[..3]);
    PaddingIgnored(Quad(n)[..2]);
  }

  /** A whole group comes back. */
  lemma GroupReturns(g: seq<Byte>)
    requires |g| == 3
    ensures |Values(EncodeThree(g))| == 4 && DecodeFour(Values(EncodeThree(g))) == g
  {
    QuadValues(Group(g[0], g[1], g[2]));
    GroupInverts(g[0], g[1], g[2]);
  }

  /** So does what is left over. */
  lemma RestReturns(g: seq<Byte>)
    requires |g| < 3
    ensures |Values(EncodePadded(g))| < 4 && DecodeRest(Values(EncodePadded(g))) == g
  {
    if |g| == 1 {
      QuadValues(Group(g[0], 0, 0));
      GroupInverts(g[0], 0, 0);
    } else if |g| == 2 {
      QuadValues(Group(g[0], g[1], 0));
      GroupInverts(g[0], g[1], 0);
    }
  }

  /** The round trip: decoding an encoded sequence of bytes gives it back. */
  lemma {:induction false} RoundTrip(x: seq<Byte>)
    ensures Decode(Encode(x)) == x
    decreases |x|
  {
    if |x| < 3 {
      RestReturns(x);
    } else {
      var g, more := x[..3], x[3..];
      GroupReturns(g);
      ValuesConcat(EncodeThree(g), Encode(more));
      RoundTrip(more);
      GroupThenBytes(Values(EncodeThree(g)), Values(Encode(more)));
      assert x == g + more;
    }
  }

  lemma GroupThenBytes(g: seq<Sextet>, vs: seq<Sextet>)
    requires |g| == 4
    ensures Bytes(g + vs) == DecodeFour(g) + Bytes(vs)
  {
    assert (g + vs)[..4] == g && (g + vs)[4..] == vs;
  }

  function PaddedLength(n: nat): nat
  {
    if n == 0 then 0 else if n < 3 then 4 else 4 + PaddedLength(n - 3)
  }

  lemma {:induction false} EncodeIsPadded(x: seq<Byte>)
    ensures |Encode(x)| == PaddedLength(|x|)
    decreases |x|
  {
    if |x| >= 3 {
      EncodeIsPadded(x[3..]);
      assert |EncodeThree(x[..3])| == 4;
    }
  }

  lemma {:induction false} PaddedThirds(n: nat)
    ensures PaddedLength(n) == (n + 2) / 3 * 4
  {
    if n >= 3 {
      PaddedThirds(n - 3);
    }
  }

  /** Four characters for every three bytes or part of three. */
  lemma EncodedLength(x: seq<Byte>)
    ensures |Encode(x)| == (|x| + 2) / 3 * 4
  {
    EncodeIsPadded(x);
    PaddedThirds(|x|);
  }

  /** Characters outside the alphabet may be added anywhere, as line breaks are, without changing what is decoded. */
  lemma OtherCharactersAreIgnored(a: string, c: char, b: string)
    requires CharValue(c) < 0
    ensures Decode(a + [c] + b) == Decode(a + b)
  {
    ValuesConcat(a + [c], b);
    ValuesExtend(a, c);
    ValuesConcat(a, b);
  }

  // ----- The encoding is the one of RFC 4648 -----

  /** Table 1 of RFC 4648: the letters, the digits, plus and slash. */
  lemma AlphabetIsStandard(v: Sextet)
    ensures CharOf(0) == 'A' && CharOf(25) == 'Z' && CharOf(26) == 'a' && CharOf(51) == 'z'
    ensures CharOf(52) == '0' && CharOf(61) == '9' && CharOf(62) == '+' && CharOf(63) == '/'
    ensures v !in {25, 51, 61, 62, 63} ==> CharOf(v + 1) as int == CharOf(v) as int + 1
  {
  }

  lemma QuadIs(n: nat, a: Sextet, b: Sextet, c: Sextet, d: Sextet)
    requires n == ((a * 64 + b) * 64 + c) * 64 + d
    ensures Quad(n) == [CharOf(a), CharOf(b), CharOf(c), CharOf(d)]
  {
    By64(n, (a * 64 + b) * 64 + c, d);
    By4096(n, a * 64 + b, c * 64 + d);
    By262144(n, a, (b * 64 + c) * 64 + d);
    By64((a * 64 + b) * 64 + c, a * 64 + b, c);
    By64(a * 64 + b, a, b);
  }

  lemma EncodeMore(g: seq<Byte>, rest: seq<Byte>)
    requires |g| == 3
    ensures Encode(g + rest) == EncodeThree(g) + Encode(rest)
  {
    assert (g + rest)[..3] == g && (g + rest)[3..] == rest;
  }

  lemma OneByte(x: Byte, a: Sextet, b: Sextet)
    requires x * 16 == a * 64 + b
    ensures Encode([x]) == [CharOf(a), CharOf(b), '=', '=']
  {
    QuadIs(Group(x, 0, 0), a, b, 0, 0);
  }

  lemma TwoBytes(x: Byte, y: Byte, a: Sextet, b: Sextet, c: Sextet)
    requires (x * 256 + y) * 4 == (a * 64 + b) * 64 + c
    ensures Encode([x, y]) == [CharOf(a), CharOf(b), CharOf(c), '=']
  {
    QuadIs(Group(x, y, 0), a, b, c, 0);
  }

  lemma ThreeBytes(x: Byte, y: Byte, z: Byte, a: Sextet, b: Sextet, c: Sextet, d: Sextet)
    requires (x * 256 + y) * 256 + z == ((a * 64 + b) * 64 + c) * 64 + d
    ensures EncodeThree([x, y, z]) == [CharOf(a), CharOf(b), CharOf(c), CharOf(d)]
  {
    QuadIs(Group(x, y, z), a, b, c, d);
  }

  /** The test vectors of section 10, for f, fo, foo, foob, fooba and foobar. */
  lemma TestVectors()
    ensures Encode([]) == "" && Encode([102]) == "Zg==" && Encode([102, 111]) == "Zm8="
    ensures Encode([102, 111, 111]) == "Zm9v" && Encode([102, 111, 111] + [98]) == "Zm9v" + "Yg=="
    ensures Encode([102, 111, 111] + [98, 97]) == "Zm9v" + "YmE="
    ensures Encode([102, 111, 111] + [98, 97, 114]) == "Zm9v" + "YmFy"
  {
    var foo: seq<Byte> := [102, 111, 111];
    OneByte(102, 25, 32);
    TwoBytes(102, 111, 25, 38, 60);
    ThreeBytes(102, 111, 111, 25, 38, 61, 47);
    EncodeMore(foo, []);
    assert foo + [] == foo;
    EncodeMore(foo, [98]);
    OneByte(98, 24, 32);
    EncodeMore(foo, [98, 97]);
    TwoBytes(98, 97, 24, 38, 4);
    EncodeMore(foo, [98, 97, 114]);
    ThreeBytes(98, 97, 114, 24, 38, 5, 50);
    EncodeMore([98, 97, 114], []);
    assert [98, 97, 114] + [] == [98, 97, 114];
  }
}
