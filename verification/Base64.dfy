/** Base64 as in RFC 4648: encoding with a 16-bit shift register and decoding in
    place. */
module Base64 {
  import opened Division

  type Byte = b: nat | b < 256
  type Sextet = s: nat | s < 64

  datatype Error = NoError | InvalidPadding | InvalidChar
  datatype Result = Ok(value: seq<Byte>) | Err(error: Error)

  const PADDING: Byte := 61

  /** The alphabets of sections 4 (`Std`) and 5 (`Url`) of RFC 4648. */
  datatype Encoding = Std | Url

  function EncodeChar(e: Encoding, s: Sextet): Byte {
    if s < 26 then 65 + s
    else if s < 52 then 97 + (s - 26)
    else if s < 62 then 48 + (s - 52)
    else if s == 62 then (if e == Std then 43 else 45)
    else (if e == Std then 47 else 95)
  }

  function DecodeChar(e: Encoding, c: Byte): int {
    if 65 <= c <= 90 then c - 65
    else if 97 <= c <= 122 then c - 97 + 26
    else if 48 <= c <= 57 then c - 48 + 52
    else if c == (if e == Std then 43 else 45) then 62
    else if c == (if e == Std then 47 else 95) then 63
    else -1
  }

  /** The two tables of an alphabet are inverse to each other. */
  lemma TablesAgree(e: Encoding)
    ensures forall s: Sextet :: DecodeChar(e, EncodeChar(e, s)) == s && EncodeChar(e, s) != PADDING
    ensures forall c: Byte :: -1 <= DecodeChar(e, c) < 64
    ensures forall c: Byte :: DecodeChar(e, c) != -1 ==> EncodeChar(e, DecodeChar(e, c)) == c
  {
  }

  // --------------------------------------------------------- groups of 24 bits

  function S0(a: Byte): Sextet { a / 4 }
  function S1(a: Byte, b: Byte): Sextet { a as int % 4 * 16 + b as int / 16 }
  function S2(b: Byte, c: Byte): Sextet { b as int % 16 * 4 + c as int / 64 }
  function S3(c: Byte): Sextet { c % 64 }

  function B0(p: Sextet, q: Sextet): Byte { p as int * 4 + q as int / 16 }
  function B1(q: Sextet, r: Sextet): Byte { q as int % 16 * 16 + r as int / 4 }
  function B2(r: Sextet, s: Sextet): Byte { r as int % 4 * 64 + s as int }

  lemma BytesBack(a: Byte, b: Byte, c: Byte)
    ensures B0(S0(a), S1(a, b)) == a && B1(S1(a, b), S2(b, c)) == b && B2(S2(b, c), S3(c)) == c
  {
  }

  lemma SextetsBack(p: Sextet, q: Sextet, r: Sextet, s: Sextet)
    ensures S0(B0(p, q)) == p && S1(B0(p, q), B1(q, r)) == q && S2(B1(q, r), B2(r, s)) == r && S3(B2(r, s)) == s
    ensures S1(B0(p, q), 0) == q <==> q % 16 == 0
    ensures S2(B1(q, r), 0) == r <==> r % 4 == 0
  {
  }

  /** Three bytes are four sextets; one or two bytes at the end are filled up with
      zero bits. */
  function Grouped(b: seq<Byte>): seq<Sextet> {
    if |b| == 0 then []
    else if |b| == 1 then [S0(b[0]), S1(b[0], 0)]
    else if |b| == 2 then [S0(b[0]), S1(b[0], b[1]), S2(b[1], 0)]
    else [S0(b[0]), S1(b[0], b[1]), S2(b[1], b[2]), S3(b[2])] + Grouped(b[3..])
  }

  /** Four sextets are three bytes; at the end, bits that fill no byte are dropped. */
  function Ungrouped(s: seq<Sextet>): seq<Byte> {
    if |s| <= 1 then []
    else if |s| == 2 then [B0(s[0], s[1])]
    else if |s| == 3 then [B0(s[0], s[1]), B1(s[1], s[2])]
    else [B0(s[0], s[1]), B1(s[1], s[2]), B2(s[2], s[3])] + Ungrouped(s[4..])
  }

  lemma {:induction false} UngroupedGrouped(b: seq<Byte>)
    ensures Ungrouped(Grouped(b)) == b
  {
    hide S0, S1, S2, S3, B0, B1, B2;
    if |b| == 1 {
      BytesBack(b[0], 0, 0);
    } else if |b| == 2 {
      BytesBack(b[0], b[1], 0);
    } else if |b| >= 3 {
      UngroupedGrouped(b[3..]);
      BytesBack(b[0], b[1], b[2]);
      assert Grouped(b)[4..] == Grouped(b[3..]);
      assert b == [b[0], b[1], b[2]] + b[3..];
    }
  }

  /** No sextet hangs loose and the bits dropped are zero. */
  predicate Whole(s: seq<Sextet>) {
    var n := |s|;
    && n % 4 != 1
    && (n % 4 == 2 ==> s[n - 1] % 16 == 0)
    && (n % 4 == 3 ==> s[n - 1] % 4 == 0)
  }

  lemma WholeStep(s: seq<Sextet>)
    requires |s| >= 4
    ensures Whole(s) <==> Whole(s[4..])
  {
    assert |s[4..]| % 4 == |s| % 4;
    if |s| > 4 { assert s[4..][|s| - 5] == s[|s| - 1]; }
  }

  lemma GroupedThree(a: Byte, b: Byte, c: Byte, rest: seq<Byte>)
    ensures Grouped([a, b, c] + rest) == [S0(a), S1(a, b), S2(b, c), S3(c)] + Grouped(rest)
  {
    hide S0, S1, S2, S3;
    assert ([a, b, c] + rest)[3..] == rest;
  }

  lemma UngroupedFour(p: Sextet, q: Sextet, r: Sextet, t: Sextet, rest: seq<Sextet>)
    ensures Ungrouped([p, q, r, t] + rest) == [B0(p, q), B1(q, r), B2(r, t)] + Ungrouped(rest)
  {
    hide B0, B1, B2;
    assert ([p, q, r, t] + rest)[4..] == rest;
  }

  lemma RegroupFour(p: Sextet, q: Sextet, r: Sextet, t: Sextet, rest: seq<Sextet>)
    ensures Grouped(Ungrouped([p, q, r, t] + rest)) == [p, q, r, t] + Grouped(Ungrouped(rest))
  {
    hide S0, S1, S2, S3, B0, B1, B2, Grouped, Ungrouped;
    UngroupedFour(p, q, r, t, rest);
    GroupedThree(B0(p, q), B1(q, r), B2(r, t), Ungrouped(rest));
    SextetsBack(p, q, r, t);
  }

  lemma SameTail(head: seq<Sextet>, a: seq<Sextet>, b: seq<Sextet>)
    ensures head + a == head + b <==> a == b
  {
    if head + a == head + b {
      assert (head + a)[|head|..] == a && (head + b)[|head|..] == b;
    }
  }

  /** Encoding gives back exactly those sextets that are whole. */
  lemma {:induction false} GroupedUngrouped(s: seq<Sextet>)
    ensures Grouped(Ungrouped(s)) == s <==> Whole(s)
    decreases |s|
  {
    if |s| < 4 {
      RegroupLast(s);
    } else {
      hide Grouped, Ungrouped, Whole;
      var rest := s[4..];
      GroupedUngrouped(rest);
      WholeStep(s);
      assert s == [s[0], s[1], s[2], s[3]] + rest;
      RegroupFour(s[0], s[1], s[2], s[3], rest);
      SameTail([s[0], s[1], s[2], s[3]], Grouped(Ungrouped(rest)), rest);
    }
  }

  lemma RegroupLast(s: seq<Sextet>)
    requires |s| < 4
    ensures Grouped(Ungrouped(s)) == s <==> Whole(s)
  {
    hide Grouped, Ungrouped, Whole;
    if |s| <= 1 {
      RegroupOne(s);
    } else if |s| == 2 {
      RegroupTwo(s);
    } else {
      RegroupThree(s);
    }
  }

  lemma RegroupOne(s: seq<Sextet>)
    requires |s| <= 1
    ensures Grouped(Ungrouped(s)) == s <==> Whole(s)
  {
    assert Grouped([]) == [];
  }

  lemma RegroupTwo(s: seq<Sextet>)
    requires |s| == 2
    ensures Grouped(Ungrouped(s)) == s <==> Whole(s)
  {
    hide S0, S1, S2, S3, B0, B1, B2;
    SextetsBack(s[0], s[1], 0, 0);
    var g := [s[0], S1(B0(s[0], s[1]), 0)];
    assert Grouped(Ungrouped(s)) == g;
    assert g == s <==> g[1] == s[1];
  }

  lemma RegroupThree(s: seq<Sextet>)
    requires |s| == 3
    ensures Grouped(Ungrouped(s)) == s <==> Whole(s)
  {
    hide S0, S1, S2, S3, B0, B1, B2;
    SextetsBack(s[0], s[1], s[2], 0);
    var g := [s[0], s[1], S2(B1(s[1], s[2]), 0)];
    assert Grouped(Ungrouped(s)) == g;
    assert g == s <==> g[2] == s[2];
  }

  // --------------------------------------------------------------- as a stream

  /** The sextets complete once `b` has been read. */
  function Emitted(b: seq<Byte>): seq<Sextet> {
    if |b| == 0 then []
    else if |b| == 1 then [S0(b[0])]
    else if |b| == 2 then [S0(b[0]), S1(b[0], b[1])]
    else [S0(b[0]), S1(b[0], b[1]), S2(b[1], b[2]), S3(b[2])] + Emitted(b[3..])
  }

  /** The sextets that byte `x` completes. */
  function Completed(b: seq<Byte>, x: Byte): seq<Sextet> {
    if |b| % 3 == 0 then [S0(x)]
    else if |b| % 3 == 1 then [S1(b[|b| - 1], x)]
    else [S2(b[|b| - 1], x), S3(x)]
  }

  lemma {:induction false} EmitByte(b: seq<Byte>, x: Byte)
    ensures Emitted(b + [x]) == Emitted(b) + Completed(b, x)
  {
    hide S0, S1, S2, S3;
    if |b| >= 3 {
      EmitByte(b[3..], x);
      assert (b + [x])[3..] == b[3..] + [x];
      assert Completed(b[3..], x) == Completed(b, x);
    }
  }

  /** The sextet of the bits that are left at the end. */
  function Rest(b: seq<Byte>): seq<Sextet> {
    if |b| % 3 == 0 then []
    else if |b| % 3 == 1 then [S1(b[|b| - 1], 0)]
    else [S2(b[|b| - 1], 0)]
  }

  lemma RestStep(b: seq<Byte>)
    requires |b| >= 3
    ensures Rest(b) == Rest(b[3..])
  {
    assert |b[3..]| % 3 == |b| % 3;
  }

  lemma {:induction false} EmitRest(b: seq<Byte>)
    ensures Grouped(b) == Emitted(b) + Rest(b)
  {
    hide S0, S1, S2, S3;
    if |b| >= 3 {
      EmitRest(b[3..]);
      RestStep(b);
      hide Rest;
    }
  }

  /** The bytes that sextet `x` completes. */
  function Filled(s: seq<Sextet>, x: Sextet): seq<Byte> {
    match |s| % 4
    case 0 => []
    case 1 => [B0(s[|s| - 1], x)]
    case 2 => [B1(s[|s| - 1], x)]
    case _ => [B2(s[|s| - 1], x)]
  }

  lemma FilledStep(s: seq<Sextet>, x: Sextet)
    requires |s| >= 4
    ensures Filled(s, x) == Filled(s[4..], x)
  {
    hide B0, B1, B2;
    assert |s[4..]| % 4 == |s| % 4;
    if |s| > 4 { assert s[4..][|s| - 5] == s[|s| - 1]; }
  }

  lemma {:induction false} FillSextet(s: seq<Sextet>, x: Sextet)
    ensures Ungrouped(s + [x]) == Ungrouped(s) + Filled(s, x)
  {
    hide B0, B1, B2;
    if |s| >= 4 {
      FillSextet(s[4..], x);
      FilledStep(s, x);
      hide Filled;
      assert (s + [x])[4..] == s[4..] + [x];
    }
  }

  // ------------------------------------------------------------------ the texts

  function Chars(e: Encoding, s: seq<Sextet>): seq<Byte> {
    seq(|s|, i requires 0 <= i < |s| => EncodeChar(e, s[i]))
  }

  function Encoded(e: Encoding, b: seq<Byte>, padding: bool): seq<Byte> {
    Chars(e, Grouped(b)) + Pad(|b|, padding)
  }

  function Pad(size: nat, padding: bool): seq<Byte> {
    if !padding || size % 3 == 0 then [] else if size % 3 == 1 then [PADDING, PADDING] else [PADDING]
  }

  /** The characters before the first padding. */
  function Body(text: seq<Byte>): seq<Byte> {
    if text == [] || text[0] == PADDING then [] else [text[0]] + Body(text[1..])
  }

  predicate Legal(e: Encoding, text: seq<Byte>) {
    forall i | 0 <= i < |text| :: DecodeChar(e, text[i]) != -1
  }

  predicate AllPadding(text: seq<Byte>) {
    forall i | 0 <= i < |text| :: text[i] == PADDING
  }

  function Sextets(e: Encoding, text: seq<Byte>): seq<Sextet>
    requires Legal(e, text)
  {
    seq(|text|, i requires 0 <= i < |text| => DecodeChar(e, text[i]))
  }

  lemma {:induction false} BodyIsPrefix(text: seq<Byte>)
    ensures |Body(text)| <= |text| && text == Body(text) + text[|Body(text)|..] && PADDING !in Body(text)
    ensures |Body(text)| < |text| ==> text[|Body(text)|] == PADDING
  {
    if text != [] && text[0] != PADDING {
      BodyIsPrefix(text[1..]);
    }
  }

  function Decoded(e: Encoding, text: seq<Byte>): Result {
    BodyIsPrefix(text);
    if !Legal(e, Body(text)) then Err(InvalidChar)
    else if !AllPadding(text[|Body(text)|..]) then Err(InvalidPadding)
    else Ok(Ungrouped(Sextets(e, Body(text))))
  }

  lemma {:induction false} BodyOf(text: seq<Byte>, tail: seq<Byte>)
    requires PADDING !in text && (tail == [] || tail[0] == PADDING)
    ensures Body(text + tail) == text
  {
    if text == [] {
      assert text + tail == tail;
    } else {
      assert (text + tail)[1..] == text[1..] + tail;
      BodyOf(text[1..], tail);
    }
  }

  /** Decoding undoes encoding for every byte string, in both alphabets, padded or
      not. */
  lemma RoundTrip(e: Encoding, b: seq<Byte>, padding: bool)
    ensures Decoded(e, Encoded(e, b, padding)) == Ok(b)
  {
    hide Grouped, Ungrouped, EncodeChar, DecodeChar;
    TablesAgree(e);
    var g := Grouped(b);
    var text := Chars(e, g);
    var tail := Encoded(e, b, padding)[|text|..];
    assert Encoded(e, b, padding) == text + tail;
    BodyOf(text, tail);
    assert Sextets(e, text) == g;
    UngroupedGrouped(b);
  }

  /** The texts that encoding gives back are, up to padding, those that are legal
      and whole. */
  lemma OtherWay(e: Encoding, text: seq<Byte>)
    requires Decoded(e, text).Ok?
    ensures Encoded(e, Decoded(e, text).value, false) == Body(text) <==> Whole(Sextets(e, Body(text)))
  {
    hide Grouped, Ungrouped, EncodeChar, DecodeChar, Whole;
    TablesAgree(e);
    var s := Sextets(e, Body(text));
    GroupedUngrouped(s);
    assert Chars(e, s) == Body(text);
    var g := Grouped(Ungrouped(s));
    if Chars(e, g) == Body(text) {
      assert |g| == |s|;
      forall i | 0 <= i < |g| ensures g[i] == s[i] {
        assert Chars(e, g)[i] == Chars(e, s)[i];
      }
    }
  }

  // ------------------------------------------------------------------ the loops

  /** Sixteen bits; what is shifted out at the top is lost. */
  type Word = w: nat | w < 0x1_0000

  function ShiftLeft(w: nat, n: nat): nat { if n == 0 then w else 2 * ShiftLeft(w, n - 1) }

  function ShiftRight(w: nat, n: nat): nat { if n == 0 then w else ShiftRight(w, n - 1) / 2 }

  lemma Halved(w: nat, n: nat)
    requires n > 0
    ensures w / n / 2 == w / (2 * n)
  {
    var q, r := w / n, w % n;
    assert q == 2 * (q / 2) + q % 2;
    assert n * q == n * (2 * (q / 2)) + n * (q % 2);
    assert n * (2 * (q / 2)) == 2 * n * (q / 2);
    assert n * (q % 2) + r < 2 * n by { if q % 2 == 1 { assert n * (q % 2) == n; } else { assert n * (q % 2) == 0; } }
    Divides(w, 2 * n, q / 2, n * (q % 2) + r);
  }

  lemma RightShifts(w: nat)
    ensures ShiftRight(w, 0) == w && ShiftRight(w, 2) == w / 4 && ShiftRight(w, 4) == w / 16 && ShiftRight(w, 6) == w / 64
  {
    assert ShiftRight(w, 1) == w / 2;
    Halved(w, 2);
    assert ShiftRight(w, 2) == w / 4;
    Halved(w, 4);
    assert ShiftRight(w, 3) == w / 8;
    Halved(w, 8);
    assert ShiftRight(w, 4) == w / 16;
    Halved(w, 16);
    assert ShiftRight(w, 5) == w / 32;
    Halved(w, 32);
  }

  lemma Shifts(w: nat)
    ensures ShiftLeft(w, 2) == w * 4 && ShiftLeft(w, 4) == w * 16 && ShiftLeft(w, 6) == w * 64 && ShiftLeft(w, 8) == w * 256
    ensures ShiftRight(w, 0) == w && ShiftRight(w, 2) == w / 4 && ShiftRight(w, 4) == w / 16 && ShiftRight(w, 6) == w / 64
  {
    assert ShiftLeft(w, 1) == w * 2;
    assert ShiftLeft(w, 2) == w * 4;
    assert ShiftLeft(w, 3) == w * 8;
    assert ShiftLeft(w, 4) == w * 16;
    assert ShiftLeft(w, 5) == w * 32;
    assert ShiftLeft(w, 6) == w * 64;
    assert ShiftLeft(w, 7) == w * 128;
    RightShifts(w);
  }

  /** Shifts left by `n` and puts `low`, which has at most `n` bits, in their place. */
  function ShiftIn(w: Word, n: nat, low: nat): Word { (ShiftLeft(w, n) + low) % 0x1_0000 }

  /** What the register must hold: `bits` bits that have been read and not used. */
  ghost predicate Holds(b: seq<Byte>, bits: nat, work: Word) {
    match |b| % 3
    case 0 => bits == 0
    case 1 => bits == 2 && work % 4 == b[|b| - 1] % 4
    case _ => bits == 4 && work % 16 == b[|b| - 1] % 16
  }

  /** The register before its full sextets are taken out. */
  ghost predicate Loaded(b: seq<Byte>, x: Byte, bits: nat, work: Word) {
    match |b| % 3
    case 0 => bits == 8 && work % 256 == x
    case 1 => bits == 10 && work % 1024 == b[|b| - 1] as int % 4 * 256 + x
    case _ => bits == 12 && work % 4096 == b[|b| - 1] as int % 16 * 256 + x
  }

  lemma ByteIn(w: Word, x: Byte)
    ensures (w * 256 + x) % 0x1_0000 % 256 == x
    ensures (w * 256 + x) % 0x1_0000 % 1024 == w % 4 * 256 + x
    ensures (w * 256 + x) % 0x1_0000 % 4096 == w % 16 * 256 + x
  {
    var t := w * 256 + x;
    var v, k := t % 0x1_0000, t / 0x1_0000;
    Divides(v, 256, w - 256 * k, x);
    Divides(v, 1024, w / 4 - 64 * k, w % 4 * 256 + x);
    Divides(v, 4096, w / 16 - 16 * k, w % 16 * 256 + x);
  }

  /** No bit that is still needed is shifted out. */
  lemma Load(b: seq<Byte>, x: Byte, bits: nat, work: Word)
    requires Holds(b, bits, work)
    ensures Loaded(b, x, bits + 8, ShiftIn(work, 8, x))
  {
    Shifts(work);
    ByteIn(work, x);
  }

  /** Takes out the full sextets. */
  method Drain(e: Encoding, work: Word, bits: nat, ghost b: seq<Byte>, ghost x: Byte) returns (out: seq<Byte>, left: nat)
    requires Loaded(b, x, bits, work)
    ensures out == Chars(e, Completed(b, x)) && Holds(b + [x], left, work)
  {
    hide S0, S1, S2, S3, EncodeChar;
    out, left := [], bits;
    ghost var taken: seq<Sextet> := [];
    while left >= 6
      invariant bits == left + |taken| * 6 && out == Chars(e, taken) && taken <= Completed(b, x)
    {
      Offset(b, x, bits, work, left - 6, |taken|);
      left := left - 6;
      var offset: Sextet := ShiftRight(work, left) % 64;
      taken := taken + [offset];
      out := out + [EncodeChar(e, offset)];
    }
    assert bits - left == |taken| * 6;
    Drained(b, x, bits, work, left);
  }

  lemma Drained(b: seq<Byte>, x: Byte, bits: nat, work: Word, left: nat)
    requires Loaded(b, x, bits, work) && left == if bits < 12 then bits - 6 else 0
    ensures Holds(b + [x], left, work)
  {
    assert |b + [x]| == |b| + 1 && (b + [x])[|b|] == x;
    NextPhase(|b|);
    if |b| % 3 == 0 {
      LowBits(work, x, 0);
    } else if |b| % 3 == 1 {
      LowBits(work, x, b[|b| - 1]);
    }
  }

  lemma NextPhase(n: nat)
    ensures (n + 1) % 3 == if n % 3 == 2 then 0 else n % 3 + 1
  {
  }

  lemma LowBits(w: Word, x: Byte, y: Byte)
    ensures w % 256 == x ==> w % 4 == x % 4
    ensures w % 1024 == y as int % 4 * 256 + x ==> w % 16 == x % 16
  {
    if w % 256 == x { Divides(w, 4, w / 256 * 64 + x / 4, x % 4); }
    if w % 1024 == y as int % 4 * 256 + x { Divides(w, 16, w / 1024 * 64 + y as int % 4 * 16 + x / 16, x % 16); }
  }

  lemma Offset(b: seq<Byte>, x: Byte, bits: nat, work: Word, left: nat, k: nat)
    requires Loaded(b, x, bits, work) && left + 6 * (k + 1) == bits
    ensures k < |Completed(b, x)| && ShiftRight(work, left) % 64 == Completed(b, x)[k]
  {
    Shifts(work);
    if |b| % 3 == 0 {
      SextetOut(work, 0, x);
    } else {
      SextetOut(work, b[|b| - 1], x);
    }
  }

  lemma SextetOut(w: Word, y: Byte, x: Byte)
    ensures w % 256 == x ==> w / 4 % 64 == S0(x)
    ensures w % 1024 == y as int % 4 * 256 + x ==> w / 16 % 64 == S1(y, x)
    ensures w % 4096 == y as int % 16 * 256 + x ==> w / 64 % 64 == S2(y, x) && w % 64 == S3(x)
  {
    if w % 256 == x {
      Divides(w, 4, w / 256 * 64 + x / 4, x % 4);
      Divides(w / 4, 64, w / 256, x / 4);
    }
    if w % 1024 == y as int % 4 * 256 + x {
      Divides(w, 16, w / 1024 * 64 + S1(y, x), x % 16);
      Divides(w / 16, 64, w / 1024, S1(y, x));
    }
    if w % 4096 == y as int % 16 * 256 + x {
      Divides(w, 64, w / 4096 * 64 + S2(y, x), x % 64);
      Divides(w / 64, 64, w / 4096, S2(y, x));
    }
  }

  /** What is left in the register is the last sextet, if any bit is left. */
  lemma LastBits(b: seq<Byte>, bits: nat, work: Word)
    requires Holds(b, bits, work)
    ensures bits == if |b| % 3 == 0 then 0 else if |b| % 3 == 1 then 2 else 4
    ensures Rest(b) == if bits == 0 then [] else [ShiftIn(work, 6 - bits, 0) % 64]
  {
    Shifts(work);
    if |b| % 3 != 0 { ZerosIn(work, b[|b| - 1]); }
  }

  lemma CharsOf(e: Encoding, a: seq<Sextet>, b: seq<Sextet>)
    ensures Chars(e, a + b) == Chars(e, a) + Chars(e, b)
  {
  }

  lemma ZerosIn(w: Word, y: Byte)
    ensures w % 4 == y % 4 ==> w * 16 % 0x1_0000 % 64 == S1(y, 0)
    ensures w % 16 == y % 16 ==> w * 4 % 0x1_0000 % 64 == S2(y, 0)
  {
    var t, u := w * 16, w * 4;
    Divides(t % 0x1_0000, 64, w / 4 - 1024 * (t / 0x1_0000), w % 4 * 16);
    Divides(u % 0x1_0000, 64, w / 16 - 1024 * (u / 0x1_0000), w % 16 * 4);
  }

  method Encode(e: Encoding, input: seq<Byte>, padding: bool) returns (out: seq<Byte>)
    ensures out == Encoded(e, input, padding)
  {
    assert Chars(e, Emitted([])) == [] && Holds([], 0, 0);
    hide Emitted, Grouped, EncodeChar, Holds, Loaded, Completed, Rest, ShiftIn, Pad, Chars;
    out := [];
    var bits: nat, work: Word, i := 0, 0, 0;
    assert input[..0] == [];
    while i < |input|
      invariant 0 <= i <= |input| && Holds(input[..i], bits, work)
      invariant out == Chars(e, Emitted(input[..i]))
    {
      ghost var read := input[..i];
      EmitByte(read, input[i]);
      CharsOf(e, Emitted(read), Completed(read, input[i]));
      Load(read, input[i], bits, work);
      bits, work := bits + 8, ShiftIn(work, 8, input[i]);
      var more;
      more, bits := Drain(e, work, bits, read, input[i]);
      out := out + more;
      i := i + 1;
      assert input[..i] == read + [input[i - 1]];
    }
    assert input[..i] == input;
    EmitRest(input);
    CharsOf(e, Emitted(input), Rest(input));
    var tail := Tail(e, work, bits, padding, input);
    out := out + tail;
  }

  /** The last character and the padding. */
  method Tail(e: Encoding, work: Word, bits: nat, padding: bool, ghost input: seq<Byte>) returns (tail: seq<Byte>)
    requires Holds(input, bits, work)
    ensures tail == Chars(e, Rest(input)) + Pad(|input|, padding)
  {
    hide EncodeChar, Rest, Holds, ShiftIn;
    LastBits(input, bits, work);
    tail := [];
    if bits != 0 {
      var shifted := ShiftIn(work, 6 - bits, 0);
      var offset: Sextet := shifted % 64;
      tail := [EncodeChar(e, offset)];
      if padding { tail := tail + if bits == 2 then [PADDING, PADDING] else [PADDING]; }
    }
  }

  /** What the decoder's register must hold. */
  ghost predicate Pending(s: seq<Sextet>, bits: nat, acc: Word) {
    match |s| % 4
    case 0 => bits == 0
    case 1 => bits == 6 && acc % 64 == s[|s| - 1]
    case 2 => bits == 4 && acc % 16 == s[|s| - 1] % 16
    case _ => bits == 2 && acc % 4 == s[|s| - 1] % 4
  }

  /** The byte a sextet completes, if any, and what is left of the register. */
  lemma Accumulate(s: seq<Sextet>, x: Sextet, bits: nat, acc: Word)
    requires Pending(s, bits, acc)
    ensures bits + 6 < 8 ==> Filled(s, x) == [] && Pending(s + [x], bits + 6, ShiftIn(acc, 6, x))
    ensures bits + 6 >= 8 ==>
              Filled(s, x) == [ShiftRight(ShiftIn(acc, 6, x), bits - 2) % 256] && Pending(s + [x], bits - 2, ShiftIn(acc, 6, x))
  {
    hide B0, B1, B2, Shifted, ShiftLeft, ShiftRight;
    Shifts(acc);
    var after := ShiftIn(acc, 6, x);
    SextetIn(acc, x);
    AccumulateInto(s, x, bits, acc, after);
  }

  lemma AccumulateInto(s: seq<Sextet>, x: Sextet, bits: nat, acc: Word, after: Word)
    requires Pending(s, bits, acc) && Shifted(acc, after, x)
    ensures bits + 6 < 8 ==> Filled(s, x) == [] && Pending(s + [x], bits + 6, after)
    ensures bits + 6 >= 8 ==> Filled(s, x) == [ShiftRight(after, bits - 2) % 256] && Pending(s + [x], bits - 2, after)
  {
    hide B0, B1, B2, Shifted, ShiftRight;
    Shifts(after);
    LowSextet(acc, after, x);
    assert |s + [x]| == |s| + 1 && (s + [x])[|s|] == x;
    if |s| % 4 != 0 { ByteOut(acc, after, s[|s| - 1], x); }
  }

  /** `v` is `w` with `x` shifted in. */
  ghost predicate Shifted(w: Word, v: Word, x: Sextet) {
    v % 64 == x && v % 4096 == w % 64 * 64 + x && v % 1024 == w % 16 * 64 + x && v % 256 == w % 4 * 64 + x
  }

  lemma LowSextet(w: Word, v: Word, x: Sextet)
    requires Shifted(w, v, x)
    ensures v % 64 == x
  {
  }

  lemma SextetIn(w: Word, x: Sextet)
    ensures Shifted(w, (w * 64 + x) % 0x1_0000, x)
  {
    var t := w * 64 + x;
    var v, k := t % 0x1_0000, t / 0x1_0000;
    Divides(v, 64, w - 1024 * k, x);
    Divides(v, 4096, w / 64 - 16 * k, w % 64 * 64 + x);
    Divides(v, 1024, w / 16 - 64 * k, w % 16 * 64 + x);
    Divides(v, 256, w / 4 - 256 * k, w % 4 * 64 + x);
  }

  lemma ByteOut(w: Word, v: Word, y: Sextet, x: Sextet)
    requires Shifted(w, v, x)
    ensures w % 64 == y ==> v / 16 % 256 == B0(y, x) && v % 16 == x % 16
    ensures w % 16 == y % 16 ==> v / 4 % 256 == B1(y, x) && v % 4 == x % 4
    ensures w % 4 == y % 4 ==> v % 256 == B2(y, x)
  {
    if w % 64 == y {
      Divides(v, 16, v / 4096 * 256 + B0(y, x), x % 16);
      Divides(v / 16, 256, v / 4096, B0(y, x));
    }
    if w % 16 == y % 16 {
      Divides(v, 4, v / 1024 * 256 + B1(y, x), x % 4);
      Divides(v / 4, 256, v / 1024, B1(y, x));
    }
  }

  lemma BodyAt(text: seq<Byte>, k: nat)
    requires k <= |text| && PADDING !in text[..k] && (k == |text| || text[k] == PADDING)
    ensures Body(text) == text[..k]
  {
    assert text == text[..k] + text[k..];
    BodyOf(text[..k], text[k..]);
  }

  lemma IllegalAt(e: Encoding, text: seq<Byte>, k: nat)
    requires k < |text| && PADDING !in text[..k] && text[k] != PADDING && DecodeChar(e, text[k]) == -1
    ensures Decoded(e, text) == Err(InvalidChar)
  {
    hide DecodeChar;
    BodyIsPrefix(text);
    var n := |Body(text)|;
    assert Body(text)[k] == text[k];
  }

  /** What has been read and written when the decoder reaches position `i`. */
  ghost predicate DecodedTo(e: Encoding, text: seq<Byte>, i: nat, bits: nat, acc: Word, out: seq<Byte>) {
    && i <= |text| && PADDING !in text[..i] && Legal(e, text[..i])
    && Pending(Sextets(e, text[..i]), bits, acc) && out == Ungrouped(Sextets(e, text[..i]))
  }

  /** One character further. */
  lemma DecodedMore(e: Encoding, text: seq<Byte>, i: nat, bits: nat, acc: Word, out: seq<Byte>)
    requires DecodedTo(e, text, i, bits, acc, out) && i < |text| && text[i] != PADDING
    requires 0 <= DecodeChar(e, text[i]) < 64
    ensures var after := ShiftIn(acc, 6, DecodeChar(e, text[i]));
      if bits + 6 < 8 then DecodedTo(e, text, i + 1, bits + 6, after, out)
      else DecodedTo(e, text, i + 1, bits - 2, after, out + [ShiftRight(after, bits - 2) % 256])
  {
    hide DecodeChar, Ungrouped, Pending, ShiftIn, ShiftRight, Filled;
    var s, x := Sextets(e, text[..i]), DecodeChar(e, text[i]);
    assert text[..i + 1] == text[..i] + [text[i]];
    assert Sextets(e, text[..i + 1]) == s + [x];
    Accumulate(s, x, bits, acc);
    FillSextet(s, x);
  }

  lemma DecodedAll(e: Encoding, text: seq<Byte>, i: nat, bits: nat, acc: Word, out: seq<Byte>)
    requires DecodedTo(e, text, i, bits, acc, out) && (i == |text| || text[i] == PADDING)
    ensures Decoded(e, text) == if AllPadding(text[i..]) then Ok(out) else Err(InvalidPadding)
  {
    BodyAt(text, i);
  }

  lemma NothingDecoded(e: Encoding, text: seq<Byte>)
    ensures DecodedTo(e, text, 0, 0, 0, [])
  {
  }

  /** What is encoded is ASCII, padding included. */
  lemma EncodedIsAscii(e: Encoding, b: seq<Byte>, padding: bool)
    ensures forall i | 0 <= i < |Encoded(e, b, padding)| :: Encoded(e, b, padding)[i] < 128
  {
    hide Grouped;
    var text := Chars(e, Grouped(b));
    assert forall i | 0 <= i < |text| :: text[i] < 128;
  }

  lemma InBody(text: seq<Byte>, i: nat)
    requires i < |text| && PADDING !in text[..i] && text[i] != PADDING
    ensures i < |Body(text)| && Body(text)[i] == text[i]
  {
    BodyIsPrefix(text);
  }

  /** Decodes in place: the first `n` bytes of `inout` are then the result.  Writing
      never overtakes reading.  Where char is signed, a character of 128 or more would be
      looked up outside the table. */
  method DecodeInline(e: Encoding, inout: array<Byte>, charIsSigned: bool) returns (n: nat, err: Error)
    requires charIsSigned ==> forall i | 0 <= i < |Body(inout[..])| :: Body(inout[..])[i] < 128
    modifies inout
    ensures match Decoded(e, old(inout[..]))
            case Ok(value) => err == NoError && n <= inout.Length && inout[..n] == value
            case Err(error) => err == error
  {
    hide DecodedTo, DecodeChar, ShiftIn, ShiftRight, Decoded;
    ghost var text := inout[..];
    var i: nat, j: nat := 0, 0;
    var acc: Word, bits: nat := 0, 0;
    TablesAgree(e);
    NothingDecoded(e, text);
    while i < inout.Length && inout[i] != PADDING
      invariant i <= inout.Length && j <= i && forall m | i <= m < inout.Length :: inout[m] == text[m]
      invariant DecodedTo(e, text, i, bits, acc, inout[..j])
    {
      assert charIsSigned ==> inout[i] < 128 by { NoPadding(e, text, i, bits, acc, inout[..j]); InBody(text, i); }
      var c := DecodeChar(e, inout[i]);
      if c == -1 {
        IllegalFound(e, text, i, bits, acc, inout[..j]);
        return 0, InvalidChar;
      }
      DecodedMore(e, text, i, bits, acc, inout[..j]);
      acc, bits := ShiftIn(acc, 6, c), bits + 6;
      if bits >= 8 {
        ghost var out := inout[..j];
        inout[j] := ShiftRight(acc, bits - 8) % 256;
        j, bits := j + 1, bits - 8;
        assert inout[..j] == out + [inout[j - 1]];
      }
      i := i + 1;
    }
    DecodedAll(e, text, i, bits, acc, inout[..j]);
    var k := i;
    while k < inout.Length
      invariant i <= k <= inout.Length && forall m | i <= m < k :: text[m] == PADDING
    {
      assert text[i..][k - i] == text[k];
      if inout[k] != PADDING { return 0, InvalidPadding; }
      k := k + 1;
    }
    return j, NoError;
  }

  lemma NoPadding(e: Encoding, text: seq<Byte>, i: nat, bits: nat, acc: Word, out: seq<Byte>)
    requires DecodedTo(e, text, i, bits, acc, out)
    ensures i <= |text| && PADDING !in text[..i]
  {
  }

  lemma IllegalFound(e: Encoding, text: seq<Byte>, i: nat, bits: nat, acc: Word, out: seq<Byte>)
    requires DecodedTo(e, text, i, bits, acc, out) && i < |text| && text[i] != PADDING && DecodeChar(e, text[i]) == -1
    ensures Decoded(e, text) == Err(InvalidChar)
  {
    IllegalAt(e, text, i);
  }
}
