/**
 The four-digit escapes of jstree_string_decode against RFC 3629: a reader that follows
 the grammar of its section 4 byte range by byte range recovers the code points of a
 decoded text exactly when no escape names a surrogate.
 */
module JsUtf8 {
  import opened Jsmn
  import opened JsString
  import JsScan
  import JsText

  // ---------------------------------------------------------------- the reader

  datatype Reading = Malformed | Points(cps: seq<nat>)

  function Cons(cp: nat, r: Reading): Reading {
    if r.Malformed? then Malformed else Points([cp] + r.cps)
  }

  predicate Between(c: char, lo: int, hi: int) {
    lo <= c as int <= hi
  }

  predicate IsTail(c: char) {
    Between(c, 0x80, 0xBF)
  }

  function Low(c: char): (n: nat)
    ensures n < 0x40
  {
    c as int % 0x40
  }

  /** UTF8-octets of RFC 3629, section 4. */
  function Read(b: string): Reading {
    if b == "" then Points([])
    else if Between(b[0], 0, 0x7F) then Cons(b[0] as int, Read(b[1..]))
    else if |b| >= 2 && Between(b[0], 0xC2, 0xDF) && IsTail(b[1]) then
      Cons((b[0] as int - 0xC0) * 0x40 + Low(b[1]), Read(b[2..]))
    else if |b| >= 3 && Lead3(b[0], b[1]) && IsTail(b[2]) then
      Cons((b[0] as int - 0xE0) * 0x1000 + Low(b[1]) * 0x40 + Low(b[2]), Read(b[3..]))
    else if |b| >= 4 && Lead4(b[0], b[1]) && IsTail(b[2]) && IsTail(b[3]) then
      Cons((b[0] as int - 0xF0) * 0x40000 + Low(b[1]) * 0x1000 + Low(b[2]) * 0x40 + Low(b[3]), Read(b[4..]))
    else Malformed
  }

  predicate Lead3(a: char, b: char) {
    || (a as int == 0xE0 && Between(b, 0xA0, 0xBF))
    || (Between(a, 0xE1, 0xEC) && IsTail(b))
    || (a as int == 0xED && Between(b, 0x80, 0x9F))
    || (Between(a, 0xEE, 0xEF) && IsTail(b))
  }

  predicate Lead4(a: char, b: char) {
    || (a as int == 0xF0 && Between(b, 0x90, 0xBF))
    || (Between(a, 0xF1, 0xF3) && IsTail(b))
    || (a as int == 0xF4 && Between(b, 0x80, 0x8F))
  }

  // ---------------------------------------------------------------- one code point

  predicate Surrogate(n: nat) {
    0xD800 <= n <= 0xDFFF
  }

  predicate Scalar(n: nat) {
    n <= 0x10FFFF && !Surrogate(n)
  }

  /** The bytes of any code point; below 0x10000 they are what the decoder writes. */
  function Bytes(n: nat): (s: string)
    requires n <= 0x10FFFF
  {
    if n < 0x10000 then Utf(n)
    else [(0xF0 + n / 0x40000) as char, (0x80 + n / 0x1000 % 0x40) as char,
          (0x80 + n / 0x40 % 0x40) as char, (0x80 + n % 0x40) as char]
  }

  lemma Read2(a: char, b: char, rest: string)
    requires Between(a, 0xC2, 0xDF) && IsTail(b)
    ensures Read([a, b] + rest) == Cons((a as int - 0xC0) * 0x40 + Low(b), Read(rest))
  {
    assert ([a, b] + rest)[2..] == rest;
  }

  lemma Read3(a: char, b: char, c: char, rest: string)
    requires Between(a, 0xE0, 0xEF) && IsTail(b) && IsTail(c)
    ensures Read([a, b, c] + rest) ==
            if Lead3(a, b) then Cons((a as int - 0xE0) * 0x1000 + Low(b) * 0x40 + Low(c), Read(rest)) else Malformed
  {
    assert ([a, b, c] + rest)[3..] == rest;
  }

  lemma Read4(a: char, b: char, c: char, d: char, rest: string)
    requires Lead4(a, b) && IsTail(c) && IsTail(d)
    ensures Read([a, b, c, d] + rest) ==
            Cons((a as int - 0xF0) * 0x40000 + Low(b) * 0x1000 + Low(c) * 0x40 + Low(d), Read(rest))
  {
    assert ([a, b, c, d] + rest)[4..] == rest;
  }

  lemma Lead3Range(n: nat)
    requires 0x800 <= n < 0x10000
    ensures Lead3((0xe0 + n / 0x1000) as char, (0x80 + n / 0x40 % 0x40) as char) <==> !Surrogate(n)
  {
  }

  lemma Tail6(n: nat)
    requires n < 0x40
    ensures IsTail((0x80 + n) as char) && Low((0x80 + n) as char) == n
  {
  }

  lemma ReadBytes2(n: nat, rest: string)
    requires 0x80 <= n < 0x800
    ensures Read(Utf(n) + rest) == Cons(n, Read(rest))
  {
    hide Read, Low, IsTail;
    Tail6(n % 0x40);
    Read2((0xc0 + n / 0x40) as char, (0x80 + n % 0x40) as char, rest);
  }

  lemma ReadBytes3(n: nat, rest: string)
    requires 0x800 <= n < 0x10000
    ensures Read(Utf(n) + rest) == if Surrogate(n) then Malformed else Cons(n, Read(rest))
  {
    hide Read, Lead3, Low, IsTail;
    Tail6(n / 0x40 % 0x40);
    Tail6(n % 0x40);
    Lead3Range(n);
    Read3((0xe0 + n / 0x1000) as char, (0x80 + n / 0x40 % 0x40) as char, (0x80 + n % 0x40) as char, rest);
  }

  lemma Lead4Range(n: nat)
    requires 0x10000 <= n <= 0x10FFFF
    ensures Lead4((0xF0 + n / 0x40000) as char, (0x80 + n / 0x1000 % 0x40) as char)
  {
  }

  lemma Quads(n: nat)
    ensures n / 0x40000 * 0x40000 + n / 0x1000 % 0x40 * 0x1000 + n / 0x40 % 0x40 * 0x40 + n % 0x40 == n
  {
    var a := n / 0x40;
    var b := a / 0x40;
    assert n / 0x1000 == b;
    assert n / 0x40000 == b / 0x40;
    assert n == a * 0x40 + n % 0x40;
    assert a == b * 0x40 + a % 0x40;
    assert b == b / 0x40 * 0x40 + b % 0x40;
  }

  lemma ReadBytes4(n: nat, rest: string)
    requires 0x10000 <= n <= 0x10FFFF
    ensures Read(Bytes(n) + rest) == Cons(n, Read(rest))
  {
    hide Read, Low, IsTail, Lead4;
    Lead4Range(n);
    Quads(n);
    Tail6(n / 0x1000 % 0x40);
    Tail6(n / 0x40 % 0x40);
    Tail6(n % 0x40);
    Read4((0xF0 + n / 0x40000) as char, (0x80 + n / 0x1000 % 0x40) as char,
          (0x80 + n / 0x40 % 0x40) as char, (0x80 + n % 0x40) as char, rest);
  }

  /** A code point is read back from its bytes, unless it is a surrogate. */
  lemma ReadBytes(n: nat, rest: string)
    requires n <= 0x10FFFF
    ensures Read(Bytes(n) + rest) == if Surrogate(n) then Malformed else Cons(n, Read(rest))
  {
    if n < 0x80 {
      assert (Bytes(n) + rest)[1..] == rest;
    } else if n < 0x800 {
      hide Read, Utf;
      ReadBytes2(n, rest);
    } else if n < 0x10000 {
      hide Read, Utf;
      ReadBytes3(n, rest);
    } else {
      hide Read;
      ReadBytes4(n, rest);
    }
  }

  // ---------------------------------------------------------------- mixed texts

  /** A code point written as itself, a simple escape, or a four-digit escape. */
  datatype Piece = Plain(cp: nat) | Simple(c: char) | Hex4(a: char, b: char, c: char, d: char)

  predicate ValidPiece(u: Piece) {
    match u
    case Plain(cp) => Scalar(cp) && cp != 0 && cp != '\\' as int
    case Simple(c) => JsText.Escaped(c) && c != '/'
    case Hex4(a, b, c, d) =>
      JsText.Hexadecimal(a) && JsText.Hexadecimal(b) && JsText.Hexadecimal(c) && JsText.Hexadecimal(d)
  }

  /** The code point a piece stands for, by section 7 of RFC 8259. */
  function Point(u: Piece): nat
    requires ValidPiece(u)
  {
    match u
    case Plain(cp) => cp
    case Simple(c) => JsText.Meaning(c)
    case Hex4(a, b, c, d) =>
      ((JsText.Digit(a) * 16 + JsText.Digit(b)) * 16 + JsText.Digit(c)) * 16 + JsText.Digit(d)
  }

  function Written(u: Piece): string
    requires ValidPiece(u)
  {
    match u
    case Plain(cp) => Bytes(cp)
    case Simple(c) => ['\\', c]
    case Hex4(a, b, c, d) => ['\\', 'u', a, b, c, d]
  }

  predicate AllValid(us: seq<Piece>) {
    forall i :: 0 <= i < |us| ==> ValidPiece(us[i])
  }

  function Text(us: seq<Piece>): string
    requires AllValid(us)
  {
    if us == [] then "" else Written(us[0]) + Text(us[1..])
  }

  function PointsOf(us: seq<Piece>): seq<nat>
    requires AllValid(us)
  {
    if us == [] then [] else [Point(us[0])] + PointsOf(us[1..])
  }

  predicate NoSurrogates(us: seq<Piece>)
    requires AllValid(us)
  {
    forall i :: 0 <= i < |us| ==> !Surrogate(Point(us[i]))
  }

  /** Decoding a piece gives the bytes of its code point. */
  lemma DecodePiece(u: Piece, rest: string)
    requires ValidPiece(u)
    ensures Point(u) <= 0x10FFFF && Dec(Written(u) + rest) == Prefixed(Bytes(Point(u)), Dec(rest))
  {
    hide Dec, Code;
    var w := Written(u) + rest;
    assert w[0..] == w && w[|Written(u)|..] == rest;
    match u {
      case Plain(cp) => DecodeBytes(Bytes(cp), rest);
      case Simple(c) =>
        EscapableByCode(c);
        DecSplit(w, 0);
      case Hex4(a, b, c, d) =>
        CodeIsPoint(a, b, c, d);
        DecSplit(w, 0);
    }
  }

  lemma CodeIsPoint(a: char, b: char, c: char, d: char)
    requires ValidPiece(Hex4(a, b, c, d))
    ensures Code(a, b, c, d) == Point(Hex4(a, b, c, d)) < 0x10000
  {
    HexByCode(a);
    HexByCode(b);
    HexByCode(c);
    HexByCode(d);
  }

  lemma {:induction false} DecodeBytes(b: string, rest: string)
    requires forall i :: 0 <= i < |b| ==> b[i] != '\\'
    ensures Dec(b + rest) == Prefixed(b, Dec(rest))
  {
    hide Dec;
    if b == "" {
      assert b + rest == rest;
      assert Prefixed("", Dec(rest)).bytes == Dec(rest).bytes;
    } else {
      var w := b + rest;
      assert w[0..] == w && w[1..] == b[1..] + rest;
      DecSplit(w, 0);
      DecodeBytes(b[1..], rest);
      assert [b[0]] + (b[1..] + Dec(rest).bytes) == b + Dec(rest).bytes;
    }
  }

  /**
   Any text of plain characters and escapes decodes without error, and what is written is
   well-formed UTF-8 for exactly the code points of its pieces, and the terminator, if and
   only if no four-digit escape is a surrogate.
   */
  lemma {:induction false} DecodedTextReads(us: seq<Piece>)
    requires AllValid(us)
    ensures var d := Dec(Text(us) + [NUL]);
            && d.ok
            && Read(d.bytes) == if NoSurrogates(us) then Points(PointsOf(us) + [0]) else Malformed
  {
    hide Dec, Read, Text, PointsOf, NoSurrogates, Written, Point, Bytes, Surrogate, ValidPiece;
    if us == [] {
      NoPieces();
    } else {
      var tail := Text(us[1..]) + [NUL];
      FirstPiece(us);
      DecodePiece(us[0], tail);
      DecodedTextReads(us[1..]);
      ReadBytes(Point(us[0]), Dec(tail).bytes);
    }
  }

  lemma NoPieces()
    ensures Dec(Text([]) + [NUL]) == Decoded([NUL], true) && NoSurrogates([])
    ensures Read([NUL]) == Points(PointsOf([]) + [0])
  {
    assert Text([]) + [NUL] == [NUL];
    assert Dec([NUL]) == Prefixed([NUL], Dec(""));
    assert Read([NUL]) == Cons(0, Read(""));
  }

  lemma FirstPiece(us: seq<Piece>)
    requires us != [] && AllValid(us)
    ensures Text(us) + [NUL] == Written(us[0]) + (Text(us[1..]) + [NUL])
    ensures NoSurrogates(us) <==> !Surrogate(Point(us[0])) && NoSurrogates(us[1..])
    ensures PointsOf(us) + [0] == [Point(us[0])] + (PointsOf(us[1..]) + [0])
  {
    hide Written, Point, Surrogate, ValidPiece;
  }

  /** Such a text is also read by the tokenizer as one string, unless a quote stands in it as itself. */
  lemma {:induction false} TextAccepted(us: seq<Piece>)
    requires AllValid(us) && forall i :: 0 <= i < |us| ==> us[i] != Plain(0x22)
    ensures JsText.Body(Text(us)) && StrText(Text(us))
  {
    if us != [] {
      TextAccepted(us[1..]);
      PieceBeforeBody(us[0], Text(us[1..]));
    }
    JsScan.AcceptedIsBody(Text(us));
  }

  lemma PieceBeforeBody(u: Piece, rest: string)
    requires ValidPiece(u) && u != Plain(0x22) && JsText.Body(rest)
    ensures JsText.Body(Written(u) + rest)
  {
    var w := Written(u) + rest;
    assert w[|Written(u)|..] == rest;
    if u.Plain? {
      PlainBeforeBody(Bytes(u.cp), rest);
    }
  }

  lemma {:induction false} PlainBeforeBody(b: string, rest: string)
    requires forall i :: 0 <= i < |b| ==> b[i] != '\\' && b[i] != '\"' && b[i] != NUL
    requires JsText.Body(rest)
    ensures JsText.Body(b + rest)
  {
    if b == "" {
      assert b + rest == rest;
    } else {
      assert (b + rest)[1..] == b[1..] + rest;
      PlainBeforeBody(b[1..], rest);
    }
  }

  /** The escape of a surrogate decodes to bytes that are not UTF-8. */
  lemma SurrogateUnreadable()
    ensures var us := [Hex4('D', '8', '3', 'D')];
            AllValid(us) && Read(Dec(Text(us) + [NUL]).bytes) == Malformed
  {
    var us := [Hex4('D', '8', '3', 'D')];
    assert Point(us[0]) == 0xD83D;
    DecodedTextReads(us);
  }
}
