/**
 The string codec of shared/json/jstree.c. A C string is modelled without its terminator,
 and each char stands for one byte; both functions of the source run over the terminator
 as well, so their models run over `data + [NUL]`.
 */
module JsString {
  import opened Jsmn
  import JsScan
  import JsText

  predicate NulFree(s: string) {
    forall i :: 0 <= i < |s| ==> s[i] != NUL
  }

  // ---------------------------------------------------------------- encoding

  function EncChar(c: char): string {
    if c == '\\' || c == '\"' then ['\\', c] else [c]
  }

  function Enc(s: string): string {
    if s == "" then "" else EncChar(s[0]) + Enc(s[1..])
  }

  /**
   jstree_string_encode. Without a buffer it only counts. With one it needs room for one
   character more than the text and its terminator, because it compares after advancing.
   */
  method StringEncode(out: array?<char>, outlen: nat, data: string) returns (r: int)
    requires out != null ==> outlen <= out.Length
    modifies out
    ensures out == null || outlen == 0 ==> r == |Enc(data + [NUL])| - 1
    ensures out != null && outlen > 0 ==>
              && (r == -1 <==> outlen < |Enc(data + [NUL])| + 1)
              && (r != -1 ==> r == |Enc(data + [NUL])| - 1 && out[..r + 1] == Enc(data + [NUL]))
    ensures out != null ==> out[outlen..] == old(out[outlen..])
  {
    hide Enc;
    var all := data + [NUL];
    var memlen := |data| + 1;
    var ptr, i := 0, 0;
    ghost var text: string := "";
    assert all[0..] == all;
    while i < memlen
      invariant 0 <= i <= memlen
      invariant ptr >= i && |text| == ptr && text + Enc(all[i..]) == Enc(all)
      invariant out != null && outlen > 0 ==> ptr < outlen && out[..ptr] == text
      invariant out != null ==> out[outlen..] == old(out[outlen..])
    {
      EncSplit(all, i);
      ghost var rest := Enc(all[i + 1..]);
      if all[i] == '\\' || all[i] == '\"' {
        Put(out, outlen, ptr, "\\");
        ptr := ptr + 1;
        if out != null && outlen > 0 && ptr >= outlen {
          return -1;
        }
        text := text + "\\";
      }
      Put(out, outlen, ptr, [all[i]]);
      ptr := ptr + 1;
      text := text + [all[i]];
      assert text + rest == Enc(all);
      if out != null && outlen > 0 && ptr >= outlen {
        return -1;
      }
      i := i + 1;
    }
    assert all[i..] == "";
    EncEmpty();
    return ptr - 1;
  }

  lemma EncSplit(all: string, i: nat)
    requires i < |all|
    ensures Enc(all[i..]) == EncChar(all[i]) + Enc(all[i + 1..])
  {
    assert all[i..][1..] == all[i + 1..];
  }

  lemma EncEmpty()
    ensures Enc("") == ""
  {
  }

  // ---------------------------------------------------------------- decoding

  /** Everything written before the end or the error, and which of the two it was. */
  datatype Decoded = Decoded(bytes: string, ok: bool)

  function Hex(c: char): (h: nat)
    ensures h < 16
  {
    if '0' <= c <= '9' then c as int - '0' as int
    else if 'a' <= c <= 'f' then 10 + c as int - 'a' as int
    else if 'A' <= c <= 'F' then 10 + c as int - 'A' as int
    else 0
  }

  function Code(a: char, b: char, c: char, d: char): (n: nat)
    ensures n < 0x10000
  {
    Hex(a) * 0x1000 + Hex(b) * 0x100 + Hex(c) * 0x10 + Hex(d)
  }

  /** The bytes written for a code; the masks and shifts of the source as div and mod. */
  function Utf(n: nat): (s: string)
    requires n < 0x10000
    ensures 1 <= |s| <= 3
  {
    if n < 0x80 then [n as char]
    else if n < 0x800 then [(0xc0 + n / 0x40) as char, (0x80 + n % 0x40) as char]
    else [(0xe0 + n / 0x1000) as char, (0x80 + n / 0x40 % 0x40) as char, (0x80 + n % 0x40) as char]
  }

  predicate Escapable(c: char) {
    c == '\\' || c == '\"' || c == 't' || c == 'r' || c == 'n' || c == 'b' || c == 'f'
  }

  function Unescape(c: char): char {
    if c == 't' then '\t'
    else if c == 'r' then '\r'
    else if c == 'n' then '\n'
    else if c == 'b' then 8 as char
    else if c == 'f' then 12 as char
    else c
  }

  function Prefixed(s: string, d: Decoded): Decoded {
    Decoded(s + d.bytes, d.ok)
  }

  /** What the decoder reads next: a plain character or an escape, and how much of the text it takes. */
  datatype Unit = Fault | Unit(bytes: string, plain: bool, len: nat)

  function Next(w: string): (u: Unit)
    requires w != ""
    ensures u.Unit? ==> 1 <= u.len <= |w| && 1 <= |u.bytes| <= u.len && (u.plain ==> u.bytes == [w[0]] && u.len == 1)
  {
    if w[0] != '\\' then Unit([w[0]], true, 1)
    else if |w| < 2 then Fault
    else if Escapable(w[1]) then Unit([Unescape(w[1])], false, 2)
    else if w[1] == 'u' && |w| >= 6 then Unit(Utf(Code(w[2], w[3], w[4], w[5])), false, 6)
    else Fault
  }

  function Dec(w: string): (d: Decoded)
    ensures |d.bytes| <= |w|
  {
    if w == "" then Decoded("", true)
    else
      match Next(w)
      case Fault => Decoded("", false)
      case Unit(bytes, _, len) => Prefixed(bytes, Dec(w[len..]))
  }

  method Put(out: array?<char>, outlen: nat, ptr: nat, s: string)
    requires out != null ==> outlen <= out.Length
    requires out != null && outlen > 0 ==> ptr + |s| <= outlen
    modifies out
    ensures out != null && outlen > 0 ==> out[..ptr + |s|] == old(out[..ptr]) + s
    ensures out != null ==> out[outlen..] == old(out[outlen..])
  {
    if out != null && outlen > 0 {
      for k := 0 to |s|
        invariant out[..ptr + k] == old(out[..ptr]) + s[..k]
        invariant out[outlen..] == old(out[outlen..])
      {
        out[ptr + k] := s[k];
      }
    }
  }

  // ---------------------------------------------------------------- what decoding does to the buffer

  function Overlay(mem: string, ptr: nat, u: string): (r: string)
    requires ptr + |u| <= |mem|
    ensures |r| == |mem|
  {
    mem[..ptr] + u + mem[ptr + |u|..]
  }

  /** Nothing is stored without a bound; else plain characters anywhere, escapes only below it. */
  function Store(mem: string, ptr: nat, u: Unit, outlen: nat): (r: string)
    requires u.Unit? && ptr + |u.bytes| <= |mem|
    ensures |r| == |mem|
  {
    if outlen > 0 && (u.plain || ptr + |u.bytes| <= outlen) then Overlay(mem, ptr, u.bytes) else mem
  }

  /** The memory after decoding `w` from `ptr` on. */
  function Fill(mem: string, ptr: nat, w: string, outlen: nat): (r: string)
    requires ptr + |Dec(w).bytes| <= |mem|
    ensures |r| == |mem|
    decreases |w|
  {
    if w == "" || Next(w).Fault? then mem
    else
      var u := Next(w);
      Fill(Store(mem, ptr, u, outlen), ptr + |u.bytes|, w[u.len..], outlen)
  }

  /**
   jstree_string_decode. The length returned does not depend on the buffer. Only escapes look
   at `outlen`, so the memory has to hold all that is decoded, whatever `outlen` says.
   */
  method StringDecode(out: array?<char>, outlen: nat, data: string) returns (r: int)
    requires out != null && outlen > 0 ==> |Dec(data + [NUL]).bytes| <= out.Length
    modifies out
    ensures var d := Dec(data + [NUL]); r == if d.ok then |d.bytes| - 1 else -1
    ensures out != null ==>
              out[..] == if outlen > 0 then Fill(old(out[..]), 0, data + [NUL], outlen) else old(out[..])
  {
    hide Dec, Next, Fill;
    var all := data + [NUL];
    var memlen := |all|;
    var ptr, i := 0, 0;
    assert all[0..] == all;
    ghost var size := |Dec(all).bytes|;
    while i < memlen
      invariant 0 <= i <= memlen && 0 <= ptr && ptr + |Dec(all[i..]).bytes| == size && Dec(all[i..]).ok == Dec(all).ok
      invariant out != null ==>
                  if outlen > 0 then Fill(out[..], ptr, all[i..], outlen) == Fill(old(out[..]), 0, all, outlen)
                  else out[..] == old(out[..])
    {
      DecNext(all, i);
      var u := ReadUnit(all, i);
      if u.Fault? {
        if out != null && outlen > 0 {
          FillNext(out[..], ptr, all, i, outlen);
        }
        return -1;
      }
      if out != null && outlen > 0 {
        FillNext(out[..], ptr, all, i, outlen);
        if u.plain || ptr + |u.bytes| <= outlen {
          Write(out, ptr, u.bytes);
        }
      }
      i := i + u.len;
      ptr := ptr + |u.bytes|;
    }
    assert all[i..] == "";
    DecEmpty();
    if out != null && outlen > 0 {
      FillEmpty(out[..], ptr, outlen);
    }
    return ptr - 1;
  }

  /** The switch of jstree_string_decode at position `i`. */
  method ReadUnit(all: string, i: nat) returns (u: Unit)
    requires i < |all|
    ensures u == Next(all[i..])
  {
    var memlen := |all|;
    if all[i] != '\\' {
      return Unit([all[i]], true, 1);
    }
    if i + 1 >= memlen {
      return Fault;
    }
    if Escapable(all[i + 1]) {
      return Unit([Unescape(all[i + 1])], false, 2);
    }
    if all[i + 1] != 'u' || i + 5 >= memlen {
      return Fault;
    }
    return Unit(Utf(Code(all[i + 2], all[i + 3], all[i + 4], all[i + 5])), false, 6);
  }

  method Write(out: array<char>, ptr: nat, u: string)
    requires ptr + |u| <= out.Length
    modifies out
    ensures out[..] == Overlay(old(out[..]), ptr, u)
  {
    forall k | 0 <= k < |u| {
      out[ptr + k] := u[k];
    }
  }

  lemma DecNext(all: string, i: nat)
    requires i < |all|
    ensures var u := Next(all[i..]);
            Dec(all[i..]) == if u.Fault? then Decoded("", false) else Prefixed(u.bytes, Dec(all[i + u.len..]))
  {
    hide Next;
    var u := Next(all[i..]);
    assert u.Unit? ==> all[i..][u.len..] == all[i + u.len..];
  }

  lemma FillNext(mem: string, ptr: nat, all: string, i: nat, outlen: nat)
    requires i < |all| && ptr + |Dec(all[i..]).bytes| <= |mem|
    ensures var u := Next(all[i..]);
            if u.Fault? then Fill(mem, ptr, all[i..], outlen) == mem
            else
              && ptr + |u.bytes| + |Dec(all[i + u.len..]).bytes| <= |mem|
              && Fill(mem, ptr, all[i..], outlen) ==
                 Fill(Store(mem, ptr, u, outlen), ptr + |u.bytes|, all[i + u.len..], outlen)
  {
    hide Next, Store;
    var u := Next(all[i..]);
    assert u.Unit? ==> all[i..][u.len..] == all[i + u.len..];
  }

  lemma FillEmpty(mem: string, ptr: nat, outlen: nat)
    requires ptr <= |mem|
    ensures Fill(mem, ptr, "", outlen) == mem
  {
  }

  /** One unit of `w` and what follows it. */
  lemma FillStep(mem: string, ptr: nat, w: string, outlen: nat)
    requires w != "" && ptr + |Dec(w).bytes| <= |mem|
    ensures var u := Next(w);
            if u.Fault? then Dec(w).bytes == "" && Fill(mem, ptr, w, outlen) == mem
            else
              var rest := w[u.len..];
              && Dec(w) == Prefixed(u.bytes, Dec(rest)) && ptr + |u.bytes| + |Dec(rest).bytes| <= |mem|
              && Fill(mem, ptr, w, outlen) == Fill(Store(mem, ptr, u, outlen), ptr + |u.bytes|, rest, outlen)
  {
    hide Next, Store;
  }

  lemma OverlayTwice(mem: string, ptr: nat, u: string, v: string)
    requires ptr + |u| + |v| <= |mem|
    ensures Overlay(Overlay(mem, ptr, u), ptr + |u|, v) == Overlay(mem, ptr, u + v)
  {
  }

  /** A buffer at least as long as the text holds exactly the text, and nothing else changes. */
  lemma {:induction false} FillFits(mem: string, ptr: nat, w: string, outlen: nat)
    requires ptr + |Dec(w).bytes| <= |mem| && ptr + |Dec(w).bytes| <= outlen
    ensures Fill(mem, ptr, w, outlen) == Overlay(mem, ptr, Dec(w).bytes)
    decreases |w|
  {
    hide Next, Dec, Fill, Overlay;
    OverlayNone(mem, ptr);
    if w == "" {
      FillEmpty(mem, ptr, outlen);
      DecEmpty();
    } else {
      FillStep(mem, ptr, w, outlen);
      var u := Next(w);
      if u.Unit? {
        OverlayTwice(mem, ptr, u.bytes, Dec(w[u.len..]).bytes);
        FillFits(Overlay(mem, ptr, u.bytes), ptr + |u.bytes|, w[u.len..], outlen);
      }
    }
  }

  lemma OverlayNone(mem: string, ptr: nat)
    requires ptr <= |mem|
    ensures Overlay(mem, ptr, "") == mem
  {
  }

  /** One past the last plain character stored, 0 when there is none. */
  function PlainEnd(ptr: nat, w: string): (e: nat)
    ensures e == 0 || ptr < e <= ptr + |Dec(w).bytes|
    decreases |w|
  {
    if w == "" || Next(w).Fault? then 0
    else
      var u := Next(w);
      var e := PlainEnd(ptr + |u.bytes|, w[u.len..]);
      if e > 0 then e else if u.plain then ptr + 1 else 0
  }

  /** The last plain character; any when there is none. */
  function LastPlain(w: string): char
    decreases |w|
  {
    if w == "" || Next(w).Fault? then NUL
    else
      var u := Next(w);
      if PlainEnd(|u.bytes|, w[u.len..]) > 0 || !u.plain then LastPlain(w[u.len..]) else w[0]
  }

  lemma {:induction false} PlainEndMoves(p: nat, q: nat, w: string)
    ensures PlainEnd(p, w) == 0 <==> PlainEnd(q, w) == 0
    ensures PlainEnd(p, w) > 0 ==> PlainEnd(p, w) - p == PlainEnd(q, w) - q
    decreases |w|
  {
    hide Next;
    if w != "" && Next(w).Unit? {
      var u := Next(w);
      PlainEndMoves(p + |u.bytes|, q + |u.bytes|, w[u.len..]);
    }
  }

  lemma {:induction false} FillBelow(mem: string, ptr: nat, w: string, outlen: nat, i: nat)
    requires ptr + |Dec(w).bytes| <= |mem| && i < ptr
    ensures Fill(mem, ptr, w, outlen)[i] == mem[i]
    decreases |w|
  {
    hide Next, Dec, Fill;
    if w == "" {
      FillEmpty(mem, ptr, outlen);
    } else {
      FillStep(mem, ptr, w, outlen);
      var u := Next(w);
      if u.Unit? {
        FillBelow(Store(mem, ptr, u, outlen), ptr + |u.bytes|, w[u.len..], outlen, i);
      }
    }
  }

  lemma StoreBehind(mem: string, ptr: nat, u: Unit, outlen: nat, i: nat)
    requires u.Unit? && ptr + |u.bytes| <= |mem| && outlen <= i < |mem|
    requires u.plain && outlen > 0 ==> |u.bytes| == 1 && ptr < outlen
    ensures Store(mem, ptr, u, outlen)[i] == mem[i]
  {
  }

  lemma {:induction false} FillBehind(mem: string, ptr: nat, w: string, outlen: nat, i: nat)
    requires ptr + |Dec(w).bytes| <= |mem| && outlen <= i < |mem| && (outlen == 0 || PlainEnd(ptr, w) <= outlen)
    ensures Fill(mem, ptr, w, outlen)[i] == mem[i]
    decreases |w|
  {
    hide Next, Dec, Fill, Store;
    if w == "" {
      FillEmpty(mem, ptr, outlen);
    } else {
      FillStep(mem, ptr, w, outlen);
      var u := Next(w);
      if u.Unit? {
        StoreBehind(mem, ptr, u, outlen, i);
        FillBehind(Store(mem, ptr, u, outlen), ptr + |u.bytes|, w[u.len..], outlen, i);
      }
    }
  }

  lemma {:induction false} FillLast(mem: string, ptr: nat, w: string, outlen: nat)
    requires ptr + |Dec(w).bytes| <= |mem| && PlainEnd(ptr, w) > 0 && outlen > 0
    ensures Fill(mem, ptr, w, outlen)[PlainEnd(ptr, w) - 1] == LastPlain(w)
    decreases |w|
  {
    hide Next, Dec, Fill;
    var u := Next(w);
    var m, p, rest := Store(mem, ptr, u, outlen), ptr + |u.bytes|, w[u.len..];
    FillStep(mem, ptr, w, outlen);
    PlainEndMoves(p, |u.bytes|, rest);
    if PlainEnd(p, rest) > 0 {
      FillLast(m, p, rest, outlen);
    } else {
      FillBelow(m, p, rest, outlen, ptr);
    }
  }

  /** Whatever the memory holds, what lies behind `outlen` is left alone. */
  ghost predicate StaysWithin(w: string, outlen: nat, n: nat)
    requires |Dec(w).bytes| <= n && outlen <= n
  {
    forall mem: string :: |mem| == n ==> Fill(mem, 0, w, outlen)[outlen..] == mem[outlen..]
  }

  /** The bound is kept exactly when it is 0 or no plain character comes to stand at or behind it. */
  lemma OutlenKept(w: string, outlen: nat, n: nat)
    requires |Dec(w).bytes| <= n && outlen <= n
    ensures StaysWithin(w, outlen, n) <==> outlen == 0 || PlainEnd(0, w) <= outlen
  {
    hide Dec, Fill, PlainEnd, LastPlain;
    var e := PlainEnd(0, w);
    if outlen == 0 || e <= outlen {
      forall mem: string | |mem| == n
        ensures Fill(mem, 0, w, outlen)[outlen..] == mem[outlen..]
      {
        forall i | outlen <= i < n
          ensures Fill(mem, 0, w, outlen)[i] == mem[i]
        {
          FillBehind(mem, 0, w, outlen, i);
        }
      }
    } else {
      var mem := seq(n, _ => if LastPlain(w) == 'x' then 'y' else 'x');
      FillLast(mem, 0, w, outlen);
      assert Fill(mem, 0, w, outlen)[outlen..][e - 1 - outlen] != mem[outlen..][e - 1 - outlen];
    }
  }

  /** The three characters left of a four-digit escape cut by the end of the text, if there is one. */
  function CutDigits(w: string): (c: string)
    ensures c == "" || |c| == 3
  {
    if |w| < 2 then ""
    else if w[0] != '\\' then CutDigits(w[1..])
    else if w[1] == 'u' then if |w| == 5 then w[2..] else if |w| > 5 then CutDigits(w[6..]) else ""
    else CutDigits(w[2..])
  }

  predicate CutShort(w: string) {
    CutDigits(w) != ""
  }

  lemma PlainSplit(ptr: nat, w: string)
    requires w != ""
    ensures w[0] != '\\' ==>
              PlainEnd(ptr, w) == if PlainEnd(ptr + 1, w[1..]) > 0 then PlainEnd(ptr + 1, w[1..]) else ptr + 1
    ensures w[0] == '\\' && |w| > 1 && Escapable(w[1]) ==> PlainEnd(ptr, w) == PlainEnd(ptr + 1, w[2..])
    ensures w[0] == '\\' && |w| > 5 && w[1] == 'u' ==>
              PlainEnd(ptr, w) == PlainEnd(ptr + |Utf(Code(w[2], w[3], w[4], w[5]))|, w[6..])
  {
    hide Utf, Code;
  }

  /** The last thing stored is the terminator, a plain character, unless an escape took it for a digit. */
  lemma {:induction false} PlainToTheEnd(ptr: nat, s: string)
    requires NulFree(s) && Dec(s + [NUL]).ok
    ensures |Dec(s + [NUL]).bytes| > 0
    ensures PlainEnd(ptr, s + [NUL]) == ptr + |Dec(s + [NUL]).bytes| <==> !CutShort(s)
    decreases |s|
  {
    hide Dec, PlainEnd, Next, Utf, Code;
    var w := s + [NUL];
    assert w[0..] == w;
    DecSplit(w, 0);
    PlainSplit(ptr, w);
    DecEmpty();
    if s == "" {
      assert w[1..] == "";
      NoPlain(ptr + 1);
    } else if s[0] != '\\' {
      assert w[1..] == s[1..] + [NUL];
      PlainToTheEnd(ptr + 1, s[1..]);
    } else if |s| >= 2 && Escapable(s[1]) {
      assert w[2..] == s[2..] + [NUL];
      PlainToTheEnd(ptr + 1, s[2..]);
    } else {
      var n := |Utf(Code(w[2], w[3], w[4], w[5]))|;
      if |s| >= 6 {
        assert w[6..] == s[6..] + [NUL];
        PlainToTheEnd(ptr + n, s[6..]);
      } else {
        assert |s| == 5 && w[6..] == "";
        NoPlain(ptr + n);
      }
    }
  }

  lemma NoPlain(ptr: nat)
    ensures PlainEnd(ptr, "") == 0
  {
  }

  /**
   Text that decodes, and does not end in a cut escape, keeps to its buffer exactly when the
   buffer is empty or longer than the size pass says, however much memory there is behind it.
   */
  lemma DecodeWithin(s: string, outlen: nat, n: nat)
    requires NulFree(s) && Dec(s + [NUL]).ok && !CutShort(s)
    requires |Dec(s + [NUL]).bytes| <= n && outlen <= n
    ensures StaysWithin(s + [NUL], outlen, n) <==> outlen == 0 || |Dec(s + [NUL]).bytes| - 1 < outlen
  {
    OutlenKept(s + [NUL], outlen, n);
    PlainToTheEnd(0, s);
  }

  /** Two plain characters and a bound of one: the second and the terminator go behind it. */
  lemma PlainTextPassesBound()
    ensures |Dec("ab" + [NUL]).bytes| == 3 && Fill("xyz", 0, "ab" + [NUL], 1) == "ab" + [NUL]
  {
    var w := "ab" + [NUL];
    assert w[1..] == "b" + [NUL] && w[1..][1..] == [NUL] && [NUL][1..] == "";
    assert Dec([NUL]) == Prefixed([NUL], Dec(""));
    assert Dec(w[1..]) == Prefixed("b", Dec([NUL]));
    assert Dec(w) == Prefixed("a", Dec(w[1..]));
    hide Dec, Fill;
    DecEmpty();
    FillStep("xyz", 0, w, 1);
    assert Store("xyz", 0, Next(w), 1) == "ayz";
    FillStep("ayz", 1, w[1..], 1);
    assert Store("ayz", 1, Next(w[1..]), 1) == "abz";
    FillStep("abz", 2, [NUL], 1);
    assert Store("abz", 2, Next([NUL]), 1) == "ab" + [NUL];
    FillEmpty("ab" + [NUL], 3, 1);
  }

  lemma DecEmpty()
    ensures Dec("") == Decoded("", true)
  {
  }

  /** What decoding does at position `i`, in terms of what it does further on. */
  lemma DecSplit(all: string, i: nat)
    requires i < |all|
    ensures all[i] != '\\' ==> Dec(all[i..]) == Prefixed([all[i]], Dec(all[i + 1..]))
    ensures all[i] == '\\' && i + 1 >= |all| ==> Dec(all[i..]) == Decoded("", false)
    ensures all[i] == '\\' && i + 1 < |all| && Escapable(all[i + 1]) ==>
              Dec(all[i..]) == Prefixed([Unescape(all[i + 1])], Dec(all[i + 2..]))
    ensures all[i] == '\\' && i + 5 < |all| && all[i + 1] == 'u' ==>
              Dec(all[i..]) ==
              Prefixed(Utf(Code(all[i + 2], all[i + 3], all[i + 4], all[i + 5])), Dec(all[i + 6..]))
    ensures all[i] == '\\' && i + 1 < |all| && !Escapable(all[i + 1]) && (all[i + 1] != 'u' || i + 5 >= |all|) ==>
              Dec(all[i..]) == Decoded("", false)
  {
    hide Dec;
    DecNext(all, i);
  }

  lemma {:induction false} EncApart(s: string, t: string)
    ensures Enc(s + t) == Enc(s) + Enc(t)
  {
    if s == "" {
      assert s + t == t;
    } else {
      assert (s + t)[1..] == s[1..] + t;
      EncApart(s[1..], t);
    }
  }

  lemma DecodeChar(c: char, rest: string)
    ensures Dec(EncChar(c) + rest) == Prefixed([c], Dec(rest))
  {
    hide Dec;
    var w := EncChar(c) + rest;
    assert w[0..] == w && w[|EncChar(c)|..] == rest;
    DecSplit(w, 0);
  }

  lemma {:induction false} DecodeEncoded(s: string, rest: string)
    ensures Dec(Enc(s) + rest) == Prefixed(s, Dec(rest))
  {
    hide Dec;
    if s == "" {
      assert Enc(s) + rest == rest;
      assert Prefixed("", Dec(rest)).bytes == Dec(rest).bytes;
    } else {
      var tail := Enc(s[1..]) + rest;
      assert Enc(s) + rest == EncChar(s[0]) + tail;
      DecodeChar(s[0], tail);
      DecodeEncoded(s[1..], rest);
      assert [s[0]] + (s[1..] + Dec(rest).bytes) == s + Dec(rest).bytes;
    }
  }

  /** What jstree_string_encode wrote, jstree_string_decode reads back, terminator and length included. */
  lemma DecodeInvertsEncode(s: string)
    requires NulFree(s)
    ensures Enc(s + [NUL]) == Enc(s) + [NUL]
    ensures Dec(Enc(s) + [NUL]) == Decoded(s + [NUL], true)
    ensures NulFree(Enc(s))
  {
    EncApart(s, [NUL]);
    assert Enc([NUL]) == [NUL] + Enc("");
    DecodeEncoded(s, [NUL]);
    assert Dec([NUL]) == Prefixed([NUL], Dec(""));
    EncodedNulFree(s);
  }

  lemma {:induction false} EncodedNulFree(s: string)
    requires NulFree(s)
    ensures NulFree(Enc(s))
  {
    if s != "" {
      EncodedNulFree(s[1..]);
    }
  }

  // ---------------------------------------------------------------- what the tokenizer accepts

  /** No escape of `w`, read from its start, is an escaped solidus. */
  predicate NoSolidus(w: string) {
    if |w| < 2 then true
    else if w[0] == '\\' then w[1] != '/' && NoSolidus(w[2..])
    else NoSolidus(w[1..])
  }

  lemma HexIsPlain(w: string)
    requires |w| >= 6 && w[0] == '\\' && w[1] == 'u' && forall i :: 2 <= i < 6 ==> JsText.Hexadecimal(w[i])
    ensures NoSolidus(w) == NoSolidus(w[6..])
  {
    assert w[2..][1..] == w[3..];
    assert w[3..][1..] == w[4..];
    assert w[4..][1..] == w[5..];
    assert w[5..][1..] == w[6..];
    assert NoSolidus(w) == NoSolidus(w[2..]);
    assert NoSolidus(w[2..]) == NoSolidus(w[3..]);
    assert NoSolidus(w[3..]) == NoSolidus(w[4..]);
    assert NoSolidus(w[4..]) == NoSolidus(w[5..]);
  }

  predicate Terminated(d: Decoded) {
    |d.bytes| > 0 && d.bytes[|d.bytes| - 1] == NUL
  }

  lemma {:induction false} DecodeBody(d: string)
    requires JsText.Body(d)
    ensures var r := Dec(d + [NUL]);
            && (r.ok <==> NoSolidus(d))
            && (r.ok ==> Terminated(r))
  {
    hide Dec, Utf, Code;
    var w := d + [NUL];
    assert w[0..] == w;
    DecSplit(w, 0);
    DecEmpty();
    if d == "" {
      assert w[1..] == "";
    } else if d[0] != '\\' {
      assert w[1..] == d[1..] + [NUL];
      DecodeBody(d[1..]);
    } else if JsText.Escaped(d[1]) {
      EscapableByCode(d[1]);
      assert w[2..] == d[2..] + [NUL];
      DecodeBody(d[2..]);
    } else {
      assert w[6..] == d[6..] + [NUL];
      DecodeBody(d[6..]);
      HexIsPlain(d);
    }
  }

  /** The decoder takes the two-character escapes of section 7 of RFC 8259, less the solidus. */
  lemma EscapableByCode(c: char)
    ensures Escapable(c) <==> JsText.Escaped(c) && c as int != 0x2F
  {
  }

  /** A text the decoder has no objection to: after `\u` it takes any four characters, the terminator included. */
  predicate Decodable(s: string) {
    if s == "" then true
    else if s[0] as int != 0x5C then Decodable(s[1..])
    else if |s| == 1 then false
    else if s[1] as int == 0x75 then |s| == 5 || (|s| >= 6 && Decodable(s[6..]))
    else JsText.Escaped(s[1]) && s[1] as int != 0x2F && Decodable(s[2..])
  }

  /** Exactly those are decoded without error. */
  lemma {:induction false} DecodesExactly(s: string)
    ensures Dec(s + [NUL]).ok <==> Decodable(s)
  {
    hide Dec, Utf, Code;
    var w := s + [NUL];
    assert w[0..] == w;
    DecSplit(w, 0);
    DecEmpty();
    if s == "" {
      assert w[1..] == "";
    } else if s[0] != '\\' {
      assert w[1..] == s[1..] + [NUL];
      DecodesExactly(s[1..]);
    } else if |s| >= 2 {
      EscapableByCode(s[1]);
      if Escapable(s[1]) {
        assert w[2..] == s[2..] + [NUL];
        DecodesExactly(s[2..]);
      } else if |s| >= 6 {
        assert w[6..] == s[6..] + [NUL];
        DecodesExactly(s[6..]);
      } else if |s| == 5 {
        assert w[6..] == "";
      }
    }
  }

  /**
   A string the tokenizer accepts decodes without error exactly when it has no escaped
   solidus, which only the tokenizer allows; then the result is terminated and fits a
   buffer one longer than the size pass says.
   */
  lemma DecodeAccepted(d: string)
    requires StrText(d)
    ensures var r := Dec(d + [NUL]);
            && (r.ok <==> NoSolidus(d))
            && (r.ok ==> Terminated(r) && |r.bytes| <= |d| + 1)
  {
    JsScan.AcceptedIsBody(d);
    DecodeBody(d);
  }

  /** The tokenizer takes an escaped solidus, the decoder does not. */
  lemma SolidusRefused()
    ensures StrText("\\/") && !Dec("\\/" + [NUL]).ok
  {
    var q := "\\/" + "\"";
    assert |q| == 3 && q[0] == '\\' && q[1] == '/' && q[2] == '\"';
    assert StrEnd(q, 2) == Found(2);
    assert Next("\\/" + [NUL]).Fault?;
  }

  /** Encoded text is always accepted, and always decodes. */
  lemma EncodedAccepted(s: string)
    requires NulFree(s)
    ensures JsText.Body(Enc(s)) && StrText(Enc(s)) && NoSolidus(Enc(s))
  {
    EncodedIsBody(s);
    JsScan.AcceptedIsBody(Enc(s));
    DecodeAccepted(Enc(s));
    DecodeInvertsEncode(s);
  }

  lemma {:induction false} EncodedIsBody(s: string)
    requires NulFree(s)
    ensures JsText.Body(Enc(s))
  {
    if s != "" {
      EncodedIsBody(s[1..]);
      assert Enc(s)[|EncChar(s[0])|..] == Enc(s[1..]);
    }
  }

  /**
   A text cut inside a four-digit escape is not reported: the terminator is read as the
   missing digit and is itself never written.
   */
  lemma CutEscapeLosesTerminator()
    ensures var r := Dec("\\u123" + [NUL]); r.ok && |r.bytes| == 3 && !Terminated(r)
  {
    var w := "\\u123" + [NUL];
    assert w[6..] == "";
    assert Code('1', '2', '3', NUL) == 0x1230;
  }

  /** An escape is cut, and what is left of it is not all 0. */
  predicate EndsInCutEscape(w: string) {
    var c := CutDigits(w);
    c != "" && (Counts(c[0]) || Counts(c[1]) || Counts(c[2]))
  }

  /** A digit other than 0. */
  predicate Counts(c: char) {
    JsText.Hexadecimal(c) && JsText.Digit(c) != 0
  }

  /** Whatever is no digit is taken for 0. */
  lemma HexByCode(c: char)
    ensures Hex(c) == if JsText.Hexadecimal(c) then JsText.Digit(c) else 0
  {
  }

  lemma CutCode(a: char, b: char, c: char)
    ensures Code(a, b, c, NUL) != 0 <==> Counts(a) || Counts(b) || Counts(c)
  {
    HexByCode(a);
    HexByCode(b);
    HexByCode(c);
    HexByCode(NUL);
  }

  lemma UtfLast(n: nat)
    requires n < 0x10000
    ensures Utf(n)[|Utf(n)| - 1] == NUL <==> n == 0
  {
    assert n >= 0x80 ==> 0x80 + n % 0x40 != 0;
  }

  /** The terminator survives decoding exactly when no escape is cut that way. */
  lemma {:induction false} TerminatedUnlessCut(s: string)
    requires NulFree(s) && Dec(s + [NUL]).ok
    ensures Dec(s + [NUL]).bytes != []
    ensures Terminated(Dec(s + [NUL])) <==> !EndsInCutEscape(s)
  {
    hide Dec, Utf, Code;
    var w := s + [NUL];
    assert w[0..] == w;
    DecSplit(w, 0);
    DecEmpty();
    if s == "" {
      assert w[1..] == "";
    } else if s[0] != '\\' {
      assert w[1..] == s[1..] + [NUL];
      TerminatedUnlessCut(s[1..]);
    } else if |s| >= 2 && Escapable(s[1]) {
      assert w[2..] == s[2..] + [NUL];
      TerminatedUnlessCut(s[2..]);
    } else if |s| >= 6 {
      assert w[6..] == s[6..] + [NUL];
      TerminatedUnlessCut(s[6..]);
    } else {
      UtfLast(Code(w[2], w[3], w[4], w[5]));
      CutCode(w[2], w[3], w[4]);
      assert |s| == 5 && w[6..] == "";
    }
  }
}
