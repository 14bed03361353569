/**
 The JSON tokenizer of shared/json/jsmn.c, non-strict and without parent links.

 `Run` is the tokenizer as a function: one `Step` per round of the main loop, on a
 parser state that holds the position, the superior token and the tokens allocated
 so far. `Parser.Parse` is the imperative tokenizer, on a token array changed in
 place, and is proved to compute `Run`.
 */
module Jsmn {

  datatype Kind = Object | Array | Str | Primitive

  datatype Token = Token(kind: Kind, start: int, end: int, size: nat)

  const NOMEM := -1
  const INVAL := -2
  const PART := -3

  const NUL := '\0'

  // ---------------------------------------------------------------- characters

  datatype CharClass = Open(kind: Kind) | Close(kind: Kind) | Quote | Blank | Colon | Comma | Other

  function Class(c: char): CharClass {
    if c == '{' then Open(Object)
    else if c == '[' then Open(Array)
    else if c == '}' then Close(Object)
    else if c == ']' then Close(Array)
    else if c == '\"' then Quote
    else if c == '\t' || c == '\r' || c == '\n' || c == ' ' then Blank
    else if c == ':' then Colon
    else if c == ',' then Comma
    else Other
  }

  predicate Stops(c: char) {
    var k := Class(c);
    k.Blank? || k.Colon? || k.Comma? || k.Close?
  }

  predicate Printable(c: char) {
    ' ' <= c < '\U{7F}'
  }

  predicate HexDigit(c: char) {
    '0' <= c <= '9' || 'A' <= c <= 'F' || 'a' <= c <= 'f'
  }

  predicate SimpleEscape(c: char) {
    c == '\"' || c == '/' || c == '\\' || c == 'b' || c == 'f' || c == 'r' || c == 'n' || c == 't'
  }

  // ---------------------------------------------------------------- scanners

  /** Where a scan stops, or the error it returns. */
  datatype Scan = Found(at: nat) | Bad(error: int)

  predicate AtEnd(js: string, p: nat) {
    p >= |js| || js[p] == NUL
  }

  /** First position from `p` on that ends an unquoted value. */
  function PrimEnd(js: string, p: nat): (r: Scan)
    requires p <= |js|
    ensures r.Found? ==> p <= r.at <= |js|
    ensures r.Found? && !AtEnd(js, p) && !Stops(js[p]) ==> p < r.at
    decreases |js| - p
  {
    if AtEnd(js, p) || Stops(js[p]) then Found(p)
    else if !Printable(js[p]) then Bad(INVAL)
    else PrimEnd(js, p + 1)
  }

  /** Skips at most `n` hexadecimal digits. */
  function HexRun(js: string, p: nat, n: nat): (r: Scan)
    requires p <= |js|
    ensures r.Found? ==> p <= r.at <= |js| && r.at <= p + n
    ensures r.Bad? ==> r.error == INVAL
    decreases n
  {
    if n == 0 || AtEnd(js, p) then Found(p)
    else if !HexDigit(js[p]) then Bad(INVAL)
    else HexRun(js, p + 1, n - 1)
  }

  /** The closing quote of a string whose body is scanned from `p`. */
  function StrEnd(js: string, p: nat): (r: Scan)
    requires p <= |js|
    ensures r.Found? ==> p <= r.at < |js| && js[r.at] == '\"'
    ensures r.Bad? ==> r.error == INVAL || r.error == PART
    decreases |js| - p
  {
    if AtEnd(js, p) then Bad(PART)
    else if js[p] == '\"' then Found(p)
    else if js[p] == '\\' && p + 1 < |js| then
      if SimpleEscape(js[p + 1]) then StrEnd(js, p + 2)
      else if js[p + 1] == 'u' then
        var h := HexRun(js, p + 2, 4);
        if h.Bad? then h else StrEnd(js, h.at)
      else Bad(INVAL)
    else StrEnd(js, p + 1)
  }

  /** A string body that is read up to its closing quote. */
  predicate StrText(d: string) {
    StrEnd(d + "\"", 0) == Found(|d|)
  }

  // ---------------------------------------------------------------- parser state

  datatype State = State(pos: nat, super: int, toks: seq<Token>)

  const INIT := State(0, -1, [])

  predicate Sane(s: State) {
    -1 <= s.super < |s.toks|
  }

  predicate IsOpen(t: Token) {
    t.start != -1 && t.end == -1
  }

  predicate IsContainer(t: Token) {
    t.kind == Array || t.kind == Object
  }

  /** Index of the last token still open, -1 when there is none. */
  function LastOpen(toks: seq<Token>): (i: int)
    ensures -1 <= i < |toks|
    ensures i >= 0 ==> IsOpen(toks[i])
    ensures forall j :: i < j < |toks| ==> !IsOpen(toks[j])
  {
    if toks == [] then -1
    else if IsOpen(toks[|toks| - 1]) then |toks| - 1
    else LastOpen(toks[..|toks| - 1])
  }

  /** Index of the last open object or array, -1 when there is none. */
  function LastOpenContainer(toks: seq<Token>): (i: int)
    ensures -1 <= i < |toks|
    ensures i >= 0 ==> IsOpen(toks[i]) && IsContainer(toks[i])
    ensures forall j :: i < j < |toks| ==> !(IsOpen(toks[j]) && IsContainer(toks[j]))
  {
    if toks == [] then -1
    else if IsOpen(toks[|toks| - 1]) && IsContainer(toks[|toks| - 1]) then |toks| - 1
    else LastOpenContainer(toks[..|toks| - 1])
  }

  /** Adds `n` to the size of token `i`; nothing happens for -1. */
  function Bump(toks: seq<Token>, i: int, n: nat): (r: seq<Token>)
    requires -1 <= i < |toks|
    ensures |r| == |toks|
  {
    if i == -1 then toks else toks[i := toks[i].(size := toks[i].size + n)]
  }

  /** The state after a token was allocated for a member of the superior token. */
  function Add(s: State, t: Token, pos: nat, super: int): State
    requires Sane(s)
  {
    State(pos, super, Bump(s.toks, s.super, 1) + [t])
  }

  // ---------------------------------------------------------------- one round

  /** A round either moves on or ends the call and leaves the state untouched. */
  datatype Outcome = Go(s: State) | Halt(error: int)

  function Step(js: string, s: State, cap: nat): (r: Outcome)
    requires Sane(s) && !AtEnd(js, s.pos)
    ensures r.Go? ==> Sane(r.s) && s.pos < r.s.pos <= |js|
    ensures r.Go? ==> |s.toks| <= |r.s.toks| <= |s.toks| + 1
    ensures r.Halt? ==> r.error < 0
    ensures r == Halt(NOMEM) ==> cap <= |s.toks|
  {
    var n := |s.toks|;
    match Class(js[s.pos])
    case Open(k) =>
      if n >= cap then Halt(NOMEM)
      else Go(Add(s, Token(k, s.pos, -1, 0), s.pos + 1, n))
    case Close(k) =>
      var i := LastOpen(s.toks);
      if i < 0 || s.toks[i].kind != k then Halt(INVAL)
      else Go(State(s.pos + 1, LastOpen(s.toks[..i]), s.toks[i := s.toks[i].(end := s.pos + 1)]))
    case Quote =>
      var q := StrEnd(js, s.pos + 1);
      if q.Bad? then Halt(q.error)
      else if n >= cap then Halt(NOMEM)
      else Go(Add(s, Token(Str, s.pos + 1, q.at, 0), q.at + 1, s.super))
    case Blank => Go(s.(pos := s.pos + 1))
    case Colon => Go(State(s.pos + 1, n - 1, s.toks))
    case Comma => Go(State(s.pos + 1, Resuper(s), s.toks))
    case Other =>
      var q := PrimEnd(js, s.pos);
      if q.Bad? then Halt(INVAL)
      else if n >= cap then Halt(NOMEM)
      else Go(Add(s, Token(Primitive, s.pos, q.at, 0), q.at, s.super))
  }

  /** The superior token after a comma. */
  function Resuper(s: State): (i: int)
    requires Sane(s)
    ensures -1 <= i < |s.toks|
  {
    if s.super == -1 || IsContainer(s.toks[s.super]) then s.super
    else
      var i := LastOpenContainer(s.toks);
      if i >= 0 then i else s.super
  }

  // ---------------------------------------------------------------- a whole call

  datatype Result = Result(ret: int, s: State)

  function Run(js: string, s: State, cap: nat): (r: Result)
    requires Sane(s)
    ensures Sane(r.s)
    ensures r.ret >= 0 ==> r.ret == |r.s.toks| && AtEnd(js, r.s.pos) && LastOpen(r.s.toks) == -1
    ensures r.ret == NOMEM ==> cap <= |r.s.toks|
    ensures |s.toks| <= |r.s.toks|
    decreases |js| - s.pos
  {
    if AtEnd(js, s.pos) then Result(if LastOpen(s.toks) >= 0 then PART else |s.toks|, s)
    else
      var o := Step(js, s, cap);
      if o.Halt? then Result(o.error, s) else Run(js, o.s, cap)
  }

  // ---------------------------------------------------------------- the imperative tokenizer

  /** A call on `tokens`, with as many tokens as the array has room for. */
  class Parser {
    var pos: nat
    var toknext: nat
    var toksuper: int

    constructor ()
      ensures pos == 0 && toknext == 0 && toksuper == -1
    {
      pos, toknext, toksuper := 0, 0, -1;
    }

    ghost predicate Valid(tokens: array<Token>)
      reads this
    {
      -1 <= toksuper < toknext <= tokens.Length
    }

    ghost function Abs(tokens: array<Token>): State
      requires Valid(tokens)
      reads this, tokens
    {
      State(pos, toksuper, tokens[..toknext])
    }

    method AllocToken(tokens: array<Token>, kind: Kind, start: int, end: int) returns (ok: bool)
      requires Valid(tokens)
      modifies this`toknext, tokens
      ensures Valid(tokens)
      ensures ok <==> old(toknext) < tokens.Length
      ensures tokens[..toknext] == old(tokens[..toknext]) + (if ok then [Token(kind, start, end, 0)] else [])
    {
      ok := toknext < tokens.Length;
      if ok {
        tokens[toknext] := Token(kind, start, end, 0);
        toknext := toknext + 1;
      }
    }

    method BumpSuper(tokens: array<Token>, super: int, ghost before: seq<Token>, ghost t: Token)
      requires Valid(tokens) && -1 <= super < |before|
      requires tokens[..toknext] == before + [t]
      modifies tokens
      ensures tokens[..toknext] == Bump(before, super, 1) + [t]
    {
      if super != -1 {
        assert tokens[super] == tokens[..toknext][super];
        tokens[super] := tokens[super].(size := tokens[super].size + 1);
      }
    }

    method ParsePrimitive(js: string, tokens: array<Token>) returns (r: int)
      requires Valid(tokens) && !AtEnd(js, pos) && Class(js[pos]).Other?
      modifies this`pos, this`toknext, tokens
      ensures Valid(tokens)
      ensures var q := PrimEnd(js, old(pos));
              && r == (if q.Bad? then INVAL else if old(toknext) >= tokens.Length then NOMEM else 0)
              && pos == (if r == 0 then q.at - 1 else old(pos))
              && tokens[..toknext] == old(tokens[..toknext]) +
                                      (if r == 0 then [Token(Primitive, old(pos), q.at, 0)] else [])
    {
      var start := pos;
      while pos < |js| && js[pos] != NUL && !Stops(js[pos])
        invariant start <= pos <= |js|
        invariant PrimEnd(js, start) == PrimEnd(js, pos)
        invariant pos == start ==> Class(js[pos]).Other?
        modifies this`pos
        decreases |js| - pos
      {
        if js[pos] < ' ' || js[pos] >= '\U{7F}' {
          pos := start;
          return INVAL;
        }
        pos := pos + 1;
      }
      var ok := AllocToken(tokens, Primitive, start, pos);
      if !ok {
        pos := start;
        return NOMEM;
      }
      pos := pos - 1;
      return 0;
    }

    /** From a backslash to the last character of its escape; `ok` is false on an unknown one. */
    method SkipEscape(js: string) returns (ok: bool)
      requires pos + 1 < |js| && js[pos] == '\\' && !AtEnd(js, pos)
      modifies this`pos
      ensures pos < |js|
      ensures ok ==> old(pos) < pos && StrEnd(js, old(pos)) == StrEnd(js, pos + 1)
      ensures !ok ==> StrEnd(js, old(pos)) == Bad(INVAL)
    {
      pos := pos + 1;
      if js[pos] != 'u' {
        return SimpleEscape(js[pos]);
      }
      pos := pos + 1;
      var i, h := 0, pos;
      while i < 4 && pos < |js| && js[pos] != NUL
        invariant 0 <= i <= 4 && h <= pos <= |js|
        invariant HexRun(js, h, 4) == HexRun(js, pos, 4 - i)
      {
        if !HexDigit(js[pos]) {
          return false;
        }
        pos := pos + 1;
        i := i + 1;
      }
      pos := pos - 1;
      return true;
    }

    method ParseString(js: string, tokens: array<Token>) returns (r: int)
      requires Valid(tokens) && !AtEnd(js, pos)
      modifies this`pos, this`toknext, tokens
      ensures Valid(tokens)
      ensures var q := StrEnd(js, old(pos) + 1);
              && r == (if q.Bad? then q.error else if old(toknext) >= tokens.Length then NOMEM else 0)
              && pos == (if r == 0 then q.at else old(pos))
              && tokens[..toknext] == old(tokens[..toknext]) +
                                      (if r == 0 then [Token(Str, old(pos) + 1, q.at, 0)] else [])
    {
      var start := pos;
      pos := pos + 1;
      while pos < |js| && js[pos] != NUL && js[pos] != '\"'
        invariant start < pos <= |js|
        invariant StrEnd(js, start + 1) == StrEnd(js, pos)
        modifies this`pos
        decreases |js| - pos
      {
        if js[pos] == '\\' && pos + 1 < |js| {
          var ok := SkipEscape(js);
          if !ok {
            pos := start;
            return INVAL;
          }
        }
        pos := pos + 1;
      }
      if pos >= |js| || js[pos] == NUL {
        pos := start;
        return PART;
      }
      var ok := AllocToken(tokens, Str, start + 1, pos);
      if !ok {
        pos := start;
        return NOMEM;
      }
      return 0;
    }

    /** Searches down from token `from` for one still open. */
    method FindOpen(tokens: array<Token>, from: nat) returns (i: int)
      requires from <= tokens.Length
      ensures i == LastOpen(tokens[..from])
    {
      i := from - 1;
      while i >= 0
        invariant -1 <= i < from
        invariant LastOpen(tokens[..from]) == LastOpen(tokens[..i + 1])
      {
        assert tokens[..i + 1][..i] == tokens[..i];
        if tokens[i].start != -1 && tokens[i].end == -1 {
          return;
        }
        i := i - 1;
      }
    }

    method FindOpenContainer(tokens: array<Token>, from: nat) returns (i: int)
      requires from <= tokens.Length
      ensures i == LastOpenContainer(tokens[..from])
    {
      i := from - 1;
      while i >= 0
        invariant -1 <= i < from
        invariant LastOpenContainer(tokens[..from]) == LastOpenContainer(tokens[..i + 1])
      {
        assert tokens[..i + 1][..i] == tokens[..i];
        if tokens[i].kind == Array || tokens[i].kind == Object {
          if tokens[i].start != -1 && tokens[i].end == -1 {
            return;
          }
        }
        i := i - 1;
      }
    }

    /** An opening bracket; `r` is an error or 0. */
    method OpenContainer(tokens: array<Token>, kind: Kind) returns (r: int)
      requires Valid(tokens)
      modifies this`toksuper, this`toknext, tokens
      ensures Valid(tokens)
      ensures if old(toknext) >= tokens.Length then r == NOMEM && Abs(tokens) == old(Abs(tokens))
              else r == 0 && Abs(tokens) == Add(old(Abs(tokens)), Token(kind, pos, -1, 0), pos, old(toknext))
    {
      ghost var before := tokens[..toknext];
      var ok := AllocToken(tokens, kind, pos, -1);
      if !ok {
        return NOMEM;
      }
      BumpSuper(tokens, toksuper, before, Token(kind, pos, -1, 0));
      toksuper := toknext - 1;
      return 0;
    }

    /** A comma: the superior token is the enclosing container again. */
    method LeaveMember(tokens: array<Token>)
      requires Valid(tokens)
      modifies this`toksuper
      ensures Valid(tokens) && toksuper == Resuper(old(Abs(tokens)))
    {
      if toksuper != -1 && tokens[toksuper].kind != Array && tokens[toksuper].kind != Object {
        var i := FindOpenContainer(tokens, toknext);
        if i >= 0 {
          toksuper := i;
        }
      }
    }

    /** The two searches of a closing bracket; `r` is an error or 0. */
    method CloseContainer(tokens: array<Token>, kind: Kind) returns (r: int)
      requires Valid(tokens)
      modifies this`toksuper, tokens
      ensures Valid(tokens)
      ensures var before := old(tokens[..toknext]);
              var i := LastOpen(before);
              if i < 0 || before[i].kind != kind then
                r == INVAL && tokens[..toknext] == before && toksuper == old(toksuper)
              else
                && r == 0 && toksuper == LastOpen(before[..i])
                && tokens[..toknext] == before[i := before[i].(end := pos + 1)]
    {
      var i := FindOpen(tokens, toknext);
      if i == -1 || tokens[i].kind != kind {
        return INVAL;
      }
      assert tokens[..toknext][..i] == tokens[..i];
      ghost var before := tokens[..toknext];
      tokens[i] := tokens[i].(end := pos + 1);
      assert tokens[..i] == before[..i];
      toksuper := FindOpen(tokens, i);
      return 0;
    }

    /**
     One round of the main loop on the character at `pos`, without the increment of `pos`. `count`
     is counted as the source does, for brackets even before there is a token.
     */
    method Round(js: string, tokens: array<Token>, before: int) returns (r: int, count: int)
      requires Valid(tokens) && !AtEnd(js, pos)
      modifies this, tokens
      ensures Valid(tokens)
      ensures match Step(js, old(Abs(tokens)), tokens.Length)
              case Halt(e) => r == e && Abs(tokens) == old(Abs(tokens))
              case Go(s) => r == 0 && State(pos + 1, toksuper, tokens[..toknext]) == s
      ensures r >= 0 ==> count - before == toknext - old(toknext)
    {
      ghost var toks := tokens[..toknext];
      var super := toksuper;
      count := before;
      match Class(js[pos]) {
        case Open(kind) =>
          count := count + 1;
          r := OpenContainer(tokens, kind);
        case Close(kind) =>
          r := CloseContainer(tokens, kind);
        case Quote =>
          ghost var start := pos;
          r := ParseString(js, tokens);
          if r < 0 {
            return;
          }
          count := count + 1;
          BumpSuper(tokens, super, toks, Token(Str, start + 1, pos, 0));
        case Blank =>
          r := 0;
        case Colon =>
          toksuper := toknext - 1;
          r := 0;
        case Comma =>
          LeaveMember(tokens);
          r := 0;
        case Other =>
          ghost var start := pos;
          r := ParsePrimitive(js, tokens);
          if r < 0 {
            return;
          }
          count := count + 1;
          BumpSuper(tokens, super, toks, Token(Primitive, start, pos + 1, 0));
      }
    }

    /** jsmn_parse: continues from wherever an earlier call stopped. */
    method Parse(js: string, tokens: array<Token>) returns (r: int)
      requires Valid(tokens)
      modifies this, tokens
      ensures Valid(tokens)
      ensures Result(r, Abs(tokens)) == Run(js, old(Abs(tokens)), tokens.Length)
    {
      var count: int := toknext;
      while pos < |js| && js[pos] != NUL
        invariant Valid(tokens) && count == toknext
        invariant Run(js, old(Abs(tokens)), tokens.Length) == Run(js, Abs(tokens), tokens.Length)
        decreases |js| - pos
      {
        r, count := Round(js, tokens, count);
        if r < 0 {
          return;
        }
        pos := pos + 1;
      }
      var i := FindOpen(tokens, toknext);
      if i >= 0 {
        return PART;
      }
      return count;
    }
  }
}
