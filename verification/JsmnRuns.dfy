/**
 What holds of every tokenizer run: a run stopped for lack of tokens can be resumed
 without a trace, the token array of daemon/vcom_load_sslcfg.h can be doubled until the
 run ends, and the spans of a successful run are a forest that accounts for the text.
 */
module JsmnRuns {
  import opened Jsmn
  import opened JsText
  import opened JsScan

  // ---------------------------------------------------------------- resuming

  /** More tokens never change a run that did not ask for them; a run that did can be resumed. */
  lemma {:induction false} Resume(js: string, s: State, cap: nat, more: nat)
    requires Sane(s) && cap <= more
    ensures var r := Run(js, s, cap);
            if r.ret == NOMEM then Run(js, r.s, more) == Run(js, s, more)
            else Run(js, s, more) == r
    decreases |js| - s.pos
  {
    if !AtEnd(js, s.pos) {
      var o := Step(js, s, cap);
      if o.Go? {
        assert Step(js, s, more) == o;
        Resume(js, o.s, cap, more);
      } else if o.error != NOMEM {
        assert Step(js, s, more) == o;
      }
    }
  }

  /** Every token consumes at least one character. */
  lemma {:induction false} TokensWithinText(js: string, s: State, cap: nat)
    requires Sane(s) && |s.toks| <= s.pos <= |js|
    ensures var r := Run(js, s, cap); |r.s.toks| <= r.s.pos <= |js|
    ensures |js| <= cap ==> Run(js, s, cap).ret != NOMEM
    decreases |js| - s.pos
  {
    if !AtEnd(js, s.pos) {
      var o := Step(js, s, cap);
      if o.Go? {
        TokensWithinText(js, o.s, cap);
      }
    }
  }

  /** realloc to twice the size: what was there is kept. */
  method Grow(tokens: array<Token>) returns (bigger: array<Token>)
    ensures fresh(bigger) && bigger.Length == 2 * tokens.Length
    ensures bigger[..tokens.Length] == tokens[..]
  {
    var blank := Token(Object, 0, 0, 0);
    bigger := new Token[tokens.Length * 2](_ => blank);
    for i := 0 to tokens.Length
      invariant bigger[..i] == tokens[..i]
    {
      bigger[i] := tokens[i];
    }
  }

  /** 2, 4, 8 and so on. */
  function SizeAt(k: nat): nat {
    if k == 0 then 2 else 2 * SizeAt(k - 1)
  }

  /**
   The doubling loop of loadconfig. It ends, with the first of the sizes 2, 4, 8 and so on that is
   enough, and what it leaves is what a single call with an array that never runs out would have left.
   */
  method LoadTokens(js: string) returns (parser: Parser, tokens: array<Token>, ret: int)
    ensures fresh(parser) && fresh(tokens) && parser.Valid(tokens)
    ensures ret != NOMEM
    ensures exists k: nat :: tokens.Length == SizeAt(k) && (k > 0 ==> Run(js, INIT, SizeAt(k - 1)).ret == -1)
    ensures forall cap :: |js| <= cap ==> Run(js, INIT, cap) == Result(ret, parser.Abs(tokens))
  {
    hide Run;
    parser := new Parser();
    var blank := Token(Object, 0, 0, 0);
    tokens := new Token[2](_ => blank);
    ghost var s, k: nat := INIT, 0;
    while true
      invariant fresh(parser) && fresh(tokens) && parser.Valid(tokens) && tokens.Length >= 2
      invariant s == parser.Abs(tokens) && tokens.Length == SizeAt(k)
      invariant k > 0 ==> Run(js, INIT, SizeAt(k - 1)).ret == -1
      invariant |s.toks| <= s.pos <= |js| && SameFrom(js, s, tokens.Length)
      decreases |js| + 2 - tokens.Length
    {
      ret := parser.Parse(js, tokens);
      LoadRound(js, s, tokens.Length);
      s := parser.Abs(tokens);
      if ret != NOMEM {
        return;
      }
      tokens := Grow(tokens);
      k := k + 1;
    }
  }

  /** With room for `cap` tokens or more, the run so far has lost nothing. */
  ghost predicate SameFrom(js: string, s: State, cap: nat)
    requires Sane(s)
  {
    forall c: nat :: cap <= c ==> Run(js, INIT, c) == Run(js, s, c)
  }

  lemma LoadRound(js: string, s: State, cap: nat)
    requires Sane(s) && |s.toks| <= s.pos <= |js| && SameFrom(js, s, cap)
    ensures var r := Run(js, s, cap);
            if r.ret == NOMEM then
              cap <= |r.s.toks| <= r.s.pos <= |js| && SameFrom(js, r.s, 2 * cap)
            else
              forall c: nat :: |js| <= c ==> Run(js, INIT, c) == r
  {
    var r := Run(js, s, cap);
    TokensWithinText(js, s, cap);
    if r.ret == NOMEM {
      forall c: nat | 2 * cap <= c
        ensures Run(js, INIT, c) == Run(js, r.s, c)
      {
        Resume(js, s, cap, c);
      }
    } else {
      assert Run(js, INIT, cap) == r;
      Settle(js, INIT, cap, r);
    }
  }

  /** A run that ended without asking for tokens is the run with any larger array. */
  lemma Settle(js: string, s: State, cap: nat, r: Result)
    requires Sane(s) && |s.toks| <= s.pos <= |js|
    requires Run(js, s, cap) == r && r.ret != NOMEM
    ensures forall big :: |js| <= big ==> Run(js, s, big) == r
  {
    forall big: nat | |js| <= big
      ensures Run(js, s, big) == r
    {
      if cap <= big {
        Resume(js, s, cap, big);
      } else {
        Resume(js, s, big, cap);
        TokensWithinText(js, s, big);
      }
    }
  }

  // ---------------------------------------------------------------- spans

  function Opener(k: Kind): char {
    if k == Object then '{' else '['
  }

  function Closer(k: Kind): char {
    if k == Object then '}' else ']'
  }

  /** A token lies where its kind says, within the text read so far. */
  predicate Placed(js: string, pos: nat, t: Token)
    requires pos <= |js|
  {
    match t.kind
    case Str =>
      1 <= t.start <= t.end < pos && js[t.start - 1] == js[t.end] == '\"' && Body(js[t.start..t.end])
    case Primitive =>
      0 <= t.start < t.end <= pos && PrimText(js[t.start..t.end]) && Ends(js, t.end)
    case _ =>
      && 0 <= t.start < pos && js[t.start] == Opener(t.kind)
      && (IsOpen(t) || (t.start + 2 <= t.end <= pos && js[t.end - 1] == Closer(t.kind)))
  }

  /** `b` follows `a`, or lies inside the container `a`. */
  predicate DisjointOrNested(a: Token, b: Token) {
    a.end <= b.start || (IsContainer(a) && a.start < b.start && !IsOpen(b) && b.end < a.end)
  }

  predicate Forest(js: string, pos: nat, toks: seq<Token>)
    requires pos <= |js|
  {
    && (forall i :: 0 <= i < |toks| ==> Placed(js, pos, toks[i]))
    && (forall i, j :: 0 <= i < j < |toks| ==> toks[i].start < toks[j].start)
    && (forall i, j :: 0 <= i < j < |toks| && !IsOpen(toks[i]) ==> DisjointOrNested(toks[i], toks[j]))
  }

  /** Token `t` accounts for the character at `p`. */
  predicate Owns(t: Token, p: nat) {
    match t.kind
    case Str => t.start - 1 <= p <= t.end
    case Primitive => t.start <= p < t.end
    case _ => p == t.start || (!IsOpen(t) && p == t.end - 1)
  }

  predicate Owned(toks: seq<Token>, p: nat) {
    exists i :: 0 <= i < |toks| && Owns(toks[i], p)
  }

  /** Every character read is a blank, a colon or a comma, or belongs to a token. */
  predicate Covered(js: string, pos: nat, toks: seq<Token>)
    requires pos <= |js|
  {
    forall p :: 0 <= p < pos ==> Accounted(js, toks, p)
  }

  predicate Accounted(js: string, toks: seq<Token>, p: nat)
    requires p < |js|
  {
    Between(js[p]) || Owned(toks, p)
  }

  predicate Inv(js: string, s: State) {
    s.pos <= |js| && Forest(js, s.pos, s.toks) && Covered(js, s.pos, s.toks)
  }

  lemma OwnedGrows(toks: seq<Token>, i: int, t: Token, p: nat)
    requires -1 <= i < |toks|
    requires Owned(toks, p)
    ensures Owned(Bump(toks, i, 1) + [t], p)
  {
    var k :| 0 <= k < |toks| && Owns(toks[k], p);
    assert Owns((Bump(toks, i, 1) + [t])[k], p);
  }

  lemma PlacedLater(js: string, pos: nat, later: nat, t: Token, n: nat)
    requires pos <= later <= |js| && Placed(js, pos, t)
    ensures Placed(js, later, t.(size := n))
    ensures t.start < pos && (!IsOpen(t) ==> t.start <= t.end <= pos)
  {
  }

  lemma AddKeepsForest(js: string, pos: nat, toks: seq<Token>, i: int, t: Token, later: nat)
    requires pos < later <= |js| && Forest(js, pos, toks) && -1 <= i < |toks|
    requires Placed(js, later, t) && pos <= t.start
    ensures Forest(js, later, Bump(toks, i, 1) + [t])
  {
    hide Body, PrimText, Ends;
    var r := Bump(toks, i, 1) + [t];
    forall k | 0 <= k < |toks|
      ensures r[k] == toks[k].(size := r[k].size) && Placed(js, later, r[k])
      ensures r[k].start < pos && (!IsOpen(r[k]) ==> r[k].end <= pos)
    {
      PlacedLater(js, pos, later, toks[k], r[k].size);
    }
  }

  /** Allocating a token that starts where the text was read up to, and owns what it reads. */
  lemma AddKeepsInv(js: string, s: State, t: Token, pos: nat, super: int)
    requires Sane(s) && Inv(js, s) && s.pos < pos <= |js|
    requires Placed(js, pos, t) && s.pos <= t.start
    requires forall p :: s.pos <= p < pos ==> Owns(t, p)
    ensures Inv(js, Add(s, t, pos, super))
  {
    hide Body, PrimText, Ends;
    var toks := Bump(s.toks, s.super, 1) + [t];
    AddKeepsForest(js, s.pos, s.toks, s.super, t, pos);
    forall p | 0 <= p < pos
      ensures Accounted(js, toks, p)
    {
      assert p < s.pos ==> Accounted(js, s.toks, p);
      if p >= s.pos {
        assert Owns(toks[|s.toks|], p);
      } else if Owned(s.toks, p) {
        OwnedGrows(s.toks, s.super, t, p);
      }
    }
  }

  /** The last open token is closed behind all the others. */
  lemma CloseNests(toks: seq<Token>, i: nat, end: nat)
    requires i < |toks| && IsOpen(toks[i]) && IsContainer(toks[i])
    requires forall a, b :: 0 <= a < b < |toks| ==> toks[a].start < toks[b].start
    requires forall a, b :: 0 <= a < b < |toks| && !IsOpen(toks[a]) ==> DisjointOrNested(toks[a], toks[b])
    requires forall k :: i < k < |toks| ==> !IsOpen(toks[k]) && toks[k].end < end
    ensures var r := toks[i := toks[i].(end := end)];
            forall a, b :: 0 <= a < b < |r| && !IsOpen(r[a]) ==> DisjointOrNested(r[a], r[b])
  {
    var r := toks[i := toks[i].(end := end)];
    forall a, b | 0 <= a < b < |r| && !IsOpen(r[a])
      ensures DisjointOrNested(r[a], r[b])
    {
      if a == i {
        assert toks[a].start < toks[b].start;
      } else {
        assert DisjointOrNested(toks[a], toks[b]);
      }
    }
  }

  lemma CloseKeepsForest(js: string, pos: nat, toks: seq<Token>, i: nat)
    requires pos < |js| && Forest(js, pos, toks)
    requires i < |toks| && i == LastOpen(toks) && js[pos] == Closer(toks[i].kind)
    ensures Forest(js, pos + 1, toks[i := toks[i].(end := pos + 1)])
  {
    hide Body, PrimText, Ends, LastOpen;
    var r := toks[i := toks[i].(end := pos + 1)];
    OpenIsContainer(js, pos, toks[i]);
    forall k | 0 <= k < |toks|
      ensures Placed(js, pos + 1, r[k]) && r[k].start == toks[k].start
      ensures k > i ==> !IsOpen(toks[k]) && toks[k].end < pos + 1
    {
      PlacedLater(js, pos, pos + 1, toks[k], toks[k].size);
    }
    hide Placed, DisjointOrNested;
    CloseNests(toks, i, pos + 1);
  }

  lemma CloseKeepsCover(js: string, pos: nat, toks: seq<Token>, i: nat)
    requires pos < |js| && Covered(js, pos, toks)
    requires i < |toks| && IsOpen(toks[i]) && IsContainer(toks[i])
    ensures Covered(js, pos + 1, toks[i := toks[i].(end := pos + 1)])
  {
    hide Body, PrimText, Ends;
    var r := toks[i := toks[i].(end := pos + 1)];
    forall p | 0 <= p < pos + 1
      ensures Accounted(js, r, p)
    {
      assert p < pos ==> Accounted(js, toks, p);
      if p == pos {
        assert Owns(r[i], p);
      } else if Owned(toks, p) {
        var k :| 0 <= k < |toks| && Owns(toks[k], p);
        assert Owns(r[k], p);
      }
    }
  }

  /** Moving on over a character that may stand between values. */
  lemma PassKeepsInv(js: string, s: State, super: int)
    requires Inv(js, s) && s.pos < |js| && Between(js[s.pos])
    ensures Inv(js, State(s.pos + 1, super, s.toks))
  {
    hide Body, PrimText, Ends, Between;
    forall k | 0 <= k < |s.toks|
      ensures Placed(js, s.pos + 1, s.toks[k])
    {
      PlacedLater(js, s.pos, s.pos + 1, s.toks[k], s.toks[k].size);
    }
  }

  lemma SeparatorKeepsInv(js: string, s: State, cap: nat)
    requires Sane(s) && Inv(js, s) && !AtEnd(js, s.pos) && Between(js[s.pos])
    ensures var o := Step(js, s, cap); o.Go? ==> Inv(js, o.s)
  {
    hide Inv, StrEnd, PrimEnd, LastOpen;
    Classes(js[s.pos]);
    var o := Step(js, s, cap);
    assert o == Go(State(s.pos + 1, o.s.super, s.toks));
    PassKeepsInv(js, s, o.s.super);
  }

  lemma OpenKeepsInv(js: string, s: State, cap: nat)
    requires Sane(s) && Inv(js, s) && !AtEnd(js, s.pos) && Class(js[s.pos]).Open?
    ensures var o := Step(js, s, cap); o.Go? ==> Inv(js, o.s)
  {
    hide Body, PrimText, Ends;
    AddKeepsInv(js, s, Token(Class(js[s.pos]).kind, s.pos, -1, 0), s.pos + 1, |s.toks|);
  }

  lemma OpenIsContainer(js: string, pos: nat, t: Token)
    requires pos <= |js| && Placed(js, pos, t) && IsOpen(t)
    ensures IsContainer(t)
  {
  }

  lemma CloseEndsToken(js: string, s: State, i: nat, super: int)
    requires Inv(js, s) && s.pos < |js|
    requires i < |s.toks| && i == LastOpen(s.toks) && js[s.pos] == Closer(s.toks[i].kind)
    ensures Inv(js, State(s.pos + 1, super, s.toks[i := s.toks[i].(end := s.pos + 1)]))
  {
    hide Body, PrimText, Ends;
    OpenIsContainer(js, s.pos, s.toks[i]);
    CloseKeepsForest(js, s.pos, s.toks, i);
    CloseKeepsCover(js, s.pos, s.toks, i);
  }

  lemma CloseKeepsInv(js: string, s: State, cap: nat)
    requires Sane(s) && Inv(js, s) && !AtEnd(js, s.pos) && Class(js[s.pos]).Close?
    ensures var o := Step(js, s, cap); o.Go? ==> Inv(js, o.s)
  {
    hide Body, PrimText, Ends;
    var i := LastOpen(s.toks);
    if i >= 0 && s.toks[i].kind == Class(js[s.pos]).kind {
      var next := State(s.pos + 1, LastOpen(s.toks[..i]), s.toks[i := s.toks[i].(end := s.pos + 1)]);
      assert Step(js, s, cap) == Go(next);
      assert Inv(js, next) by {
        CloseEndsToken(js, s, i, next.super);
      }
    }
  }

  lemma QuoteAddsToken(js: string, s: State, q: nat)
    requires Sane(s) && Inv(js, s) && s.pos < |js| && js[s.pos] == '\"'
    requires StrEnd(js, s.pos + 1) == Found(q)
    ensures Inv(js, Add(s, Token(Str, s.pos + 1, q, 0), q + 1, s.super))
  {
    StrEndIsBody(js, s.pos + 1);
    AddKeepsInv(js, s, Token(Str, s.pos + 1, q, 0), q + 1, s.super);
  }

  lemma QuoteKeepsInv(js: string, s: State, cap: nat)
    requires Sane(s) && Inv(js, s) && !AtEnd(js, s.pos) && Class(js[s.pos]).Quote?
    ensures var o := Step(js, s, cap); o.Go? ==> Inv(js, o.s)
  {
    var q := StrEnd(js, s.pos + 1);
    if q.Found? && |s.toks| < cap {
      QuoteAddsToken(js, s, q.at);
      assert Step(js, s, cap) == Go(Add(s, Token(Str, s.pos + 1, q.at, 0), q.at + 1, s.super));
    }
  }

  lemma OtherKeepsInv(js: string, s: State, cap: nat)
    requires Sane(s) && Inv(js, s) && !AtEnd(js, s.pos) && Class(js[s.pos]).Other?
    ensures var o := Step(js, s, cap); o.Go? ==> Inv(js, o.s)
  {
    var q := PrimEnd(js, s.pos);
    if q.Found? {
      PrimEndIsBare(js, s.pos);
      Classes(js[s.pos]);
      AddKeepsInv(js, s, Token(Primitive, s.pos, q.at, 0), q.at, s.super);
    }
  }

  lemma StepKeepsInv(js: string, s: State, cap: nat)
    requires Sane(s) && Inv(js, s) && !AtEnd(js, s.pos)
    ensures var o := Step(js, s, cap); o.Go? ==> Inv(js, o.s)
  {
    hide Step, Forest, Covered;
    Classes(js[s.pos]);
    match Class(js[s.pos])
    case Open(_) => OpenKeepsInv(js, s, cap);
    case Close(_) => CloseKeepsInv(js, s, cap);
    case Quote => QuoteKeepsInv(js, s, cap);
    case Other => OtherKeepsInv(js, s, cap);
    case _ => SeparatorKeepsInv(js, s, cap);
  }

  lemma {:induction false} RunKeepsInv(js: string, s: State, cap: nat)
    requires Sane(s) && Inv(js, s)
    ensures Inv(js, Run(js, s, cap).s)
    decreases |js| - s.pos
  {
    if !AtEnd(js, s.pos) {
      var o := Step(js, s, cap);
      if o.Go? {
        StepKeepsInv(js, s, cap);
        RunKeepsInv(js, o.s, cap);
      }
    }
  }

  /**
   After a successful run, however often it was resumed: the returned count is the
   number of tokens, none is open, starts strictly increase, two spans are disjoint or
   nested in a container, containers begin and end at brackets of their kind, and every
   bracket, quote and other character read belongs to a token.
   */
  lemma SpansFormForest(js: string, cap: nat)
    requires Run(js, INIT, cap).ret >= 0
    ensures var r := Run(js, INIT, cap);
            && r.ret == |r.s.toks| && AtEnd(js, r.s.pos) && r.s.pos <= |js|
            && (forall i :: 0 <= i < |r.s.toks| ==> !IsOpen(r.s.toks[i]))
            && Forest(js, r.s.pos, r.s.toks) && Covered(js, r.s.pos, r.s.toks)
  {
    RunKeepsInv(js, INIT, cap);
  }

  /** The error codes: no token left, a bracket that closes nothing, one never closed. */
  lemma ErrorCodes(js: string, s: State, cap: nat)
    requires Sane(s)
    ensures AtEnd(js, s.pos) && LastOpen(s.toks) >= 0 ==> Run(js, s, cap).ret == -3
    ensures !AtEnd(js, s.pos) && js[s.pos] in "]}" && LastOpen(s.toks) < 0 ==> Run(js, s, cap).ret == -2
    ensures !AtEnd(js, s.pos) && js[s.pos] in "[{" && |s.toks| >= cap ==> Run(js, s, cap).ret == -1
  {
    hide LastOpen, StrEnd, PrimEnd;
  }
}
