/**
 The JSON tree of shared/json/jstree.c: its text in any layout, rebuilding it from tokens
 (`js2tree`), and the proof that tokenizing and rebuilding any text of a tree gives the tree.
 The layout of `tree2js` is one of them.

 A node links its next sibling with `l` and its first child, or the value of a key,
 with `r`. `Nil` is the null pointer; the null data of a container is the empty string.
 */
module JsTree {
  import opened Jsmn
  import opened JsText
  import opened JsScan

  datatype Tree = Nil | Node(kind: Kind, data: string, l: Tree, r: Tree)

  // ---------------------------------------------------------------- well-formed trees

  predicate IsLeaf(t: Tree) {
    t.Node? && ((t.kind == Str && Body(t.data)) || (t.kind == Primitive && PrimText(t.data)))
  }

  /** A value with everything below it; its own siblings do not matter. */
  predicate WellFormed(t: Tree)
    decreases t, 1
  {
    t.Node? &&
    match t.kind
    case Object => t.data == "" && WellFormedMembers(t.r)
    case Array => t.data == "" && WellFormedItems(t.r)
    case _ => IsLeaf(t) && t.r == Nil
  }

  /** Keys are leaves, each with exactly one value. */
  predicate WellFormedMembers(n: Tree)
    decreases n, 2
  {
    n == Nil || (IsLeaf(n) && WellFormed(n.r) && n.r.l == Nil && WellFormedMembers(n.l))
  }

  predicate WellFormedItems(n: Tree)
    decreases n, 2
  {
    n == Nil || (WellFormed(n) && WellFormedItems(n.l))
  }

  // ---------------------------------------------------------------- text in any layout

  /**
   The white space in the text of a tree, node by node: before a key or item, before and after
   the colon, after the value, and before the bracket that closes it. `Tight` has none.
   */
  datatype Layout = Tight | Layout(pre: string, colon: string, value: string, post: string, close: string,
                                   next: Layout, sub: Layout)

  predicate Blanks(y: Layout) {
    y.Layout? ==>
      && IsBlank(y.pre) && IsBlank(y.colon) && IsBlank(y.value) && IsBlank(y.post) && IsBlank(y.close)
      && Blanks(y.next) && Blanks(y.sub)
  }

  function Pre(y: Layout): string {
    if y.Tight? then "" else y.pre
  }

  function Colon(y: Layout): string {
    if y.Tight? then "" else y.colon
  }

  function Value(y: Layout): string {
    if y.Tight? then "" else y.value
  }

  function Close(y: Layout): string {
    if y.Tight? then "" else y.close
  }

  function Next(y: Layout): Layout {
    if y.Tight? then Tight else y.next
  }

  function Sub(y: Layout): Layout {
    if y.Tight? then Tight else y.sub
  }

  /** What follows a value: white space, and a comma unless it is the last. */
  function Tail(next: Tree, y: Layout): string {
    (if y.Tight? then "" else y.post) + (if next == Nil then "" else ",")
  }

  lemma EmptyIsBlank()
    ensures IsBlank("")
  {
  }

  lemma BlankParts(y: Layout)
    requires Blanks(y)
    ensures IsBlank(Pre(y)) && IsBlank(Colon(y)) && IsBlank(Value(y)) && IsBlank(Close(y))
    ensures Blanks(Next(y)) && Blanks(Sub(y))
  {
  }

  function Print(t: Tree, y: Layout): string
    decreases t, 0
  {
    if t == Nil then ""
    else
      match t.kind
      case Str => "\"" + (t.data + "\"")
      case Primitive => t.data
      case Object => "{" + (PrintMembers(t.r, Sub(y)) + (Close(y) + "}"))
      case Array => "[" + (PrintItems(t.r, Sub(y)) + (Close(y) + "]"))
  }

  function PrintMembers(n: Tree, y: Layout): string
    decreases n, 1
  {
    if n == Nil then ""
    else
      Pre(y) + (Print(n, y) + (Colon(y) + (":" + (Value(y) + (Print(n.r, Sub(y)) +
      (Tail(n.l, y) + PrintMembers(n.l, Next(y))))))))
  }

  function PrintItems(n: Tree, y: Layout): string
    decreases n, 1
  {
    if n == Nil then ""
    else Pre(y) + (Print(n, y) + (Tail(n.l, y) + PrintItems(n.l, Next(y))))
  }

  // ---------------------------------------------------------------- rebuilding

  function Cut(js: string, a: int, b: int): string {
    if 0 <= a <= b <= |js| then js[a..b] else ""
  }

  /** The node at token `k` and the number of tokens it takes. */
  function Build(js: string, toks: seq<Token>, k: nat): (r: (Tree, nat))
    decreases |toks| - k, 0
  {
    if k >= |toks| then (Nil, 0)
    else
      var t := toks[k];
      match t.kind
      case Object => var (m, n) := BuildMembers(js, toks, k + 1, t.size); (Node(Object, "", Nil, m), n + 1)
      case Array => var (m, n) := BuildItems(js, toks, k + 1, t.size); (Node(Array, "", Nil, m), n + 1)
      case _ => (Node(t.kind, Cut(js, t.start, t.end), Nil, Nil), 1)
  }

  function BuildMembers(js: string, toks: seq<Token>, k: nat, n: nat): (r: (Tree, nat))
    decreases |toks| - k, n + 1
  {
    if n == 0 || k >= |toks| then (Nil, 0)
    else
      var (key, a) := Build(js, toks, k);
      var (value, b) := Build(js, toks, k + a);
      var (rest, c) := BuildMembers(js, toks, k + a + b, n - 1);
      (Node(key.kind, key.data, rest, value), a + b + c)
  }

  function BuildItems(js: string, toks: seq<Token>, k: nat, n: nat): (r: (Tree, nat))
    decreases |toks| - k, n + 1
  {
    if n == 0 || k >= |toks| then (Nil, 0)
    else
      var (item, a) := Build(js, toks, k);
      var (rest, b) := BuildItems(js, toks, k + a, n - 1);
      (Node(item.kind, item.data, rest, item.r), a + b)
  }

  // ---------------------------------------------------------------- the tokens of a text

  function Count(n: Tree): nat {
    if n == Nil then 0 else 1 + Count(n.l)
  }

  function LeafToken(t: Tree, p: nat, size: nat): Token
    requires t.Node?
  {
    if t.kind == Str then Token(Str, p + 1, p + 1 + |t.data|, size)
    else Token(t.kind, p, p + |t.data|, size)
  }

  /** Where the parts of a member printed at `p` begin: key, colon, value, what follows, next member. */
  function KeyAt(p: nat, y: Layout): nat {
    p + |Pre(y)|
  }

  function ColonAt(n: Tree, p: nat, y: Layout): nat {
    KeyAt(p, y) + |Print(n, y)| + |Colon(y)|
  }

  function ValueAt(n: Tree, p: nat, y: Layout): nat {
    ColonAt(n, p, y) + 1 + |Value(y)|
  }

  function MemberEnd(n: Tree, p: nat, y: Layout): nat
    requires n != Nil
  {
    ValueAt(n, p, y) + |Print(n.r, Sub(y))|
  }

  function MemberNext(n: Tree, p: nat, y: Layout): nat
    requires n != Nil
  {
    MemberEnd(n, p, y) + |Tail(n.l, y)|
  }

  function ItemEnd(n: Tree, p: nat, y: Layout): nat {
    KeyAt(p, y) + |Print(n, y)|
  }

  function ItemNext(n: Tree, p: nat, y: Layout): nat
    requires n != Nil
  {
    ItemEnd(n, p, y) + |Tail(n.l, y)|
  }

  /** The tokens of `t` printed at position `p`. */
  function Tokens(t: Tree, p: nat, y: Layout): seq<Token>
    decreases t, 0
  {
    if t == Nil then []
    else
      match t.kind
      case Object => [Token(Object, p, p + |Print(t, y)|, Count(t.r))] + MemberTokens(t.r, p + 1, Sub(y))
      case Array => [Token(Array, p, p + |Print(t, y)|, Count(t.r))] + ItemTokens(t.r, p + 1, Sub(y))
      case _ => [LeafToken(t, p, 0)]
  }

  /** The tokens of one member: its key and its value. */
  function Pair(n: Tree, p: nat, y: Layout): seq<Token>
    requires n != Nil
    decreases n, 1
  {
    [LeafToken(n, KeyAt(p, y), 1)] + Tokens(n.r, ValueAt(n, p, y), Sub(y))
  }

  function MemberTokens(n: Tree, p: nat, y: Layout): seq<Token>
    decreases n, 2
  {
    if n == Nil then [] else Pair(n, p, y) + MemberTokens(n.l, MemberNext(n, p, y), Next(y))
  }

  function ItemTokens(n: Tree, p: nat, y: Layout): seq<Token>
    decreases n, 2
  {
    if n == Nil then [] else Tokens(n, KeyAt(p, y), y) + ItemTokens(n.l, ItemNext(n, p, y), Next(y))
  }

  predicate NoneOpen(toks: seq<Token>) {
    forall i :: 0 <= i < |toks| ==> !IsOpen(toks[i])
  }

  lemma {:induction false} TokensClosed(t: Tree, p: nat, y: Layout)
    ensures NoneOpen(Tokens(t, p, y))
    decreases t, 0
  {
    hide MemberTokens, ItemTokens, Print, Sub;
    if t.Node? && t.kind == Object {
      MemberTokensClosed(t.r, p + 1, Sub(y));
    } else if t.Node? && t.kind == Array {
      ItemTokensClosed(t.r, p + 1, Sub(y));
    }
  }

  lemma {:induction false} PairClosed(n: Tree, p: nat, y: Layout)
    requires n != Nil
    ensures NoneOpen(Pair(n, p, y))
    decreases n, 1
  {
    TokensClosed(n.r, ValueAt(n, p, y), Sub(y));
  }

  lemma {:induction false} MemberTokensClosed(n: Tree, p: nat, y: Layout)
    ensures NoneOpen(MemberTokens(n, p, y))
    decreases n, 2
  {
    hide Pair, MemberNext;
    if n != Nil {
      PairClosed(n, p, y);
      MemberTokensClosed(n.l, MemberNext(n, p, y), Next(y));
    }
  }

  lemma {:induction false} ItemTokensClosed(n: Tree, p: nat, y: Layout)
    ensures NoneOpen(ItemTokens(n, p, y))
    decreases n, 2
  {
    hide Tokens, ItemNext, KeyAt;
    if n != Nil {
      TokensClosed(n, KeyAt(p, y), y);
      ItemTokensClosed(n.l, ItemNext(n, p, y), Next(y));
    }
  }

  // ---------------------------------------------------------------- text inside a text

  /** `js` holds `u` at position `p`. */
  predicate At(js: string, p: nat, u: string) {
    p + |u| <= |js| && js[p..p + |u|] == u
  }

  lemma AtCat(js: string, p: nat, u: string, v: string)
    requires At(js, p, u + v)
    ensures At(js, p, u) && At(js, p + |u|, v)
  {
    var w := js[p..p + |u + v|];
    assert js[p..p + |u|] == w[..|u|];
    assert js[p + |u|..p + |u| + |v|] == w[|u|..];
  }

  lemma AtChar(js: string, p: nat, u: string, i: nat)
    requires At(js, p, u) && i < |u|
    ensures p + |u| <= |js| && js[p + i] == u[i]
  {
    assert js[p..p + |u|][i] == u[i];
  }

  // ---------------------------------------------------------------- runs over printed text

  /** One round of the main loop, as an equation between runs. */
  lemma OneStep(js: string, s: State, next: State, cap: nat)
    requires Sane(s) && Sane(next) && !AtEnd(js, s.pos) && Step(js, s, cap) == Go(next)
    ensures Run(js, s, cap) == Run(js, next, cap)
  {
  }

  lemma {:induction false} SkipBlanks(js: string, s: State, b: string, cap: nat)
    requires Sane(s) && IsBlank(b) && At(js, s.pos, b)
    ensures Run(js, s, cap) == Run(js, s.(pos := s.pos + |b|), cap)
    decreases |b|
  {
    hide Run, Class;
    if b != "" {
      AtChar(js, s.pos, b, 0);
      assert b == [b[0]] + b[1..];
      AtCat(js, s.pos, [b[0]], b[1..]);
      StepBlank(js, s, cap);
      SkipBlanks(js, s.(pos := s.pos + 1), b[1..], cap);
    }
  }

  lemma StepBlank(js: string, s: State, cap: nat)
    requires Sane(s) && s.pos < |js| && White(js[s.pos])
    ensures Run(js, s, cap) == Run(js, s.(pos := s.pos + 1), cap)
  {
    hide Run;
    Classes(js[s.pos]);
    OneStep(js, s, s.(pos := s.pos + 1), cap);
  }

  /** White space, or a character that ends a value, ends a value. */
  lemma BlankEnds(js: string, p: nat, b: string, c: string)
    requires IsBlank(b) && At(js, p, b) && At(js, p + |b|, c) && (c == "" ==> Ends(js, p + |b|))
    requires c != "" ==> EndsValue(c[0])
    ensures Ends(js, p)
  {
    hide At;
    if b != "" {
      AtChar(js, p, b, 0);
    } else if c != "" {
      AtChar(js, p, c, 0);
    }
  }

  /** Bumping a size and appending closed tokens does not change which token is the last open one. */
  lemma LastOpenPast(a: seq<Token>, i: int, n: nat, b: seq<Token>)
    requires -1 <= i < |a| && NoneOpen(b)
    ensures LastOpen(Bump(a, i, n) + b) == LastOpen(a)
  {
    hide LastOpen;
    var y := Bump(a, i, n) + b;
    forall j | 0 <= j < |y|
      ensures IsOpen(y[j]) <==> j < |a| && IsOpen(a[j])
    {
      if j >= |a| {
        assert y[j] == b[j - |a|];
      }
    }
    var last := LastOpen(a);
    assert last >= 0 ==> IsOpen(y[last]);
    assert LastOpen(y) >= 0 ==> IsOpen(a[LastOpen(y)]);
  }

  lemma ReadStr(js: string, s: State, d: string, cap: nat)
    requires Sane(s) && Body(d) && At(js, s.pos, "\"" + (d + "\"")) && |s.toks| < cap
    ensures Run(js, s, cap) ==
            Run(js, Add(s, Token(Str, s.pos + 1, s.pos + 1 + |d|, 0), s.pos + 2 + |d|, s.super), cap)
  {
    hide Run, StrEnd, PrimEnd;
    AtChar(js, s.pos, "\"" + (d + "\""), 0);
    AtCat(js, s.pos, "\"", d + "\"");
    AtCat(js, s.pos + 1, d, "\"");
    AtChar(js, s.pos + 1 + |d|, "\"", 0);
    BodyScanned(js, s.pos + 1, d);
    OneStep(js, s, Add(s, Token(Str, s.pos + 1, s.pos + 1 + |d|, 0), s.pos + 2 + |d|, s.super), cap);
  }

  lemma BareAt(js: string, p: nat, d: string)
    requires At(js, p, d) && forall i :: 0 <= i < |d| ==> Bare(d[i])
    ensures forall i :: p <= i < p + |d| ==> Bare(js[i])
  {
    forall i | p <= i < p + |d|
      ensures Bare(js[i])
    {
      AtChar(js, p, d, i - p);
    }
  }

  lemma ReadPrim(js: string, s: State, d: string, cap: nat)
    requires Sane(s) && PrimText(d) && At(js, s.pos, d) && |s.toks| < cap && Ends(js, s.pos + |d|)
    ensures Run(js, s, cap) == Run(js, Add(s, Token(Primitive, s.pos, s.pos + |d|, 0), s.pos + |d|, s.super), cap)
  {
    hide Run, StrEnd, PrimEnd;
    AtChar(js, s.pos, d, 0);
    assert Bare(d[0]);
    Classes(d[0]);
    BareAt(js, s.pos, d);
    BareScanned(js, s.pos, s.pos + |d|);
    OneStep(js, s, Add(s, Token(Primitive, s.pos, s.pos + |d|, 0), s.pos + |d|, s.super), cap);
  }

  /** Reading a leaf adds its token and leaves the superior token alone. */
  lemma ReadLeaf(js: string, s: State, t: Tree, y: Layout, cap: nat)
    requires Sane(s) && IsLeaf(t) && At(js, s.pos, Print(t, y)) && |s.toks| < cap
    requires Ends(js, s.pos + |Print(t, y)|)
    ensures Run(js, s, cap) == Run(js, Add(s, LeafToken(t, s.pos, 0), s.pos + |Print(t, y)|, s.super), cap)
  {
    hide Run, Body, PrimText;
    if t.kind == Str {
      ReadStr(js, s, t.data, cap);
    } else {
      ReadPrim(js, s, t.data, cap);
    }
  }

  /** The state after a whole value was read. */
  function After(s: State, t: Tree, y: Layout): State
    requires Sane(s) && t.Node?
  {
    State(s.pos + |Print(t, y)|,
          if t.kind == Object || t.kind == Array then LastOpen(s.toks) else s.super,
          Bump(s.toks, s.super, 1) + Tokens(t, s.pos, y))
  }

  function Opened(s: State, kind: Kind): State
    requires Sane(s)
  {
    Add(s, Token(kind, s.pos, -1, 0), s.pos + 1, |s.toks|)
  }

  lemma ReadOpener(js: string, s: State, kind: Kind, cap: nat)
    requires Sane(s) && |s.toks| < cap && (kind == Object || kind == Array)
    requires At(js, s.pos, if kind == Object then "{" else "[")
    ensures Run(js, s, cap) == Run(js, Opened(s, kind), cap)
    ensures var o := Opened(s, kind); o.super == LastOpen(o.toks) == |s.toks| && IsContainer(o.toks[o.super])
  {
    hide At, Run, StrEnd, PrimEnd;
    AtChar(js, s.pos, if kind == Object then "{" else "[", 0);
    OneStep(js, s, Opened(s, kind), cap);
  }

  /** The tokens before and after the closing bracket of a container. */
  lemma ClosedTokens(s: State, kind: Kind, members: seq<Token>, n: nat, end: nat)
    requires Sane(s)
    ensures var i := |s.toks|;
            var toks := Bump(Opened(s, kind).toks, i, n) + members;
            && |toks| == i + 1 + |members| && toks[i] == Token(kind, s.pos, -1, n)
            && toks[..i] == Bump(s.toks, s.super, 1)
            && toks[i := toks[i].(end := end)] == Bump(s.toks, s.super, 1) + ([Token(kind, s.pos, end, n)] + members)
  {
  }

  /** Reading the closing bracket of a container whose members were all read. */
  lemma ReadCloser(js: string, s: State, inner: State, kind: Kind, members: seq<Token>, n: nat, cap: nat)
    requires Sane(s) && Sane(inner) && NoneOpen(members) && (kind == Object || kind == Array)
    requires At(js, inner.pos, if kind == Object then "}" else "]")
    requires inner.toks == Bump(Opened(s, kind).toks, |s.toks|, n) + members
    ensures Run(js, inner, cap) ==
            Run(js, State(inner.pos + 1, LastOpen(s.toks),
                          Bump(s.toks, s.super, 1) + ([Token(kind, s.pos, inner.pos + 1, n)] + members)), cap)
  {
    ClosedTokens(s, kind, members, n, inner.pos + 1);
    CloserFound(s, kind, members, n);
    hide At, Run, StrEnd, PrimEnd, LastOpenContainer, LastOpen, Bump, Opened;
    AtChar(js, inner.pos, if kind == Object then "}" else "]", 0);
    var i := |s.toks|;
    var closed := inner.toks[i := inner.toks[i].(end := inner.pos + 1)];
    OneStep(js, inner, State(inner.pos + 1, LastOpen(s.toks), closed), cap);
  }

  /** The bracket closes the container, and the one around it is open next. */
  lemma CloserFound(s: State, kind: Kind, members: seq<Token>, n: nat)
    requires Sane(s) && NoneOpen(members) && (kind == Object || kind == Array)
    ensures LastOpen(Bump(Opened(s, kind).toks, |s.toks|, n) + members) == |s.toks|
    ensures LastOpen(Bump(s.toks, s.super, 1)) == LastOpen(s.toks)
  {
    var o := Opened(s, kind);
    LastOpenPast(o.toks, |s.toks|, n, members);
    LastOpenPast(s.toks, s.super, 1, []);
    assert Bump(s.toks, s.super, 1) + [] == Bump(s.toks, s.super, 1);
  }

  /** `js` holds a member at `p`, and after it what may follow. */
  predicate MemberAt(js: string, p: nat, n: Tree, y: Layout)
    requires n != Nil
  {
    && At(js, p, Pre(y)) && At(js, KeyAt(p, y), Print(n, y)) && At(js, KeyAt(p, y) + |Print(n, y)|, Colon(y))
    && At(js, ColonAt(n, p, y), ":") && At(js, ColonAt(n, p, y) + 1, Value(y))
    && At(js, ValueAt(n, p, y), Print(n.r, Sub(y))) && At(js, MemberEnd(n, p, y), Tail(n.l, y))
    && Ends(js, KeyAt(p, y) + |Print(n, y)|) && Ends(js, MemberEnd(n, p, y))
  }

  /** Where the parts of a printed member lie. */
  lemma MemberParts(js: string, p: nat, n: Tree, y: Layout)
    requires n != Nil && Blanks(y) && At(js, p, PrintMembers(n, y)) && Ends(js, p + |PrintMembers(n, y)|)
    ensures MemberAt(js, p, n, y)
    ensures At(js, MemberNext(n, p, y), PrintMembers(n.l, Next(y)))
    ensures p + |PrintMembers(n, y)| == MemberNext(n, p, y) + |PrintMembers(n.l, Next(y))|
  {
    hide At, Print, Tail, Ends, Pre, Colon, Value, IsBlank, Blanks, PrintMembers, ValueText, Next, Sub;
    KeyParts(js, p, n, y);
    ValueParts(js, p, n, y);
    BlankParts(y);
    BlankEnds(js, KeyAt(p, y) + |Print(n, y)|, Colon(y), ":");
    if n.l == Nil {
      NoMembersText(Next(y));
    }
    TailEnds(js, MemberEnd(n, p, y), n.l, y);
  }

  /** The text of a member from its value on. */
  function ValueText(n: Tree, y: Layout): string
    requires n != Nil
  {
    Value(y) + (Print(n.r, Sub(y)) + (Tail(n.l, y) + PrintMembers(n.l, Next(y))))
  }

  lemma KeyParts(js: string, p: nat, n: Tree, y: Layout)
    requires n != Nil && At(js, p, PrintMembers(n, y))
    ensures At(js, p, Pre(y)) && At(js, KeyAt(p, y), Print(n, y)) && At(js, KeyAt(p, y) + |Print(n, y)|, Colon(y))
    ensures At(js, ColonAt(n, p, y), ":") && At(js, ColonAt(n, p, y) + 1, ValueText(n, y))
    ensures p + |PrintMembers(n, y)| == ColonAt(n, p, y) + 1 + |ValueText(n, y)|
  {
    hide At, Print, PrintMembers, Tail, Pre, Colon, Value, ValueText, Sub, Next;
    var value := ValueText(n, y);
    MemberText(n, y);
    AtCat(js, p, Pre(y), Print(n, y) + (Colon(y) + (":" + value)));
    AtCat(js, KeyAt(p, y), Print(n, y), Colon(y) + (":" + value));
    AtCat(js, KeyAt(p, y) + |Print(n, y)|, Colon(y), ":" + value);
    AtCat(js, ColonAt(n, p, y), ":", value);
  }

  lemma MemberText(n: Tree, y: Layout)
    requires n != Nil
    ensures PrintMembers(n, y) == Pre(y) + (Print(n, y) + (Colon(y) + (":" + ValueText(n, y))))
  {
    hide Print, Pre, Colon, Value, Tail, Sub, Next;
  }

  lemma ValueParts(js: string, p: nat, n: Tree, y: Layout)
    requires n != Nil && At(js, ColonAt(n, p, y) + 1, ValueText(n, y))
    ensures At(js, ColonAt(n, p, y) + 1, Value(y)) && At(js, ValueAt(n, p, y), Print(n.r, Sub(y)))
    ensures At(js, MemberEnd(n, p, y), Tail(n.l, y)) && At(js, MemberNext(n, p, y), PrintMembers(n.l, Next(y)))
    ensures ColonAt(n, p, y) + 1 + |ValueText(n, y)| == MemberNext(n, p, y) + |PrintMembers(n.l, Next(y))|
  {
    hide At, Print, Tail, Value, PrintMembers, ColonAt, Sub, Next;
    var rest := Tail(n.l, y) + PrintMembers(n.l, Next(y));
    AtCat(js, ColonAt(n, p, y) + 1, Value(y), Print(n.r, Sub(y)) + rest);
    AtCat(js, ValueAt(n, p, y), Print(n.r, Sub(y)), rest);
    AtCat(js, MemberEnd(n, p, y), Tail(n.l, y), PrintMembers(n.l, Next(y)));
  }

  lemma NoMembersText(y: Layout)
    ensures PrintMembers(Nil, y) == ""
  {
  }

  /** What follows a value ends it. */
  lemma TailEnds(js: string, p: nat, next: Tree, y: Layout)
    requires Blanks(y) && At(js, p, Tail(next, y)) && (next == Nil ==> Ends(js, p + |Tail(next, y)|))
    ensures Ends(js, p)
  {
    hide At, Ends, IsBlank;
    var b := if y.Tight? then "" else y.post;
    var c := if next == Nil then "" else ",";
    AtCat(js, p, b, c);
    EmptyIsBlank();
    BlankEnds(js, p, b, c);
  }

  /** `js` holds an item at `p`, and after it what may follow. */
  predicate ItemAt(js: string, p: nat, n: Tree, y: Layout)
    requires n != Nil
  {
    && At(js, p, Pre(y)) && At(js, KeyAt(p, y), Print(n, y)) && At(js, ItemEnd(n, p, y), Tail(n.l, y))
    && Ends(js, ItemEnd(n, p, y))
  }

  lemma ItemParts(js: string, p: nat, n: Tree, y: Layout)
    requires n != Nil && Blanks(y) && At(js, p, PrintItems(n, y)) && Ends(js, p + |PrintItems(n, y)|)
    ensures ItemAt(js, p, n, y) && At(js, ItemNext(n, p, y), PrintItems(n.l, Next(y)))
    ensures p + |PrintItems(n, y)| == ItemNext(n, p, y) + |PrintItems(n.l, Next(y))|
  {
    hide At, Print, Tail, Ends, Pre, IsBlank;
    var rest := Tail(n.l, y) + PrintItems(n.l, Next(y));
    AtCat(js, p, Pre(y), Print(n, y) + rest);
    AtCat(js, KeyAt(p, y), Print(n, y), rest);
    AtCat(js, ItemEnd(n, p, y), Tail(n.l, y), PrintItems(n.l, Next(y)));
    TailEnds(js, ItemEnd(n, p, y), n.l, y);
  }

  /** Where the parts of a printed container lie, whatever its members are. */
  lemma ContainerParts(js: string, p: nat, open: string, body: string, blanks: string, close: string)
    requires At(js, p, open + (body + (blanks + close)))
    ensures At(js, p, open) && At(js, p + |open|, body) && At(js, p + |open| + |body|, blanks)
    ensures At(js, p + |open| + |body| + |blanks|, close)
  {
    hide At;
    AtCat(js, p, open, body + (blanks + close));
    AtCat(js, p + |open|, body, blanks + close);
    AtCat(js, p + |open| + |body|, blanks, close);
  }

  lemma {:induction false} ReadObject(js: string, s: State, t: Tree, y: Layout, cap: nat)
    requires Sane(s) && WellFormed(t) && t.kind == Object && Blanks(y) && At(js, s.pos, Print(t, y))
    requires |s.toks| + |Tokens(t, s.pos, y)| <= cap
    ensures Run(js, s, cap) == Run(js, After(s, t, y), cap)
    decreases t, 0
  {
    hide At, Run, Step, MemberTokens, PrintMembers, LastOpen, Close, Sub, Ends, IsBlank, IsContainer;
    var body := PrintMembers(t.r, Sub(y));
    var members := MemberTokens(t.r, s.pos + 1, Sub(y));
    BlankParts(y);
    ContainerParts(js, s.pos, "{", body, Close(y), "}");
    BlankEnds(js, s.pos + 1 + |body|, Close(y), "}");
    ReadOpener(js, s, Object, cap);
    var s1 := Opened(s, Object);
    var super := ReadMembers(js, s1, t.r, Sub(y), cap);
    var s2 := State(s.pos + 1 + |body|, super, Bump(s1.toks, s1.super, Count(t.r)) + members);
    SkipBlanks(js, s2, Close(y), cap);
    MemberTokensClosed(t.r, s.pos + 1, Sub(y));
    ReadCloser(js, s, s2.(pos := s2.pos + |Close(y)|), Object, members, Count(t.r), cap);
  }

  lemma {:induction false} ReadArray(js: string, s: State, t: Tree, y: Layout, cap: nat)
    requires Sane(s) && WellFormed(t) && t.kind == Array && Blanks(y) && At(js, s.pos, Print(t, y))
    requires |s.toks| + |Tokens(t, s.pos, y)| <= cap
    ensures Run(js, s, cap) == Run(js, After(s, t, y), cap)
    decreases t, 0
  {
    hide At, Run, Step, ItemTokens, PrintItems, LastOpen, Close, Sub, Ends, IsBlank, IsContainer;
    var body := PrintItems(t.r, Sub(y));
    var items := ItemTokens(t.r, s.pos + 1, Sub(y));
    BlankParts(y);
    ContainerParts(js, s.pos, "[", body, Close(y), "]");
    BlankEnds(js, s.pos + 1 + |body|, Close(y), "]");
    ReadOpener(js, s, Array, cap);
    var s1 := Opened(s, Array);
    ReadItems(js, s1, t.r, Sub(y), cap);
    var s2 := State(s.pos + 1 + |body|, s1.super, Bump(s1.toks, s1.super, Count(t.r)) + items);
    SkipBlanks(js, s2, Close(y), cap);
    ItemTokensClosed(t.r, s.pos + 1, Sub(y));
    ReadCloser(js, s, s2.(pos := s2.pos + |Close(y)|), Array, items, Count(t.r), cap);
  }

  lemma {:induction false} ReadValue(js: string, s: State, t: Tree, y: Layout, cap: nat)
    requires Sane(s) && WellFormed(t) && Blanks(y) && At(js, s.pos, Print(t, y))
    requires Ends(js, s.pos + |Print(t, y)|)
    requires |s.toks| + |Tokens(t, s.pos, y)| <= cap
    ensures Run(js, s, cap) == Run(js, After(s, t, y), cap)
    decreases t, 1
  {
    hide At, Run, Step, LastOpen, Body, PrimText, Print, Ends, Blanks;
    match t.kind
    case Object => ReadObject(js, s, t, y, cap);
    case Array => ReadArray(js, s, t, y, cap);
    case _ => ReadLeaf(js, s, t, y, cap);
  }

  /** The separator after a member or item makes the container the superior token again. */
  lemma ReadTail(js: string, s: State, next: Tree, y: Layout, i: nat, cap: nat)
    requires Sane(s) && Blanks(y) && At(js, s.pos, Tail(next, y))
    requires i == LastOpen(s.toks) && i < |s.toks| && IsContainer(s.toks[i])
    requires s.super == i || (0 <= s.super && !IsContainer(s.toks[s.super]))
    ensures Run(js, s, cap) ==
            Run(js, State(s.pos + |Tail(next, y)|, if next == Nil then s.super else i, s.toks), cap)
  {
    hide At, Run, Blanks, IsBlank, LastOpen, IsContainer;
    var b := if y.Tight? then "" else y.post;
    var c := if next == Nil then "" else ",";
    PostIsBlank(y);
    AtCat(js, s.pos, b, c);
    SkipBlanks(js, s, b, cap);
    if next != Nil {
      ReadComma(js, s.(pos := s.pos + |b|), i, cap);
    }
  }

  lemma PostIsBlank(y: Layout)
    requires Blanks(y)
    ensures IsBlank(if y.Tight? then "" else y.post)
  {
  }

  lemma ReadComma(js: string, s: State, i: nat, cap: nat)
    requires Sane(s) && At(js, s.pos, ",") && i == LastOpen(s.toks) && i < |s.toks| && IsContainer(s.toks[i])
    requires s.super == i || (0 <= s.super && !IsContainer(s.toks[s.super]))
    ensures Run(js, s, cap) == Run(js, State(s.pos + 1, i, s.toks), cap)
  {
    hide At, Run;
    AtChar(js, s.pos, ",", 0);
    assert LastOpenContainer(s.toks) == i;
    OneStep(js, s, State(s.pos + 1, i, s.toks), cap);
  }

  /** Reading a key up to the value makes the key the superior token. */
  lemma ReadKey(js: string, s: State, n: Tree, y: Layout, cap: nat)
    requires Sane(s) && IsLeaf(n) && Blanks(y) && |s.toks| < cap && MemberAt(js, s.pos, n, y)
    ensures Run(js, s, cap) ==
            Run(js, Add(s, LeafToken(n, KeyAt(s.pos, y), 0), ValueAt(n, s.pos, y), |s.toks|), cap)
  {
    hide At, Run, Print, Body, PrimText, Pre, Colon, Value, IsBlank, Ends, Blanks, Tail, Step;
    BlankParts(y);
    SkipBlanks(js, s, Pre(y), cap);
    var s1 := s.(pos := KeyAt(s.pos, y));
    ReadLeaf(js, s1, n, y, cap);
    var s2 := Add(s1, LeafToken(n, s1.pos, 0), s1.pos + |Print(n, y)|, s1.super);
    SkipBlanks(js, s2, Colon(y), cap);
    var s3 := s2.(pos := ColonAt(n, s.pos, y));
    ReadColon(js, s3, cap);
    var s4 := s3.(pos := s3.pos + 1, super := |s.toks|);
    SkipBlanks(js, s4, Value(y), cap);
  }

  lemma ReadColon(js: string, s: State, cap: nat)
    requires Sane(s) && At(js, s.pos, ":")
    ensures Run(js, s, cap) == Run(js, s.(pos := s.pos + 1, super := |s.toks| - 1), cap)
  {
    hide At, Run;
    AtChar(js, s.pos, ":", 0);
    OneStep(js, s, s.(pos := s.pos + 1, super := |s.toks| - 1), cap);
  }

  /** The tokens once a key and its value were read. */
  lemma PairTokens(s: State, n: Tree, y: Layout)
    requires Sane(s) && 0 <= s.super == LastOpen(s.toks) && IsContainer(s.toks[s.super])
    requires IsLeaf(n) && WellFormed(n.r)
    ensures var s1 := Add(s, LeafToken(n, KeyAt(s.pos, y), 0), ValueAt(n, s.pos, y), |s.toks|);
            var toks := Bump(s.toks, s.super, 1) + Pair(n, s.pos, y);
            && Bump(s1.toks, s1.super, 1) + Tokens(n.r, ValueAt(n, s.pos, y), Sub(y)) == toks
            && LastOpen(toks) == s.super == LastOpen(s1.toks) && IsContainer(toks[s.super])
            && |toks| > |s.toks| && !IsContainer(toks[|s.toks|])
  {
    hide Tokens, LastOpen, Body, PrimText, KeyAt, ValueAt, Sub;
    PairClosed(n, s.pos, y);
    LastOpenPast(s.toks, s.super, 1, Pair(n, s.pos, y));
    LastOpenPast(s.toks, s.super, 1, [LeafToken(n, KeyAt(s.pos, y), 0)]);
  }

  /** One member: its key, its value and the separator after it. */
  lemma {:induction false} ReadMember(js: string, s: State, n: Tree, y: Layout, cap: nat) returns (super: int)
    requires Sane(s) && 0 <= s.super == LastOpen(s.toks) && IsContainer(s.toks[s.super])
    requires n != Nil && IsLeaf(n) && WellFormed(n.r) && Blanks(y) && MemberAt(js, s.pos, n, y)
    requires |s.toks| + |Pair(n, s.pos, y)| <= cap
    ensures -1 <= super < |s.toks| + |Pair(n, s.pos, y)| && (n.l != Nil ==> super == s.super)
    ensures Run(js, s, cap) ==
            Run(js, State(MemberNext(n, s.pos, y), super, Bump(s.toks, s.super, 1) + Pair(n, s.pos, y)), cap)
    decreases n, 2
  {
    hide At, Run, Step, Print, Tokens, LastOpen, Body, PrimText, Bump, IsContainer, Ends, Blanks, Tail, IsLeaf;
    ReadKey(js, s, n, y, cap);
    PairTokens(s, n, y);
    var s1 := Add(s, LeafToken(n, KeyAt(s.pos, y), 0), ValueAt(n, s.pos, y), |s.toks|);
    BlankParts(y);
    ReadValue(js, s1, n.r, Sub(y), cap);
    var s2 := After(s1, n.r, Sub(y));
    ReadTail(js, s2, n.l, y, s.super, cap);
    super := if n.l == Nil then s2.super else s.super;
  }

  lemma NoMembers(toks: seq<Token>, i: int, p: nat, y: Layout)
    requires -1 <= i < |toks|
    ensures Bump(toks, i, Count(Nil)) + MemberTokens(Nil, p, y) == toks && PrintMembers(Nil, y) == ""
  {
  }

  /** The tokens of one member and of those after it are the tokens of all. */
  lemma JoinMembers(toks: seq<Token>, i: nat, n: Tree, p: nat, y: Layout)
    requires i < |toks| && n != Nil
    ensures var rest := MemberTokens(n.l, MemberNext(n, p, y), Next(y));
            && Bump(toks, i, Count(n)) + MemberTokens(n, p, y) ==
               Bump(Bump(toks, i, 1) + Pair(n, p, y), i, Count(n.l)) + rest
            && |MemberTokens(n, p, y)| == |Pair(n, p, y)| + |rest|
  {
    hide Pair, MemberNext, Next, Bump;
    Regroup(toks, i, Pair(n, p, y), Count(n.l), MemberTokens(n.l, MemberNext(n, p, y), Next(y)));
  }

  lemma {:induction false} ReadMembers(js: string, s: State, n: Tree, y: Layout, cap: nat) returns (super: int)
    requires Sane(s) && 0 <= s.super == LastOpen(s.toks) && IsContainer(s.toks[s.super])
    requires WellFormedMembers(n) && Blanks(y) && At(js, s.pos, PrintMembers(n, y))
    requires Ends(js, s.pos + |PrintMembers(n, y)|)
    requires |s.toks| + |MemberTokens(n, s.pos, y)| <= cap
    ensures var toks := Bump(s.toks, s.super, Count(n)) + MemberTokens(n, s.pos, y);
            && -1 <= super < |toks|
            && Run(js, s, cap) == Run(js, State(s.pos + |PrintMembers(n, y)|, super, toks), cap)
    decreases n, 3
  {
    hide At, Run, Step, Pair, LastOpen, IsContainer, Bump, MemberTokens, Count, PrintMembers, IsLeaf, WellFormed;
    hide MemberAt, MemberNext, Ends, Blanks, Next;
    if n == Nil {
      super := s.super;
      NoMembers(s.toks, s.super, s.pos, y);
    } else {
      MemberParts(js, s.pos, n, y);
      BlankParts(y);
      JoinMembers(s.toks, s.super, n, s.pos, y);
      PairTokens(s, n, y);
      super := ReadMember(js, s, n, y, cap);
      var s1 := State(MemberNext(n, s.pos, y), super, Bump(s.toks, s.super, 1) + Pair(n, s.pos, y));
      if n.l == Nil {
        NoMembers(s1.toks, s.super, s1.pos, Next(y));
      } else {
        super := ReadMembers(js, s1, n.l, Next(y), cap);
      }
    }
  }

  lemma Regroup(toks: seq<Token>, i: nat, more: seq<Token>, n: nat, rest: seq<Token>)
    requires i < |toks|
    ensures Bump(Bump(toks, i, 1) + more, i, n) + rest == Bump(toks, i, 1 + n) + (more + rest)
  {
  }

  /** One item: its value and the separator after it. */
  lemma {:induction false} ReadItem(js: string, s: State, n: Tree, y: Layout, cap: nat)
    requires Sane(s) && 0 <= s.super == LastOpen(s.toks) && IsContainer(s.toks[s.super])
    requires n != Nil && WellFormed(n) && Blanks(y) && ItemAt(js, s.pos, n, y)
    requires |s.toks| + |Tokens(n, KeyAt(s.pos, y), y)| <= cap
    ensures var toks := Bump(s.toks, s.super, 1) + Tokens(n, KeyAt(s.pos, y), y);
            && LastOpen(toks) == s.super && IsContainer(toks[s.super])
            && Run(js, s, cap) == Run(js, State(ItemNext(n, s.pos, y), s.super, toks), cap)
    decreases n, 2
  {
    hide At, Run, Step, Print, Tokens, LastOpen, Ends, Blanks, Pre, Tail;
    var k := KeyAt(s.pos, y);
    BlankParts(y);
    SkipBlanks(js, s, Pre(y), cap);
    ReadValue(js, s.(pos := k), n, y, cap);
    TokensClosed(n, k, y);
    LastOpenPast(s.toks, s.super, 1, Tokens(n, k, y));
    ReadTail(js, After(s.(pos := k), n, y), n.l, y, s.super, cap);
  }

  lemma {:induction false} ReadItems(js: string, s: State, n: Tree, y: Layout, cap: nat)
    requires Sane(s) && 0 <= s.super == LastOpen(s.toks) && IsContainer(s.toks[s.super])
    requires WellFormedItems(n) && Blanks(y) && At(js, s.pos, PrintItems(n, y))
    requires Ends(js, s.pos + |PrintItems(n, y)|)
    requires |s.toks| + |ItemTokens(n, s.pos, y)| <= cap
    ensures var toks := Bump(s.toks, s.super, Count(n)) + ItemTokens(n, s.pos, y);
            Run(js, s, cap) == Run(js, State(s.pos + |PrintItems(n, y)|, s.super, toks), cap)
    decreases n, 3
  {
    hide At, Run, Step, Print, Tokens, LastOpen, IsContainer, Ends, Blanks, ItemAt, ItemNext, KeyAt, Next, WellFormed;
    if n == Nil {
      assert Bump(s.toks, s.super, 0) + [] == s.toks;
    } else {
      ItemParts(js, s.pos, n, y);
      BlankParts(y);
      var more := Tokens(n, KeyAt(s.pos, y), y);
      var next := ItemNext(n, s.pos, y);
      ReadItem(js, s, n, y, cap);
      ReadItems(js, State(next, s.super, Bump(s.toks, s.super, 1) + more), n.l, Next(y), cap);
      Regroup(s.toks, s.super, more, Count(n.l), ItemTokens(n.l, next, Next(y)));
    }
  }

  // ---------------------------------------------------------------- rebuilding from those tokens

  /** `toks` holds `part` from index `k` on. */
  predicate Holds(toks: seq<Token>, k: nat, part: seq<Token>) {
    k + |part| <= |toks| && toks[k..k + |part|] == part
  }

  lemma HoldsCat(toks: seq<Token>, k: nat, a: seq<Token>, b: seq<Token>)
    requires Holds(toks, k, a + b)
    ensures Holds(toks, k, a) && Holds(toks, k + |a|, b)
    ensures |a| > 0 ==> toks[k] == a[0]
  {
    var w := toks[k..k + |a + b|];
    assert toks[k..k + |a|] == w[..|a|];
    assert toks[k + |a|..k + |a| + |b|] == w[|a|..];
    if |a| > 0 {
      assert w[0] == toks[k];
    }
  }

  lemma BuildLeaf(js: string, toks: seq<Token>, k: nat, t: Tree, p: nat, y: Layout, size: nat)
    requires IsLeaf(t) && At(js, p, Print(t, y)) && k < |toks| && toks[k] == LeafToken(t, p, size)
    ensures Build(js, toks, k) == (Node(t.kind, t.data, Nil, Nil), 1)
  {
    hide Body, PrimText;
    if t.kind == Str {
      AtCat(js, p, "\"", t.data + "\"");
      AtCat(js, p + 1, t.data, "\"");
    }
  }

  lemma {:induction false} BuildValue(js: string, toks: seq<Token>, k: nat, t: Tree, p: nat, y: Layout)
    requires WellFormed(t) && Blanks(y) && At(js, p, Print(t, y)) && Holds(toks, k, Tokens(t, p, y))
    requires Ends(js, p + |Print(t, y)|)
    ensures Build(js, toks, k) == (t.(l := Nil), |Tokens(t, p, y)|)
    ensures |Tokens(t, p, y)| > 0
    decreases t, 0
  {
    hide At, BuildMembers, BuildItems, MemberTokens, ItemTokens, PrintMembers, PrintItems, Body, PrimText;
    hide Ends, IsBlank, Close, Sub;
    assert toks[k..k + |Tokens(t, p, y)|][0] == toks[k];
    BlankParts(y);
    if t.kind == Object {
      var body := PrintMembers(t.r, Sub(y));
      ContainerParts(js, p, "{", body, Close(y), "}");
      BlankEnds(js, p + 1 + |body|, Close(y), "}");
      HoldsCat(toks, k, [Tokens(t, p, y)[0]], MemberTokens(t.r, p + 1, Sub(y)));
      BuildMemberList(js, toks, k + 1, t.r, p + 1, Sub(y));
    } else if t.kind == Array {
      var body := PrintItems(t.r, Sub(y));
      ContainerParts(js, p, "[", body, Close(y), "]");
      BlankEnds(js, p + 1 + |body|, Close(y), "]");
      HoldsCat(toks, k, [Tokens(t, p, y)[0]], ItemTokens(t.r, p + 1, Sub(y)));
      BuildItemList(js, toks, k + 1, t.r, p + 1, Sub(y));
    } else {
      BuildLeaf(js, toks, k, t, p, y, 0);
    }
  }

  lemma {:induction false} BuildMemberList(js: string, toks: seq<Token>, k: nat, n: Tree, p: nat, y: Layout)
    requires WellFormedMembers(n) && Blanks(y) && At(js, p, PrintMembers(n, y)) && Ends(js, p + |PrintMembers(n, y)|)
    requires Holds(toks, k, MemberTokens(n, p, y))
    ensures BuildMembers(js, toks, k, Count(n)) == (n, |MemberTokens(n, p, y)|)
    decreases n, 1
  {
    hide At, Build, Print, PrintMembers, Tokens, Body, PrimText, Ends, Blanks, Next, Holds, Tail;
    if n != Nil {
      MemberParts(js, p, n, y);
      BlankParts(y);
      var key, value := KeyAt(p, y), ValueAt(n, p, y);
      var a, b := [LeafToken(n, key, 1)], Tokens(n.r, value, Sub(y));
      HoldsCat(toks, k, Pair(n, p, y), MemberTokens(n.l, MemberNext(n, p, y), Next(y)));
      HoldsCat(toks, k, a, b);
      HoldsOne(toks, k, a[0]);
      BuildLeaf(js, toks, k, n, key, y, 1);
      BuildValue(js, toks, k + 1, n.r, value, Sub(y));
      BuildMemberList(js, toks, k + 1 + |b|, n.l, MemberNext(n, p, y), Next(y));
    }
  }

  lemma HoldsOne(toks: seq<Token>, k: nat, t: Token)
    requires Holds(toks, k, [t])
    ensures k < |toks| && toks[k] == t
  {
    assert toks[k..k + 1][0] == t;
  }

  lemma {:induction false} BuildItemList(js: string, toks: seq<Token>, k: nat, n: Tree, p: nat, y: Layout)
    requires WellFormedItems(n) && Blanks(y) && At(js, p, PrintItems(n, y)) && Ends(js, p + |PrintItems(n, y)|)
    requires Holds(toks, k, ItemTokens(n, p, y))
    ensures BuildItems(js, toks, k, Count(n)) == (n, |ItemTokens(n, p, y)|)
    decreases n, 1
  {
    hide At, Build, Print, PrintItems, Tokens, Body, PrimText, Ends, Blanks, Next, Tail, Pre;
    if n != Nil {
      ItemParts(js, p, n, y);
      BlankParts(y);
      HoldsCat(toks, k, Tokens(n, KeyAt(p, y), y), ItemTokens(n.l, ItemNext(n, p, y), Next(y)));
      BuildValue(js, toks, k, n, KeyAt(p, y), y);
      BuildItemList(js, toks, k + |Tokens(n, KeyAt(p, y), y)|, n.l, ItemNext(n, p, y), Next(y));
    }
  }

  // ---------------------------------------------------------------- reading a text

  /**
   A tree in any layout, with any white space before and after it, tokenized with enough tokens
   and rebuilt, is the tree.
   */
  lemma ReadText(t: Tree, y: Layout, lead: string, trail: string, cap: nat)
    requires WellFormed(t) && t.l == Nil && Blanks(y) && IsBlank(lead) && IsBlank(trail)
    requires |Tokens(t, |lead|, y)| <= cap
    ensures var js := lead + (Print(t, y) + trail);
            var r := Run(js, INIT, cap);
            && r.ret == |r.s.toks| == |Tokens(t, |lead|, y)|
            && r.s.pos == |js|
            && Build(js, r.s.toks, 0) == (t, r.ret)
  {
    hide Print, Build, Tokens, IsBlank, Blanks, Run, At, Ends, WellFormedMembers, WellFormedItems, IsLeaf;
    var js, toks := lead + (Print(t, y) + trail), Tokens(t, |lead|, y);
    TextParts(js, Print(t, y), lead, trail);
    RunText(js, t, y, lead, trail, cap);
    assert toks[0..|toks|] == toks;
    BuildValue(js, toks, 0, t, |lead|, y);
  }

  lemma TextParts(js: string, text: string, lead: string, trail: string)
    requires js == lead + (text + trail) && IsBlank(trail)
    ensures At(js, 0, lead) && At(js, |lead|, text) && At(js, |lead| + |text|, trail) && Ends(js, |lead| + |text|)
  {
    assert At(js, 0, js);
    hide At, IsBlank;
    AtCat(js, 0, lead, text + trail);
    AtCat(js, |lead|, text, trail);
    AtNothing(js);
    BlankEnds(js, |lead| + |text|, trail, "");
  }

  lemma AtNothing(js: string)
    ensures At(js, |js|, "")
  {
  }

  lemma RunText(js: string, t: Tree, y: Layout, lead: string, trail: string, cap: nat)
    requires WellFormed(t) && Blanks(y) && IsBlank(lead) && IsBlank(trail) && |Tokens(t, |lead|, y)| <= cap
    requires |js| == |lead| + |Print(t, y)| + |trail| && Ends(js, |lead| + |Print(t, y)|)
    requires At(js, 0, lead) && At(js, |lead|, Print(t, y)) && At(js, |lead| + |Print(t, y)|, trail)
    ensures var toks := Tokens(t, |lead|, y);
            var r := Run(js, INIT, cap); r.ret == |toks| && r.s.toks == toks && r.s.pos == |js|
  {
    hide Print, Tokens, IsBlank, Blanks, Run, At, Ends;
    SkipBlanks(js, INIT, lead, cap);
    var s := INIT.(pos := |lead|);
    ReadValue(js, s, t, y, cap);
    var s1 := After(s, t, y);
    assert s1.toks == Tokens(t, |lead|, y);
    SkipBlanks(js, s1, trail, cap);
    TokensClosed(t, |lead|, y);
    RunEnds(js, s1.(pos := |js|), cap);
  }

  lemma RunEnds(js: string, s: State, cap: nat)
    requires Sane(s) && s.pos == |js| && NoneOpen(s.toks)
    ensures Run(js, s, cap) == Result(|s.toks|, s)
  {
  }

  // ---------------------------------------------------------------- the layout of tree2js

  function Tabs(n: int): (s: string)
    ensures |s| == if n > 0 then n else 0
  {
    if n <= 0 then "" else "\t" + Tabs(n - 1)
  }

  function Break(next: Tree): string {
    if next == Nil then "\n" else ",\n"
  }

  /** The text of tree2js, line by line. */
  function Pretty(t: Tree, indent: int): string
    decreases t, 0
  {
    if t == Nil then ""
    else
      match t.kind
      case Str => "\"" + (t.data + "\"")
      case Primitive => t.data
      case Object => "{\n" + (PrettyMembers(t.r, indent + 1) + (Tabs(indent) + "}"))
      case Array => "[\n" + (PrettyItems(t.r, indent + 1) + (Tabs(indent) + "]"))
  }

  function PrettyMembers(n: Tree, indent: int): string
    decreases n, 1
  {
    if n == Nil then ""
    else
      Tabs(indent) + (Pretty(n, indent) + (":" + (Pretty(n.r, indent) + (Break(n.l) + PrettyMembers(n.l, indent)))))
  }

  function PrettyItems(n: Tree, indent: int): string
    decreases n, 1
  {
    if n == Nil then ""
    else Tabs(indent) + (Pretty(n, indent) + (Break(n.l) + PrettyItems(n.l, indent)))
  }

  /** The same as a layout: `t` stands in a container indented by `indent`. */
  function Indented(t: Tree, indent: int): Layout {
    if t == Nil then Tight
    else
      Layout("\n" + Tabs(indent), "", "", "", "\n" + Tabs(indent), Indented(t.l, indent),
             Indented(t.r, if IsLeafKind(t.kind) then indent else indent + 1))
  }

  predicate IsLeafKind(k: Kind) {
    k == Str || k == Primitive
  }

  lemma {:induction false} TabsBlank(n: int)
    ensures IsBlank(Tabs(n)) && IsBlank("\n" + Tabs(n))
    decreases n
  {
    if n > 0 {
      TabsBlank(n - 1);
    }
  }

  lemma {:induction false} IndentedBlank(t: Tree, indent: int)
    ensures Blanks(Indented(t, indent))
  {
    hide IsBlank;
    if t != Nil {
      TabsBlank(indent);
      EmptyIsBlank();
      IndentedBlank(t.l, indent);
      IndentedBlank(t.r, if IsLeafKind(t.kind) then indent else indent + 1);
    }
  }

  lemma {:induction false} PrettyIsPrint(t: Tree, indent: int)
    requires WellFormed(t)
    ensures Pretty(t, indent) == Print(t, Indented(t, indent))
    decreases t, 0
  {
    hide Tabs, PrettyMembers, PrettyItems, PrintMembers, PrintItems, Indented, IsLeaf;
    if t.kind == Object {
      PrettyMembersArePrint(t.r, indent + 1);
      IndentedParts(t, indent);
      var body := PrintMembers(t.r, Indented(t.r, indent + 1));
      NewlineFirst("{", body, PrettyMembers(t.r, indent + 1), Tabs(indent) + "}");
      assert ("\n" + Tabs(indent)) + "}" == "\n" + (Tabs(indent) + "}");
    } else if t.kind == Array {
      PrettyItemsArePrint(t.r, indent + 1);
      IndentedParts(t, indent);
      NewlineFirst("[", PrintItems(t.r, Indented(t.r, indent + 1)), PrettyItems(t.r, indent + 1), Tabs(indent) + "]");
      assert ("\n" + Tabs(indent)) + "]" == "\n" + (Tabs(indent) + "]");
    }
  }

  lemma NewlineFirst(open: string, a: string, b: string, c: string)
    requires a + "\n" == "\n" + b
    ensures open + (a + ("\n" + c)) == (open + "\n") + (b + c)
  {
    assert open + (a + ("\n" + c)) == open + ((a + "\n") + c);
  }

  lemma IndentedParts(t: Tree, indent: int)
    requires t != Nil
    ensures var y := Indented(t, indent);
            && Pre(y) == Close(y) == "\n" + Tabs(indent) && Colon(y) == Value(y) == "" && y.Layout? && y.post == ""
            && Next(y) == Indented(t.l, indent)
            && Sub(y) == Indented(t.r, if IsLeafKind(t.kind) then indent else indent + 1)
  {
    hide Tabs;
  }

  lemma {:induction false} PrettyMembersArePrint(n: Tree, indent: int)
    requires WellFormedMembers(n)
    ensures PrintMembers(n, Indented(n, indent)) + "\n" == "\n" + PrettyMembers(n, indent)
    decreases n, 1
  {
    hide Tabs, Pretty, Print, Indented, WellFormed, IsLeaf;
    if n != Nil {
      var y := Indented(n, indent);
      IndentedParts(n, indent);
      PrettyIsPrint(n.r, indent);
      LeafPretty(n, y, indent);
      PrettyMembersArePrint(n.l, indent);
      var more, line := PrintMembers(n.l, Next(y)), PrettyMembers(n.l, indent);
      MemberLine(Tabs(indent), Pretty(n, indent), Pretty(n.r, indent), Tail(n.l, y), more, Break(n.l), line);
      ShiftLine(Tabs(indent) + (Pretty(n, indent) + (":" + Pretty(n.r, indent))), more, line, n.l, y);
    }
  }

  lemma MemberLine(tabs: string, key: string, value: string, tail: string, more: string, brk: string, line: string)
    ensures var head := tabs + (key + (":" + value));
            && ("\n" + tabs) + (key + ("" + (":" + ("" + (value + (tail + more)))))) == ("\n" + head) + (tail + more)
            && tabs + (key + (":" + (value + (brk + line)))) == head + (brk + line)
  {
    var rest := tail + more;
    assert "" + (value + rest) == value + rest;
    assert "" + (":" + (value + rest)) == ":" + (value + rest);
  }

  /** The newline that ends a line belongs to the next one. */
  lemma ShiftLine(head: string, more: string, line: string, next: Tree, y: Layout)
    requires y.Layout? && y.post == "" && more + "\n" == "\n" + line && (next == Nil ==> more == "" && line == "")
    ensures (("\n" + head) + (Tail(next, y) + more)) + "\n" == "\n" + (head + (Break(next) + line))
  {
    if next != Nil {
      assert (Tail(next, y) + more) + "\n" == "," + (more + "\n") == Break(next) + line;
    }
  }

  lemma LeafPretty(n: Tree, y: Layout, indent: int)
    requires IsLeaf(n)
    ensures Pretty(n, indent) == Print(n, y) && IsLeafKind(n.kind)
  {
  }

  lemma {:induction false} PrettyItemsArePrint(n: Tree, indent: int)
    requires WellFormedItems(n)
    ensures PrintItems(n, Indented(n, indent)) + "\n" == "\n" + PrettyItems(n, indent)
    decreases n, 1
  {
    hide Tabs, Pretty, Print, Indented, WellFormed;
    if n != Nil {
      var y := Indented(n, indent);
      IndentedParts(n, indent);
      PrettyIsPrint(n, indent);
      PrettyItemsArePrint(n.l, indent);
      var more, line := PrintItems(n.l, Next(y)), PrettyItems(n.l, indent);
      ItemLine(Tabs(indent), Pretty(n, indent), Tail(n.l, y), more, Break(n.l), line);
      ShiftLine(Tabs(indent) + Pretty(n, indent), more, line, n.l, y);
    }
  }

  lemma ItemLine(tabs: string, value: string, tail: string, more: string, brk: string, line: string)
    ensures ("\n" + tabs) + (value + (tail + more)) == ("\n" + (tabs + value)) + (tail + more)
    ensures tabs + (value + (brk + line)) == (tabs + value) + (brk + line)
  {
  }

  /** Printed by tree2js at any indentation, tokenized with enough tokens and rebuilt, a tree is itself again. */
  lemma RoundTrip(t: Tree, indent: int, cap: nat)
    requires WellFormed(t) && t.l == Nil && |Pretty(t, indent)| <= cap
    ensures var js := Pretty(t, indent);
            var r := Run(js, INIT, cap);
            && 0 < r.ret == |r.s.toks| <= cap
            && r.s.pos == |js|
            && Build(js, r.s.toks, 0) == (t, r.ret)
  {
    hide Pretty, Print, Build, Tokens, Run, WellFormed;
    var y := Indented(t, indent);
    IndentedBlank(t, indent);
    PrettyIsPrint(t, indent);
    TokensFit(t, 0, y);
    assert "" + (Print(t, y) + "") == Print(t, y);
    ReadText(t, y, "", "", cap);
  }

  lemma {:induction false} TokensFit(t: Tree, p: nat, y: Layout)
    requires WellFormed(t)
    ensures 0 < |Tokens(t, p, y)| <= |Print(t, y)|
    decreases t, 0
  {
    hide MemberTokens, ItemTokens, PrintMembers, PrintItems, Sub, Close, Body;
    if t.kind == Object {
      MembersFit(t.r, p + 1, Sub(y));
    } else if t.kind == Array {
      ItemsFit(t.r, p + 1, Sub(y));
    }
  }

  lemma {:induction false} MembersFit(n: Tree, p: nat, y: Layout)
    requires WellFormedMembers(n)
    ensures |MemberTokens(n, p, y)| <= |PrintMembers(n, y)|
    decreases n, 1
  {
    hide Print, Tokens, IsLeaf, WellFormed, ValueAt, MemberNext;
    if n != Nil {
      TokensFit(n.r, ValueAt(n, p, y), Sub(y));
      MembersFit(n.l, MemberNext(n, p, y), Next(y));
    }
  }

  lemma {:induction false} ItemsFit(n: Tree, p: nat, y: Layout)
    requires WellFormedItems(n)
    ensures |ItemTokens(n, p, y)| <= |PrintItems(n, y)|
    decreases n, 1
  {
    hide Print, Tokens, WellFormed, KeyAt, ItemNext;
    if n != Nil {
      TokensFit(n, KeyAt(p, y), y);
      ItemsFit(n.l, ItemNext(n, p, y), Next(y));
    }
  }
}
