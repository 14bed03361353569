/**
 The loops of shared/json/jstree.c that print a tree into a buffer and rebuild one from tokens,
 proved against the functions of `JsTree`, and the whole way from a tree to its text and back.

 A buffer is the memory from a pointer on, which may go on behind the length that is passed
 along with it. A length that has become negative reaches snprintf as a size no text exceeds.
 */
module JsTreeOps {
  import opened Jsmn
  import opened JsmnRuns
  import opened JsText
  import opened JsTree
  import JsString

  function Size(t: Tree): nat {
    if t == Nil then 0 else 1 + Size(t.l) + Size(t.r)
  }

  // ---------------------------------------------------------------- pieces

  function Flat(ps: seq<string>): string {
    if ps == [] then "" else ps[0] + Flat(ps[1..])
  }

  lemma {:induction false} FlatCat(ps: seq<string>, qs: seq<string>)
    ensures Flat(ps + qs) == Flat(ps) + Flat(qs)
  {
    if ps == [] {
      assert ps + qs == qs;
    } else {
      FlatCat(ps[1..], qs);
      assert (ps + qs)[0] == ps[0] && (ps + qs)[1..] == ps[1..] + qs;
      assert ps[0] + (Flat(ps[1..]) + Flat(qs)) == (ps[0] + Flat(ps[1..])) + Flat(qs);
    }
  }

  lemma FlatOne(p: string)
    ensures Flat([p]) == p
  {
    assert Flat([p]) == p + Flat([]);
  }

  function TabPieces(n: int): (ps: seq<string>) {
    if n <= 0 then [] else ["\t"] + TabPieces(n - 1)
  }

  /** The strings tree2js hands to snprintf, in order. */
  function Pieces(t: Tree, indent: int): seq<string>
    decreases t, 0
  {
    if t == Nil then []
    else
      match t.kind
      case Str => ["\"" + (t.data + "\"")]
      case Primitive => [t.data]
      case Object => ["{\n"] + (MemberPieces(t.r, indent + 1) + (TabPieces(indent) + ["}"]))
      case Array => ["[\n"] + (ItemPieces(t.r, indent + 1) + (TabPieces(indent) + ["]"]))
  }

  function BreakPieces(next: Tree): seq<string> {
    (if next == Nil then [] else [","]) + ["\n"]
  }

  function MemberPieces(n: Tree, indent: int): seq<string>
    decreases n, 1
  {
    if n == Nil then []
    else
      TabPieces(indent) + (Pieces(n, indent) + ([":"] + (Pieces(n.r, indent) +
      (BreakPieces(n.l) + MemberPieces(n.l, indent)))))
  }

  function ItemPieces(n: Tree, indent: int): seq<string>
    decreases n, 1
  {
    if n == Nil then []
    else TabPieces(indent) + (Pieces(n, indent) + (BreakPieces(n.l) + ItemPieces(n.l, indent)))
  }

  lemma {:induction false} TabsFlat(n: int)
    ensures Flat(TabPieces(n)) == Tabs(n)
    decreases n
  {
    if n > 0 {
      TabsFlat(n - 1);
      assert TabPieces(n)[1..] == TabPieces(n - 1);
    }
  }

  lemma BreakFlat(next: Tree)
    ensures Flat(BreakPieces(next)) == Break(next)
  {
    FlatOne("\n");
    if next != Nil {
      assert BreakPieces(next)[1..] == ["\n"];
    } else {
      assert BreakPieces(next) == ["\n"];
    }
  }

  /** The pieces make up the text. */
  lemma {:induction false} PiecesFlat(t: Tree, indent: int)
    ensures Flat(Pieces(t, indent)) == Pretty(t, indent)
    decreases t, 0
  {
    hide Flat, MemberPieces, ItemPieces, PrettyMembers, PrettyItems, TabPieces, Tabs;
    if t == Nil {
      FlatNone();
    } else {
      match t.kind
      case Str => FlatOne("\"" + (t.data + "\""));
      case Primitive => FlatOne(t.data);
      case Object =>
        MembersFlat(t.r, indent + 1);
        ContainerFlat("{\n", MemberPieces(t.r, indent + 1), indent, "}");
      case Array =>
        ItemsFlat(t.r, indent + 1);
        ContainerFlat("[\n", ItemPieces(t.r, indent + 1), indent, "]");
    }
  }

  lemma FlatNone()
    ensures Flat([]) == ""
  {
  }

  lemma ContainerFlat(open: string, body: seq<string>, indent: int, close: string)
    ensures Flat([open] + (body + (TabPieces(indent) + [close]))) == open + (Flat(body) + (Tabs(indent) + close))
  {
    hide Flat, TabPieces, Tabs;
    FlatOne(open);
    FlatOne(close);
    TabsFlat(indent);
    FlatCat(TabPieces(indent), [close]);
    FlatCat(body, TabPieces(indent) + [close]);
    FlatCat([open], body + (TabPieces(indent) + [close]));
  }

  lemma {:induction false} MembersFlat(n: Tree, indent: int)
    ensures Flat(MemberPieces(n, indent)) == PrettyMembers(n, indent)
    decreases n, 1
  {
    hide Flat, Pieces, Pretty, TabPieces, Tabs, BreakPieces, Break;
    FlatNone();
    if n != Nil {
      TabsFlat(indent);
      PiecesFlat(n, indent);
      FlatOne(":");
      PiecesFlat(n.r, indent);
      BreakFlat(n.l);
      MembersFlat(n.l, indent);
      var e := BreakPieces(n.l) + MemberPieces(n.l, indent);
      FlatCat(BreakPieces(n.l), MemberPieces(n.l, indent));
      FlatCat(Pieces(n.r, indent), e);
      FlatCat([":"], Pieces(n.r, indent) + e);
      FlatCat(Pieces(n, indent), [":"] + (Pieces(n.r, indent) + e));
      FlatCat(TabPieces(indent), Pieces(n, indent) + ([":"] + (Pieces(n.r, indent) + e)));
    }
  }

  lemma {:induction false} ItemsFlat(n: Tree, indent: int)
    ensures Flat(ItemPieces(n, indent)) == PrettyItems(n, indent)
    decreases n, 1
  {
    hide Flat, Pieces, Pretty, TabPieces, Tabs, BreakPieces, Break;
    FlatNone();
    if n != Nil {
      TabsFlat(indent);
      PiecesFlat(n, indent);
      BreakFlat(n.l);
      ItemsFlat(n.l, indent);
      var e := BreakPieces(n.l) + ItemPieces(n.l, indent);
      FlatCat(BreakPieces(n.l), ItemPieces(n.l, indent));
      FlatCat(Pieces(n, indent), e);
      FlatCat(TabPieces(indent), Pieces(n, indent) + e);
    }
  }

  // ---------------------------------------------------------------- snprintf

  /** snprintf of `p` at `at` with `room` for text and terminator. */
  function Emit(mem: string, at: nat, room: int, p: string): (r: string)
    requires at + |p| < |mem|
    ensures |r| == |mem|
  {
    if room == 0 then mem
    else if 0 < room <= |p| then JsString.Overlay(mem, at, p[..room - 1] + [NUL])
    else JsString.Overlay(mem, at, p + [NUL])
  }

  /** One after the other, each with what the ones before it left. */
  function EmitAll(mem: string, at: nat, room: int, ps: seq<string>): (r: string)
    requires at + |Flat(ps)| < |mem|
    ensures |r| == |mem|
    decreases |ps|
  {
    if ps == [] then mem
    else EmitAll(Emit(mem, at, room, ps[0]), at + |ps[0]|, room - |ps[0]|, ps[1..])
  }

  lemma {:induction false} EmitCat(mem: string, at: nat, room: int, ps: seq<string>, qs: seq<string>)
    requires at + |Flat(ps + qs)| < |mem|
    ensures |Flat(ps + qs)| == |Flat(ps)| + |Flat(qs)|
    ensures EmitAll(mem, at, room, ps + qs) ==
            EmitAll(EmitAll(mem, at, room, ps), at + |Flat(ps)|, room - |Flat(ps)|, qs)
    decreases |ps|
  {
    hide Emit;
    FlatCat(ps, qs);
    if ps == [] {
      assert ps + qs == qs;
    } else {
      assert (ps + qs)[1..] == ps[1..] + qs;
      EmitCat(Emit(mem, at, room, ps[0]), at + |ps[0]|, room - |ps[0]|, ps[1..], qs);
    }
  }

  lemma EmitOne(mem: string, at: nat, room: int, p: string)
    requires at + |p| < |mem|
    ensures Flat([p]) == p && EmitAll(mem, at, room, [p]) == Emit(mem, at, room, p)
  {
    FlatOne(p);
    assert EmitAll(Emit(mem, at, room, p), at + |p|, room - |p|, []) == Emit(mem, at, room, p);
  }

  // ---------------------------------------------------------------- printing

  ghost function Memory(out: array?<char>): string
    reads out
  {
    if out == null then "" else out[..]
  }

  /** What printing `ps` makes of the memory, and the length it returns; without a buffer only the length. */
  ghost predicate Printed(buffer: bool, before: string, after: string, at: nat, room: int, ps: seq<string>, ret: nat) {
    && ret == |Flat(ps)|
    && (buffer ==> at + |Flat(ps)| < |before| && after == EmitAll(before, at, room, ps))
  }

  lemma PrintedNone(buffer: bool, mem: string, at: nat, room: int)
    requires buffer ==> at < |mem|
    ensures Printed(buffer, mem, mem, at, room, [], 0)
  {
    FlatNone();
  }

  lemma PrintedOn(buffer: bool, before: string, mid: string, after: string, at: nat, room: int, ps: seq<string>,
                  qs: seq<string>, ret: nat, k: nat)
    requires Printed(buffer, before, mid, at, room, ps, ret)
    requires Printed(buffer, mid, after, at + ret, room - ret, qs, k)
    ensures Printed(buffer, before, after, at, room, ps + qs, ret + k)
  {
    hide Flat, EmitAll;
    FlatCat(ps, qs);
    if buffer {
      EmitCat(before, at, room, ps, qs);
    }
  }

  lemma PrintedLength(buffer: bool, before: string, after: string, at: nat, room: int, ps: seq<string>, ret: nat)
    requires Printed(buffer, before, after, at, room, ps, ret)
    ensures ret == |Flat(ps)|
  {
  }

  /** _tree2js_insert_string. */
  method InsertString(out: array?<char>, at: nat, room: int, p: string) returns (slen: nat)
    requires out != null ==> at + |p| < out.Length
    modifies out
    ensures Printed(out != null, old(Memory(out)), Memory(out), at, room, [p], slen)
  {
    if out != null {
      EmitOne(out[..], at, room, p);
      if room != 0 {
        var text := if 0 < room <= |p| then p[..room - 1] else p;
        JsString.Write(out, at, text + [NUL]);
      }
    }
    FlatOne(p);
    return |p|;
  }

  method InsertTabs(out: array?<char>, at: nat, room: int, n: int) returns (ret: nat)
    requires out != null ==> at + |Tabs(n)| < out.Length
    modifies out
    ensures Printed(out != null, old(Memory(out)), Memory(out), at, room, TabPieces(n), ret)
  {
    hide Flat, EmitAll;
    ret := 0;
    var i := 0;
    ghost var before, done := Memory(out), [];
    PrintedNone(out != null, before, at, room);
    while i < n
      invariant 0 <= i && (i <= n || i == 0) && ret == i
      invariant done + TabPieces(n - i) == TabPieces(n)
      invariant Printed(out != null, before, Memory(out), at, room, done, ret)
    {
      hide Printed;
      ghost var mid := Memory(out);
      TabsLength(n);
      assert TabPieces(n) == (done + ["\t"]) + TabPieces(n - i - 1);
      var k := InsertString(out, at + ret, room - ret, "\t");
      PrintedLength(out != null, mid, Memory(out), at + ret, room - ret, ["\t"], k);
      FlatOne("\t");
      PrintedOn(out != null, before, mid, Memory(out), at, room, done, ["\t"], ret, k);
      ret, done, i := ret + k, done + ["\t"], i + 1;
    }
    assert done + [] == done;
  }

  lemma TabsLength(n: int)
    ensures |Tabs(n)| == if n <= 0 then 0 else n
    decreases n
  {
  }

  /** tree2js. */
  method Tree2js(tree: Tree, out: array?<char>, at: nat, room: int, indent: int) returns (ret: nat)
    requires tree != Nil && (out != null ==> at + |Pretty(tree, indent)| < out.Length)
    modifies out
    ensures Printed(out != null, old(Memory(out)), Memory(out), at, room, Pieces(tree, indent), ret)
    decreases Size(tree), 0
  {
    hide Printed, Tabs, TabPieces, PrettyMembers, PrettyItems, MemberPieces, ItemPieces;
    match tree.kind
    case Str => ret := InsertString(out, at, room, "\"" + (tree.data + "\""));
    case Primitive => ret := InsertString(out, at, room, tree.data);
    case Object => ret := WalkObject(tree.r, out, at, room, indent + 1);
    case Array => ret := WalkArray(tree.r, out, at, room, indent + 1);
  }

  /** _tree2js_insert_tree. */
  method InsertTree(tree: Tree, out: array?<char>, at: nat, room: int, indent: int) returns (ret: nat)
    requires out != null ==> at + |Pretty(tree, indent)| < out.Length
    modifies out
    ensures Printed(out != null, old(Memory(out)), Memory(out), at, room, Pieces(tree, indent), ret)
    decreases Size(tree), 1
  {
    if tree == Nil {
      PrintedNone(out != null, Memory(out), at, room);
      return 0;
    }
    ret := Tree2js(tree, out, at, room, indent);
  }

  /** The comma, if more follows, and the end of the line. */
  method InsertBreak(next: Tree, out: array?<char>, at: nat, room: int) returns (ret: nat)
    requires out != null ==> at + |Break(next)| < out.Length
    modifies out
    ensures Printed(out != null, old(Memory(out)), Memory(out), at, room, BreakPieces(next), ret)
  {
    hide Flat, EmitAll, Printed;
    if next == Nil {
      ret := InsertString(out, at, room, "\n");
      assert BreakPieces(next) == ["\n"];
    } else {
      ghost var before := Memory(out);
      ret := InsertString(out, at, room, ",");
      PrintedLength(out != null, before, Memory(out), at, room, [","], ret);
      FlatOne(",");
      ghost var mid := Memory(out);
      var k := InsertString(out, at + ret, room - ret, "\n");
      PrintedOn(out != null, before, mid, Memory(out), at, room, [","], ["\n"], ret, k);
      ret := ret + k;
    }
  }

  /** The pieces of one line. */
  function MemberLine(n: Tree, indent: int): seq<string>
    requires n != Nil
  {
    TabPieces(indent) + (Pieces(n, indent) + ([":"] + (Pieces(n.r, indent) + BreakPieces(n.l))))
  }

  function ItemLine(n: Tree, indent: int): seq<string>
    requires n != Nil
  {
    TabPieces(indent) + (Pieces(n, indent) + BreakPieces(n.l))
  }

  lemma FiveParts(a: seq<string>, b: seq<string>, c: seq<string>, d: seq<string>, e: seq<string>)
    ensures (((a + b) + c) + d) + e == a + (b + (c + (d + e)))
    ensures (a + b) + c == a + (b + c)
  {
    assert ((a + b) + c) + d == a + (b + (c + d));
  }

  lemma SixParts(a: seq<string>, b: seq<string>, c: seq<string>, d: seq<string>, e: seq<string>, f: seq<string>)
    ensures a + (b + (c + (d + (e + f)))) == (a + (b + (c + (d + e)))) + f
    ensures a + (b + (c + d)) == (a + (b + c)) + d
  {
    assert c + (d + (e + f)) == (c + (d + e)) + f;
  }

  lemma LineLengths(n: Tree, indent: int)
    requires n != Nil
    ensures |Flat(TabPieces(indent))| == |Tabs(indent)| && |Flat(Pieces(n, indent))| == |Pretty(n, indent)|
    ensures |Flat([":"])| == 1 && |Flat(Pieces(n.r, indent))| == |Pretty(n.r, indent)|
    ensures |Flat(BreakPieces(n.l))| == |Break(n.l)|
  {
    hide Flat, Tabs, TabPieces, Pieces, Pretty, BreakPieces, Break;
    TabsFlat(indent);
    PiecesFlat(n, indent);
    FlatOne(":");
    PiecesFlat(n.r, indent);
    BreakFlat(n.l);
  }

  lemma MemberApart(n: Tree, indent: int)
    requires n != Nil
    ensures MemberPieces(n, indent) == MemberLine(n, indent) + MemberPieces(n.l, indent)
    ensures |PrettyMembers(n, indent)| == |Tabs(indent)| + |Pretty(n, indent)| + 1 + |Pretty(n.r, indent)| +
                                          |Break(n.l)| + |PrettyMembers(n.l, indent)|
    ensures |Flat(MemberLine(n, indent))| == |PrettyMembers(n, indent)| - |PrettyMembers(n.l, indent)|
  {
    hide Flat, TabPieces, Pieces, BreakPieces, Tabs, Pretty, Break;
    SixParts(TabPieces(indent), Pieces(n, indent), [":"], Pieces(n.r, indent), BreakPieces(n.l),
             MemberPieces(n.l, indent));
    MembersFlat(n, indent);
    MembersFlat(n.l, indent);
    FlatCat(MemberLine(n, indent), MemberPieces(n.l, indent));
  }

  lemma MembersNone(indent: int)
    ensures MemberPieces(Nil, indent) == [] && PrettyMembers(Nil, indent) == ""
  {
  }

  lemma ItemsNone(indent: int)
    ensures ItemPieces(Nil, indent) == [] && PrettyItems(Nil, indent) == ""
  {
  }

  lemma ItemApart(n: Tree, indent: int)
    requires n != Nil
    ensures ItemPieces(n, indent) == ItemLine(n, indent) + ItemPieces(n.l, indent)
    ensures |PrettyItems(n, indent)| ==
            |Tabs(indent)| + |Pretty(n, indent)| + |Break(n.l)| + |PrettyItems(n.l, indent)|
    ensures |Flat(ItemLine(n, indent))| == |PrettyItems(n, indent)| - |PrettyItems(n.l, indent)|
  {
    hide Flat, TabPieces, Pieces, BreakPieces, Tabs, Pretty, Break;
    SixParts(TabPieces(indent), Pieces(n, indent), BreakPieces(n.l), ItemPieces(n.l, indent), [], []);
    ItemsFlat(n, indent);
    ItemsFlat(n.l, indent);
    FlatCat(ItemLine(n, indent), ItemPieces(n.l, indent));
  }

  /** One turn of the loop of _tree2js_walk_object. */
  method InsertMember(n: Tree, out: array?<char>, at: nat, room: int, indent: int) returns (ret: nat)
    requires n != Nil
    requires out != null ==>
               at + |Tabs(indent)| + |Pretty(n, indent)| + 1 + |Pretty(n.r, indent)| + |Break(n.l)| < out.Length
    modifies out
    ensures Printed(out != null, old(Memory(out)), Memory(out), at, room, MemberLine(n, indent), ret)
    decreases Size(n), 2
  {
    hide Flat, EmitAll, Tabs, TabPieces, Pieces, Pretty, BreakPieces, Break, Printed;
    LineLengths(n, indent);
    ghost var buffer, before := out != null, Memory(out);
    ret := InsertTabs(out, at, room, indent);
    ghost var done := TabPieces(indent);
    PrintedLength(buffer, before, Memory(out), at, room, done, ret);
    ghost var mid := Memory(out);
    var k := InsertTree(n, out, at + ret, room - ret, indent);
    PrintedLength(buffer, mid, Memory(out), at + ret, room - ret, Pieces(n, indent), k);
    PrintedOn(buffer, before, mid, Memory(out), at, room, done, Pieces(n, indent), ret, k);
    ret, done, mid := ret + k, done + Pieces(n, indent), Memory(out);
    k := InsertString(out, at + ret, room - ret, ":");
    PrintedLength(buffer, mid, Memory(out), at + ret, room - ret, [":"], k);
    PrintedOn(buffer, before, mid, Memory(out), at, room, done, [":"], ret, k);
    ret, done, mid := ret + k, done + [":"], Memory(out);
    k := InsertTree(n.r, out, at + ret, room - ret, indent);
    PrintedLength(buffer, mid, Memory(out), at + ret, room - ret, Pieces(n.r, indent), k);
    PrintedOn(buffer, before, mid, Memory(out), at, room, done, Pieces(n.r, indent), ret, k);
    ret, done, mid := ret + k, done + Pieces(n.r, indent), Memory(out);
    k := InsertBreak(n.l, out, at + ret, room - ret);
    PrintedOn(buffer, before, mid, Memory(out), at, room, done, BreakPieces(n.l), ret, k);
    ret := ret + k;
    FiveParts(TabPieces(indent), Pieces(n, indent), [":"], Pieces(n.r, indent), BreakPieces(n.l));
  }

  /** One turn of the loop of _tree2js_walk_array. */
  method InsertItem(n: Tree, out: array?<char>, at: nat, room: int, indent: int) returns (ret: nat)
    requires n != Nil
    requires out != null ==> at + |Tabs(indent)| + |Pretty(n, indent)| + |Break(n.l)| < out.Length
    modifies out
    ensures Printed(out != null, old(Memory(out)), Memory(out), at, room, ItemLine(n, indent), ret)
    decreases Size(n), 2
  {
    hide Flat, EmitAll, Tabs, TabPieces, Pieces, Pretty, BreakPieces, Break, Printed;
    LineLengths(n, indent);
    ghost var buffer, before := out != null, Memory(out);
    ret := InsertTabs(out, at, room, indent);
    ghost var done := TabPieces(indent);
    PrintedLength(buffer, before, Memory(out), at, room, done, ret);
    ghost var mid := Memory(out);
    var k := InsertTree(n, out, at + ret, room - ret, indent);
    PrintedLength(buffer, mid, Memory(out), at + ret, room - ret, Pieces(n, indent), k);
    PrintedOn(buffer, before, mid, Memory(out), at, room, done, Pieces(n, indent), ret, k);
    ret, done, mid := ret + k, done + Pieces(n, indent), Memory(out);
    k := InsertBreak(n.l, out, at + ret, room - ret);
    PrintedOn(buffer, before, mid, Memory(out), at, room, done, BreakPieces(n.l), ret, k);
    ret := ret + k;
    FiveParts(TabPieces(indent), Pieces(n, indent), BreakPieces(n.l), [], []);
  }

  /** The indentation and the closing bracket. */
  method InsertCloser(out: array?<char>, at: nat, room: int, n: int, close: string) returns (ret: nat)
    requires out != null ==> at + |Tabs(n)| + |close| < out.Length
    modifies out
    ensures Printed(out != null, old(Memory(out)), Memory(out), at, room, TabPieces(n) + [close], ret)
  {
    hide Flat, EmitAll, Tabs, TabPieces, Printed;
    TabsFlat(n);
    ghost var before := Memory(out);
    ret := InsertTabs(out, at, room, n);
    PrintedLength(out != null, before, Memory(out), at, room, TabPieces(n), ret);
    ghost var mid := Memory(out);
    var k := InsertString(out, at + ret, room - ret, close);
    PrintedOn(out != null, before, mid, Memory(out), at, room, TabPieces(n), [close], ret, k);
    ret := ret + k;
  }

  /** _tree2js_walk_object. */
  method WalkObject(members: Tree, out: array?<char>, at: nat, room: int, indent: int) returns (ret: nat)
    requires out != null ==> at + 2 + |PrettyMembers(members, indent)| + |Tabs(indent - 1)| + 1 < out.Length
    modifies out
    ensures Printed(out != null, old(Memory(out)), Memory(out), at, room,
                    ["{\n"] + (MemberPieces(members, indent) + (TabPieces(indent - 1) + ["}"])), ret)
    decreases Size(members), 3
  {
    hide Flat, EmitAll, Tabs, TabPieces, MemberPieces, PrettyMembers, MemberLine, Printed;
    ghost var buffer, before, done := out != null, Memory(out), ["{\n"];
    ret := InsertString(out, at, room, "{\n");
    PrintedLength(buffer, before, Memory(out), at, room, done, ret);
    FlatOne("{\n");
    var node := members;
    while node != Nil
      invariant Size(node) <= Size(members)
      invariant done + MemberPieces(node, indent) == ["{\n"] + MemberPieces(members, indent)
      invariant Printed(buffer, before, Memory(out), at, room, done, ret)
      invariant out != null ==> at + ret + |PrettyMembers(node, indent)| + |Tabs(indent - 1)| + 1 < out.Length
      decreases node
    {
      ghost var mid, line := Memory(out), MemberLine(node, indent);
      MemberApart(node, indent);
      var k := InsertMember(node, out, at + ret, room - ret, indent);
      PrintedLength(buffer, mid, Memory(out), at + ret, room - ret, line, k);
      PrintedOn(buffer, before, mid, Memory(out), at, room, done, line, ret, k);
      assert (done + line) + MemberPieces(node.l, indent) == done + (line + MemberPieces(node.l, indent));
      ret, done, node := ret + k, done + line, node.l;
    }
    MembersNone(indent);
    assert done + [] == done;
    ghost var mid := Memory(out);
    var k := InsertCloser(out, at + ret, room - ret, indent - 1, "}");
    PrintedOn(buffer, before, mid, Memory(out), at, room, done, TabPieces(indent - 1) + ["}"], ret, k);
    ret := ret + k;
    FiveParts(["{\n"], MemberPieces(members, indent), TabPieces(indent - 1) + ["}"], [], []);
  }

  /** _tree2js_walk_array. */
  method WalkArray(items: Tree, out: array?<char>, at: nat, room: int, indent: int) returns (ret: nat)
    requires out != null ==> at + 2 + |PrettyItems(items, indent)| + |Tabs(indent - 1)| + 1 < out.Length
    modifies out
    ensures Printed(out != null, old(Memory(out)), Memory(out), at, room,
                    ["[\n"] + (ItemPieces(items, indent) + (TabPieces(indent - 1) + ["]"])), ret)
    decreases Size(items), 3
  {
    hide Flat, EmitAll, Tabs, TabPieces, ItemPieces, PrettyItems, ItemLine, Printed;
    ghost var buffer, before, done := out != null, Memory(out), ["[\n"];
    ret := InsertString(out, at, room, "[\n");
    PrintedLength(buffer, before, Memory(out), at, room, done, ret);
    FlatOne("[\n");
    var node := items;
    while node != Nil
      invariant Size(node) <= Size(items)
      invariant done + ItemPieces(node, indent) == ["[\n"] + ItemPieces(items, indent)
      invariant Printed(buffer, before, Memory(out), at, room, done, ret)
      invariant out != null ==> at + ret + |PrettyItems(node, indent)| + |Tabs(indent - 1)| + 1 < out.Length
      decreases node
    {
      ghost var mid, line := Memory(out), ItemLine(node, indent);
      ItemApart(node, indent);
      var k := InsertItem(node, out, at + ret, room - ret, indent);
      PrintedLength(buffer, mid, Memory(out), at + ret, room - ret, line, k);
      PrintedOn(buffer, before, mid, Memory(out), at, room, done, line, ret, k);
      assert (done + line) + ItemPieces(node.l, indent) == done + (line + ItemPieces(node.l, indent));
      ret, done, node := ret + k, done + line, node.l;
    }
    ItemsNone(indent);
    assert done + [] == done;
    ghost var mid := Memory(out);
    var k := InsertCloser(out, at + ret, room - ret, indent - 1, "]");
    PrintedOn(buffer, before, mid, Memory(out), at, room, done, TabPieces(indent - 1) + ["]"], ret, k);
    ret := ret + k;
    FiveParts(["[\n"], ItemPieces(items, indent), TabPieces(indent - 1) + ["]"], [], []);
  }

  // ---------------------------------------------------------------- the buffer

  /** What one snprintf leaves in front of the pointer, at it, and behind. */
  lemma EmitParts(mem: string, at: nat, room: int, p: string)
    requires at + |p| < |mem|
    ensures var r := Emit(mem, at, room, p);
            && r[..at] == mem[..at]
            && r[at + |p| + 1..] == mem[at + |p| + 1..]
            && (0 < room <= |p| ==> r[at..at + room] == p[..room - 1] + [NUL])
            && (|p| < room ==> r[at..at + |p| + 1] == p + [NUL] && r[at..at + |p|] == p)
            && (0 <= room <= |mem| - at ==> r[at + room..] == mem[at + room..])
            && (room < 0 ==> r[at + |p|] == NUL)
  {
  }

  lemma EmitStep(mem: string, at: nat, room: int, ps: seq<string>)
    requires at + |Flat(ps)| < |mem| && ps != []
    ensures Flat(ps) == ps[0] + Flat(ps[1..])
    ensures EmitAll(mem, at, room, ps) ==
            EmitAll(Emit(mem, at, room, ps[0]), at + |ps[0]|, room - |ps[0]|, ps[1..])
    ensures ps[1..] == [] ==> Flat(ps) == ps[0] && EmitAll(mem, at, room, ps) == Emit(mem, at, room, ps[0])
  {
    hide Emit;
    assert ps[0] + "" == ps[0];
  }

  lemma Inside<T>(a: seq<T>, b: seq<T>, i: nat, j: nat, k: nat)
    requires i <= j <= k <= |a| == |b|
    ensures a[..k] == b[..k] ==> a[i..j] == b[i..j] && a[..j] == b[..j]
    ensures a[i..] == b[i..] ==> a[j..k] == b[j..k] && a[k..] == b[k..]
  {
    assert a[i..j] == a[..k][i..j] && b[i..j] == b[..k][i..j];
    assert a[..j] == a[..k][..j] && b[..j] == b[..k][..j];
    assert a[j..k] == a[i..][j - i..k - i] && b[j..k] == b[i..][j - i..k - i];
    assert a[k..] == a[i..][k - i..] && b[k..] == b[i..][k - i..];
  }

  /** Nothing is written in front of the pointer or behind where the terminator of the text goes. */
  lemma {:induction false} EmitAround(mem: string, at: nat, room: int, ps: seq<string>)
    requires at + |Flat(ps)| < |mem|
    ensures EmitAll(mem, at, room, ps)[..at] == mem[..at]
    ensures EmitAll(mem, at, room, ps)[at + |Flat(ps)| + 1..] == mem[at + |Flat(ps)| + 1..]
    decreases |ps|
  {
    hide Emit;
    if ps != [] {
      var p, mid := ps[0], Emit(mem, at, room, ps[0]);
      EmitParts(mem, at, room, p);
      EmitAround(mid, at + |p|, room - |p|, ps[1..]);
      Inside(EmitAll(mem, at, room, ps), mid, at, at, at + |p|);
      Inside(mid, mem, at + |p| + 1, at + |p| + 1, at + |Flat(ps)| + 1);
    }
  }

  function Min(a: int, b: int): int {
    if a < b then a else b
  }

  lemma CutInFirst(mid: string, r: string, at: nat, room: int, p: string, q: string)
    requires 0 < room <= |p| && at + |p| + |q| < |r| == |mid| && r[..at + |p|] == mid[..at + |p|]
    requires mid[at..at + room] == p[..room - 1] + [NUL]
    ensures r[at..at + room] == (p + q)[..room - 1] + [NUL]
  {
    Inside(r, mid, at, at + room, at + |p|);
  }

  lemma Joined(mid: string, r: string, at: nat, p: string, q: string, m: nat)
    requires m <= |q| && at + |p| + |q| < |r| == |mid| && r[..at + |p|] == mid[..at + |p|]
    requires mid[at..at + |p|] == p && r[at + |p|..at + |p| + m + 1] == q[..m] + [NUL]
    ensures r[at..at + |p| + m + 1] == (p + q)[..|p| + m] + [NUL]
  {
    Inside(r, mid, at, at + |p|, at + |p|);
    assert r[at..at + |p| + m + 1] == r[at..at + |p|] + r[at + |p|..at + |p| + m + 1];
  }

  /**
   The pieces together leave what one snprintf of the whole text would leave at the pointer:
   as much of the text as the room allows, and a terminator.
   */
  lemma {:induction false} EmitText(mem: string, at: nat, room: int, ps: seq<string>)
    requires at + |Flat(ps)| < |mem| && 0 < room && ps != []
    ensures var n := Min(room - 1, |Flat(ps)|);
            EmitAll(mem, at, room, ps)[at..at + n + 1] == Flat(ps)[..n] + [NUL]
    decreases |ps|
  {
    hide Flat, Emit, EmitAll;
    EmitStep(mem, at, room, ps);
    var p, mid, rest, r := ps[0], Emit(mem, at, room, ps[0]), ps[1..], EmitAll(mem, at, room, ps);
    EmitParts(mem, at, room, p);
    if rest != [] {
      EmitAround(mid, at + |p|, room - |p|, rest);
      if room <= |p| {
        CutInFirst(mid, r, at, room, p, Flat(rest));
      } else {
        EmitText(mid, at + |p|, room - |p|, rest);
        Joined(mid, r, at, p, Flat(rest), Min(room - |p| - 1, |Flat(rest)|));
      }
    }
  }

  /** The length of all pieces but the last. */
  function LastAt(ps: seq<string>): nat
    requires ps != []
  {
    |Flat(ps[..|ps| - 1])|
  }

  lemma LastAtRest(ps: seq<string>)
    requires |ps| > 1
    ensures LastAt(ps) == |ps[0]| + LastAt(ps[1..])
  {
    assert ps[..|ps| - 1][1..] == ps[1..][..|ps| - 2];
  }

  lemma LastAtOne(ps: seq<string>)
    requires |ps| == 1
    ensures LastAt(ps) == 0
  {
    FlatNone();
  }

  /** The buffer is kept to if the last piece starts no later than its end. */
  lemma {:induction false} EmitWithin(mem: string, at: nat, room: nat, ps: seq<string>)
    requires at + |Flat(ps)| < |mem| && at + room <= |mem| && ps != [] && LastAt(ps) <= room
    ensures EmitAll(mem, at, room, ps)[at + room..] == mem[at + room..]
    decreases |ps|
  {
    hide Flat, Emit, EmitAll, LastAt;
    EmitStep(mem, at, room, ps);
    var p, mid, rest := ps[0], Emit(mem, at, room, ps[0]), ps[1..];
    EmitParts(mem, at, room, p);
    if rest != [] {
      LastAtRest(ps);
      EmitWithin(mid, at + |p|, room - |p|, rest);
    }
  }

  /** Otherwise its terminator is behind the end, as if there were room for everything. */
  lemma {:induction false} EmitBeyond(mem: string, at: nat, room: int, ps: seq<string>)
    requires at + |Flat(ps)| < |mem| && ps != [] && room < LastAt(ps)
    ensures EmitAll(mem, at, room, ps)[at + |Flat(ps)|] == NUL
    decreases |ps|
  {
    hide Flat, Emit, EmitAll, LastAt;
    EmitStep(mem, at, room, ps);
    var p, mid, rest := ps[0], Emit(mem, at, room, ps[0]), ps[1..];
    EmitParts(mem, at, room, p);
    if rest == [] {
      LastAtOne(ps);
    } else {
      LastAtRest(ps);
      EmitBeyond(mid, at + |p|, room - |p|, rest);
    }
  }

  lemma LastPiece(t: Tree, indent: int)
    requires t != Nil
    ensures var ps := Pieces(t, indent);
            && ps != []
            && LastAt(ps) == if IsLeafKind(t.kind) then 0 else |Pretty(t, indent)| - 1
  {
    hide MemberPieces, ItemPieces, TabPieces, Tabs, PrettyMembers, PrettyItems, Flat;
    var ps := Pieces(t, indent);
    PiecesFlat(t, indent);
    FlatNone();
    var init, last := ps[..|ps| - 1], ps[|ps| - 1];
    assert ps == init + [last];
    FlatCat(init, [last]);
    FlatOne(last);
    if IsLeafKind(t.kind) {
      assert init == [];
    }
  }

  /**
   tree2js and its buffer: with at least one byte the memory holds the text, cut to the room, and a
   terminator, and nothing in front of it changes. Behind the length it was given nothing changes
   exactly when the tree is a leaf or the length is at least that of the text less one; the memory
   behind is any whose byte at the end of the text is not already the terminator.
   */
  lemma Buffer(t: Tree, indent: int, mem: string, at: nat, room: nat)
    requires t != Nil && at + |Pretty(t, indent)| < |mem| && at + room <= |mem|
    ensures |Flat(Pieces(t, indent))| == |Pretty(t, indent)|
    ensures var r, n := EmitAll(mem, at, room, Pieces(t, indent)), Min(room - 1, |Pretty(t, indent)|);
            && r[..at] == mem[..at]
            && (room > 0 ==> r[at..at + n + 1] == Pretty(t, indent)[..n] + [NUL])
            && (IsLeafKind(t.kind) || |Pretty(t, indent)| - 1 <= room ==> r[at + room..] == mem[at + room..])
            && (mem[at + |Pretty(t, indent)|] != NUL ==>
                  (r[at + room..] == mem[at + room..] <==> IsLeafKind(t.kind) || |Pretty(t, indent)| - 1 <= room))
  {
    hide Flat, EmitAll, Pieces, Pretty, Emit, LastAt;
    PiecesFlat(t, indent);
    var ps, r := Pieces(t, indent), EmitAll(mem, at, room, Pieces(t, indent));
    LastPiece(t, indent);
    EmitAround(mem, at, room, ps);
    if room > 0 {
      EmitText(mem, at, room, ps);
    }
    if LastAt(ps) <= room {
      EmitWithin(mem, at, room, ps);
    } else {
      EmitBeyond(mem, at, room, ps);
      var e := at + |Pretty(t, indent)|;
      assert r[e] == r[at + room..][e - at - room] && mem[e] == mem[at + room..][e - at - room];
    }
  }

  /** A buffer larger than the text gets exactly the text and its terminator. */
  lemma BufferFits(t: Tree, indent: int, mem: string, at: nat, room: nat)
    requires t != Nil && at + room <= |mem| && |Pretty(t, indent)| < room
    ensures |Flat(Pieces(t, indent))| == |Pretty(t, indent)|
    ensures EmitAll(mem, at, room, Pieces(t, indent)) == JsString.Overlay(mem, at, Pretty(t, indent) + [NUL])
  {
    hide Flat, EmitAll, Pieces, Pretty;
    Buffer(t, indent, mem, at, room);
    var r, text := EmitAll(mem, at, room, Pieces(t, indent)), Pretty(t, indent) + [NUL];
    EmitAround(mem, at, room, Pieces(t, indent));
    assert r == r[..at] + r[at..at + |text|] + r[at + |text|..];
    assert r[at..at + |text|] == text;
  }

  /** A buffer of one byte, given an empty object: two bytes behind it are written. */
  lemma SmallBufferOverrun()
    ensures Pieces(Node(Object, "", Nil, Nil), 0) == ["{\n", "}"] && Flat(["{\n", "}"]) == "{\n}"
    ensures EmitAll("abcd", 0, 1, ["{\n", "}"]) == [NUL, 'b', '}', NUL]
  {
    FlatOne("}");
    assert ["{\n", "}"][1..] == ["}"];
    EmitOne(Emit("abcd", 0, 1, "{\n"), 2, -1, "}");
    assert Emit("abcd", 0, 1, "{\n") == [NUL, 'b', 'c', 'd'];
    assert Emit([NUL, 'b', 'c', 'd'], 2, -1, "}") == [NUL, 'b', '}', NUL];
  }

  /**
   tree2json: without a buffer the size that one needs, with one the length of the text, and
   a buffer of that size gets exactly the text and its terminator.
   */
  method Tree2json(tree: Tree, buf: array?<char>, bufsize: nat) returns (ret: nat)
    requires tree != Nil && (buf != null ==> |Pretty(tree, 0)| < buf.Length && bufsize <= buf.Length)
    modifies buf
    ensures buf == null ==> ret == |Pretty(tree, 0)| + 1
    ensures buf != null ==> ret == |Pretty(tree, 0)|
    ensures buf != null && ret < bufsize ==> buf[..] == JsString.Overlay(old(buf[..]), 0, Pretty(tree, 0) + [NUL])
    ensures buf != null && bufsize > 0 ==> var n := Min(bufsize - 1, ret); buf[..n + 1] == Pretty(tree, 0)[..n] + [NUL]
    ensures buf != null && (IsLeafKind(tree.kind) || ret - 1 <= bufsize) ==> buf[bufsize..] == old(buf[bufsize..])
    ensures buf != null && old(buf[|Pretty(tree, 0)|]) != NUL ==>
              (buf[bufsize..] == old(buf[bufsize..]) <==> IsLeafKind(tree.kind) || ret - 1 <= bufsize)
  {
    hide Flat, EmitAll, Pieces, Pretty;
    ghost var before := Memory(buf);
    ret := Tree2js(tree, buf, 0, bufsize, 0);
    PiecesFlat(tree, 0);
    if buf == null {
      ret := ret + 1;
    } else {
      assert buf[..] == EmitAll(before, 0, bufsize, Pieces(tree, 0));
      Buffer(tree, 0, before, 0, bufsize);
      assert buf[bufsize..] == buf[..][bufsize..] && before[bufsize..] == old(buf[bufsize..]);
      assert bufsize > 0 ==> var n := Min(bufsize - 1, ret); buf[..n + 1] == buf[..][0..0 + n + 1];
      if ret < bufsize {
        BufferFits(tree, 0, before, 0, bufsize);
      }
    }
  }

  // ---------------------------------------------------------------- js2tree

  /** The sibling list of `nodes`, in order, followed by `rest`. */
  function Link(nodes: seq<Tree>, rest: Tree): Tree
    requires forall i :: 0 <= i < |nodes| ==> nodes[i].Node?
  {
    if nodes == [] then rest else nodes[0].(l := Link(nodes[1..], rest))
  }

  lemma {:induction false} LinkLast(nodes: seq<Tree>, n: Tree, rest: Tree)
    requires n.Node? && forall i :: 0 <= i < |nodes| ==> nodes[i].Node?
    ensures Link(nodes + [n], rest) == Link(nodes, n.(l := rest))
  {
    if nodes != [] {
      assert (nodes + [n])[1..] == nodes[1..] + [n];
      LinkLast(nodes[1..], n, rest);
    }
  }

  /** js2tree: the node at token `k` and how many tokens it took. */
  method Js2tree(js: string, toks: seq<Token>, k: nat) returns (node: Tree, ret: nat)
    ensures (node, ret) == Build(js, toks, k)
    ensures k < |toks| ==> node.Node? && ret > 0
    decreases |toks| - k, 0
  {
    if k >= |toks| {
      return Nil, 0;
    }
    var t := toks[k];
    match t.kind
    case Object =>
      var first, j := ReadObject(js, toks, k + 1, t.size);
      return Node(Object, "", Nil, first), j + 1;
    case Array =>
      var first, j := ReadArray(js, toks, k + 1, t.size);
      return Node(Array, "", Nil, first), j + 1;
    case _ =>
      return Node(t.kind, Cut(js, t.start, t.end), Nil, Nil), 1;
  }

  method ReadObject(js: string, toks: seq<Token>, k: nat, size: nat) returns (first: Tree, j: nat)
    ensures (first, j) == BuildMembers(js, toks, k, size)
    decreases |toks| - k, 1
  {
    hide Build;
    var i := 0;
    var nodes: seq<Tree> := [];
    j := 0;
    while i < size && k + j < |toks|
      invariant 0 <= i <= size
      invariant forall x :: 0 <= x < |nodes| ==> nodes[x].Node?
      invariant var m := BuildMembers(js, toks, k + j, size - i);
                BuildMembers(js, toks, k, size) == (Link(nodes, m.0), j + m.1)
      decreases size - i
    {
      var key, a := Js2tree(js, toks, k + j);
      var value, b := Js2tree(js, toks, k + j + a);
      ghost var m := BuildMembers(js, toks, k + j + a + b, size - i - 1);
      LinkLast(nodes, Node(key.kind, key.data, Nil, value), m.0);
      nodes := nodes + [Node(key.kind, key.data, Nil, value)];
      j := j + a + b;
      i := i + 1;
    }
    first := Link(nodes, Nil);
  }

  method ReadArray(js: string, toks: seq<Token>, k: nat, size: nat) returns (first: Tree, j: nat)
    ensures (first, j) == BuildItems(js, toks, k, size)
    decreases |toks| - k, 1
  {
    var i := 0;
    var nodes: seq<Tree> := [];
    j := 0;
    while i < size && k + j < |toks|
      invariant 0 <= i <= size
      invariant forall x :: 0 <= x < |nodes| ==> nodes[x].Node?
      invariant var m := BuildItems(js, toks, k + j, size - i);
                BuildItems(js, toks, k, size) == (Link(nodes, m.0), j + m.1)
      decreases size - i
    {
      var item, a := Js2tree(js, toks, k + j);
      ghost var m := BuildItems(js, toks, k + j + a, size - i - 1);
      LinkLast(nodes, item, m.0);
      nodes := nodes + [item];
      j := j + a;
      i := i + 1;
    }
    first := Link(nodes, Nil);
  }

  // ---------------------------------------------------------------- there and back

  /**
   Ask for the size, print a tree into a buffer of that size, load the text with the doubling
   token array, rebuild: the same tree, from exactly the tokens the tokenizer counted.
   */
  method Reload(tree: Tree) returns (again: Tree, ret: int)
    requires WellFormed(tree) && tree.l == Nil
    ensures again == tree && ret > 0
  {
    hide Pretty, WellFormedMembers, WellFormedItems;
    var size := Tree2json(tree, null, 0);
    var buf := new char[size];
    var len := Tree2json(tree, buf, size);
    var js := buf[..len];
    assert js == Pretty(tree, 0);
    var parser, tokens, count := LoadTokens(js);
    RoundTrip(tree, 0, |js|);
    var node, used := Js2tree(js, tokens[..parser.toknext], 0);
    assert used == count;
    return node, count;
  }

  lemma StringText(data: string, indent: int)
    ensures var t := Node(Str, data, Nil, Nil);
            && "" + (Print(t, Tight) + "") == Pretty(t, indent)
            && |Tokens(t, |""|, Tight)| == 1 && t.l == Nil && Blanks(Tight) && IsBlank("")
  {
  }

  /**
   Any text without a NUL survives as a string value: encoded, stored as a node, printed,
   tokenized, rebuilt and decoded it is the text again.
   */
  lemma TextSurvives(text: string, indent: int, cap: nat)
    requires JsString.NulFree(text) && cap >= 1
    ensures var js := Pretty(Node(Str, JsString.Enc(text), Nil, Nil), indent);
            var toks := Run(js, INIT, cap).s.toks;
            var (node, n) := Build(js, toks, 0);
            n == 1 == |toks| && node.Node? && JsString.Dec(node.data + [NUL]) == JsString.Decoded(text + [NUL], true)
  {
    JsString.EncodedAccepted(text);
    JsString.DecodeInvertsEncode(text);
    var t := Node(Str, JsString.Enc(text), Nil, Nil);
    hide JsString.Enc, JsString.Dec, Run, Build;
    StringText(JsString.Enc(text), indent);
    ReadText(t, Tight, "", "", cap);
  }
}
