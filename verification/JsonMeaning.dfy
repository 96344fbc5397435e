/**
 What json_parse_ex makes of an accepted text is what the text says: value by value the kind, the parent, the bytes of a
 string, the value of an integer or boolean, and the name in an object.
 */
module JsonMeaning {
  import opened Bytes
  import opened Hiding
  import opened JsonText
  import opened JsonPass
  import opened JsonTwoPass
  import L = JsonLex

  // ---------- what the values hold ----------

  /** The k-th name of an object. */
  function NameAt(fl: Fill, k: nat): seq<byte> {
    if k < |fl.names| && fl.names[k].start + fl.names[k].len <= |fl.mem| then
      fl.mem[fl.names[k].start..fl.names[k].start + fl.names[k].len]
    else []
  }

  /** Every name is in the pool, with a NUL after it. */
  predicate NamesOk(fl: Fill) {
    forall k :: 0 <= k < |fl.names| ==>
      fl.names[k].start + fl.names[k].len < |fl.mem| && fl.mem[fl.names[k].start + fl.names[k].len] == 0
  }

  /** A value is as the item says. */
  predicate ItemOk(it: L.Item, nd: Node, fl: Fill) {
    && it.kind == nd.kind && it.parent == nd.parent
    && (nd.kind == Int || nd.kind == Bool ==> it.value == nd.value)
    && (nd.kind == Str ==> fl.mem == it.text + [0])
  }

  /** Value i has the k-th name of its parent: it is in the k-th slot, or will be. */
  predicate NamedBy(key: Option<seq<byte>>, fl: Fill, k: nat, i: nat, under: bool) {
    && k < |fl.names| && key == Some(NameAt(fl, k))
    && if k < |fl.slots| then fl.slots[k] == i else k == |fl.slots| && under
  }

  ghost predicate KeyOk(it: L.Item, nodes: seq<Node>, fills: seq<Fill>, path: seq<nat>, i: nat)
    requires i < |nodes|
  {
    var o := nodes[i].parent;
    if 0 <= o < |fills| && o < |nodes| && nodes[o].kind == Obj then
      exists k :: NamedBy(it.key, fills[o], k, i, i in path)
    else it.key == None
  }

  /** The items tell the values so far. */
  ghost predicate Told(items: seq<L.Item>, nodes: seq<Node>, fills: seq<Fill>, path: seq<nat>) {
    |items| <= |nodes| == |fills| &&
    forall k {:trigger InTold(k)} :: InTold(k) ==>
      && (forall i :: 0 <= i < |items| ==> ItemOk(items[i], nodes[i], fills[i]))
      && (forall i :: 0 <= i < |items| ==> KeyOk(items[i], nodes, fills, path, i))
      && forall i :: 0 <= i < |fills| ==> NamesOk(fills[i])
  }

  // ---------- how the telling goes on ----------

  /** A value that grows keeps its names. */
  predicate Grown(a: Fill, b: Fill) {
    a.slots == b.slots && a.names <= b.names && a.mem <= b.mem
  }

  lemma NameStays(a: Fill, b: Fill, k: nat)
    requires Grown(a, b) && NamesOk(a) && k < |a.names|
    ensures NameAt(b, k) == NameAt(a, k)
  {
    var n := a.names[k];
    assert b.names[k] == n;
    assert b.mem[n.start..n.start + n.len] == a.mem[n.start..n.start + n.len];
  }

  lemma KeyStays(it: L.Item, nodes: seq<Node>, fills: seq<Fill>, path: seq<nat>, i: nat, nodes': seq<Node>,
                 fills': seq<Fill>)
    requires i < |nodes| == |fills| == |nodes'| == |fills'| && KeyOk(it, nodes, fills, path, i)
    requires forall j :: 0 <= j < |nodes| ==> nodes'[j].parent == nodes[j].parent && nodes'[j].kind == nodes[j].kind
    requires forall j :: 0 <= j < |fills| ==> Grown(fills[j], fills'[j]) && NamesOk(fills[j])
    ensures KeyOk(it, nodes', fills', path, i)
  {
    var o := nodes[i].parent;
    if 0 <= o < |fills| && nodes[o].kind == Obj {
      var k :| NamedBy(it.key, fills[o], k, i, i in path);
      assert Grown(fills[o], fills'[o]) && NamesOk(fills[o]);
      NameStays(fills[o], fills'[o], k);
      assert NamedBy(it.key, fills'[o], k, i, i in path);
    }
  }

  /** Writing into the current value, or counting in it, leaves what was told. */
  lemma ToldStays(items: seq<L.Item>, nodes: seq<Node>, fills: seq<Fill>, path: seq<nat>, nodes': seq<Node>,
                  fills': seq<Fill>)
    requires Told(items, nodes, fills, path) && |nodes'| == |nodes| && |fills'| == |fills|
    requires forall j :: 0 <= j < |nodes| ==>
               && nodes'[j].parent == nodes[j].parent && nodes'[j].kind == nodes[j].kind
               && nodes'[j].value == nodes[j].value
    requires forall j :: 0 <= j < |fills| ==> Grown(fills[j], fills'[j]) && NamesOk(fills'[j])
    requires forall i :: 0 <= i < |items| && nodes[i].kind == Str ==> fills'[i].mem == fills[i].mem
    ensures Told(items, nodes', fills', path)
  {
    assert InTold(0);
    forall i | 0 <= i < |items|
      ensures ItemOk(items[i], nodes'[i], fills'[i]) && KeyOk(items[i], nodes', fills', path, i)
    {
      assert ItemOk(items[i], nodes[i], fills[i]);
      KeyStays(items[i], nodes, fills, path, i, nodes', fills');
    }
  }

  /** The name that waits for its value at the current value. */
  function Waiting(nodes: seq<Node>, fills: seq<Fill>, top: int): Option<seq<byte>> {
    if 0 <= top < |nodes| && top < |fills| && nodes[top].kind == Obj then Some(NameAt(fills[top], |fills[top].slots|))
    else None
  }

  /** A new value. */
  lemma NewTold(items: seq<L.Item>, nodes: seq<Node>, fills: seq<Fill>, path: seq<nat>, nd: Node, it: seq<L.Item>)
    requires Told(items, nodes, fills, path) && |it| <= 1 && (|it| == 1 ==> |items| == |nodes|)
    requires forall i :: 0 <= i < |nodes| ==> nodes[i].parent < i
    requires nd.parent == Top(path) < |nodes| && (path == [] || 0 <= Top(path))
    requires |it| == 1 ==> ItemOk(it[0], nd, EMPTY) && it[0].key == Waiting(nodes, fills, Top(path))
    requires path != [] && nodes[Top(path)].kind == Obj ==> |fills[Top(path)].names| == |fills[Top(path)].slots| + 1
    ensures Told(items + it, nodes + [nd], fills + [EMPTY], path + [|nodes|])
  {
    assert InTold(0);
    var nodes', fills', path' := nodes + [nd], fills + [EMPTY], path + [|nodes|];
    forall i | 0 <= i < |items + it|
      ensures ItemOk((items + it)[i], nodes'[i], fills'[i]) && KeyOk((items + it)[i], nodes', fills', path', i)
    {
      if i < |items| {
        assert ItemOk(items[i], nodes[i], fills[i]) && KeyOk(items[i], nodes, fills, path, i);
        KeyUnder(items[i], nodes, fills, path, nd, i);
      } else {
        var o := nd.parent;
        if 0 <= o && nodes[o].kind == Obj {
          assert path'[|path|] == i;
          assert NamedBy(it[0].key, fills'[o], |fills[o].slots|, i, i in path');
        }
      }
    }
  }

  lemma KeyUnder(it: L.Item, nodes: seq<Node>, fills: seq<Fill>, path: seq<nat>, nd: Node, i: nat)
    requires i < |nodes| == |fills| && KeyOk(it, nodes, fills, path, i) && nodes[i].parent < i
    ensures KeyOk(it, nodes + [nd], fills + [EMPTY], path + [|nodes|], i)
  {
    var o := nodes[i].parent;
    if 0 <= o && nodes[o].kind == Obj {
      var k :| NamedBy(it.key, fills[o], k, i, i in path);
      assert NamedBy(it.key, (fills + [EMPTY])[o], k, i, i in path + [|nodes|]);
    }
  }

  /** A complete value moves from the way into a slot of its parent. */
  lemma FinishTold(items: seq<L.Item>, nodes: seq<Node>, fills: seq<Fill>, path: seq<nat>, nodes': seq<Node>)
    requires Told(items, nodes, fills, path) && Chain(path, nodes) && |path| > 1 && |nodes'| == |nodes|
    requires path[|path| - 2] < |fills| && Earlier(fills, path, |path| - 2)
    requires forall j :: 0 <= j < |nodes| ==>
               && nodes'[j].parent == nodes[j].parent && nodes'[j].kind == nodes[j].kind
               && nodes'[j].value == nodes[j].value
    ensures var par := path[|path| - 2];
            Told(items, nodes', fills[par := fills[par].(slots := fills[par].slots + [Top(path)])], path[..|path| - 1])
  {
    assert InTold(0);
    var par, top := path[|path| - 2], path[|path| - 1];
    var fills', path' := fills[par := fills[par].(slots := fills[par].slots + [top])], path[..|path| - 1];
    forall i | 0 <= i < |items|
      ensures ItemOk(items[i], nodes'[i], fills'[i]) && KeyOk(items[i], nodes', fills', path', i)
    {
      assert ItemOk(items[i], nodes[i], fills[i]);
      KeyMoves(items[i], nodes, fills, path, i, nodes');
    }
    forall i | 0 <= i < |fills'|
      ensures NamesOk(fills'[i])
    {
      assert NamesOk(fills[i]);
    }
  }

  lemma KeyMoves(it: L.Item, nodes: seq<Node>, fills: seq<Fill>, path: seq<nat>, i: nat, nodes': seq<Node>)
    requires |nodes| == |fills| == |nodes'| && i < |nodes| && KeyOk(it, nodes, fills, path, i)
    requires Chain(path, nodes) && |path| > 1 && path[|path| - 2] < |fills| && Earlier(fills, path, |path| - 2)
    requires forall j :: 0 <= j < |nodes| ==> nodes'[j].parent == nodes[j].parent && nodes'[j].kind == nodes[j].kind
    ensures var par := path[|path| - 2];
            KeyOk(it, nodes', fills[par := fills[par].(slots := fills[par].slots + [Top(path)])], path[..|path| - 1], i)
  {
    var par, top := path[|path| - 2], path[|path| - 1];
    var fills', path' := fills[par := fills[par].(slots := fills[par].slots + [top])], path[..|path| - 1];
    var o := nodes[i].parent;
    if 0 <= o < |fills| && nodes[o].kind == Obj {
      var k :| NamedBy(it.key, fills[o], k, i, i in path);
      OnTheWay(path, nodes, i);
      assert Link(path, nodes, |path| - 1);
      if o == par {
        NamedInSlot(it.key, fills[o], k, i, i in path, top, i in path');
        assert fills'[o] == fills[o].(slots := fills[o].slots + [top]);
      } else {
        assert fills'[o] == fills[o] && i != top;
        assert i in path ==> i in path';
      }
      assert NamedBy(it.key, fills'[o], k, i, i in path');
    }
  }

  lemma NamedInSlot(key: Option<seq<byte>>, fl: Fill, k: nat, i: nat, under: bool, top: nat, under': bool)
    requires NamedBy(key, fl, k, i, under) && (under ==> i == top)
    ensures NamedBy(key, fl.(slots := fl.slots + [top]), k, i, under')
  {
    assert NameAt(fl.(slots := fl.slots + [top]), k) == NameAt(fl, k);
  }

  /** A value on the way that is not the last is still on the way without the last; and only the last has the one before
      it as its parent. */
  lemma OnTheWay(path: seq<nat>, nodes: seq<Node>, i: nat)
    requires Chain(path, nodes) && |path| > 1 && i < |nodes|
    ensures i in path && i != Top(path) ==> i in path[..|path| - 1]
    ensures i in path && nodes[i].parent == path[|path| - 2] ==> i == Top(path)
  {
    if i in path {
      var j :| 0 <= j < |path| && path[j] == i;
      assert Link(path, nodes, j);
      if j < |path| - 1 {
        assert path[..|path| - 1][j] == i;
      }
    }
  }

  // ---------- what is still to be told ----------

  /** The open values of the text. */
  function OpenOf(path: seq<nat>, nodes: seq<Node>): seq<L.Open> {
    if path == [] then [] else OpenOf(Outer(path), nodes) + [L.Open(Top(path), KindOf(nodes, Top(path)) == Some(Obj))]
  }

  /** The values around the current one. */
  function Outer(path: seq<nat>): seq<nat> {
    if path == [] then [] else path[..|path| - 1]
  }

  /** The last n bytes. */
  function Last(mem: seq<byte>, n: nat): seq<byte> {
    if n <= |mem| then mem[|mem| - n..] else mem
  }

  /** The values that the text still holds, in a state of the passes. */
  function Rest(t: seq<byte>, s: S1, fills: seq<Fill>, path: seq<nat>): seq<L.Item>
    requires s.pos <= |t|
  {
    if s.f.str then RestInString(t, s, fills, path) else From(t, PlaceOf(s, fills, path))
  }

  /** A position between values, the values that are open there, a name that waits, and how many values came before. */
  datatype Place = Place(pos: nat, open: seq<L.Open>, key: Option<seq<byte>>, n: nat)

  function From(t: seq<byte>, at: Place): seq<L.Item>
    requires at.pos <= |t|
  {
    L.Scan(t, at.pos, at.open, at.key, at.n)
  }

  function PlaceOf(s: S1, fills: seq<Fill>, path: seq<nat>): Place {
    if s.f.done then Place(s.pos, [], None, |s.nodes|)
    else
      Place(s.pos, OpenOf(path, s.nodes), if s.f.seek then Waiting(s.nodes, fills, Top(path)) else None, |s.nodes|)
  }

  function RestInString(t: seq<byte>, s: S1, fills: seq<Fill>, path: seq<nat>): seq<L.Item>
    requires s.pos <= |t|
  {
    RestAfter(t, L.Tail(t, s.pos, s.f.esc), s.nodes, fills, path, s.slen)
  }

  /** The same, when the rest of the quoted text is q. */
  function RestAfter(t: seq<byte>, q: L.Quoted, nodes: seq<Node>, fills: seq<Fill>, path: seq<nat>,
                     slen: nat): seq<L.Item>
    requires q.Quoted? ==> q.end < |t|
  {
    if q.Unclosed? || path == [] || !(Top(path) < |fills|) then []
    else if KindOf(nodes, Top(path)) == Some(Obj) then From(t, PlaceAfter(q, nodes, fills, path, slen))
    else [ItemAfter(q, nodes, fills, path)] + From(t, PlaceAfter(q, nodes, fills, path, slen))
  }

  /** The place after the quoted text, which is a name in an object, or a value. */
  function PlaceAfter(q: L.Quoted, nodes: seq<Node>, fills: seq<Fill>, path: seq<nat>, slen: nat): Place
    requires q.Quoted? && path != [] && Top(path) < |fills|
  {
    if KindOf(nodes, Top(path)) == Some(Obj) then
      Place(q.end + 1, OpenOf(path, nodes), Some(Last(fills[Top(path)].mem, slen) + q.bytes), |nodes|)
    else Place(q.end + 1, OpenOf(Outer(path), nodes), None, |nodes|)
  }

  function ItemAfter(q: L.Quoted, nodes: seq<Node>, fills: seq<Fill>, path: seq<nat>): L.Item
    requires q.Quoted? && path != [] && Top(path) < |fills|
  {
    L.Item(Str, Top(Outer(path)), fills[Top(path)].mem + q.bytes, 0, Waiting(nodes, fills, Top(Outer(path))))
  }

  /** Which characters lead to an action. */
  predicate Reason(t: seq<byte>, p: nat, f: Flags, act: Act, last: nat)
    requires p <= |t|
  {
    var b := At(t, p);
    match act
    case Idle => last == p && White(b)
    case Comma => last == p && b == 44
    case Colon => last == p && b == 58
    case Escape => last == p && b == 92 && !f.esc
    case Emit(_, bytes) =>
      if f.esc then EscapeRead(t, p, bytes, last) else last == p && b != 0 && b != 34 && b != 92 && bytes == [b]
    case OpenKey => last == p && b == 34
    case CloseKey => last == p && b == 34 && !f.esc
    case CloseString => last == p && b == 34 && !f.esc
    case New(kind) =>
      last == p && ((kind == Obj && b == 123) || (kind == Arr && b == 91) || (kind == Str && b == 34))
    case Literal(kind, v) =>
      last < |t| && ((kind == Bool && v == 1 && last == p + 3 && t[p..p + 4] == L.TRUE)
                     || (kind == Bool && v == 0 && last == p + 4 && t[p..p + 5] == L.FALSE)
                     || (kind == Null && v == 0 && last == p + 3 && t[p..p + 4] == L.NULL))
    case Number => last == p && (Digit(b) || b == 45)
    case Close => last == p && (b == 93 || b == 125)
  }

  /** An escape that ends at last stands for these bytes. */
  predicate EscapeRead(t: seq<byte>, p: nat, bytes: seq<byte>, last: nat)
    requires p <= |t|
  {
    var b := At(t, p);
    && b != 0
    && if b == 117 then Unicode(t, p).Code? && last == Unicode(t, p).last && bytes == Utf8(Unicode(t, p).u)
       else last == p && bytes == [L.Short(b)]
  }

  lemma Reasons(t: seq<byte>, p: nat, f: Flags, slen: nat, kind: Option<Kind>, depth: nat)
    requires p <= |t| && Decide(t, p, f, slen, kind).Do? && FlagsOk(f, kind, depth)
    ensures var c := Decide(t, p, f, slen, kind); Reason(t, p, f, c.act, c.last) && c.last < |t|
  {
    var c := Decide(t, p, f, slen, kind);
    if c.act.Literal? {
      if At(t, p) == 116 {
        assert t[p..p + 4] == L.TRUE;
      } else if At(t, p) == 102 {
        assert t[p..p + 5] == L.FALSE;
      } else {
        assert t[p..p + 4] == L.NULL;
      }
    }
  }

  // ---------- one action after another ----------

  /** At one place these items are told, and the rest from another place. */
  ghost predicate Continues(t: seq<byte>, at: Place, more: seq<L.Item>, at': Place)
    requires at.pos <= |t| && at'.pos <= |t|
  {
    forall k {:trigger InScan(k)} :: InScan(k) ==>
      From(t, at) == if more == [] then From(t, at') else more + From(t, at')
  }

  /** From one state to another these items are told. */
  ghost predicate Onward(t: seq<byte>, s: S1, fills: seq<Fill>, path: seq<nat>, more: seq<L.Item>, s': S1,
                         fills': seq<Fill>, path': seq<nat>)
    requires s.pos <= |t| && s'.pos <= |t|
  {
    forall k {:trigger InScan(k)} :: InScan(k) ==>
      var rest := Rest(t, s', fills', path');
      Rest(t, s, fills, path) == if more == [] then rest else more + rest
  }

  lemma Places(t: seq<byte>, s: S1, fills: seq<Fill>, path: seq<nat>, more: seq<L.Item>, s': S1, fills': seq<Fill>,
               path': seq<nat>)
    requires s.pos <= |t| && s'.pos <= |t| && !s.f.str && !s'.f.str
    requires Continues(t, PlaceOf(s, fills, path), more, PlaceOf(s', fills', path'))
    ensures Onward(t, s, fills, path, more, s', fills', path')
  {
    assert InScan(0);
  }

  /** The same, with the two places at hand. */
  lemma Between(t: seq<byte>, s: S1, fills: seq<Fill>, path: seq<nat>, at: Place, more: seq<L.Item>, s': S1,
                fills': seq<Fill>, path': seq<nat>, at': Place)
    requires s.pos <= |t| && s'.pos <= |t| && !s.f.str && !s'.f.str && at.pos <= |t| && at'.pos <= |t|
    requires at == PlaceOf(s, fills, path) && at' == PlaceOf(s', fills', path') && Continues(t, at, more, at')
    ensures Onward(t, s, fills, path, more, s', fills', path')
  {
    Places(t, s, fills, path, more, s', fills', path');
  }

  lemma RestPass(t: seq<byte>, s: S1, fills: seq<Fill>, path: seq<nat>, act: Act, last: nat, s': S1)
    requires s.pos <= |t| && Reason(t, s.pos, s.f, act, last) && last < |t| && !s.f.str
    requires act.Idle? || act.Comma? || act.Colon?
    requires s' == s.(pos := last + 1, f := Flagged(s.f, act))
    ensures Onward(t, s, fills, path, [], s', fills, path)
  {
    ScanPasses(t, PlaceOf(s, fills, path));
    Places(t, s, fills, path, [], s', fills, path);
  }

  lemma ScanPasses(t: seq<byte>, at: Place)
    requires at.pos < |t| && (White(t[at.pos]) || t[at.pos] == 44 || t[at.pos] == 58)
    ensures Continues(t, at, [], at.(pos := at.pos + 1))
  {
  }

  lemma RestOpenKey(t: seq<byte>, s: S1, fills: seq<Fill>, path: seq<nat>, s': S1)
    requires s.pos < |t| && t[s.pos] == 34 && !s.f.str && !s.f.done && !s.f.seek && !s.f.esc
    requires path != [] && Top(path) < |fills| && KindOf(s.nodes, Top(path)) == Some(Obj)
    requires s' == s.(pos := s.pos + 1, f := Flagged(s.f, OpenKey), slen := 0)
    ensures Onward(t, s, fills, path, [], s', fills, path)
  {
    var at := PlaceOf(s, fills, path);
    NameOpens(t, at, s.nodes, fills, path);
    TextPlaces(t, s, fills, path, at, s', fills, path);
  }

  /** A name, and the rest of the text after it. */
  function NameRest(t: seq<byte>, q: L.Quoted, open: seq<L.Open>, n: nat): seq<L.Item>
    requires q.Quoted? ==> q.end < |t|
  {
    if q.Unclosed? then [] else From(t, Place(q.end + 1, open, Some(q.bytes), n))
  }

  lemma ScanName(t: seq<byte>, at: Place)
    requires at.pos < |t| && t[at.pos] == 34 && L.AtObject(at.open) && at.key.None?
    ensures From(t, at) == NameRest(t, L.Quote(t, at.pos + 1), at.open, at.n)
  {
    ScanText(t, at.pos, at.open, at.key, at.n);
  }

  /** One quoted text. */
  lemma ScanText(t: seq<byte>, p: nat, open: seq<L.Open>, key: Option<seq<byte>>, n: nat)
    requires p < |t| && t[p] == 34
    ensures var q := L.Quote(t, p + 1);
            L.Scan(t, p, open, key, n) ==
            if q.Unclosed? then []
            else if L.AtObject(open) && key.None? then L.Scan(t, q.end + 1, open, Some(q.bytes), n)
            else [L.Item(Str, L.Innermost(open), q.bytes, 0, key)] + L.Scan(t, q.end + 1, open, None, n + 1)
  {
  }

  lemma {:induction false} AfterName(t: seq<byte>, q: L.Quoted, nodes: seq<Node>, fills: seq<Fill>, path: seq<nat>)
    requires (q.Quoted? ==> q.end < |t|) && path != [] && Top(path) < |fills| && KindOf(nodes, Top(path)) == Some(Obj)
    ensures RestAfter(t, q, nodes, fills, path, 0) == NameRest(t, q, OpenOf(path, nodes), |nodes|)
  {
    assert Last(fills[Top(path)].mem, 0) == [];
    assert q.Quoted? ==> [] + q.bytes == q.bytes;
  }

  lemma {:induction false} NameOpens(t: seq<byte>, at: Place, nodes: seq<Node>, fills: seq<Fill>, path: seq<nat>)
    requires at.pos < |t| && t[at.pos] == 34 && at.open == OpenOf(path, nodes) && at.key == None && at.n == |nodes|
    requires path != [] && Top(path) < |fills| && KindOf(nodes, Top(path)) == Some(Obj)
    ensures Reads(t, at, L.Quote(t, at.pos + 1), nodes, fills, path, 0)
  {
    OpenTop(path, nodes);
    ScanName(t, at);
    AfterName(t, L.Quote(t, at.pos + 1), nodes, fills, path);
  }

  lemma RestEscape(t: seq<byte>, s: S1, fills: seq<Fill>, path: seq<nat>, s': S1)
    requires s.pos < |t| && t[s.pos] == 92 && s.f.str && !s.f.esc
    requires s' == s.(pos := s.pos + 1, f := Flagged(s.f, Escape))
    ensures Onward(t, s, fills, path, [], s', fills, path)
  {
  }

  lemma TailEmit(t: seq<byte>, p: nat, f: Flags, bytes: seq<byte>, last: nat)
    requires p <= |t| && Reason(t, p, f, Emit(|bytes|, bytes), last) && p <= last < |t|
    ensures L.Tail(t, p, f.esc) == L.Quote(t, last + 1).After(bytes)
  {
  }

  /** The bytes of a character move from what is to be read to what is written. */
  lemma AfterEmit(t: seq<byte>, q: L.Quoted, bytes: seq<byte>, nodes: seq<Node>, fills: seq<Fill>, path: seq<nat>,
                  slen: nat, fills': seq<Fill>)
    requires q.Quoted? ==> q.end < |t|
    requires path != [] && Top(path) < |fills| && slen <= |fills[Top(path)].mem|
    requires fills' == fills[Top(path) := fills[Top(path)].(mem := fills[Top(path)].mem + bytes)]
    requires |path| > 1 ==> path[|path| - 2] != Top(path)
    ensures RestAfter(t, q.After(bytes), nodes, fills, path, slen) ==
            RestAfter(t, q, nodes, fills', path, slen + |bytes|)
  {
    if q.Quoted? {
      PlaceEmit(q, bytes, nodes, fills, path, slen, fills');
    }
  }

  lemma {:induction false} PlaceEmit(q: L.Quoted, bytes: seq<byte>, nodes: seq<Node>, fills: seq<Fill>, path: seq<nat>,
                                     slen: nat, fills': seq<Fill>)
    requires q.Quoted? && path != [] && Top(path) < |fills| && slen <= |fills[Top(path)].mem|
    requires fills' == fills[Top(path) := fills[Top(path)].(mem := fills[Top(path)].mem + bytes)]
    requires |path| > 1 ==> path[|path| - 2] != Top(path)
    ensures PlaceAfter(q.After(bytes), nodes, fills, path, slen) ==
            PlaceAfter(q, nodes, fills', path, slen + |bytes|)
    ensures ItemAfter(q.After(bytes), nodes, fills, path) == ItemAfter(q, nodes, fills', path)
  {
    var mem := fills[Top(path)].mem;
    assert mem + bytes + q.bytes == mem + (bytes + q.bytes);
    LastMore(mem, slen, bytes, q.bytes);
    assert Waiting(nodes, fills, Top(Outer(path))) == Waiting(nodes, fills', Top(Outer(path)));
  }

  lemma RestEmit(t: seq<byte>, s: S1, fills: seq<Fill>, path: seq<nat>, bytes: seq<byte>, q: L.Quoted, q': L.Quoted,
                 s': S1, fills': seq<Fill>)
    requires s.pos <= |t| && s'.pos <= |t| && s.f.str && s'.f.str
    requires q == L.Tail(t, s.pos, s.f.esc) && q' == L.Tail(t, s'.pos, s'.f.esc) && q == q'.After(bytes)
    requires path != [] && Top(path) < |fills| && s.slen <= |fills[Top(path)].mem|
    requires s'.nodes == s.nodes && s'.slen == s.slen + |bytes|
    requires fills' == fills[Top(path) := fills[Top(path)].(mem := fills[Top(path)].mem + bytes)]
    requires |path| > 1 ==> path[|path| - 2] != Top(path)
    ensures Onward(t, s, fills, path, [], s', fills', path)
  {
    AfterEmit(t, q', bytes, s.nodes, fills, path, s.slen, fills');
    WithinText(t, s, fills, path, q, s', fills', q');
  }

  /** From one state in a quoted text to another, when the rest of the text is q and then q'. */
  lemma WithinText(t: seq<byte>, s: S1, fills: seq<Fill>, path: seq<nat>, q: L.Quoted, s': S1, fills': seq<Fill>,
                   q': L.Quoted)
    requires s.pos <= |t| && s'.pos <= |t| && s.f.str && s'.f.str
    requires q == L.Tail(t, s.pos, s.f.esc) && q' == L.Tail(t, s'.pos, s'.f.esc)
    requires RestAfter(t, q, s.nodes, fills, path, s.slen) == RestAfter(t, q', s'.nodes, fills', path, s'.slen)
    ensures Onward(t, s, fills, path, [], s', fills', path)
  {
  }

  lemma LastMore(mem: seq<byte>, n: nat, a: seq<byte>, b: seq<byte>)
    requires n <= |mem|
    ensures Last(mem, n) + (a + b) == Last(mem + a, n + |a|) + b
  {
    assert Last(mem + a, n + |a|) == Last(mem, n) + a;
  }

  /** A name is complete, and waits for its value. */
  lemma RestCloseKey(t: seq<byte>, s: S1, fills: seq<Fill>, path: seq<nat>, s': S1, fills': seq<Fill>)
    requires s.pos < |t| && t[s.pos] == 34 && s.f.str && !s.f.esc && path != [] && Top(path) < |fills|
    requires KindOf(s.nodes, Top(path)) == Some(Obj) && s.slen <= |fills[Top(path)].mem|
    requires |fills[Top(path)].names| == |fills[Top(path)].slots| && |s'.nodes| == |s.nodes|
    requires forall j :: 0 <= j < |s.nodes| ==> s'.nodes[j].kind == s.nodes[j].kind
    requires s' == s.(pos := s.pos + 1, f := Flagged(s.f, CloseKey), nodes := s'.nodes) && !s.f.done
    requires fills' == fills[Top(path) := WithName(fills[Top(path)], s.slen)]
    ensures Onward(t, s, fills, path, [], s', fills', path)
  {
    var fl := fills[Top(path)];
    NameClosed(fl, s.slen);
    assert L.Tail(t, s.pos, s.f.esc) == L.Quoted([], s.pos);
    OpenSame(path, s'.nodes, s.nodes);
    assert Waiting(s'.nodes, fills', Top(path)) == Some(Last(fl.mem, s.slen) + []);
  }

  function WithName(fl: Fill, slen: nat): Fill
    requires slen <= |fl.mem|
  {
    fl.(mem := fl.mem + [0], names := fl.names + [Name(|fl.mem| - slen, slen)])
  }

  lemma NameClosed(fl: Fill, slen: nat)
    requires slen <= |fl.mem| && |fl.names| == |fl.slots|
    ensures NameAt(WithName(fl, slen), |fl.slots|) == Last(fl.mem, slen) == Last(fl.mem, slen) + []
  {
    var fl' := WithName(fl, slen);
    assert fl'.names[|fl.slots|] == Name(|fl.mem| - slen, slen);
  }

  /** An object or array opens. */
  lemma RestNew(t: seq<byte>, s: S1, fills: seq<Fill>, path: seq<nat>, kind: Kind, s': S1)
    requires s.pos < |t| && !s.f.str && !s.f.done && s.f.seek && |fills| == |s.nodes|
    requires (kind == Obj && t[s.pos] == 123) || (kind == Arr && t[s.pos] == 91)
    requires forall k :: 0 <= k < |path| ==> path[k] < |s.nodes|
    requires s' == s.(pos := s.pos + 1, f := Flagged(s.f, New(kind)), nodes := s.nodes + [Node(kind, s.top, 0, 0, 0)],
                      top := |s.nodes|, slen := 0)
    ensures Onward(t, s, fills, path, [L.Item(kind, Top(path), [], 0, Waiting(s.nodes, fills, Top(path)))], s',
                   fills + [EMPTY], path + [|s.nodes|])
  {
    var at, at' := PlaceNew(s, fills, path, kind, s');
    ScanOpens(t, at, kind);
    Between(t, s, fills, path, at, [L.Item(kind, Top(path), [], 0, Waiting(s.nodes, fills, Top(path)))], s',
            fills + [EMPTY], path + [|s.nodes|], at');
  }

  lemma {:induction false} PlaceNew(s: S1, fills: seq<Fill>, path: seq<nat>, kind: Kind, s': S1)
    returns (at: Place, at': Place)
    requires !s.f.str && !s.f.done && s.f.seek && |fills| == |s.nodes| && Container(kind)
    requires forall k :: 0 <= k < |path| ==> path[k] < |s.nodes|
    requires s' == s.(pos := s.pos + 1, f := Flagged(s.f, New(kind)), nodes := s.nodes + [Node(kind, s.top, 0, 0, 0)],
                      top := |s.nodes|, slen := 0)
    ensures at == PlaceOf(s, fills, path) && at' == PlaceOf(s', fills + [EMPTY], path + [|s.nodes|])
    ensures at' == Place(at.pos + 1, at.open + [L.Open(at.n, kind == Obj)], None, at.n + 1) && at.pos == s.pos
    ensures L.Innermost(at.open) == Top(path) && at.key == Waiting(s.nodes, fills, Top(path))
  {
    at, at' := PlaceOf(s, fills, path), PlaceOf(s', fills + [EMPTY], path + [|s.nodes|]);
    assert Outer(path + [|s.nodes|]) == path;
    OpenTop(path, s.nodes);
    OpenSame(path, s.nodes, s'.nodes);
  }

  lemma ScanOpens(t: seq<byte>, at: Place, kind: Kind)
    requires at.pos < |t| && ((kind == Obj && t[at.pos] == 123) || (kind == Arr && t[at.pos] == 91))
    ensures Continues(t, at, [L.Item(kind, L.Innermost(at.open), [], 0, at.key)],
                      Place(at.pos + 1, at.open + [L.Open(at.n, kind == Obj)], None, at.n + 1))
  {
  }

  lemma {:induction false} OpenTop(path: seq<nat>, nodes: seq<Node>)
    ensures L.Innermost(OpenOf(path, nodes)) == Top(path)
    ensures L.AtObject(OpenOf(path, nodes)) <==> path != [] && KindOf(nodes, Top(path)) == Some(Obj)
  {
  }

  /** A string opens. */
  lemma RestNewString(t: seq<byte>, s: S1, fills: seq<Fill>, path: seq<nat>, s': S1)
    requires s.pos < |t| && t[s.pos] == 34 && !s.f.str && !s.f.done && s.f.seek && !s.f.esc && |fills| == |s.nodes|
    requires forall k :: 0 <= k < |path| ==> path[k] < |s.nodes|
    requires s' == s.(pos := s.pos + 1, f := Flagged(s.f, New(Str)), nodes := s.nodes + [Node(Str, s.top, 0, 0, 0)],
                      top := |s.nodes|, slen := 0)
    ensures Onward(t, s, fills, path, [], s', fills + [EMPTY], path + [|s.nodes|])
  {
    var at := PlaceSeek(s, fills, path);
    TextOpens(t, at, s.nodes, s'.nodes[|s.nodes|], fills, path);
    TextPlaces(t, s, fills, path, at, s', fills + [EMPTY], path + [|s.nodes|]);
  }

  lemma {:induction false} PlaceSeek(s: S1, fills: seq<Fill>, path: seq<nat>) returns (at: Place)
    requires !s.f.str && !s.f.done && s.f.seek
    ensures at == PlaceOf(s, fills, path) && at == Place(s.pos, at.open, Waiting(s.nodes, fills, Top(path)), |s.nodes|)
    ensures at.open == OpenOf(path, s.nodes) && (L.AtObject(at.open) ==> KindOf(s.nodes, Top(path)) == Some(Obj))
  {
    OpenTop(path, s.nodes);
    at := PlaceOf(s, fills, path);
  }

  /** What is told from a place is told when the rest of the quoted text is q. */
  ghost predicate Reads(t: seq<byte>, at: Place, q: L.Quoted, nodes: seq<Node>, fills: seq<Fill>, path: seq<nat>,
                        slen: nat)
    requires at.pos <= |t| && (q.Quoted? ==> q.end < |t|)
  {
    forall k {:trigger InScan(k)} :: InScan(k) ==> From(t, at) == RestAfter(t, q, nodes, fills, path, slen)
  }

  lemma TextPlaces(t: seq<byte>, s: S1, fills: seq<Fill>, path: seq<nat>, at: Place, s': S1, fills': seq<Fill>,
                   path': seq<nat>)
    requires s.pos <= |t| && s'.pos <= |t| && !s.f.str && s'.f.str && at == PlaceOf(s, fills, path)
    requires Reads(t, at, L.Tail(t, s'.pos, s'.f.esc), s'.nodes, fills', path', s'.slen)
    ensures Onward(t, s, fills, path, [], s', fills', path')
  {
    assert InScan(0);
  }

  lemma {:induction false} TextOpens(t: seq<byte>, at: Place, nodes: seq<Node>, nd: Node, fills: seq<Fill>,
                                     path: seq<nat>)
    requires at.pos < |t| && t[at.pos] == 34 && (L.AtObject(at.open) ==> at.key.Some?)
    requires |fills| == |nodes| && nd.kind == Str && forall k :: 0 <= k < |path| ==> path[k] < |nodes|
    requires at.open == OpenOf(path, nodes) && at.key == Waiting(nodes, fills, Top(path)) && at.n == |nodes|
    ensures Reads(t, at, L.Quote(t, at.pos + 1), nodes + [nd], fills + [EMPTY], path + [|nodes|], 0)
  {
    ScanString(t, at);
    AfterNew(t, L.Quote(t, at.pos + 1), nodes, nd, fills, path);
  }

  /** A quoted value, and the rest of the text after it. */
  function TextRest(t: seq<byte>, q: L.Quoted, key: Option<seq<byte>>, open: seq<L.Open>, n: nat): seq<L.Item>
    requires q.Quoted? ==> q.end < |t|
  {
    if q.Unclosed? then []
    else [L.Item(Str, L.Innermost(open), q.bytes, 0, key)] + From(t, Place(q.end + 1, open, None, n))
  }

  lemma ScanString(t: seq<byte>, at: Place)
    requires at.pos < |t| && t[at.pos] == 34 && (L.AtObject(at.open) ==> at.key.Some?)
    ensures From(t, at) == TextRest(t, L.Quote(t, at.pos + 1), at.key, at.open, at.n + 1)
  {
    ScanText(t, at.pos, at.open, at.key, at.n);
  }

  lemma {:induction false} AfterNew(t: seq<byte>, q: L.Quoted, nodes: seq<Node>, nd: Node, fills: seq<Fill>,
                                    path: seq<nat>)
    requires (q.Quoted? ==> q.end < |t|) && |fills| == |nodes| && nd.kind == Str
    requires forall k :: 0 <= k < |path| ==> path[k] < |nodes|
    ensures RestAfter(t, q, nodes + [nd], fills + [EMPTY], path + [|nodes|], 0) ==
            TextRest(t, q, Waiting(nodes, fills, Top(path)), OpenOf(path, nodes), |nodes| + 1)
  {
    var path', fills' := path + [|nodes|], fills + [EMPTY];
    assert Outer(path') == path && Top(path') == |nodes|;
    OpenSame(path, nodes, nodes + [nd]);
    OpenTop(path, nodes);
    assert q.Quoted? ==> EMPTY.mem + q.bytes == q.bytes;
  }

  /** The way after a value is complete. */
  function Left(path: seq<nat>): seq<nat> {
    if |path| <= 1 then path else path[..|path| - 1]
  }

  lemma {:induction false} OpenShorter(path: seq<nat>, nodes: seq<Node>)
    requires path != []
    ensures var open := OpenOf(path, nodes); open != [] && open[..|open| - 1] == OpenOf(Outer(path), nodes)
  {
  }

  lemma {:induction false} OpenSame(path: seq<nat>, a: seq<Node>, b: seq<Node>)
    requires |a| <= |b| && forall j :: 0 <= j < |a| ==> a[j].kind == b[j].kind
    requires |a| == |b| || forall k :: 0 <= k < |path| ==> path[k] < |a|
    ensures OpenOf(path, a) == OpenOf(path, b)
  {
    if path != [] {
      OpenSame(Outer(path), a, b);
    }
  }

  /** The last value on the way is there, and so is the one before it, which is its parent. */
  predicate Above(path: seq<nat>, nodes: seq<Node>) {
    && path != [] && Top(path) < |nodes| && nodes[Top(path)].parent == Top(Outer(path)) < |nodes|
  }

  lemma ChainAbove(path: seq<nat>, nodes: seq<Node>)
    requires Chain(path, nodes) && path != []
    ensures Above(path, nodes)
  {
    assert Link(path, nodes, |path| - 1);
    if |path| > 1 {
      assert Link(path, nodes, |path| - 2);
    }
  }

  lemma {:induction false} PlaceFinished(slen: nat, num: Num, nodes: seq<Node>, path: seq<nat>, pos: nat, s': S1,
                                         fills': seq<Fill>)
    requires Above(path, nodes) && Finish1(slen, num, nodes, Top(path), pos) == Go(s')
    ensures !s'.f.str && PlaceOf(s', fills', Left(path)) == Place(pos, OpenOf(Outer(path), nodes), None, |nodes|)
  {
    if |path| > 1 {
      assert Left(path) == Outer(path);
      OpenSame(Outer(path), s'.nodes, nodes);
    } else {
      assert OpenOf(Outer(path), nodes) == [];
    }
  }

  /** A quoted text that ends at p. */
  lemma {:induction false} AfterText(t: seq<byte>, p: nat, nodes: seq<Node>, fills: seq<Fill>, path: seq<nat>,
                                     slen: nat)
    requires p < |t| && path != [] && Top(path) < |fills| && KindOf(nodes, Top(path)) == Some(Str)
    ensures RestAfter(t, L.Quoted([], p), nodes, fills, path, slen) ==
            [L.Item(Str, Top(Outer(path)), fills[Top(path)].mem, 0, Waiting(nodes, fills, Top(Outer(path))))] +
            From(t, Place(p + 1, OpenOf(Outer(path), nodes), None, |nodes|))
  {
    assert fills[Top(path)].mem + [] == fills[Top(path)].mem;
  }

  lemma RestCloseString(t: seq<byte>, s: S1, fills: seq<Fill>, path: seq<nat>, s': S1, fills': seq<Fill>)
    requires s.pos < |t| && t[s.pos] == 34 && s.f.str && !s.f.esc && Above(path, s.nodes)
    requires Top(path) < |fills| && Top(path) < |s.nodes| && KindOf(s.nodes, Top(path)) == Some(Str)
    requires var nodes := s.nodes[Top(path) := s.nodes[Top(path)].(len := s.slen)];
             Finish1(s.slen, s.num, nodes, Top(path), s.pos + 1) == Go(s')
    ensures Onward(t, s, fills, path,
                   [L.Item(Str, Top(Outer(path)), fills[Top(path)].mem, 0, Waiting(s.nodes, fills, Top(Outer(path))))],
                   s', fills', Left(path))
  {
    var nodes := s.nodes[Top(path) := s.nodes[Top(path)].(len := s.slen)];
    PlaceFinished(s.slen, s.num, nodes, path, s.pos + 1, s', fills');
    OpenSame(Outer(path), nodes, s.nodes);
    assert L.Tail(t, s.pos, s.f.esc) == L.Quoted([], s.pos);
    AfterText(t, s.pos, s.nodes, fills, path, s.slen);
  }

  lemma RestClose(t: seq<byte>, s: S1, fills: seq<Fill>, path: seq<nat>, s': S1, fills': seq<Fill>)
    requires s.pos < |t| && (t[s.pos] == 93 || t[s.pos] == 125) && !s.f.str && !s.f.done
    requires Above(path, s.nodes) && Finish1(s.slen, s.num, s.nodes, Top(path), s.pos + 1) == Go(s')
    ensures Onward(t, s, fills, path, [], s', fills', Left(path))
  {
    PlaceFinished(s.slen, s.num, s.nodes, path, s.pos + 1, s', fills');
    OpenShorter(path, s.nodes);
    ScanCloses(t, PlaceOf(s, fills, path));
    Places(t, s, fills, path, [], s', fills', Left(path));
  }

  lemma ScanCloses(t: seq<byte>, at: Place)
    requires at.pos < |t| && (t[at.pos] == 93 || t[at.pos] == 125) && at.open != []
    ensures Continues(t, at, [], Place(at.pos + 1, at.open[..|at.open| - 1], None, at.n))
  {
  }

  /** A value that is complete at once: a literal or a number. */
  lemma {:induction false} RestWhole(t: seq<byte>, s: S1, fills: seq<Fill>, path: seq<nat>, nd: Node, num: Num,
                                     pos: nat, it: L.Item,
                                     s': S1, fills': seq<Fill>)
    requires s.pos < |t| && pos <= |t| && !s.f.str && !s.f.done && s.f.seek && Top(path) < |s.nodes|
    requires nd.parent == Top(path) && forall k :: 0 <= k < |path| ==> path[k] < |s.nodes|
    requires Finish1(s.slen, num, s.nodes + [nd], |s.nodes|, pos) == Go(s')
    requires Continues(t, PlaceOf(s, fills, path), [it], Place(pos, OpenOf(path, s.nodes), None, |s.nodes| + 1))
    ensures Onward(t, s, fills, path, [it], s', fills', if path == [] then [|s.nodes|] else path)
  {
    PlaceWhole(s, path, nd, num, pos, s', fills');
    Places(t, s, fills, path, [it], s', fills', if path == [] then [|s.nodes|] else path);
  }

  lemma {:induction false} PlaceWhole(s: S1, path: seq<nat>, nd: Node, num: Num, pos: nat, s': S1, fills': seq<Fill>)
    requires Top(path) < |s.nodes| && nd.parent == Top(path) && forall k :: 0 <= k < |path| ==> path[k] < |s.nodes|
    requires Finish1(s.slen, num, s.nodes + [nd], |s.nodes|, pos) == Go(s')
    ensures var path' := if path == [] then [|s.nodes|] else path;
            !s'.f.str && PlaceOf(s', fills', path') == Place(pos, OpenOf(path, s.nodes), None, |s.nodes| + 1)
  {
    var nodes, longer := s.nodes + [nd], path + [|s.nodes|];
    assert Outer(longer) == path;
    PlaceFinished(s.slen, num, nodes, longer, pos, s', fills');
    OpenSame(path, s.nodes, nodes);
    assert Left(longer) == if path == [] then [|s.nodes|] else path;
  }

  lemma ScanLiteral(t: seq<byte>, p: nat, open: seq<L.Open>, key: Option<seq<byte>>, n: nat, f: Flags, kind: Kind,
                    v: int,
                    last: nat)
    requires p < |t| && Reason(t, p, f, Literal(kind, v), last)
    ensures L.Scan(t, p, open, key, n) ==
            [L.Item(kind, L.Innermost(open), [], v, key)] + L.Scan(t, last + 1, open, None, n + 1)
  {
    assert t[p] == t[p..last + 1][0];
  }

  lemma {:induction false} SkipIsEnd(t: seq<byte>, p: nat)
    requires p <= |t|
    ensures Skip(t, p) == L.NumberEnd(t, p)
    decreases |t| - p
  {
    if NumberChar(At(t, p)) {
      SkipIsEnd(t, p + 1);
    }
  }

  lemma ScanNumber(t: seq<byte>, p: nat, open: seq<L.Open>, key: Option<seq<byte>>, n: nat, q: nat)
    requires p < |t| && (Digit(t[p]) || t[p] == 45) && q == Skip(t, p) && p < q
    ensures var double := L.IsDouble(t, p, q);
            L.Scan(t, p, open, key, n) ==
            [L.Item(if double then Dbl else Int, L.Innermost(open), [], if double then 0
              else L.IntegerAt(t, p, q), key)] +
            L.Scan(t, q, open, None, n + 1)
  {
    SkipIsEnd(t, p + 1);
  }

  // ---------- the telling goes with the passes ----------

  /** A string value is being read. */
  predicate InText(s: S1) {
    s.f.str && KindOf(s.nodes, s.top) == Some(Str)
  }

  /** The items tell every value so far but a string that is being read. */
  ghost predicate Says(s1: S1, s2: S2, path: seq<nat>, items: seq<L.Item>) {
    && Told(items, s1.nodes, s2.fills, path) && (s1.f.esc ==> s1.f.str)
    && |s1.nodes| == |items| + (if InText(s1) then 1 else 0)
    && (InText(s1) ==> s1.top == |s1.nodes| - 1)
  }

  /** What the counts say of the current value. */
  lemma TopFacts(s1: S1, s2: S2, path: seq<nat>)
    requires Rel(s1, s2, path) && path != []
    ensures 0 <= s1.top == Top(path) < |s1.nodes| == |s2.fills|
    ensures var fl := s2.fills[s1.top];
            && (s1.nodes[s1.top].kind == Obj ==> |fl.names| == |fl.slots| + if s1.f.seek then 1 else 0)
            && (s1.f.str ==> s1.slen <= |fl.mem|)
            && (s1.f.str && s1.nodes[s1.top].kind == Str ==> s1.slen == |fl.mem|)
  {
    assert Link(path, s1.nodes, |path| - 1);
    assert Matches(s1.nodes[s1.top], s2.fills[s1.top], HalfOf(path, s1.f.seek, s1.f.str, s1.slen, s1.top));
  }

  lemma BelowTop(path: seq<nat>, nodes: seq<Node>)
    requires Chain(path, nodes)
    ensures forall k :: 0 <= k < |path| ==> path[k] < |nodes|
    ensures |path| > 1 ==> path[|path| - 2] != Top(path)
  {
    forall k | 0 <= k < |path|
      ensures path[k] < |nodes|
    {
      assert Link(path, nodes, k);
    }
  }

  lemma SaysPass(t: seq<byte>, s1: S1, s2: S2, path: seq<nat>, items: seq<L.Item>, act: Act, last: nat, s1': S1,
                 s2': S2)
    requires Rel(s1, s2, path) && Says(s1, s2, path, items) && s1.pos <= |t| && Reason(t, s1.pos, s1.f, act, last) &&
             last < |t|
    requires act.Idle? || act.Comma? || act.Colon? || act.OpenKey? || act.Escape?
    requires if act.Escape? then s1.f.str
             else if act.OpenKey? then !s1.f.str && !s1.f.done && !s1.f.seek && KindOf(s1.nodes, s1.top) == Some(Obj)
             else !s1.f.str
    requires s1' == s1.(pos := last + 1, f := Flagged(s1.f, act), slen := if act.OpenKey? then 0 else s1.slen)
    requires s2'.fills == s2.fills
    ensures Says(s1', s2', path, items) && Onward(t, s1, s2.fills, path, [], s1', s2'.fills, path)
  {
    if act.OpenKey? {
      TopFacts(s1, s2, path);
      RestOpenKey(t, s1, s2.fills, path, s1');
    } else if act.Escape? {
      RestEscape(t, s1, s2.fills, path, s1');
    } else {
      RestPass(t, s1, s2.fills, path, act, last, s1');
    }
  }

  lemma EmitTold(items: seq<L.Item>, nodes: seq<Node>, fills: seq<Fill>, path: seq<nat>, top: nat, bytes: seq<byte>)
    requires Told(items, nodes, fills, path) && top < |fills| && (nodes[top].kind == Str ==> top >= |items|)
    ensures Told(items, nodes, fills[top := fills[top].(mem := fills[top].mem + bytes)], path)
  {
    assert InTold(0);
    var fills' := fills[top := fills[top].(mem := fills[top].mem + bytes)];
    forall j | 0 <= j < |fills|
      ensures Grown(fills[j], fills'[j]) && NamesOk(fills'[j])
    {
      assert NamesOk(fills[j]);
    }
    ToldStays(items, nodes, fills, path, nodes, fills');
  }

  lemma SaysEmit(t: seq<byte>, s1: S1, s2: S2, path: seq<nat>, items: seq<L.Item>, bytes: seq<byte>, last: nat, s1': S1,
                 s2': S2)
    requires Rel(s1, s2, path) && Says(s1, s2, path, items) && s1.pos <= last < |t| && s1.f.str
    requires Reason(t, s1.pos, s1.f, Emit(|bytes|, bytes), last)
    requires s1' == s1.(pos := last + 1, f := Flagged(s1.f, Emit(|bytes|, bytes)), slen := s1.slen + |bytes|)
    requires s2'.fills == Write(s2, bytes)
    ensures Says(s1', s2', path, items) && Onward(t, s1, s2.fills, path, [], s1', s2'.fills, path)
  {
    TopFacts(s1, s2, path);
    BelowTop(path, s1.nodes);
    TailEmit(t, s1.pos, s1.f, bytes, last);
    RestEmit(t, s1, s2.fills, path, bytes, L.Tail(t, s1.pos, s1.f.esc), L.Quote(t, last + 1), s1', s2'.fills);
    EmitTold(items, s1.nodes, s2.fills, path, s1.top, bytes);
  }

  lemma CloseKeyTold(items: seq<L.Item>, nodes: seq<Node>, fills: seq<Fill>, path: seq<nat>, top: nat, slen: nat,
                     pool: nat)
    requires Told(items, nodes, fills, path) && top < |fills| && nodes[top].kind == Obj && slen <= |fills[top].mem|
    ensures Told(items, nodes[top := nodes[top].(pool := pool)], fills[top := WithName(fills[top], slen)], path)
  {
    assert InTold(0);
    var nodes', fills' := nodes[top := nodes[top].(pool := pool)], fills[top := WithName(fills[top], slen)];
    forall j | 0 <= j < |fills|
      ensures Grown(fills[j], fills'[j]) && NamesOk(fills'[j])
    {
      assert NamesOk(fills[j]);
      if j == top {
        NamesMore(fills[j], slen);
      }
    }
    ToldStays(items, nodes, fills, path, nodes', fills');
  }

  lemma NamesMore(fl: Fill, slen: nat)
    requires NamesOk(fl) && slen <= |fl.mem|
    ensures NamesOk(WithName(fl, slen))
  {
  }

  lemma SaysCloseKey(t: seq<byte>, s1: S1, s2: S2, path: seq<nat>, items: seq<L.Item>, last: nat, s1': S1, s2': S2)
    requires Rel(s1, s2, path) && Says(s1, s2, path, items) && s1.pos == last < |t| && s1.f.str &&
             KindOf(s1.nodes, s1.top) == Some(Obj)
    requires Reason(t, s1.pos, s1.f, CloseKey, last)
    requires s1.slen <= |s2.fills[s1.top].mem| && s2'.fills == s2.fills[s1.top := WithName(s2.fills[s1.top], s1.slen)]
    requires s1' == s1.(pos := last + 1, f := Flagged(s1.f, CloseKey),
                        nodes := s1.nodes[s1.top := s1.nodes[s1.top].(pool := s1.nodes[s1.top].pool + s1.slen + 1)])
    ensures Says(s1', s2', path, items) && Onward(t, s1, s2.fills, path, [], s1', s2'.fills, path)
  {
    TopFacts(s1, s2, path);
    RestCloseKey(t, s1, s2.fills, path, s1', s2'.fills);
    CloseKeyTold(items, s1.nodes, s2.fills, path, s1.top, s1.slen, s1'.nodes[s1.top].pool);
  }

  /** The item for an object or array that opens. */
  function NewItems(s1: S1, fills: seq<Fill>, path: seq<nat>, kind: Kind): seq<L.Item> {
    if kind == Str then [] else [L.Item(kind, Top(path), [], 0, Waiting(s1.nodes, fills, Top(path)))]
  }

  /** What a value that waits for another is like. */
  lemma SeekFacts(s1: S1, s2: S2, path: seq<nat>)
    requires Rel(s1, s2, path) && s1.f.seek
    ensures s1.top == Top(path) < |s1.nodes| == |s2.fills| && (path == [] || 0 <= Top(path))
    ensures forall i :: 0 <= i < |s1.nodes| ==> s1.nodes[i].parent < i
    ensures path != [] && s1.nodes[Top(path)].kind == Obj ==>
              |s2.fills[Top(path)].names| == |s2.fills[Top(path)].slots| + 1
  {
    if path != [] {
      TopFacts(s1, s2, path);
    }
  }

  lemma SaysNew(s1: S1, s2: S2, path: seq<nat>, items: seq<L.Item>, kind: Kind, last: nat, s1': S1, s2': S2)
    requires Rel(s1, s2, path) && Says(s1, s2, path, items) && !s1.f.str && (kind == Obj || kind == Arr || kind == Str)
    requires s1.f.seek && s2'.fills == s2.fills + [EMPTY]
    requires s1' == s1.(pos := last + 1, f := Flagged(s1.f, New(kind)),
                        nodes := s1.nodes + [Node(kind, s1.top, 0, 0, 0)], top := |s1.nodes|, slen := 0)
    ensures Says(s1', s2', path + [|s1.nodes|], items + NewItems(s1, s2.fills, path, kind))
  {
    SeekFacts(s1, s2, path);
    NewTold(items, s1.nodes, s2.fills, path, Node(kind, s1.top, 0, 0, 0), NewItems(s1, s2.fills, path, kind));
  }

  lemma RestNewAny(t: seq<byte>, s1: S1, s2: S2, path: seq<nat>, kind: Kind, last: nat, s1': S1)
    requires Rel(s1, s2, path) && s1.pos == last < |t| && !s1.f.str && !s1.f.done && s1.f.seek && !s1.f.esc
    requires Reason(t, s1.pos, s1.f, New(kind), last)
    requires s1' == s1.(pos := last + 1, f := Flagged(s1.f, New(kind)),
                        nodes := s1.nodes + [Node(kind, s1.top, 0, 0, 0)], top := |s1.nodes|, slen := 0)
    ensures Onward(t, s1, s2.fills, path, NewItems(s1, s2.fills, path, kind), s1', s2.fills + [EMPTY],
                   path + [|s1.nodes|])
  {
    BelowTop(path, s1.nodes);
    if kind == Str {
      RestNewString(t, s1, s2.fills, path, s1');
    } else {
      RestNew(t, s1, s2.fills, path, kind, s1');
    }
  }

  /** Where a complete value goes in the second pass. */
  function Slotted(fills: seq<Fill>, path: seq<nat>): seq<Fill> {
    if |path| <= 1 || !(path[|path| - 2] < |fills|) then fills
    else
      var par := path[|path| - 2];
      fills[par := fills[par].(slots := fills[par].slots + [Top(path)])]
  }

  lemma FinishSlots(final: seq<Node>, s: S2, fills: seq<Fill>, path: seq<nat>, nodes: seq<Node>, pos: nat)
    requires path != [] && Chain(path, nodes) && |nodes| == |fills| && Grows(nodes, final)
    ensures var r := Finish2(final, s, fills, Top(path), pos); r.Go2? ==> r.s.fills == Slotted(fills, path)
  {
    assert Link(path, nodes, |path| - 1);
    if |path| > 1 {
      assert Link(path, nodes, |path| - 2);
    }
  }

  /** Counting a complete value in its parent. */
  lemma DoneTold(items: seq<L.Item>, nodes: seq<Node>, fills: seq<Fill>, path: seq<nat>, slen: nat, num: Num, pos: nat,
                 s': S1)
    requires Told(items, nodes, fills, path) && path != [] && Chain(path, nodes) && Placed(nodes, fills, path)
    requires Finish1(slen, num, nodes, Top(path), pos) == Go(s')
    ensures Told(items, s'.nodes, Slotted(fills, path), Left(path)) && |s'.nodes| == |nodes|
    ensures !s'.f.str && !s'.f.esc
  {
    assert Link(path, nodes, |path| - 1);
    if |path| > 1 {
      assert Link(path, nodes, |path| - 2) && Earlier(fills, path, |path| - 2);
      FinishTold(items, nodes, fills, path, s'.nodes);
    }
  }

  /** The item for a string that ends. */
  function TextItem(s1: S1, fills: seq<Fill>, path: seq<nat>): L.Item
    requires 0 <= Top(path) < |fills|
  {
    L.Item(Str, Top(Outer(path)), fills[Top(path)].mem, 0, Waiting(s1.nodes, fills, Top(Outer(path))))
  }

  /** A string with its NUL is told. */
  lemma TextTold(items: seq<L.Item>, s1: S1, s2: S2, path: seq<nat>, nodes: seq<Node>)
    requires Rel(s1, s2, path) && Says(s1, s2, path, items) && InText(s1) && path != []
    requires nodes == s1.nodes[s1.top := s1.nodes[s1.top].(len := s1.slen)]
    ensures 0 <= Top(path) < |s2.fills|
    ensures Told(items + [TextItem(s1, s2.fills, path)], nodes, Write(s2, [0]), path) && Chain(path, nodes)
  {
    TopFacts(s1, s2, path);
    var top, it, fills' := s1.top, TextItem(s1, s2.fills, path), Write(s2, [0]);
    EmitTold(items, s1.nodes, s2.fills, path, top, [0]);
    SameChain(path, s1.nodes, nodes);
    SameTold(items, s1.nodes, fills', path, nodes);
    assert Link(path, s1.nodes, |path| - 1);
    TextKey(s1, s2, path, nodes);
    OneTold(items, nodes, fills', path, it);
  }

  /** What does not concern kinds, parents and values leaves what was told. */
  lemma SameTold(items: seq<L.Item>, nodes: seq<Node>, fills: seq<Fill>, path: seq<nat>, nodes': seq<Node>)
    requires Told(items, nodes, fills, path) && |nodes'| == |nodes|
    requires forall j :: 0 <= j < |nodes| ==>
               && nodes'[j].parent == nodes[j].parent && nodes'[j].kind == nodes[j].kind
               && nodes'[j].value == nodes[j].value
    ensures Told(items, nodes', fills, path)
  {
    assert InTold(0);
    ToldStays(items, nodes, fills, path, nodes', fills);
  }

  /** One item more. */
  lemma OneTold(items: seq<L.Item>, nodes: seq<Node>, fills: seq<Fill>, path: seq<nat>, it: L.Item)
    requires Told(items, nodes, fills, path) && |items| < |nodes|
    requires ItemOk(it, nodes[|items|], fills[|items|]) && KeyOk(it, nodes, fills, path, |items|)
    ensures Told(items + [it], nodes, fills, path)
  {
    assert InTold(0);
    forall i | 0 <= i < |items + [it]|
      ensures ItemOk((items + [it])[i], nodes[i], fills[i]) && KeyOk((items + [it])[i], nodes, fills, path, i)
    {
      if i < |items| {
        assert ItemOk(items[i], nodes[i], fills[i]) && KeyOk(items[i], nodes, fills, path, i);
      }
    }
  }

  /** The string has the name that waits for it. */
  lemma TextKey(s1: S1, s2: S2, path: seq<nat>, nodes: seq<Node>)
    requires Rel(s1, s2, path) && InText(s1) && path != [] && 0 <= s1.top < |s2.fills|
    requires nodes == s1.nodes[s1.top := s1.nodes[s1.top].(len := s1.slen)]
    ensures KeyOk(TextItem(s1, s2.fills, path), nodes, Write(s2, [0]), path, s1.top)
  {
    var it, fills' := TextItem(s1, s2.fills, path), Write(s2, [0]);
    assert Link(path, s1.nodes, |path| - 1);
    if |path| > 1 {
      var o := path[|path| - 2];
      assert Link(path, s1.nodes, |path| - 2) && Outer(path)[|path| - 2] == o;
      assert Matches(s1.nodes[o], s2.fills[o], HalfOf(path, s1.f.seek, s1.f.str, s1.slen, o));
      if s1.nodes[o].kind == Obj {
        assert path[|path| - 1] == s1.top;
        assert NamedBy(it.key, fills'[o], |fills'[o].slots|, s1.top, s1.top in path);
      }
    }
  }

  lemma SaysCloseString(t: seq<byte>, s1: S1, s2: S2, path: seq<nat>, items: seq<L.Item>, last: nat, s1': S1,
                        s2': S2)
    requires Rel(s1, s2, path) && Says(s1, s2, path, items) && s1.pos == last < |t| && InText(s1) && path != []
    requires Reason(t, s1.pos, s1.f, CloseString, last)
    requires var nodes := s1.nodes[s1.top := s1.nodes[s1.top].(len := s1.slen)];
             Finish1(s1.slen, s1.num, nodes, s1.top, last + 1) == Go(s1')
    requires s2'.fills == Slotted(Write(s2, [0]), path)
    ensures 0 <= Top(path) < |s2.fills| && Says(s1', s2', Left(path), items + [TextItem(s1, s2.fills, path)])
    ensures Onward(t, s1, s2.fills, path, [TextItem(s1, s2.fills, path)], s1', s2'.fills, Left(path))
  {
    var nodes := s1.nodes[s1.top := s1.nodes[s1.top].(len := s1.slen)];
    TextTold(items, s1, s2, path, nodes);
    SamePlaced(s1.nodes, s2.fills, path, nodes, Write(s2, [0]));
    DoneTold(items + [TextItem(s1, s2.fills, path)], nodes, Write(s2, [0]), path, s1.slen, s1.num, last + 1, s1');
    ChainAbove(path, s1.nodes);
    RestCloseString(t, s1, s2.fills, path, s1', s2'.fills);
  }

  lemma SaysClose(t: seq<byte>, s1: S1, s2: S2, path: seq<nat>, items: seq<L.Item>, last: nat, s1': S1, s2': S2)
    requires Rel(s1, s2, path) && Says(s1, s2, path, items) && s1.pos == last < |t| && !s1.f.str && !s1.f.done &&
             path != []
    requires Reason(t, s1.pos, s1.f, Close, last)
    requires Finish1(s1.slen, s1.num, s1.nodes, s1.top, last + 1) == Go(s1') && s2'.fills == Slotted(s2.fills, path)
    ensures Says(s1', s2', Left(path), items)
    ensures Onward(t, s1, s2.fills, path, [], s1', s2'.fills, Left(path))
  {
    DoneTold(items, s1.nodes, s2.fills, path, s1.slen, s1.num, last + 1, s1');
    ChainAbove(path, s1.nodes);
    RestClose(t, s1, s2.fills, path, s1', s2'.fills);
  }

  /** A literal or a number. */
  lemma SaysWhole(s1: S1, s2: S2, path: seq<nat>, items: seq<L.Item>, nd: Node, num: Num, pos: nat, it: L.Item, s1': S1,
                  s2': S2)
    requires Rel(s1, s2, path) && Says(s1, s2, path, items) && !s1.f.str && s1.f.seek
    requires nd.parent == s1.top && !Container(nd.kind) && nd.kind != Str && ItemOk(it, nd, EMPTY)
    requires it.key == Waiting(s1.nodes, s2.fills, Top(path))
    requires Finish1(s1.slen, num, s1.nodes + [nd], |s1.nodes|, pos) == Go(s1')
    requires s2'.fills == Slotted(s2.fills + [EMPTY], path + [|s1.nodes|])
    ensures Says(s1', s2', if path == [] then [|s1.nodes|] else path, items + [it])
  {
    BelowTop(path, s1.nodes);
    if path != [] {
      TopFacts(s1, s2, path);
    }
    NewTold(items, s1.nodes, s2.fills, path, nd, [it]);
    ChainLonger(path, s1.nodes, nd);
    NewPlaced(s1.nodes, s2.fills, path, nd);
    var longer := path + [|s1.nodes|];
    DoneTold(items + [it], s1.nodes + [nd], s2.fills + [EMPTY], longer, s1.slen, num, pos, s1');
    assert Left(longer) == if path == [] then [|s1.nodes|] else path;
  }

  // ---------- one iteration ----------

  /** An iteration tells some more values, and leaves the others to be told. */
  ghost predicate Carries(t: seq<byte>, s1: S1, s2: S2, path: seq<nat>, items: seq<L.Item>, s1': S1, s2': S2,
                          path': seq<nat>, more: seq<L.Item>)
    requires s1.pos <= |t| && s1'.pos <= |t|
  {
    Says(s1', s2', path', items + more) && Onward(t, s1, s2.fills, path, more, s1', s2'.fills, path')
  }

  lemma CarriesNone(t: seq<byte>, s1: S1, s2: S2, path: seq<nat>, items: seq<L.Item>, s1': S1, s2': S2,
                    path': seq<nat>)
    requires s1.pos <= |t| && s1'.pos <= |t| && Says(s1', s2', path', items)
    requires Onward(t, s1, s2.fills, path, [], s1', s2'.fills, path')
    ensures Carries(t, s1, s2, path, items, s1', s2', path', [])
  {
    assert items + [] == items;
  }

  /** The actions within a value. */
  lemma TellWithin(t: seq<byte>, s1: S1, s2: S2, path: seq<nat>, items: seq<L.Item>, act: Act, last: nat, b: byte,
                   final: seq<Node>, s1': S1, s2': S2)
    requires Rel(s1, s2, path) && Says(s1, s2, path, items) && s1.pos <= |t|
    requires !act.Number? && !act.CloseString? && !act.New? && !act.Literal? && !act.Close?
    requires Decide(t, s1.pos, s1.f, s1.slen, KindOf(s1.nodes, s1.top)) == Do(act, last) && last < |t|
    requires Apply1(s1, act, last, b) == Go(s1') && Apply2(t, final, s2, act, last) == Go2(s2')
    ensures s1'.pos <= |t| && Carries(t, s1, s2, path, items, s1', s2', path, [])
  {
    DecideFacts(t, s1.pos, s1.f, s1.slen, KindOf(s1.nodes, s1.top));
    Reasons(t, s1.pos, s1.f, s1.slen, KindOf(s1.nodes, s1.top), |path|);
    if act.Emit? {
      SaysEmit(t, s1, s2, path, items, act.bytes, last, s1', s2');
    } else if act.CloseKey? {
      SaysCloseKey(t, s1, s2, path, items, last, s1', s2');
    } else {
      SaysPass(t, s1, s2, path, items, act, last, s1', s2');
    }
    CarriesNone(t, s1, s2, path, items, s1', s2', path);
  }

  lemma TellNew(t: seq<byte>, s1: S1, s2: S2, path: seq<nat>, items: seq<L.Item>, act: Act, last: nat, b: byte,
                final: seq<Node>, s1': S1, s2': S2)
    requires Rel(s1, s2, path) && Says(s1, s2, path, items) && s1.pos <= |t| && act.New?
    requires Decide(t, s1.pos, s1.f, s1.slen, KindOf(s1.nodes, s1.top)) == Do(act, last) && last < |t|
    requires Apply1(s1, act, last, b) == Go(s1') && Apply2(t, final, s2, act, last) == Go2(s2')
    ensures s1'.pos <= |t|
    ensures Carries(t, s1, s2, path, items, s1', s2', path + [|s1.nodes|], NewItems(s1, s2.fills, path, act.kind))
  {
    DecideFacts(t, s1.pos, s1.f, s1.slen, KindOf(s1.nodes, s1.top));
    Reasons(t, s1.pos, s1.f, s1.slen, KindOf(s1.nodes, s1.top), |path|);
    SaysNew(s1, s2, path, items, act.kind, last, s1', s2');
    RestNewAny(t, s1, s2, path, act.kind, last, s1');
  }

  lemma TellCloseString(t: seq<byte>, s1: S1, s2: S2, path: seq<nat>, items: seq<L.Item>, last: nat, b: byte,
                        final: seq<Node>, s1': S1, s2': S2)
    returns (more: seq<L.Item>)
    requires Rel(s1, s2, path) && Says(s1, s2, path, items) && s1.pos <= |t|
    requires Decide(t, s1.pos, s1.f, s1.slen, KindOf(s1.nodes, s1.top)) == Do(CloseString, last) && last < |t|
    requires Apply1(s1, CloseString, last, b) == Go(s1') && Apply2(t, final, s2, CloseString, last) == Go2(s2')
    requires Grows(s1'.nodes, final)
    ensures s1'.pos <= |t| && Carries(t, s1, s2, path, items, s1', s2', Left(path), more)
  {
    DecideFacts(t, s1.pos, s1.f, s1.slen, KindOf(s1.nodes, s1.top));
    Reasons(t, s1.pos, s1.f, s1.slen, KindOf(s1.nodes, s1.top), |path|);
    var nodes := s1.nodes[s1.top := s1.nodes[s1.top].(len := s1.slen)];
    SameChain(path, s1.nodes, nodes);
    FinishGrows(s1.slen, s1.num, nodes, s1.top, last + 1);
    FinishSlots(final, s2.(pos := last + 1, f := Flagged(s2.f, CloseString)), Write(s2, [0]), path, nodes, last + 1);
    SaysCloseString(t, s1, s2, path, items, last, s1', s2');
    more := [TextItem(s1, s2.fills, path)];
  }

  lemma TellClose(t: seq<byte>, s1: S1, s2: S2, path: seq<nat>, items: seq<L.Item>, last: nat, b: byte,
                  final: seq<Node>, s1': S1, s2': S2)
    requires Rel(s1, s2, path) && Says(s1, s2, path, items) && s1.pos <= |t|
    requires Decide(t, s1.pos, s1.f, s1.slen, KindOf(s1.nodes, s1.top)) == Do(Close, last) && last < |t|
    requires Apply1(s1, Close, last, b) == Go(s1') && Apply2(t, final, s2, Close, last) == Go2(s2')
    requires Grows(s1'.nodes, final)
    ensures s1'.pos <= |t| && Carries(t, s1, s2, path, items, s1', s2', Left(path), [])
  {
    DecideFacts(t, s1.pos, s1.f, s1.slen, KindOf(s1.nodes, s1.top));
    Reasons(t, s1.pos, s1.f, s1.slen, KindOf(s1.nodes, s1.top), |path|);
    FinishGrows(s1.slen, s1.num, s1.nodes, s1.top, last + 1);
    FinishSlots(final, s2.(pos := last + 1, f := Flagged(s2.f, Close)), s2.fills, path, s1.nodes, last + 1);
    SaysClose(t, s1, s2, path, items, last, s1', s2');
    CarriesNone(t, s1, s2, path, items, s1', s2', Left(path));
  }

  /** A value that is complete at once, given how the text goes on after it. */
  lemma TellWhole(t: seq<byte>, s1: S1, s2: S2, path: seq<nat>, items: seq<L.Item>, nd: Node, num: Num, pos: nat,
                  it: L.Item, mid: S2, final: seq<Node>, s1': S1, s2': S2)
    requires Rel(s1, s2, path) && Says(s1, s2, path, items) && s1.pos < |t| && pos <= |t|
    requires !s1.f.str && !s1.f.done && s1.f.seek
    requires nd.parent == s1.top && !Container(nd.kind) && nd.kind != Str && ItemOk(it, nd, EMPTY)
    requires it.key == Waiting(s1.nodes, s2.fills, Top(path))
    requires Continues(t, PlaceOf(s1, s2.fills, path), [it], Place(pos, OpenOf(path, s1.nodes), None, |s1.nodes| + 1))
    requires Finish1(s1.slen, num, s1.nodes + [nd], |s1.nodes|, pos) == Go(s1')
    requires Finish2(final, mid, s2.fills + [EMPTY], |s1.nodes|, pos) == Go2(s2') && Grows(s1'.nodes, final)
    ensures s1'.pos <= |t|
    ensures Carries(t, s1, s2, path, items, s1', s2', if path == [] then [|s1.nodes|] else path, [it])
  {
    ChainLonger(path, s1.nodes, nd);
    FinishGrows(s1.slen, num, s1.nodes + [nd], |s1.nodes|, pos);
    FinishSlots(final, mid, s2.fills + [EMPTY], path + [|s1.nodes|], s1.nodes + [nd], pos);
    SaysWhole(s1, s2, path, items, nd, num, pos, it, s1', s2');
    BelowTop(path, s1.nodes);
    RestWhole(t, s1, s2.fills, path, nd, num, pos, it, s1', s2'.fills);
  }

  lemma {:induction false} NextLiteral(t: seq<byte>, p: nat, path: seq<nat>, nodes: seq<Node>, key: Option<seq<byte>>,
                                       f: Flags, kind: Kind,
                                       v: int, last: nat)
    returns (it: L.Item)
    requires p < |t| && Reason(t, p, f, Literal(kind, v), last)
    ensures it == L.Item(kind, Top(path), [], v, key)
    ensures Continues(t, Place(p, OpenOf(path, nodes), key, |nodes|), [it],
                      Place(last + 1, OpenOf(path, nodes), None, |nodes| + 1))
  {
    ScanLiteral(t, p, OpenOf(path, nodes), key, |nodes|, f, kind, v, last);
    OpenTop(path, nodes);
    it := L.Item(kind, Top(path), [], v, key);
  }

  lemma TellLiteral(t: seq<byte>, s1: S1, s2: S2, path: seq<nat>, items: seq<L.Item>, kind: Kind, v: int, last: nat,
                    final: seq<Node>, s1': S1, s2': S2)
    returns (more: seq<L.Item>)
    requires Rel(s1, s2, path) && Says(s1, s2, path, items) && s1.pos < |t| && (kind == Bool || kind == Null)
    requires Reason(t, s1.pos, s1.f, Literal(kind, v), last) && last < |t| && !s1.f.str && !s1.f.done && s1.f.seek
    requires Finish1(s1.slen, s1.num, s1.nodes + [Node(kind, s1.top, 0, 0, v)], |s1.nodes|, last + 1) == Go(s1')
    requires Finish2(final, s2.(pos := last + 1), s2.fills + [EMPTY], |s1.nodes|, last + 1) == Go2(s2')
    requires Grows(s1'.nodes, final)
    ensures s1'.pos <= |t|
    ensures Carries(t, s1, s2, path, items, s1', s2', if path == [] then [|s1.nodes|] else path, more)
  {
    var key := Waiting(s1.nodes, s2.fills, Top(path));
    var it := NextLiteral(t, s1.pos, path, s1.nodes, key, s1.f, kind, v, last);
    TellWhole(t, s1, s2, path, items, Node(kind, s1.top, 0, 0, v), s1.num, last + 1, it, s2.(pos := last + 1), final,
              s1', s2');
    more := [it];
  }

  lemma {:induction false} NextNumber(t: seq<byte>, p: nat, path: seq<nat>, nodes: seq<Node>, key: Option<seq<byte>>,
                                      q: nat)
    returns (it: L.Item)
    requires p < |t| && (Digit(t[p]) || t[p] == 45) && q == Skip(t, p) && p < q
    ensures it.kind == (if L.IsDouble(t, p, q) then Dbl else Int) && it.parent == Top(path) && it.key == key
    ensures it.kind == Int ==> it.value == L.IntegerAt(t, p, q)
    ensures Continues(t, Place(p, OpenOf(path, nodes), key, |nodes|), [it],
                      Place(q, OpenOf(path, nodes), None, |nodes| + 1))
  {
    ScanNumber(t, p, OpenOf(path, nodes), key, |nodes|, q);
    OpenTop(path, nodes);
    var double := L.IsDouble(t, p, q);
    it := L.Item(if double then Dbl else Int, Top(path), [], if double then 0 else L.IntegerAt(t, p, q), key);
  }

  lemma TellNumber(t: seq<byte>, s1: S1, s2: S2, path: seq<nat>, items: seq<L.Item>, kind: Kind, num: Num,
                   q: nat, mid: S2, final: seq<Node>, s1': S1, s2': S2)
    returns (more: seq<L.Item>)
    requires Rel(s1, s2, path) && Says(s1, s2, path, items) && s1.pos < |t| && q == Skip(t, s1.pos) && s1.pos < q
    requires (Digit(t[s1.pos]) || t[s1.pos] == 45) && !s1.f.str && !s1.f.done && s1.f.seek
    requires kind == if L.IsDouble(t, s1.pos, q) then Dbl else Int
    requires kind == Int ==> ValueOf(kind, num) == L.IntegerAt(t, s1.pos, q)
    requires Finish1(s1.slen, num, s1.nodes + [Node(kind, s1.top, 0, 0, ValueOf(kind, num))], |s1.nodes|, q) == Go(s1')
    requires Finish2(final, mid, s2.fills + [EMPTY], |s1.nodes|, q) == Go2(s2') && Grows(s1'.nodes, final)
    ensures s1'.pos <= |t|
    ensures Carries(t, s1, s2, path, items, s1', s2', if path == [] then [|s1.nodes|] else path, more)
  {
    var it := NextNumber(t, s1.pos, path, s1.nodes, Waiting(s1.nodes, s2.fills, Top(path)), q);
    TellWhole(t, s1, s2, path, items, Node(kind, s1.top, 0, 0, ValueOf(kind, num)), num, q, it, mid, final, s1', s2');
    more := [it];
  }

  /** One iteration outside numbers. */
  lemma TellAct(t: seq<byte>, s1: S1, s2: S2, path: seq<nat>, items: seq<L.Item>, act: Act, last: nat, b: byte,
                final: seq<Node>, s1': S1, s2': S2)
    returns (more: seq<L.Item>)
    requires Rel(s1, s2, path) && Says(s1, s2, path, items) && s1.pos <= |t| && !act.Number?
    requires Decide(t, s1.pos, s1.f, s1.slen, KindOf(s1.nodes, s1.top)) == Do(act, last)
    requires Apply1(s1, act, last, b) == Go(s1') && last <= |t| && Apply2(t, final, s2, act, last) == Go2(s2')
    requires Grows(s1'.nodes, final)
    ensures s1'.pos <= |t| && Carries(t, s1, s2, path, items, s1', s2', NextPath(act, path, |s1.nodes|), more)
  {
    if act.New? {
      TellNew(t, s1, s2, path, items, act, last, b, final, s1', s2');
      more := NewItems(s1, s2.fills, path, act.kind);
    } else if act.CloseString? {
      more := TellCloseString(t, s1, s2, path, items, last, b, final, s1', s2');
    } else if act.Close? {
      TellClose(t, s1, s2, path, items, last, b, final, s1', s2');
      more := [];
    } else if act.Literal? {
      DecideFacts(t, s1.pos, s1.f, s1.slen, KindOf(s1.nodes, s1.top));
      Reasons(t, s1.pos, s1.f, s1.slen, KindOf(s1.nodes, s1.top), |path|);
      more := TellLiteral(t, s1, s2, path, items, act.kind, act.value, last, final, s1', s2');
    } else {
      TellWithin(t, s1, s2, path, items, act, last, b, final, s1', s2');
      more := [];
    }
  }

  /** One step of both passes. */
  lemma TellEither(t: seq<byte>, s1: S1, s2: S2, path: seq<nat>, items: seq<L.Item>, act: Act, last: nat)
    returns (s1': S1, s2': S2, path': seq<nat>, more: seq<L.Item>)
    requires Rel(s1, s2, path) && Says(s1, s2, path, items) && s1.pos <= |t| && !InNumber(s1) && Run1(t, s1).Some?
    requires Decide(t, s1.pos, s1.f, s1.slen, KindOf(s1.nodes, s1.top)) == Do(act, last)
    requires Decide(t, s2.pos, s2.f, s2.slen, KindOf(Run1(t, s1).value, s2.top)) == Do(act, last)
    ensures Rel(s1', s2', path') && !InNumber(s1') && s1.pos < s1'.pos <= |t| && Run1(t, s1') == Run1(t, s1)
    ensures Run2(t, Run1(t, s1).value, s2') == Run2(t, Run1(t, s1).value, s2)
    ensures Carries(t, s1, s2, path, items, s1', s2', path', more)
  {
    var final := Run1(t, s1).value;
    if act.Number? {
      var kind, num;
      s1', s2', path', kind, num := SimNumber(t, s1, s2, path, last);
      RunGrows(t, s1');
      DecideFacts(t, s1.pos, s1.f, s1.slen, KindOf(s1.nodes, s1.top));
      Reasons(t, s1.pos, s1.f, s1.slen, KindOf(s1.nodes, s1.top), |path|);
      more := TellNumber(t, s1, s2, path, items, kind, num, Skip(t, last),
                         s2.(pos := last + 1, f := Flagged(s2.f, Number)), final, s1', s2');
    } else {
      s1', s2', path' := SimOne(t, s1, s2, path, act, last);
      RunGrows(t, s1');
      more := TellAct(t, s1, s2, path, items, act, last, At(t, s1.pos), final, s1', s2');
    }
    Progress2(t, final, s2);
    assert Step2(t, final, s2) == Go2(s2');
  }

  // ---------- the whole text ----------

  /** The name of value i: in an object it is the name of the slot that holds the value, elsewhere there is none. */
  ghost predicate NameOk(it: L.Item, nodes: seq<Node>, fills: seq<Fill>, i: nat)
    requires i < |nodes| == |fills|
  {
    var o := nodes[i].parent;
    if 0 <= o < |nodes| && nodes[o].kind == Obj then
      exists k :: 0 <= k < |fills[o].slots| && fills[o].slots[k] == i && it.key == Some(NameAt(fills[o], k))
    else it.key == None
  }

  /** The values are those of the items. */
  ghost predicate Meant(items: seq<L.Item>, nodes: seq<Node>, fills: seq<Fill>) {
    && |items| == |nodes| == |fills|
    && (forall i :: 0 <= i < |items| ==> ItemOk(items[i], nodes[i], fills[i]))
    && (forall i :: 0 <= i < |items| ==> NameOk(items[i], nodes, fills, i))
    && forall i :: 0 <= i < |fills| ==> NamesOk(fills[i])
  }

  lemma AllMeant(t: seq<byte>, s1: S1, s2: S2, path: seq<nat>, items: seq<L.Item>)
    requires Rel(s1, s2, path) && Says(s1, s2, path, items) && s1.f.done && !s1.f.str
    requires s1.pos <= |t| && At(t, s1.pos) == 0
    ensures Meant(items + Rest(t, s1, s2.fills, path), s1.nodes, s2.fills)
  {
    assert InTold(0);
    assert items + Rest(t, s1, s2.fills, path) == items;
    var nodes, fills := s1.nodes, s2.fills;
    assert Link(path, nodes, 0);
    forall i | 0 <= i < |items|
      ensures NameOk(items[i], nodes, fills, i)
    {
      assert KeyOk(items[i], nodes, fills, path, i);
      var o := nodes[i].parent;
      if 0 <= o < |nodes| && nodes[o].kind == Obj {
        var k :| NamedBy(items[i].key, fills[o], k, i, i in path);
        assert i !in path;
      }
    }
  }

  lemma CarriesOn(t: seq<byte>, s1: S1, s2: S2, path: seq<nat>, items: seq<L.Item>, s1': S1, s2': S2, path': seq<nat>,
                  more: seq<L.Item>)
    requires s1.pos <= |t| && s1'.pos <= |t| && Carries(t, s1, s2, path, items, s1', s2', path', more)
    ensures items + more + Rest(t, s1', s2'.fills, path') == items + Rest(t, s1, s2.fills, path)
    ensures Says(s1', s2', path', items + more)
  {
    assert InScan(0);
    Associative(items, more, Rest(t, s1', s2'.fills, path'));
    assert items + [] == items;
  }

  lemma Associative<T>(a: seq<T>, b: seq<T>, c: seq<T>)
    ensures a + b + c == a + (b + c)
  {
  }

  /** From states that agree, both passes together make of the rest of the text what it says. */
  lemma {:induction false} Tell(t: seq<byte>, s1: S1, s2: S2, path: seq<nat>, items: seq<L.Item>)
    requires Rel(s1, s2, path) && Says(s1, s2, path, items) && s1.pos <= |t| && !InNumber(s1) && Run1(t, s1).Some?
    ensures var r := Run2(t, Run1(t, s1).value, s2);
            r.Some? && Meant(items + Rest(t, s1, s2.fills, path), Run1(t, s1).value, r.value)
    decreases |t| - s1.pos
  {
    SameDecision(t, s1, s2, path);
    var c := Decide(t, s1.pos, s1.f, s1.slen, KindOf(s1.nodes, s1.top));
    if c.Done? {
      AllMeant(t, s1, s2, path, items);
    } else if c.Do? {
      var s1', s2', path', more := TellEither(t, s1, s2, path, items, c.act, c.last);
      CarriesOn(t, s1, s2, path, items, s1', s2', path', more);
      Tell(t, s1', s2', path', items + more);
    }
  }

  /** An accepted text has exactly the values that it says, with their kinds, parents, names, texts and numbers. */
  lemma ParsedAsSaid(t: seq<byte>)
    requires Run1(t, INIT1).Some?
    ensures Run2(t, Run1(t, INIT1).value, INIT2).Some?
    ensures Meant(L.Values(t), Run1(t, INIT1).value, Run2(t, Run1(t, INIT1).value, INIT2).value)
  {
    Tell(t, INIT1, INIT2, [], []);
    assert OpenOf([], INIT1.nodes) == [];
    assert [] + L.Values(t) == L.Values(t);
  }
}
