/**
 If the first pass of json_parse_ex accepts a text, the second visits the same values in the same order and fills
 each of them exactly: every slot, every name, every byte that was counted, and no more.
 */
module JsonTwoPass {
  import opened Bytes
  import opened JsonText
  import opened JsonPass
  import L = JsonLex

  // ---------- how values grow in the first pass ----------

  /** Only a number changes its kind, to another kind of number. */
  predicate SameKind(a: Kind, b: Kind) {
    a == b || (Numeric(Some(a)) && Numeric(Some(b)))
  }

  predicate Grows(a: seq<Node>, b: seq<Node>) {
    |a| <= |b| && forall i :: 0 <= i < |a| ==> b[i].parent == a[i].parent && SameKind(a[i].kind, b[i].kind)
  }

  lemma FinishGrows(slen: nat, num: Num, nodes: seq<Node>, top: int, pos: nat)
    ensures var r := Finish1(slen, num, nodes, top, pos); r.Go? ==> Grows(nodes, r.s.nodes)
  {
  }

  lemma ApplyGrows(s: S1, act: Act, last: nat, b: byte)
    ensures Apply1(s, act, last, b).Go? ==> Grows(s.nodes, Apply1(s, act, last, b).s.nodes)
  {
    match act
    case CloseString =>
      if 0 <= s.top < |s.nodes| {
        FinishGrows(s.slen, s.num, s.nodes[s.top := s.nodes[s.top].(len := s.slen)], s.top, last + 1);
      }
    case Literal(kind, v) => FinishGrows(s.slen, s.num, s.nodes + [Node(kind, s.top, 0, 0, v)], |s.nodes|, last + 1);
    case Close => FinishGrows(s.slen, s.num, s.nodes, s.top, last + 1);
    case _ =>
  }

  lemma StepGrows(t: seq<byte>, s: S1)
    requires s.pos <= |t|
    ensures Step1(t, s).Go? ==> Grows(s.nodes, Step1(t, s).s.nodes)
  {
    if InNumber(s) {
      FinishGrows(s.slen, s.num, Valued(s), s.top, s.pos);
    } else {
      var c := Decide(t, s.pos, s.f, s.slen, KindOf(s.nodes, s.top));
      if c.Do? {
        ApplyGrows(s, c.act, c.last, At(t, s.pos));
      }
    }
  }

  /** What an accepting first pass ends with extends what it has at any time. */
  lemma {:induction false} RunGrows(t: seq<byte>, s: S1)
    requires s.pos <= |t| && Run1(t, s).Some?
    ensures Grows(s.nodes, Run1(t, s).value)
    decreases |t| - s.pos, Rank(s)
  {
    var r := Step1(t, s);
    if r.Go? {
      Progress1(t, s);
      StepGrows(t, s);
      RunGrows(t, r.s);
    }
  }

  // ---------- numbers ----------

  function WithKind(nodes: seq<Node>, i: nat, kind: Kind): seq<Node>
    requires i < |nodes|
  {
    nodes[i := nodes[i].(kind := kind)]
  }

  function Numbered(nodes: seq<Node>, i: nat, kind: Kind, value: int): seq<Node>
    requires i < |nodes|
  {
    nodes[i := nodes[i].(kind := kind, value := value)]
  }

  /** The digits of an integer that starts at p have been read so far. */
  predicate SoFar(t: seq<byte>, s: S1, p: nat)
    requires s.pos <= |t| && InNumber(s)
  {
    p <= s.pos && (s.nodes[s.top].kind == Int ==> !s.num.e && s.num.integer == L.Decimal(t, p, s.pos))
  }

  /** A number ends in both passes at the same place: the first pass goes on from the end that the second finds. It
      is then a double if it has a point or an exponent, and otherwise an integer with its decimal value. */
  lemma {:induction false} NumberRun(t: seq<byte>, s: S1, p: nat) returns (kind: Kind, num: Num, after: S1)
    requires s.pos <= |t| && InNumber(s) && Run1(t, s).Some? && SoFar(t, s, p)
    ensures kind == if s.nodes[s.top].kind == Dbl || L.IsDouble(t, s.pos, Skip(t, s.pos)) then Dbl else Int
    ensures num.neg == s.num.neg && (kind == Int ==> num.integer == L.Decimal(t, p, Skip(t, s.pos)))
    ensures Finish1(s.slen, num, Numbered(s.nodes, s.top, kind, ValueOf(kind, num)), s.top, Skip(t, s.pos)) == Go(after)
    ensures s.pos <= after.pos <= |t| && Run1(t, after) == Run1(t, s) && Rank(after) == 0
    decreases |t| - s.pos, Rank(s)
  {
    Progress1(t, s);
    match OnNumber(At(t, s.pos), s.nodes[s.top].kind, s.num)
    case NumMore(k, n) =>
      var s' := MoreDigits(t, s, k, n);
      DigitRead(t, s, p, k, n, s');
      kind, num, after := NumberRun(t, s', p);
      assert Numbered(s'.nodes, s.top, kind, ValueOf(kind, num)) == Numbered(s.nodes, s.top, kind, ValueOf(kind, num));
    case NumEnd =>
      kind, num := s.nodes[s.top].kind, s.num;
      after := LastDigit(t, s);
    case NumFail =>
  }

  /** One more character of a number. */
  lemma DigitRead(t: seq<byte>, s: S1, p: nat, k: Kind, n: Num, s': S1)
    requires s.pos < |t| && InNumber(s) && SoFar(t, s, p) && InNumber(s') && s'.pos == s.pos + 1 <= |t| && s'.num == n
    requires OnNumber(At(t, s.pos), s.nodes[s.top].kind, s.num) == NumMore(k, n) && s'.nodes[s'.top].kind == k
    requires Skip(t, s.pos) == Skip(t, s'.pos)
    ensures SoFar(t, s', p) && n.neg == s.num.neg
    ensures s.nodes[s.top].kind == Dbl || L.IsDouble(t, s.pos, Skip(t, s.pos)) <==>
            k == Dbl || L.IsDouble(t, s'.pos, Skip(t, s'.pos))
  {
    var q := Skip(t, s'.pos);
    assert L.IsDouble(t, s.pos, q) <==>
           t[s.pos] == 46 || t[s.pos] == 101 || t[s.pos] == 69 || L.IsDouble(t, s.pos + 1, q);
  }

  lemma MoreDigits(t: seq<byte>, s: S1, k: Kind, n: Num) returns (s': S1)
    requires s.pos <= |t| && InNumber(s) && OnNumber(At(t, s.pos), s.nodes[s.top].kind, s.num) == NumMore(k, n)
    ensures s' == S1(s.pos + 1, s.f, s.top, s.slen, n, WithKind(s.nodes, s.top, k)) && s'.pos <= |t|
    ensures Run1(t, s) == Run1(t, s') && InNumber(s') && Skip(t, s.pos) == Skip(t, s'.pos)
  {
    s' := S1(s.pos + 1, s.f, s.top, s.slen, n, WithKind(s.nodes, s.top, k));
    assert Step1(t, s) == Go(s');
  }

  lemma LastDigit(t: seq<byte>, s: S1) returns (after: S1)
    requires s.pos <= |t| && InNumber(s)
    requires OnNumber(At(t, s.pos), s.nodes[s.top].kind, s.num) == NumEnd && Run1(t, s).Some?
    ensures var kind := s.nodes[s.top].kind; Valued(s) == Numbered(s.nodes, s.top, kind, ValueOf(kind, s.num))
    ensures Finish1(s.slen, s.num, Valued(s), s.top, s.pos) == Go(after) && after.pos == s.pos && Rank(after) == 0
    ensures Run1(t, after) == Run1(t, s) && Skip(t, s.pos) == s.pos
  {
    after := Step1(t, s).s;
    FinishProgress(s.slen, s.num, Valued(s), s.top, s.pos);
    NumberStops(t, s, after);
  }

  lemma NumberStops(t: seq<byte>, s: S1, after: S1)
    requires s.pos <= |t| && InNumber(s)
    requires Finish1(s.slen, s.num, Valued(s), s.top, s.pos) == Go(after) && after.pos == s.pos
    ensures NumberChar(At(t, s.pos)) ==> Step1(t, after) == Fail
  {
    var par := s.nodes[s.top].parent;
    if NumberChar(At(t, s.pos)) && par >= 0 {
      NumberEnds(t, s.pos, s.slen, Some(s.nodes[par].kind));
    }
  }

  // ---------- the two passes side by side ----------

  /** The values that are not complete, from the root to the current one. */
  predicate Chain(path: seq<nat>, nodes: seq<Node>) {
    Rising(path) && forall k :: 0 <= k < |path| ==> Link(path, nodes, k)
  }

  predicate Rising(path: seq<nat>) {
    forall j, k :: 0 <= j < k < |path| ==> path[j] < path[k]
  }

  /** The k-th value has the one before it as its parent, and holds others unless it is the last. */
  predicate Link(path: seq<nat>, nodes: seq<Node>, k: nat)
    requires k < |path|
  {
    && path[k] < |nodes| && nodes[path[k]].parent == (if k == 0 then -1 else path[k - 1])
    && (k < |path| - 1 ==> Container(nodes[path[k]].kind))
  }

  function Top(path: seq<nat>): int {
    if path == [] then -1 else path[|path| - 1]
  }

  /** What a value still holds half done: a name without its value, and part of a string. */
  datatype Half = Half(owes: bool, part: Option<nat>)

  const WHOLE := Half(false, None)

  /** Every value on the way to the current one owes the value under way. */
  function HalfOf(path: seq<nat>, seek: bool, str: bool, slen: nat, i: nat): Half {
    Half(if i == Top(path) then seek else i in path, if i == Top(path) && str then Some(slen) else None)
  }

  /** The second pass has written what the first has counted. */
  predicate Matches(nd: Node, fl: Fill, h: Half) {
    match nd.kind
    case Arr => |fl.slots| == nd.len && fl.names == [] && fl.mem == []
    case Obj =>
      && |fl.slots| == nd.len && |fl.names| == nd.len + (if h.owes then 1 else 0)
      && |fl.mem| == nd.pool + (if h.part.Some? then h.part.value else 0)
    case Str => fl.slots == [] && fl.names == [] && |fl.mem| == if h.part.Some? then h.part.value else nd.len + 1
    case _ => fl == EMPTY
  }

  ghost predicate AllMatch(nodes: seq<Node>, fills: seq<Fill>, path: seq<nat>, seek: bool, str: bool, slen: nat) {
    |fills| == |nodes|
    && forall i :: 0 <= i < |nodes| ==> Matches(nodes[i], fills[i], HalfOf(path, seek, str, slen, i))
  }

  /** The slots of a value hold values that have it as their parent, in the order of their numbers. */
  predicate SlotsOk(nodes: seq<Node>, slots: seq<nat>, i: nat) {
    Rising(slots) && forall k :: 0 <= k < |slots| ==> slots[k] < |nodes| && nodes[slots[k]].parent == i
  }

  /** A value is under way, or in a slot of its parent. */
  predicate Settled(nodes: seq<Node>, fills: seq<Fill>, path: seq<nat>, i: nat)
    requires i < |nodes|
  {
    i in path || (0 <= nodes[i].parent < |fills| && i in fills[nodes[i].parent].slots)
  }

  /** What is in the slots of a value on the way came before the next one on the way. */
  predicate Earlier(fills: seq<Fill>, path: seq<nat>, k: nat)
    requires k + 1 < |path|
  {
    path[k] < |fills| && forall j :: 0 <= j < |fills[path[k]].slots| ==> fills[path[k]].slots[j] < path[k + 1]
  }

  ghost predicate Placed(nodes: seq<Node>, fills: seq<Fill>, path: seq<nat>) {
    && |fills| == |nodes|
    && (forall i :: 0 <= i < |nodes| ==>
      nodes[i].parent < i && SlotsOk(nodes, fills[i].slots, i) && Settled(nodes, fills, path, i))
    && forall k :: 0 <= k < |path| - 1 ==> Earlier(fills, path, k)
  }

  lemma SamePlaced(nodes: seq<Node>, fills: seq<Fill>, path: seq<nat>, nodes': seq<Node>, fills': seq<Fill>)
    requires Placed(nodes, fills, path) && |nodes'| == |nodes| && |fills'| == |fills|
    requires forall i :: 0 <= i < |nodes| ==> nodes'[i].parent == nodes[i].parent && fills'[i].slots == fills[i].slots
    ensures Placed(nodes', fills', path)
  {
    forall i | 0 <= i < |nodes|
      ensures nodes'[i].parent < i && SlotsOk(nodes', fills'[i].slots, i) && Settled(nodes', fills', path, i)
    {
      assert SlotsOk(nodes, fills[i].slots, i) && Settled(nodes, fills, path, i);
    }
    forall k | 0 <= k < |path| - 1
      ensures Earlier(fills', path, k)
    {
      assert Earlier(fills, path, k);
    }
  }

  lemma NewPlaced(nodes: seq<Node>, fills: seq<Fill>, path: seq<nat>, nd: Node)
    requires Placed(nodes, fills, path) && Chain(path, nodes) && nd.parent < |nodes|
    ensures Placed(nodes + [nd], fills + [EMPTY], path + [|nodes|])
  {
    var more, longer := fills + [EMPTY], path + [|nodes|];
    forall i | 0 <= i <= |nodes|
      ensures (nodes + [nd])[i].parent < i && SlotsOk(nodes + [nd], more[i].slots, i)
      ensures Settled(nodes + [nd], more, longer, i)
    {
      if i < |nodes| {
        assert SlotsOk(nodes, fills[i].slots, i) && Settled(nodes, fills, path, i);
      } else {
        assert longer[|path|] == i;
      }
    }
    forall k | 0 <= k < |longer| - 1
      ensures Earlier(more, longer, k)
    {
      assert Link(path, nodes, k);
      if k < |path| - 1 {
        assert Earlier(fills, path, k);
      } else {
        assert SlotsOk(nodes, fills[path[k]].slots, path[k]);
      }
    }
  }

  lemma FinishPlaced(nodes: seq<Node>, fills: seq<Fill>, path: seq<nat>, par: nat, nodes': seq<Node>)
    requires Placed(nodes, fills, path) && Chain(path, nodes)
    requires |path| > 1 && par == path[|path| - 2] && |nodes'| == |nodes|
    requires forall i :: 0 <= i < |nodes| ==> nodes'[i].parent == nodes[i].parent
    requires par < |fills|
    ensures Placed(nodes', fills[par := fills[par].(slots := fills[par].slots + [Top(path)])], path[..|path| - 1])
  {
    var top, shorter := path[|path| - 1], path[..|path| - 1];
    var after := fills[par := fills[par].(slots := fills[par].slots + [top])];
    assert Link(path, nodes, |path| - 1) && Earlier(fills, path, |path| - 2);
    forall i | 0 <= i < |nodes|
      ensures nodes'[i].parent < i && SlotsOk(nodes', after[i].slots, i) && Settled(nodes', after, shorter, i)
    {
      assert SlotsOk(nodes, fills[i].slots, i) && Settled(nodes, fills, path, i);
      SettledStill(nodes, fills, path, i, par, nodes');
    }
    forall k | 0 <= k < |shorter| - 1
      ensures Earlier(after, shorter, k)
    {
      assert Earlier(fills, path, k);
    }
  }

  lemma SettledStill(nodes: seq<Node>, fills: seq<Fill>, path: seq<nat>, i: nat, par: nat, nodes': seq<Node>)
    requires i < |nodes| == |nodes'| && Settled(nodes, fills, path, i) && nodes'[i].parent == nodes[i].parent
    requires |path| > 1 && par < |fills| && path[|path| - 1] < |nodes| && nodes[path[|path| - 1]].parent == par
    ensures Settled(nodes', fills[par := fills[par].(slots := fills[par].slots + [path[|path| - 1]])],
            path[..|path| - 1], i)
  {
    var top := path[|path| - 1];
    assert path == path[..|path| - 1] + [top];
    assert (fills[par].slots + [top])[|fills[par].slots|] == top;
  }

  /** The flags agree with the kind of the current value. */
  predicate FlagsOk(f: Flags, kind: Option<Kind>, depth: nat) {
    && (f.str ==> !f.seek && !f.done && (kind == Some(Str) || kind == Some(Obj)))
    && (f.done ==> !f.seek && depth == 1)
    && (f.seek ==> kind == None || kind == Some(Arr) || kind == Some(Obj))
    && (!f.str && !f.done && !f.seek ==> kind == Some(Obj))
  }

  ghost predicate Rel(s1: S1, s2: S2, path: seq<nat>) {
    && s2 == S2(s1.pos, s1.f, s1.top, s1.slen, s2.fills) && s1.top == Top(path)
    && Chain(path, s1.nodes) && FlagsOk(s1.f, KindOf(s1.nodes, s1.top), |path|)
    && AllMatch(s1.nodes, s2.fills, path, s1.f.seek, s1.f.str, s1.slen) && Placed(s1.nodes, s2.fills, path)
  }

  /** A complete value counts in its parent, in both passes. */
  lemma FinishBoth(slen: nat, num: Num, nodes: seq<Node>, s2: S2, fills: seq<Fill>, path: seq<nat>, pos: nat,
                   final: seq<Node>)
    requires path != [] && Chain(path, nodes) && AllMatch(nodes, fills, path, false, false, slen) && s2.slen == slen
    requires Placed(nodes, fills, path)
    requires var r := Finish1(slen, num, nodes, Top(path), pos); r.Go? && Grows(r.s.nodes, final)
    ensures var r, r2 := Finish1(slen, num, nodes, Top(path), pos), Finish2(final, s2, fills, Top(path), pos);
            r2.Go2? && Rel(r.s, r2.s, if |path| == 1 then path else path[..|path| - 1])
  {
    var r := Finish1(slen, num, nodes, Top(path), pos);
    assert Link(path, nodes, |path| - 1);
    var top := path[|path| - 1];
    var par := nodes[top].parent;
    assert r.s.nodes[top].parent == par && final[top].parent == par;
    if |path| > 1 {
      assert Link(path, nodes, |path| - 1) && Link(path, nodes, |path| - 2);
      assert r.s.nodes[par].kind == nodes[par].kind == final[par].kind;
      assert Matches(nodes[par], fills[par], HalfOf(path, false, false, slen, par));
      FinishMatch(nodes, fills, path, par, slen);
      ChainShorter(path, nodes, r.s.nodes);
      FinishPlaced(nodes, fills, path, par, r.s.nodes);
    }
  }

  lemma ChainShorter(path: seq<nat>, nodes: seq<Node>, after: seq<Node>)
    requires |path| > 1 && Chain(path, nodes) && |after| == |nodes|
    requires forall i :: 0 <= i < |nodes| ==> after[i].parent == nodes[i].parent && after[i].kind == nodes[i].kind
    ensures Chain(path[..|path| - 1], after) && Top(path[..|path| - 1]) == path[|path| - 2]
  {
    var shorter := path[..|path| - 1];
    forall k | 0 <= k < |shorter|
      ensures Link(shorter, after, k)
    {
      assert Link(path, nodes, k);
    }
  }

  lemma FinishMatch(nodes: seq<Node>, fills: seq<Fill>, path: seq<nat>, par: nat, slen: nat)
    requires |path| > 1 && par == path[|path| - 2] && Rising(path) && AllMatch(nodes, fills, path, false, false, slen)
    requires par < |nodes| && Container(nodes[par].kind)
    ensures AllMatch(nodes[par := nodes[par].(len := nodes[par].len + 1)],
                     fills[par := fills[par].(slots := fills[par].slots + [Top(path)])],
                     path[..|path| - 1], nodes[par].kind == Arr, false, slen)
  {
    var path' := path[..|path| - 1];
    forall i | 0 <= i < |nodes| && i != par
      ensures HalfOf(path', nodes[par].kind == Arr, false, slen, i) == HalfOf(path, false, false, slen, i)
    {
      assert path == path' + [path[|path| - 1]];
    }
    assert path[|path| - 2] in path && path[|path| - 2] < path[|path| - 1];
  }

  lemma ChainLonger(path: seq<nat>, nodes: seq<Node>, nd: Node)
    requires Chain(path, nodes) && nd.parent == Top(path)
    requires (KindOf(nodes, Top(path)).Some? ==> Container(nodes[Top(path)].kind))
    ensures Chain(path + [|nodes|], nodes + [nd]) && nd.parent < |nodes|
  {
    assert path != [] ==> Link(path, nodes, |path| - 1);
    var longer, more := path + [|nodes|], nodes + [nd];
    forall k | 0 <= k < |longer|
      ensures Link(longer, more, k)
    {
      if k < |path| {
        assert Link(path, nodes, k);
      }
    }
    forall j | 0 <= j < |path|
      ensures longer[j] < |nodes|
    {
      assert Link(path, nodes, j);
    }
  }

  /** A new value under one that waits for it. */
  lemma NewMatch(nodes: seq<Node>, fills: seq<Fill>, path: seq<nat>, slen: nat, nd: Node, seek: bool, str: bool,
                 slen': nat)
    requires Chain(path, nodes) && AllMatch(nodes, fills, path, true, false, slen)
    requires Matches(nd, EMPTY, Half(seek, if str then Some(slen') else None))
    ensures AllMatch(nodes + [nd], fills + [EMPTY], path + [|nodes|], seek, str, slen')
  {
    var longer := path + [|nodes|];
    forall i | 0 <= i < |nodes|
      ensures HalfOf(longer, seek, str, slen', i) == HalfOf(path, true, false, slen, i)
    {
      assert i in longer <==> i in path;
      assert i == Top(path) ==> i in path;
    }
  }

  /** The decision does not depend on which kind of number the current value is. */
  lemma DecideSame(t: seq<byte>, p: nat, f: Flags, slen: nat, a: seq<Node>, b: seq<Node>, top: int)
    requires p <= |t| && Grows(a, b) && -1 <= top < |a|
    ensures Decide(t, p, f, slen, KindOf(a, top)) == Decide(t, p, f, slen, KindOf(b, top))
  {
    if top >= 0 {
      assert SameKind(a[top].kind, b[top].kind);
    }
  }

  /** What a decision says about the state it is made in. */
  lemma DecideFacts(t: seq<byte>, p: nat, f: Flags, slen: nat, kind: Option<Kind>)
    requires p <= |t| && Decide(t, p, f, slen, kind).Do?
    ensures match Decide(t, p, f, slen, kind).act
            case Emit(_, _) => f.str
            case Escape => f.str
            case CloseKey => f.str && kind == Some(Obj)
            case CloseString => f.str && kind == Some(Str)
            case OpenKey => !f.str && !f.done && !f.seek && kind == Some(Obj)
            case New(k) => !f.str && !f.done && f.seek && (k == Obj || k == Arr || k == Str)
            case Literal(k, _) => !f.str && !f.done && f.seek && (k == Bool || k == Null)
            case Number => !f.str && !f.done && f.seek && NumberChar(At(t, p)) && Decide(t, p, f, slen, kind).last == p
            case Close => !f.str && !f.done && (kind == Some(Arr) || (kind == Some(Obj) && !f.seek))
            case _ => !f.str
  {
  }

  lemma SimEmit(s1: S1, s2: S2, path: seq<nat>, count: nat, bytes: seq<byte>, pos: nat, f: Flags)
    requires Rel(s1, s2, path) && s1.f.str && count == |bytes| && f == s1.f.(esc := false)
    ensures Rel(s1.(pos := pos, f := f, slen := s1.slen + count),
                s2.(pos := pos, f := f, slen := s2.slen + |bytes|, fills := Write(s2, bytes)), path)
  {
    SamePlaced(s1.nodes, s2.fills, path, s1.nodes, Write(s2, bytes));
    forall i | 0 <= i < |s1.nodes|
      ensures Matches(s1.nodes[i], Write(s2, bytes)[i], HalfOf(path, f.seek, f.str, s1.slen + count, i))
    {
      assert Matches(s1.nodes[i], s2.fills[i], HalfOf(path, s1.f.seek, s1.f.str, s1.slen, i));
    }
  }

  lemma SimOpenKey(s1: S1, s2: S2, path: seq<nat>, pos: nat)
    requires Rel(s1, s2, path) && !s1.f.str && !s1.f.done && !s1.f.seek && KindOf(s1.nodes, s1.top) == Some(Obj)
    ensures var f := s1.f.(str := true);
            Rel(s1.(pos := pos, f := f, slen := 0), s2.(pos := pos, f := f, slen := 0), path)
  {
    forall i | 0 <= i < |s1.nodes|
      ensures Matches(s1.nodes[i], s2.fills[i], HalfOf(path, false, true, 0, i))
    {
      assert Matches(s1.nodes[i], s2.fills[i], HalfOf(path, s1.f.seek, s1.f.str, s1.slen, i));
    }
  }

  lemma SimCloseKey(s1: S1, s2: S2, path: seq<nat>, act: Act, last: nat, b: byte, t: seq<byte>, final: seq<Node>)
    requires Rel(s1, s2, path) && act == CloseKey && last <= |t| && s1.f.str && KindOf(s1.nodes, s1.top) == Some(Obj)
    ensures var r, r2 := Apply1(s1, act, last, b), Apply2(t, final, s2, act, last);
            r.Go? && r2.Go2? && Rel(r.s, r2.s, path)
  {
    assert Matches(s1.nodes[s1.top], s2.fills[s1.top], HalfOf(path, s1.f.seek, s1.f.str, s1.slen, s1.top));
    var r, r2 := Apply1(s1, act, last, b), Apply2(t, final, s2, act, last);
    forall i | 0 <= i < |s1.nodes|
      ensures Matches(r.s.nodes[i], r2.s.fills[i], HalfOf(path, true, false, s1.slen, i))
    {
      assert Matches(s1.nodes[i], s2.fills[i], HalfOf(path, s1.f.seek, s1.f.str, s1.slen, i));
    }
    SameChain(path, s1.nodes, r.s.nodes);
    SamePlaced(s1.nodes, s2.fills, path, r.s.nodes, r2.s.fills);
  }

  lemma SameChain(path: seq<nat>, nodes: seq<Node>, after: seq<Node>)
    requires Chain(path, nodes) && |after| == |nodes|
    requires forall i :: 0 <= i < |nodes| ==> after[i].parent == nodes[i].parent && after[i].kind == nodes[i].kind
    ensures Chain(path, after)
  {
    forall k | 0 <= k < |path|
      ensures Link(path, after, k)
    {
      assert Link(path, nodes, k);
    }
  }

  /** The values on the way after an action, when there were n values before it. */
  function NextPath(act: Act, path: seq<nat>, n: nat): seq<nat> {
    match act
    case New(_) => path + [n]
    case Literal(_, _) => if path == [] then [n] else path
    case Number => if path == [] then [n] else path
    case CloseString => if |path| <= 1 then path else path[..|path| - 1]
    case Close => if |path| <= 1 then path else path[..|path| - 1]
    case _ => path
  }

  lemma SimCloseString(s1: S1, s2: S2, path: seq<nat>, act: Act, last: nat, b: byte, t: seq<byte>, final: seq<Node>)
    returns (path': seq<nat>)
    requires Rel(s1, s2, path) && act == CloseString && last <= |t| && s1.f.str && KindOf(s1.nodes, s1.top) == Some(Str)
    requires var r := Apply1(s1, act, last, b); r.Go? && Grows(r.s.nodes, final)
    ensures var r, r2 := Apply1(s1, act, last, b), Apply2(t, final, s2, act, last);
            r2.Go2? && Rel(r.s, r2.s, path')
    ensures path' == NextPath(act, path, |s1.nodes|)
  {
    var nodes := s1.nodes[s1.top := s1.nodes[s1.top].(len := s1.slen)];
    forall i | 0 <= i < |nodes|
      ensures Matches(nodes[i], Write(s2, [0])[i], HalfOf(path, false, false, s1.slen, i))
    {
      assert Matches(s1.nodes[i], s2.fills[i], HalfOf(path, s1.f.seek, s1.f.str, s1.slen, i));
    }
    SameChain(path, s1.nodes, nodes);
    SamePlaced(s1.nodes, s2.fills, path, nodes, Write(s2, [0]));
    FinishBoth(s1.slen, s1.num, nodes, s2.(pos := last + 1, f := Flagged(s2.f, act)), Write(s2, [0]), path, last + 1,
               final);
    path' := if |path| == 1 then path else path[..|path| - 1];
  }

  /** At the end of an array or object nothing is owed any more. */
  lemma CloseMatch(s1: S1, s2: S2, path: seq<nat>)
    requires Rel(s1, s2, path) && !s1.f.str
    requires KindOf(s1.nodes, s1.top) == Some(Arr) || (KindOf(s1.nodes, s1.top) == Some(Obj) && !s1.f.seek)
    ensures AllMatch(s1.nodes, s2.fills, path, false, false, s1.slen)
  {
    forall i | 0 <= i < |s1.nodes|
      ensures Matches(s1.nodes[i], s2.fills[i], HalfOf(path, false, false, s1.slen, i))
    {
      assert Matches(s1.nodes[i], s2.fills[i], HalfOf(path, s1.f.seek, s1.f.str, s1.slen, i));
    }
  }

  lemma SimClose(s1: S1, s2: S2, path: seq<nat>, act: Act, last: nat, b: byte, t: seq<byte>, final: seq<Node>)
    returns (path': seq<nat>)
    requires Rel(s1, s2, path) && act == Close && last <= |t| && !s1.f.str
    requires KindOf(s1.nodes, s1.top) == Some(Arr) || (KindOf(s1.nodes, s1.top) == Some(Obj) && !s1.f.seek)
    requires var r := Apply1(s1, act, last, b); r.Go? && Grows(r.s.nodes, final)
    ensures var r, r2 := Apply1(s1, act, last, b), Apply2(t, final, s2, act, last);
            r2.Go2? && Rel(r.s, r2.s, path')
    ensures path' == NextPath(act, path, |s1.nodes|)
  {
    CloseMatch(s1, s2, path);
    FinishBoth(s1.slen, s1.num, s1.nodes, s2.(pos := last + 1, f := Flagged(s2.f, act)), s2.fills, path, last + 1,
               final);
    path' := if |path| == 1 then path else path[..|path| - 1];
  }

  /** A value that is complete as soon as it is there: a literal, or a number once its digits are skipped. */
  lemma SimWhole(s1: S1, s2: S2, path: seq<nat>, kind: Kind, v: int, num: Num, pos: nat, s2': S2, final: seq<Node>)
    returns (path': seq<nat>)
    requires Rel(s1, s2, path) && !s1.f.str && s1.f.seek && s2'.slen == s1.slen && !Container(kind) && kind != Str
    requires var r := Finish1(s1.slen, num, s1.nodes + [Node(kind, s1.top, 0, 0, v)], |s1.nodes|, pos);
             r.Go? && Grows(r.s.nodes, final)
    ensures |s2.fills| < |final|
    ensures var r := Finish1(s1.slen, num, s1.nodes + [Node(kind, s1.top, 0, 0, v)], |s1.nodes|, pos);
            var r2 := Finish2(final, s2', s2.fills + [EMPTY], |s2.fills|, pos);
            r2.Go2? && Rel(r.s, r2.s, path')
    ensures path' == if path == [] then [|s1.nodes|] else path
  {
    var nd := Node(kind, s1.top, 0, 0, v);
    ChainLonger(path, s1.nodes, nd);
    NewPlaced(s1.nodes, s2.fills, path, nd);
    NewMatch(s1.nodes, s2.fills, path, s1.slen, nd, false, false, s1.slen);
    var longer := path + [|s1.nodes|];
    FinishBoth(s1.slen, num, s1.nodes + [nd], s2', s2.fills + [EMPTY], longer, pos, final);
    path' := if |longer| == 1 then longer else longer[..|longer| - 1];
  }

  lemma SimLiteral(s1: S1, s2: S2, path: seq<nat>, kind: Kind, v: int, act: Act, last: nat, b: byte, t: seq<byte>,
                   final: seq<Node>)
    returns (path': seq<nat>)
    requires Rel(s1, s2, path) && act == Literal(kind, v) && last <= |t|
    requires !s1.f.str && s1.f.seek && (kind == Bool || kind == Null)
    requires var r := Apply1(s1, act, last, b); r.Go? && Grows(r.s.nodes, final)
    ensures var r, r2 := Apply1(s1, act, last, b), Apply2(t, final, s2, act, last);
            r2.Go2? && Rel(r.s, r2.s, path')
    ensures path' == NextPath(act, path, |s1.nodes|)
  {
    path' := SimWhole(s1, s2, path, kind, v, s1.num, last + 1, s2.(pos := last + 1, f := Flagged(s2.f, act)), final);
  }

  lemma SimNew(s1: S1, s2: S2, path: seq<nat>, kind: Kind, act: Act, last: nat, b: byte, t: seq<byte>, final: seq<Node>)
    requires Rel(s1, s2, path) && act == New(kind) && last <= |t| && !s1.f.str && !s1.f.done && s1.f.seek
    requires Container(kind) || kind == Str
    requires var r := Apply1(s1, act, last, b); r.Go? && Grows(r.s.nodes, final)
    ensures var r, r2 := Apply1(s1, act, last, b), Apply2(t, final, s2, act, last);
            r2.Go2? && Rel(r.s, r2.s, path + [|s1.nodes|])
  {
    var nd := Node(kind, s1.top, 0, 0, 0);
    ChainLonger(path, s1.nodes, nd);
    NewPlaced(s1.nodes, s2.fills, path, nd);
    NewMatch(s1.nodes, s2.fills, path, s1.slen, nd, kind == Arr, kind == Str, 0);
  }

  lemma SimFlag(s1: S1, s2: S2, path: seq<nat>, pos: nat, f: Flags)
    requires Rel(s1, s2, path) && f == s1.f.(comma := f.comma, colon := f.colon, esc := f.esc)
    ensures Rel(s1.(pos := pos, f := f), s2.(pos := pos, f := f), path)
  {
  }

  // One iteration of each pass, for the actions that change no more than flags or the text of a string.

  lemma ActEmit(t: seq<byte>, final: seq<Node>, s1: S1, s2: S2, path: seq<nat>, act: Act, last: nat, b: byte)
    requires Rel(s1, s2, path) && last <= |t|
    requires act.Emit? && s1.f.str && act.count == |act.bytes|
    ensures var r, r2 := Apply1(s1, act, last, b), Apply2(t, final, s2, act, last);
            r.Go? && r2.Go2? && Rel(r.s, r2.s, path)
  {
    var f := Flagged(s1.f, act);
    SimEmit(s1, s2, path, act.count, act.bytes, last + 1, f);
    assert Apply1(s1, act, last, b) == Go(s1.(pos := last + 1, f := f, slen := s1.slen + act.count));
    assert Apply2(t, final, s2, act, last) ==
           Go2(s2.(pos := last + 1, f := f, slen := s2.slen + |act.bytes|, fills := Write(s2, act.bytes)));
  }

  lemma ActOpenKey(t: seq<byte>, final: seq<Node>, s1: S1, s2: S2, path: seq<nat>, act: Act, last: nat, b: byte)
    requires Rel(s1, s2, path) && last <= |t|
    requires act.OpenKey? && !s1.f.str && !s1.f.done && !s1.f.seek && KindOf(s1.nodes, s1.top) == Some(Obj)
    ensures var r, r2 := Apply1(s1, act, last, b), Apply2(t, final, s2, act, last);
            r.Go? && r2.Go2? && Rel(r.s, r2.s, path)
  {
    SimOpenKey(s1, s2, path, last + 1);
  }

  lemma ActFlag(t: seq<byte>, final: seq<Node>, s1: S1, s2: S2, path: seq<nat>, act: Act, last: nat, b: byte)
    requires Rel(s1, s2, path) && last <= |t|
    requires act.Comma? || act.Colon? || act.Escape? || act.Idle?
    ensures var r, r2 := Apply1(s1, act, last, b), Apply2(t, final, s2, act, last);
            r.Go? && r2.Go2? && Rel(r.s, r2.s, path)
  {
    SimFlag(s1, s2, path, last + 1, Flagged(s1.f, act));
  }

  /** One iteration of each pass within a value. */
  lemma SimWithin(t: seq<byte>, final: seq<Node>, s1: S1, s2: S2, path: seq<nat>, act: Act, last: nat, b: byte)
    requires Rel(s1, s2, path) && s1.pos <= |t| && last <= |t|
    requires !act.Number? && !act.CloseString? && !act.New? && !act.Literal? && !act.Close?
    requires Decide(t, s1.pos, s1.f, s1.slen, KindOf(s1.nodes, s1.top)) == Do(act, last)
    ensures var r, r2 := Apply1(s1, act, last, b), Apply2(t, final, s2, act, last);
            r.Go? && r2.Go2? && Rel(r.s, r2.s, path)
  {
    DecideFacts(t, s1.pos, s1.f, s1.slen, KindOf(s1.nodes, s1.top));
    if act.Emit? {
      ActEmit(t, final, s1, s2, path, act, last, b);
    } else if act.OpenKey? {
      ActOpenKey(t, final, s1, s2, path, act, last, b);
    } else if act.CloseKey? {
      SimCloseKey(s1, s2, path, act, last, b, t, final);
    } else {
      ActFlag(t, final, s1, s2, path, act, last, b);
    }
  }

  /** One iteration of each pass, outside numbers. */
  lemma SimAct(t: seq<byte>, final: seq<Node>, s1: S1, s2: S2, path: seq<nat>, act: Act, last: nat, b: byte)
    returns (path': seq<nat>)
    requires Rel(s1, s2, path) && s1.pos <= |t| && last <= |t| && !act.Number?
    requires Decide(t, s1.pos, s1.f, s1.slen, KindOf(s1.nodes, s1.top)) == Do(act, last)
    requires var r := Apply1(s1, act, last, b); r.Go? && Grows(r.s.nodes, final)
    ensures var r, r2 := Apply1(s1, act, last, b), Apply2(t, final, s2, act, last);
            r2.Go2? && Rel(r.s, r2.s, path')
    ensures path' == NextPath(act, path, |s1.nodes|)
  {
    DecideFacts(t, s1.pos, s1.f, s1.slen, KindOf(s1.nodes, s1.top));
    if act.CloseString? {
      path' := SimCloseString(s1, s2, path, act, last, b, t, final);
    } else if act.New? {
      SimNew(s1, s2, path, act.kind, act, last, b, t, final);
      path' := path + [|s1.nodes|];
    } else if act.Literal? {
      path' := SimLiteral(s1, s2, path, act.kind, act.value, act, last, b, t, final);
    } else if act.Close? {
      path' := SimClose(s1, s2, path, act, last, b, t, final);
    } else {
      SimWithin(t, final, s1, s2, path, act, last, b);
      path' := path;
    }
  }

  /** The start of a number in the first pass. */
  lemma NumberStart(t: seq<byte>, s1: S1, last: nat) returns (first: S1)
    requires s1.pos <= |t| && !InNumber(s1) && Run1(t, s1).Some?
    requires Decide(t, s1.pos, s1.f, s1.slen, KindOf(s1.nodes, s1.top)) == Do(Number, last) && !s1.f.str && !s1.f.done
    requires last == s1.pos && NumberChar(At(t, last))
    ensures last < |t| && first.pos == (if t[last] == 45 then last + 1 else last)
    ensures first.num == NUM0.(neg := t[last] == 45) && first.slen == s1.slen
    ensures first.nodes == s1.nodes + [Node(Int, s1.top, 0, 0, 0)] && first.top == |s1.nodes| && InNumber(first)
    ensures Run1(t, first) == Run1(t, s1) && Skip(t, first.pos) == Skip(t, last)
  {
    Progress1(t, s1);
    first := Step1(t, s1).s;
  }

  /** The first pass over a number. */
  lemma NumberPass(t: seq<byte>, s1: S1, last: nat) returns (kind: Kind, num: Num, after: S1)
    requires s1.pos <= |t| && !InNumber(s1) && Run1(t, s1).Some?
    requires Decide(t, s1.pos, s1.f, s1.slen, KindOf(s1.nodes, s1.top)) == Do(Number, last) && !s1.f.str && !s1.f.done
    requires last == s1.pos && NumberChar(At(t, last))
    ensures kind == (if L.IsDouble(t, last, Skip(t, last)) then Dbl else Int) && last < Skip(t, last)
    ensures kind == Int ==> ValueOf(kind, num) == L.IntegerAt(t, last, Skip(t, last))
    ensures Finish1(s1.slen, num, s1.nodes + [Node(kind, s1.top, 0, 0, ValueOf(kind, num))], |s1.nodes|, Skip(t, last))
            == Go(after)
    ensures after.pos == Skip(t, last) && Run1(t, after) == Run1(t, s1) && Rank(after) == 0
  {
    var first := NumberStart(t, s1, last);
    kind, num, after := NumberRun(t, first, first.pos);
    NumberTold(t, last, first.pos, Skip(t, last), kind, num);
    var n := |s1.nodes|;
    assert Numbered(first.nodes, n, kind, ValueOf(kind, num)) ==
           s1.nodes + [Node(kind, s1.top, 0, 0, ValueOf(kind, num))];
    FinishProgress(s1.slen, num, first.nodes[n := Node(kind, s1.top, 0, 0, ValueOf(kind, num))], n, Skip(t, last));
  }

  /** The sign of a number belongs to it. */
  lemma NumberTold(t: seq<byte>, last: nat, p: nat, q: nat, kind: Kind, num: Num)
    requires last < q <= |t| && p <= q && p == (if t[last] == 45 then last + 1 else last) && num.neg == (t[last] == 45)
    requires kind == if L.IsDouble(t, p, q) then Dbl else Int
    requires kind == Int ==> num.integer == L.Decimal(t, p, q)
    ensures L.IsDouble(t, p, q) <==> L.IsDouble(t, last, q)
    ensures kind == Int ==> ValueOf(kind, num) == L.IntegerAt(t, last, q)
  {
  }

  /** A number: several iterations of the first pass, and one of the second. */
  lemma SimNumber(t: seq<byte>, s1: S1, s2: S2, path: seq<nat>, last: nat)
    returns (s1': S1, s2': S2, path': seq<nat>, kind: Kind, num: Num)
    requires Rel(s1, s2, path) && s1.pos <= |t| && !InNumber(s1) && Run1(t, s1).Some?
    requires Decide(t, s1.pos, s1.f, s1.slen, KindOf(s1.nodes, s1.top)) == Do(Number, last)
    ensures Apply2(t, Run1(t, s1).value, s2, Number, last) == Go2(s2') && Rel(s1', s2', path')
    ensures s1.pos < s1'.pos <= |t| && Run1(t, s1') == Run1(t, s1) && Rank(s1') == 0
    ensures path' == NextPath(Number, path, |s1.nodes|) && last == s1.pos < Skip(t, last)
    ensures kind == if L.IsDouble(t, last, Skip(t, last)) then Dbl else Int
    ensures kind == Int ==> ValueOf(kind, num) == L.IntegerAt(t, last, Skip(t, last))
    ensures Finish1(s1.slen, num, s1.nodes + [Node(kind, s1.top, 0, 0, ValueOf(kind, num))], |s1.nodes|, Skip(t, last))
            == Go(s1')
  {
    DecideFacts(t, s1.pos, s1.f, s1.slen, KindOf(s1.nodes, s1.top));
    kind, num, s1' := NumberPass(t, s1, last);
    RunGrows(t, s1');
    var mid := s2.(pos := last + 1, f := Flagged(s2.f, Number));
    path' := SimWhole(s1, s2, path, kind, ValueOf(kind, num), num, Skip(t, last), mid, Run1(t, s1).value);
    s2' := Finish2(Run1(t, s1).value, mid, s2.fills + [EMPTY], |s2.fills|, Skip(t, last)).s;
  }

  /** Every value holds exactly what was counted for it. */
  ghost predicate Complete(nodes: seq<Node>, fills: seq<Fill>) {
    |fills| == |nodes| && forall i :: 0 <= i < |nodes| ==> Matches(nodes[i], fills[i], WHOLE)
  }

  /** The values form a tree with value 0 as its root: each of the others is in a slot of its parent, and in no
      other. */
  ghost predicate Tree(nodes: seq<Node>, fills: seq<Fill>) {
    && |nodes| > 0 && nodes[0].parent == -1 && |fills| == |nodes|
    && (forall i :: 0 <= i < |nodes| ==> SlotsOk(nodes, fills[i].slots, i))
    && forall i :: 0 < i < |nodes| ==> 0 <= nodes[i].parent < i && i in fills[nodes[i].parent].slots
  }

  lemma TreeDone(nodes: seq<Node>, fills: seq<Fill>, path: seq<nat>)
    requires Placed(nodes, fills, path) && Chain(path, nodes) && |path| == 1
    ensures Tree(nodes, fills)
  {
    assert Link(path, nodes, 0);
    assert Settled(nodes, fills, path, 0);
    assert path == [0];
    forall i | 0 < i < |nodes|
      ensures 0 <= nodes[i].parent < i && i in fills[nodes[i].parent].slots
    {
      assert Settled(nodes, fills, path, i);
    }
  }

  lemma Finished(s1: S1, s2: S2, path: seq<nat>)
    requires Rel(s1, s2, path) && s1.f.done && !s1.f.str
    ensures Complete(s1.nodes, s2.fills) && Tree(s1.nodes, s2.fills)
  {
    TreeDone(s1.nodes, s2.fills, path);
    forall i | 0 <= i < |s1.nodes|
      ensures Matches(s1.nodes[i], s2.fills[i], WHOLE)
    {
      assert Matches(s1.nodes[i], s2.fills[i], HalfOf(path, s1.f.seek, s1.f.str, s1.slen, i));
      assert path == [path[0]];
    }
  }

  /** A second pass that accepts, and leaves the values complete and in a tree. */
  ghost predicate Parsed(nodes: seq<Node>, r: Option<seq<Fill>>) {
    r.Some? && Complete(nodes, r.value) && Tree(nodes, r.value)
  }

  /** From states that agree, an accepting first pass is followed by an accepting second pass. */
  lemma {:induction false} Simulate(t: seq<byte>, s1: S1, s2: S2, path: seq<nat>)
    requires Rel(s1, s2, path) && s1.pos <= |t| && !InNumber(s1) && Run1(t, s1).Some?
    ensures Parsed(Run1(t, s1).value, Run2(t, Run1(t, s1).value, s2))
    decreases |t| - s1.pos
  {
    var final := Run1(t, s1).value;
    SameDecision(t, s1, s2, path);
    var c := Decide(t, s1.pos, s1.f, s1.slen, KindOf(s1.nodes, s1.top));
    if c.Done? {
      Finished(s1, s2, path);
    } else if c.Do? {
      var s1', s2', path' := SimEither(t, s1, s2, path, c.act, c.last);
      Simulate(t, s1', s2', path');
    }
  }

  /** Both passes decide alike. */
  lemma SameDecision(t: seq<byte>, s1: S1, s2: S2, path: seq<nat>)
    requires Rel(s1, s2, path) && s1.pos <= |t| && Run1(t, s1).Some?
    ensures Decide(t, s1.pos, s1.f, s1.slen, KindOf(s1.nodes, s1.top)) ==
            Decide(t, s2.pos, s2.f, s2.slen, KindOf(Run1(t, s1).value, s2.top))
  {
    RunGrows(t, s1);
    assert path != [] ==> Link(path, s1.nodes, |path| - 1);
    DecideSame(t, s1.pos, s1.f, s1.slen, s1.nodes, Run1(t, s1).value, s1.top);
  }

  lemma SimEither(t: seq<byte>, s1: S1, s2: S2, path: seq<nat>, act: Act, last: nat)
    returns (s1': S1, s2': S2, path': seq<nat>)
    requires Rel(s1, s2, path) && s1.pos <= |t| && !InNumber(s1) && Run1(t, s1).Some?
    requires Decide(t, s1.pos, s1.f, s1.slen, KindOf(s1.nodes, s1.top)) == Do(act, last)
    requires Decide(t, s2.pos, s2.f, s2.slen, KindOf(Run1(t, s1).value, s2.top)) == Do(act, last)
    ensures Rel(s1', s2', path') && !InNumber(s1') && s1.pos < s1'.pos <= |t| && Run1(t, s1') == Run1(t, s1)
    ensures Run2(t, Run1(t, s1).value, s2') == Run2(t, Run1(t, s1).value, s2)
  {
    if act.Number? {
      var kind, num;
      s1', s2', path', kind, num := SimNumber(t, s1, s2, path, last);
    } else {
      s1', s2', path' := SimOne(t, s1, s2, path, act, last);
    }
    Progress2(t, Run1(t, s1).value, s2);
    assert Step2(t, Run1(t, s1).value, s2) == Go2(s2');
  }

  /** An iteration of an accepting first pass, outside numbers. */
  lemma NextState(t: seq<byte>, s: S1, act: Act, last: nat) returns (s': S1)
    requires s.pos <= |t| && !InNumber(s) && Run1(t, s).Some? && !act.Number?
    requires Decide(t, s.pos, s.f, s.slen, KindOf(s.nodes, s.top)) == Do(act, last)
    ensures Apply1(s, act, last, At(t, s.pos)) == Go(s') && s.pos < s'.pos <= |t| && !InNumber(s')
    ensures Run1(t, s') == Run1(t, s) && Grows(s'.nodes, Run1(t, s).value)
  {
    Progress1(t, s);
    s' := Apply1(s, act, last, At(t, s.pos)).s;
    assert Step1(t, s) == Go(s');
    RunGrows(t, s');
  }

  lemma SimOne(t: seq<byte>, s1: S1, s2: S2, path: seq<nat>, act: Act, last: nat)
    returns (s1': S1, s2': S2, path': seq<nat>)
    requires Rel(s1, s2, path) && s1.pos <= |t| && !InNumber(s1) && Run1(t, s1).Some? && !act.Number?
    requires Decide(t, s1.pos, s1.f, s1.slen, KindOf(s1.nodes, s1.top)) == Do(act, last)
    ensures Apply2(t, Run1(t, s1).value, s2, act, last) == Go2(s2') && Rel(s1', s2', path') && !InNumber(s1')
    ensures s1.pos < s1'.pos <= |t| && Run1(t, s1') == Run1(t, s1)
    ensures path' == NextPath(act, path, |s1.nodes|) && s1' == Apply1(s1, act, last, At(t, s1.pos)).s
    ensures Apply1(s1, act, last, At(t, s1.pos)).Go?
  {
    var b := At(t, s1.pos);
    s1' := NextState(t, s1, act, last);
    path' := SimAct(t, Run1(t, s1).value, s1, s2, path, act, last, b);
    s2' := Apply2(t, Run1(t, s1).value, s2, act, last).s;
  }

  /** If the first pass accepts a text, so does the second, and each array and object then has exactly the counted
      number of slots filled, each string exactly the counted bytes and a NUL, and each object's pool of names ends
      exactly at its end; and the values form a tree. */
  lemma TwoPassesAgree(t: seq<byte>)
    requires Run1(t, INIT1).Some?
    ensures Run2(t, Run1(t, INIT1).value, INIT2).Some?
    ensures Complete(Run1(t, INIT1).value, Run2(t, Run1(t, INIT1).value, INIT2).value)
    ensures Tree(Run1(t, INIT1).value, Run2(t, Run1(t, INIT1).value, INIT2).value)
  {
    Simulate(t, INIT1, INIT2, []);
  }

  // ---------- no write is out of bounds ----------

  predicate Extended(a: Fill, b: Fill) {
    a.slots <= b.slots && a.names <= b.names && a.mem <= b.mem
  }

  /** What is written stays, and more is written only at the end. */
  ghost predicate Extends(a: seq<Fill>, b: seq<Fill>) {
    |a| <= |b| && forall i :: 0 <= i < |a| ==> Extended(a[i], b[i])
  }

  lemma ExtendsVia(a: seq<Fill>, b: seq<Fill>, c: seq<Fill>)
    requires Extends(a, b) && Extends(b, c)
    ensures Extends(a, c)
  {
    forall i | 0 <= i < |a|
      ensures Extended(a[i], c[i])
    {
      assert Extended(a[i], b[i]) && Extended(b[i], c[i]);
    }
  }

  /** A complete value adds a slot to its parent. */
  lemma Finish2Extends(nodes: seq<Node>, s: S2, before: seq<Fill>, fills: seq<Fill>, top: int, pos: nat)
    requires Extends(before, fills)
    ensures var r := Finish2(nodes, s, fills, top, pos); r.Go2? ==> Extends(before, r.s.fills)
  {
    var r := Finish2(nodes, s, fills, top, pos);
    if r.Go2? {
      assert Extends(fills, r.s.fills);
      ExtendsVia(before, fills, r.s.fills);
    }
  }

  lemma ApplyExtends(t: seq<byte>, nodes: seq<Node>, s: S2, act: Act, last: nat)
    requires last <= |t|
    ensures Apply2(t, nodes, s, act, last).Go2? ==> Extends(s.fills, Apply2(t, nodes, s, act, last).s.fills)
  {
    var s' := s.(pos := last + 1, f := Flagged(s.f, act));
    match act
    case CloseString => Finish2Extends(nodes, s', s.fills, Write(s, [0]), s.top, last + 1);
    case Literal(_, _) => Finish2Extends(nodes, s', s.fills, s.fills + [EMPTY], |s.fills|, last + 1);
    case Number => Finish2Extends(nodes, s', s.fills, s.fills + [EMPTY], |s.fills|, Skip(t, last));
    case Close => Finish2Extends(nodes, s', s.fills, s.fills, s.top, last + 1);
    case _ =>
  }

  lemma StepExtends(t: seq<byte>, nodes: seq<Node>, s: S2)
    requires s.pos <= |t|
    ensures Step2(t, nodes, s).Go2? ==> Extends(s.fills, Step2(t, nodes, s).s.fills)
  {
    var c := Decide(t, s.pos, s.f, s.slen, KindOf(nodes, s.top));
    if c.Do? {
      ApplyExtends(t, nodes, s, c.act, c.last);
    }
  }

  lemma {:induction false} RunExtends(t: seq<byte>, nodes: seq<Node>, s: S2)
    requires s.pos <= |t| && Run2(t, nodes, s).Some?
    ensures Extends(s.fills, Run2(t, nodes, s).value)
    decreases |t| - s.pos
  {
    var r := Step2(t, nodes, s);
    if r.Go2? {
      Progress2(t, nodes, s);
      StepExtends(t, nodes, s);
      RunExtends(t, nodes, r.s);
    }
  }

  /** The room that was allocated for a value on the strength of its counts. */
  predicate Fits(nd: Node, fl: Fill) {
    match nd.kind
    case Arr => |fl.slots| <= nd.len
    case Obj => |fl.slots| <= nd.len && |fl.names| <= nd.len && |fl.mem| <= nd.pool
    case Str => |fl.mem| <= nd.len + 1
    case _ => true
  }

  // ---------- the room in bytes ----------

  const ENTRY_SIZE: nat := 24   // sizeof(json_object_entry)
  const TWO_TO_THE_31: nat := 0x8000_0000

  /** values_size, the room for the entries of an object, which new_value computes in an int. */
  function ValuesSize(len: nat): int {
    var n := len * ENTRY_SIZE % (2 * TWO_TO_THE_31);
    if n < TWO_TO_THE_31 then n else n - 2 * TWO_TO_THE_31
  }

  /** It is right exactly when it fits an int; otherwise the room is too small for the entries. */
  lemma ValuesSizeExact(len: nat)
    ensures ValuesSize(len) == len * ENTRY_SIZE <==> len * ENTRY_SIZE < TWO_TO_THE_31
    ensures len * ENTRY_SIZE >= TWO_TO_THE_31 ==> ValuesSize(len) < len * ENTRY_SIZE
  {
    var n := len * ENTRY_SIZE;
    if n < TWO_TO_THE_31 {
      assert n % (2 * TWO_TO_THE_31) == n;
    }
  }

  /** No value has more slots than characters have been read. */
  ghost predicate FewSlots(s: S2) {
    forall i :: 0 <= i < |s.fills| ==> |s.fills[i].slots| <= s.pos
  }

  lemma FinishFewSlots(nodes: seq<Node>, s: S2, fills: seq<Fill>, top: int, pos: nat)
    requires forall i :: 0 <= i < |fills| ==> |fills[i].slots| < pos
    ensures Finish2(nodes, s, fills, top, pos).Go2? ==> FewSlots(Finish2(nodes, s, fills, top, pos).s)
  {
  }

  lemma StepFewSlots(t: seq<byte>, nodes: seq<Node>, s: S2)
    requires s.pos <= |t| && FewSlots(s)
    ensures Step2(t, nodes, s).Go2? ==> FewSlots(Step2(t, nodes, s).s)
  {
    Progress2(t, nodes, s);
    var c := Decide(t, s.pos, s.f, s.slen, KindOf(nodes, s.top));
    if c.Do? {
      var s' := s.(pos := c.last + 1, f := Flagged(s.f, c.act));
      match c.act
      case CloseString => FinishFewSlots(nodes, s', Write(s, [0]), s.top, c.last + 1);
      case Literal(_, _) => FinishFewSlots(nodes, s', s.fills + [EMPTY], |s.fills|, c.last + 1);
      case Number => FinishFewSlots(nodes, s', s.fills + [EMPTY], |s.fills|, Skip(t, c.last));
      case Close => FinishFewSlots(nodes, s', s.fills, s.top, c.last + 1);
      case _ =>
    }
  }

  lemma {:induction false} RunFewSlots(t: seq<byte>, nodes: seq<Node>, s: S2)
    requires s.pos <= |t| && FewSlots(s)
    ensures var r := Run2(t, nodes, s); r.Some? ==> forall i :: 0 <= i < |r.value| ==> |r.value[i].slots| <= |t|
    decreases |t| - s.pos
  {
    if Step2(t, nodes, s).Go2? {
      Progress2(t, nodes, s);
      StepFewSlots(t, nodes, s);
      RunFewSlots(t, nodes, Step2(t, nodes, s).s);
      assert Run2(t, nodes, s) == Run2(t, nodes, Step2(t, nodes, s).s);
    }
  }

  /** An object of a text below 2^31 / 24 bytes (some 85 MiB) gets room for all of its entries. */
  lemma EntriesGetTheirRoom(t: seq<byte>, i: nat)
    requires Run1(t, INIT1).Some? && i < |Run1(t, INIT1).value| && Run1(t, INIT1).value[i].kind == Obj
    requires |t| * ENTRY_SIZE < TWO_TO_THE_31
    ensures var len := Run1(t, INIT1).value[i].len; ValuesSize(len) == len * ENTRY_SIZE
  {
    var nodes := Run1(t, INIT1).value;
    TwoPassesAgree(t);
    RunFewSlots(t, nodes, INIT2);
    var fills := Run2(t, nodes, INIT2).value;
    assert Matches(nodes[i], fills[i], WHOLE);
    assert nodes[i].len <= |t|;
    ValuesSizeExact(nodes[i].len);
  }

  /** The second pass fills an object within its room exactly when the size of its entries fits an int. */
  lemma RoomExactly(t: seq<byte>, i: nat)
    requires Run1(t, INIT1).Some? && i < |Run1(t, INIT1).value| && Run1(t, INIT1).value[i].kind == Obj
    ensures var nodes := Run1(t, INIT1).value;
            && Run2(t, nodes, INIT2).Some? && i < |Run2(t, nodes, INIT2).value|
            && (|Run2(t, nodes, INIT2).value[i].slots| * ENTRY_SIZE <= ValuesSize(nodes[i].len) <==>
                nodes[i].len * ENTRY_SIZE < TWO_TO_THE_31)
  {
    var nodes := Run1(t, INIT1).value;
    TwoPassesAgree(t);
    assert Matches(nodes[i], Run2(t, nodes, INIT2).value[i], WHOLE);
    ValuesSizeExact(nodes[i].len);
  }

  /** In no state that the second pass goes through, has anything been written past the end of what was allocated. */
  lemma NeverOutOfBounds(t: seq<byte>, s: S2, i: nat)
    requires Run1(t, INIT1).Some? && s.pos <= |t| && i < |s.fills|
    requires Run2(t, Run1(t, INIT1).value, s) == Run2(t, Run1(t, INIT1).value, INIT2)
    ensures i < |Run1(t, INIT1).value| && Fits(Run1(t, INIT1).value[i], s.fills[i])
    ensures var nd, fl := Run1(t, INIT1).value[i], s.fills[i];
            nd.kind == Obj && nd.len * ENTRY_SIZE < TWO_TO_THE_31 ==>
              |fl.slots| * ENTRY_SIZE <= ValuesSize(nd.len) && |fl.names| * ENTRY_SIZE <= ValuesSize(nd.len)
  {
    var nodes := Run1(t, INIT1).value;
    TwoPassesAgree(t);
    RunExtends(t, nodes, s);
    var fills := Run2(t, nodes, INIT2).value;
    assert Extended(s.fills[i], fills[i]) && Matches(nodes[i], fills[i], WHOLE);
    ValuesSizeExact(nodes[i].len);
  }
}
