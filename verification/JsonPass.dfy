/**
 The two passes of json_parse_ex in src/json.c. The first allocates the values and counts what they will hold; the
 second walks the text again and fills them. Values are numbered in the order of allocation.
 */
module JsonPass {
  import opened Bytes
  import opened JsonText

  /** What the first pass leaves in a value: its length, for an object the size of its pool of names, and the value
      of an integer or a boolean. */
  datatype Node = Node(kind: Kind, parent: int, len: nat, pool: nat, value: int)

  /** num_digits, the flags of a number, and the values that are checked for overflow. */
  datatype Num = Num(digits: nat, zero: bool, e: bool, gotSign: bool, integer: nat, fraction: nat, exponent: nat,
                     neg: bool)

  const NUM0 := Num(0, false, false, false, 0, 0, 0, false)

  /** What a number comes to; doubles are not computed. */
  function ValueOf(kind: Kind, num: Num): int {
    if kind == Int then if num.neg then -(num.integer as int) else num.integer else 0
  }

  datatype S1 = S1(pos: nat, f: Flags, top: int, slen: nat, num: Num, nodes: seq<Node>)

  datatype R1 = Fail | Accept | Go(s: S1)

  function KindOf(nodes: seq<Node>, i: int): Option<Kind> {
    if 0 <= i < |nodes| then Some(nodes[i].kind) else None
  }

  predicate Container(k: Kind) {
    k == Obj || k == Arr
  }

  predicate Numeric(k: Option<Kind>) {
    k == Some(Int) || k == Some(Dbl)
  }

  // ---------- numbers in the first pass ----------

  datatype Digits = NumFail | NumMore(kind: Kind, num: Num) | NumEnd

  predicate Overflows(v: nat, b: byte)
    requires Digit(b)
  {
    v > LONG_MAX / 10 || (v == LONG_MAX / 10 && b - 48 > LONG_MAX % 10)
  }

  function OnDigit(b: byte, kind: Kind, num: Num): Digits
    requires Digit(b)
  {
    var n := num.(digits := num.digits + 1);
    if n.e then
      if Overflows(n.exponent, b) then NumFail
      else NumMore(kind, n.(gotSign := true, exponent := n.exponent * 10 + (b - 48)))
    else if kind == Int then
      if n.zero || (n.integer > 0 && Overflows(n.integer, b)) then NumFail
      else NumMore(kind, n.(zero := n.digits == 1 && b == 48, integer := n.integer * 10 + (b - 48)))
    else
      if Overflows(n.fraction, b) then NumFail else NumMore(kind, n.(fraction := n.fraction * 10 + (b - 48)))
  }

  /** The end of the digits: an exponent, an error, or the end of the number. */
  function OffDigit(b: byte, kind: Kind, num: Num): Digits {
    if num.e then if num.digits == 0 then NumFail else NumEnd
    else if kind == Dbl && num.digits == 0 then NumFail
    else if b == 101 || b == 69 then NumMore(Dbl, num.(e := true, digits := 0, zero := false))
    else NumEnd
  }

  function OnNumber(b: byte, kind: Kind, num: Num): (d: Digits)
    ensures d.NumMore? ==> NumberChar(b) && (d.kind == kind || d.kind == Dbl)
  {
    if Digit(b) then OnDigit(b, kind, num)
    else if (b == 43 || b == 45) && num.e && !num.gotSign then NumMore(kind, num.(gotSign := true))
    else if b == 46 && kind == Int then
      if num.digits == 0 then NumFail else NumMore(Dbl, num.(digits := 0))
    else OffDigit(b, kind, num)
  }

  // ---------- the first pass ----------

  /** flag_next: the current value is complete, and counts in its parent. */
  function Finish1(slen: nat, num: Num, nodes: seq<Node>, top: int, pos: nat): R1 {
    if !(0 <= top < |nodes|) then Fail
    else
      var par := nodes[top].parent;
      if par < 0 then Go(S1(pos, AfterValue(None), top, slen, num, nodes))
      else if par >= |nodes| || !Container(nodes[par].kind) || nodes[par].len + 1 > LIMIT then Fail
      else
        Go(S1(pos, AfterValue(Some(nodes[par].kind)), par, slen, num,
              nodes[par := nodes[par].(len := nodes[par].len + 1)]))
  }

  function Flagged(f: Flags, act: Act): Flags {
    match act
    case Comma => f.(comma := false)
    case Colon => f.(colon := false)
    case Escape => f.(esc := true)
    case Emit(_, _) => f.(esc := false)
    case OpenKey => f.(str := true)
    case CloseKey => f.(str := false, seek := true, colon := true)
    case New(kind) => f.(seek := kind == Arr, str := kind == Str)
    case Number => f.(seek := false)
    case _ => f
  }

  function Apply1(s: S1, act: Act, last: nat, b: byte): R1 {
    var s' := s.(pos := last + 1, f := Flagged(s.f, act));
    match act
    case Emit(count, _) => Go(s'.(slen := s.slen + count))
    case OpenKey => Go(s'.(slen := 0))
    case CloseKey =>
      if !(0 <= s.top < |s.nodes|) then Fail
      else Go(s'.(nodes := s.nodes[s.top := s.nodes[s.top].(pool := s.nodes[s.top].pool + s.slen + 1)]))
    case CloseString =>
      if !(0 <= s.top < |s.nodes|) then Fail
      else Finish1(s.slen, s.num, s.nodes[s.top := s.nodes[s.top].(len := s.slen)], s.top, last + 1)
    case New(kind) => Go(s'.(nodes := s.nodes + [Node(kind, s.top, 0, 0, 0)], top := |s.nodes|, slen := 0))
    case Literal(kind, v) => Finish1(s.slen, s.num, s.nodes + [Node(kind, s.top, 0, 0, v)], |s.nodes|, last + 1)
    case Number =>
      Go(s'.(nodes := s.nodes + [Node(Int, s.top, 0, 0, 0)], top := |s.nodes|, num := NUM0.(neg := b == 45),
             pos := if b == 45 then last + 1 else last))
    case Close => Finish1(s.slen, s.num, s.nodes, s.top, last + 1)
    case _ => Go(s')
  }

  predicate InNumber(s: S1) {
    Numeric(KindOf(s.nodes, s.top)) && !s.f.seek && !s.f.str && !s.f.done
  }

  /** The current value, which is a number, gets its value. */
  function Valued(s: S1): seq<Node>
    requires InNumber(s)
  {
    s.nodes[s.top := s.nodes[s.top].(value := ValueOf(s.nodes[s.top].kind, s.num))]
  }

  function Step1(t: seq<byte>, s: S1): R1
    requires s.pos <= |t|
  {
    var b := At(t, s.pos);
    if InNumber(s) then
      match OnNumber(b, s.nodes[s.top].kind, s.num)
      case NumFail => Fail
      case NumMore(kind, num) =>
        Go(s.(pos := s.pos + 1, num := num, nodes := s.nodes[s.top := s.nodes[s.top].(kind := kind)]))
      case NumEnd => Finish1(s.slen, s.num, Valued(s), s.top, s.pos)
    else
      match Decide(t, s.pos, s.f, s.slen, KindOf(s.nodes, s.top))
      case Stop => Fail
      case Done => Accept
      case Do(act, last) => Apply1(s, act, last, b)
  }

  /** A character may be processed twice: where a number starts, and where it ends. */
  function Rank(s: S1): nat {
    if InNumber(s) then 1
    else if s.f.seek && !s.f.comma && !s.f.colon && !s.f.str && !s.f.done then 2
    else 0
  }

  lemma FinishProgress(slen: nat, num: Num, nodes: seq<Node>, top: int, pos: nat)
    ensures var r := Finish1(slen, num, nodes, top, pos); r.Go? ==> r.s.pos == pos && Rank(r.s) == 0
  {
  }

  /** Every iteration of the first pass moves on in the text, or stays and lowers the rank. */
  lemma Progress1(t: seq<byte>, s: S1)
    requires s.pos <= |t|
    ensures Step1(t, s).Go? ==>
              var s' := Step1(t, s).s;
              s'.pos <= |t| && (s'.pos > s.pos || (s'.pos == s.pos && Rank(s') < Rank(s)))
  {
    var b := At(t, s.pos);
    if InNumber(s) {
      FinishProgress(s.slen, s.num, Valued(s), s.top, s.pos);
    } else {
      var c := Decide(t, s.pos, s.f, s.slen, KindOf(s.nodes, s.top));
      if c.Do? {
        match c.act
        case CloseString =>
          if 0 <= s.top < |s.nodes| {
            FinishProgress(s.slen, s.num, s.nodes[s.top := s.nodes[s.top].(len := s.slen)], s.top, c.last + 1);
          }
        case Literal(kind, v) =>
          FinishProgress(s.slen, s.num, s.nodes + [Node(kind, s.top, 0, 0, v)], |s.nodes|, c.last + 1);
        case Close => FinishProgress(s.slen, s.num, s.nodes, s.top, c.last + 1);
        case _ =>
      }
    }
  }

  /** The first pass from a state on: the values it ends with, if it accepts. */
  function Run1(t: seq<byte>, s: S1): Option<seq<Node>>
    requires s.pos <= |t|
    decreases |t| - s.pos, Rank(s)
  {
    match Step1(t, s)
    case Fail => None
    case Accept => Some(s.nodes)
    case Go(s') => Progress1(t, s); Run1(t, s')
  }

  // ---------- the second pass ----------

  /** The name of an object's entry: where it starts in the pool, and its length. */
  datatype Name = Name(start: nat, len: nat)

  /** What the second pass writes into a value: the values in its slots, the names of its entries, and the bytes of
      its string or of its pool of names. Writing only ever adds at the end. */
  datatype Fill = Fill(slots: seq<nat>, names: seq<Name>, mem: seq<byte>)

  const EMPTY := Fill([], [], [])

  /** fills holds the values visited so far. */
  datatype S2 = S2(pos: nat, f: Flags, top: int, slen: nat, fills: seq<Fill>)

  datatype R2 = Fail2 | Accept2 | Go2(s: S2)

  /** The end of the number at p. */
  function Skip(t: seq<byte>, p: nat): (q: nat)
    requires p <= |t|
    ensures p <= q <= |t| && !NumberChar(At(t, q))
    ensures NumberChar(At(t, p)) ==> q > p
    decreases |t| - p
  {
    if NumberChar(At(t, p)) then Skip(t, p + 1) else p
  }

  function Finish2(nodes: seq<Node>, s: S2, fills: seq<Fill>, top: int, pos: nat): R2 {
    if !(0 <= top < |nodes|) then Fail2
    else
      var par := nodes[top].parent;
      if par < 0 then Go2(s.(pos := pos, f := AfterValue(None), top := top, fills := fills))
      else if par >= |fills| || par >= |nodes| || |fills[par].slots| + 1 > LIMIT then Fail2
      else
        Go2(s.(pos := pos, f := AfterValue(Some(nodes[par].kind)), top := par,
               fills := fills[par := fills[par].(slots := fills[par].slots + [top])]))
  }

  /** Bytes added to the string or pool of the current value. */
  function Write(s: S2, bytes: seq<byte>): seq<Fill> {
    if 0 <= s.top < |s.fills| then s.fills[s.top := s.fills[s.top].(mem := s.fills[s.top].mem + bytes)] else s.fills
  }

  function Apply2(t: seq<byte>, nodes: seq<Node>, s: S2, act: Act, last: nat): R2
    requires last <= |t|
  {
    var s' := s.(pos := last + 1, f := Flagged(s.f, act));
    match act
    case Emit(_, bytes) => Go2(s'.(slen := s.slen + |bytes|, fills := Write(s, bytes)))
    case OpenKey => Go2(s'.(slen := 0))
    case CloseKey =>
      if !(0 <= s.top < |s.fills|) || |s.fills[s.top].mem| < s.slen then Fail2
      else
        var fill := s.fills[s.top];
        var name := Name(|fill.mem| - s.slen, s.slen);
        Go2(s'.(fills := s.fills[s.top := fill.(mem := fill.mem + [0], names := fill.names + [name])]))
    case CloseString => Finish2(nodes, s', Write(s, [0]), s.top, last + 1)
    case New(kind) => if |s.fills| >= |nodes| then Fail2
      else Go2(s'.(fills := s.fills + [EMPTY], top := |s.fills|, slen := 0))
    case Literal(_, _) => if |s.fills| >= |nodes| then Fail2
      else Finish2(nodes, s', s.fills + [EMPTY], |s.fills|, last + 1)
    case Number => if |s.fills| >= |nodes| then Fail2
      else Finish2(nodes, s', s.fills + [EMPTY], |s.fills|, Skip(t, last))
    case Close => Finish2(nodes, s', s.fills, s.top, last + 1)
    case _ => Go2(s')
  }

  function Step2(t: seq<byte>, nodes: seq<Node>, s: S2): R2
    requires s.pos <= |t|
  {
    match Decide(t, s.pos, s.f, s.slen, KindOf(nodes, s.top))
    case Stop => Fail2
    case Done => Accept2
    case Do(act, last) => Apply2(t, nodes, s, act, last)
  }

  /** Every iteration of the second pass moves on in the text. */
  lemma Progress2(t: seq<byte>, nodes: seq<Node>, s: S2)
    requires s.pos <= |t|
    ensures Step2(t, nodes, s).Go2? ==> s.pos < Step2(t, nodes, s).s.pos <= |t|
  {
  }

  function Run2(t: seq<byte>, nodes: seq<Node>, s: S2): Option<seq<Fill>>
    requires s.pos <= |t|
    decreases |t| - s.pos
  {
    match Step2(t, nodes, s)
    case Fail2 => None
    case Accept2 => Some(s.fills)
    case Go2(s') => Progress2(t, nodes, s); Run2(t, nodes, s')
  }

  const INIT1 := S1(0, START, -1, 0, NUM0, [])
  const INIT2 := S2(0, START, -1, 0, [])

  // ---------- the loops ----------

  /** The loop of the first pass. It ends on every text. */
  method FirstPass(t: seq<byte>) returns (r: Option<seq<Node>>)
    ensures r == Run1(t, INIT1)
  {
    var s := INIT1;
    while true
      invariant s.pos <= |t| && Run1(t, s) == Run1(t, INIT1)
      decreases |t| - s.pos, Rank(s)
    {
      Progress1(t, s);
      match Step1(t, s)
      case Fail => return None;
      case Accept => return Some(s.nodes);
      case Go(s') => s := s';
    }
  }

  /** The loop of the second pass. */
  method SecondPass(t: seq<byte>, nodes: seq<Node>) returns (r: Option<seq<Fill>>)
    ensures r == Run2(t, nodes, INIT2)
  {
    var s := INIT2;
    while true
      invariant s.pos <= |t| && Run2(t, nodes, s) == Run2(t, nodes, INIT2)
      decreases |t| - s.pos
    {
      Progress2(t, nodes, s);
      match Step2(t, nodes, s)
      case Fail2 => return None;
      case Accept2 => return Some(s.fills);
      case Go2(s') => s := s';
    }
  }
}
