/**
 The first pass of json_parse_ex in src/json.c accepts exactly the texts of the grammar.
 */
module JsonAccept {
  import opened Bytes
  import opened Hiding
  import opened JsonText
  import opened JsonPass
  import L = JsonLex
  import G = JsonGrammar

  /** No count reaches its limit: the text is shorter, or accepted anyway. */
  ghost predicate Unlimited(t: seq<byte>, s: S1)
    requires s.pos <= |t|
  {
    forall k {:trigger InRun(k)} :: InRun(k) ==> |t| <= LIMIT || Run1(t, s).Some?
  }

  /** The first pass comes from one state to another. */
  ghost predicate Leads(t: seq<byte>, s: S1, s': S1)
    requires s.pos <= |t|
  {
    s'.pos <= |t| && forall k {:trigger InRun(k)} :: InRun(k) ==> Run1(t, s) == Run1(t, s')
  }

  /** From a state, the text is refused. */
  ghost predicate Dies(t: seq<byte>, s: S1)
    requires s.pos <= |t|
  {
    forall k {:trigger InRun(k)} :: InRun(k) ==> Run1(t, s) == None
  }

  lemma OneStep(t: seq<byte>, s: S1)
    requires s.pos <= |t|
    ensures Step1(t, s).Go? ==> Leads(t, s, Step1(t, s).s)
    ensures Step1(t, s).Fail? ==> Dies(t, s)
  {
    if Step1(t, s).Go? {
      Progress1(t, s);
    }
  }

  /** What a state leads to is as good as the state. */
  lemma Via(t: seq<byte>, s: S1, a: S1)
    requires s.pos <= |t| && Leads(t, s, a)
    ensures Unlimited(t, s) <==> Unlimited(t, a)
    ensures Dies(t, s) <==> Dies(t, a)
    ensures forall b {:trigger Leads(t, a, b)} :: Leads(t, a, b) ==> Leads(t, s, b)
  {
    assert InRun(0);
  }

  lemma Lives(t: seq<byte>, s: S1)
    requires s.pos <= |t| && Unlimited(t, s) && Dies(t, s)
    ensures |t| <= LIMIT
  {
    assert InRun(0);
  }

  // ---------- white space ----------

  /** White space means nothing here. */
  predicate Skips(s: S1) {
    !s.f.str && !InNumber(s) && (s.f.done || s.f.seek || KindOf(s.nodes, s.top) == Some(Obj))
  }

  lemma {:induction false} BlankRun(t: seq<byte>, s: S1) returns (s': S1)
    requires s.pos <= |t| && Skips(s)
    ensures s' == s.(pos := G.Blank(t, s.pos)) && Leads(t, s, s')
    decreases |t| - s.pos
  {
    s' := s;
    if White(At(t, s.pos)) {
      OneStep(t, s);
      assert Step1(t, s) == Go(s.(pos := s.pos + 1));
      s' := BlankRun(t, s.(pos := s.pos + 1));
      Via(t, s, s.(pos := s.pos + 1));
    }
  }

  // ---------- quoted text ----------

  /** In a quoted text the pass comes to the quote that ends it, or fails. */
  lemma {:induction false} QuoteRun(t: seq<byte>, s: S1) returns (s': S1)
    requires s.pos <= |t| && s.f.str && s.slen <= s.pos && Unlimited(t, s)
    requires KindOf(s.nodes, s.top) == Some(Str) || KindOf(s.nodes, s.top) == Some(Obj)
    ensures var q := L.Tail(t, s.pos, s.f.esc);
            if q.Unclosed? then Dies(t, s)
            else s' == s.(pos := q.end, slen := s'.slen, f := s.f.(esc := false)) && Leads(t, s, s')
                 && s'.slen <= LIMIT
    decreases |t| - s.pos
  {
    s' := s;
    OneStep(t, s);
    var b := At(t, s.pos);
    if Dies(t, s) {
      Lives(t, s);
    }
    if Step1(t, s).Go? && (s.f.esc || b != 34) {
      var next := Step1(t, s).s;
      QuoteStep(t, s, next);
      Via(t, s, next);
      s' := QuoteRun(t, next);
    }
  }

  lemma QuoteStep(t: seq<byte>, s: S1, next: S1)
    requires s.pos <= |t| && s.f.str && s.slen <= s.pos && Step1(t, s) == Go(next) && (s.f.esc || At(t, s.pos) != 34)
    requires KindOf(s.nodes, s.top) == Some(Str) || KindOf(s.nodes, s.top) == Some(Obj)
    ensures s.pos < next.pos <= |t| && next == s.(pos := next.pos, slen := next.slen, f := s.f.(esc := next.f.esc))
    ensures next.slen <= next.pos
    ensures var q, r := L.Tail(t, s.pos, s.f.esc), L.Tail(t, next.pos, next.f.esc);
            q.Unclosed? <==> r.Unclosed?
    ensures var q, r := L.Tail(t, s.pos, s.f.esc), L.Tail(t, next.pos, next.f.esc); q.Quoted? ==> q.end == r.end
  {
  }

  // ---------- numbers ----------

  /** What the digits at this place add to. */
  function Part(s: S1): nat
    requires InNumber(s)
  {
    if s.num.e then s.num.exponent else if s.nodes[s.top].kind == Int then s.num.integer else s.num.fraction
  }

  predicate Whole(s: S1)
    requires InNumber(s)
  {
    s.nodes[s.top].kind == Int
  }

  /** Digits have been read since p, as the integer, the fraction or the exponent. */
  predicate Phase(t: seq<byte>, s: S1, p: nat) {
    && InNumber(s) && p <= s.pos <= |t| && s.num.digits == s.pos - p
    && Part(s) == L.Decimal(t, p, s.pos) <= LONG_MAX
    && (!s.num.e ==> s.num.exponent == 0 && !s.num.gotSign)
    && (s.num.e && s.pos > p ==> s.num.gotSign)
    && (Whole(s) ==> !s.num.e && s.num.fraction == 0 && (s.num.zero <==> s.pos > p && t[p] == 48))
    && (Whole(s) && s.num.zero ==> s.pos == p + 1)
  }

  /** The same number further on. */
  predicate Further(s: S1, s': S1) {
    && InNumber(s) && InNumber(s') && s'.f == s.f && s'.top == s.top && s'.slen == s.slen && |s'.nodes| == |s.nodes|
    && s'.nodes[s.top].parent == s.nodes[s.top].parent
    && forall i :: 0 <= i < |s.nodes| && i != s.top ==> s'.nodes[i] == s.nodes[i]
  }

  lemma {:induction false} DecimalGrows(t: seq<byte>, p: nat, k: nat, q: nat)
    requires p <= k <= q <= |t| && (forall i :: k <= i < q ==> Digit(t[i])) && L.Decimal(t, p, k) >= 0
    ensures L.Decimal(t, p, q) >= L.Decimal(t, p, k)
    decreases q - k
  {
    if k < q {
      DecimalGrows(t, p, k, q - 1);
    }
  }

  lemma {:induction false} DigitsAre(t: seq<byte>, p: nat)
    requires p <= |t|
    ensures forall i :: p <= i < G.Digits(t, p) ==> Digit(t[i])
    decreases |t| - p
  {
    if Digit(At(t, p)) {
      DigitsAre(t, p + 1);
    }
  }

  /** A digit too many, or a digit after a leading zero. */
  predicate Refused(t: seq<byte>, s: S1, p: nat, q: nat)
    requires InNumber(s) && p <= q <= |t|
  {
    L.Decimal(t, p, q) > LONG_MAX || (Whole(s) && q > p + 1 && t[p] == 48)
  }

  lemma {:induction false} DigitsRun(t: seq<byte>, s: S1, p: nat) returns (s': S1)
    requires Phase(t, s, p)
    ensures var q := G.Digits(t, s.pos);
            if Refused(t, s, p, q) then Dies(t, s)
            else Leads(t, s, s') && Phase(t, s', p) && s'.pos == q && s'.nodes == s.nodes && s'.num.e == s.num.e
                 && Further(s, s')
    decreases |t| - s.pos
  {
    s' := s;
    if Digit(At(t, s.pos)) {
      OneStep(t, s);
      if OnDigit(t[s.pos], s.nodes[s.top].kind, s.num).NumFail? {
        DigitsAre(t, s.pos);
        assert L.Decimal(t, p, s.pos + 1) == Part(s) * 10 + (t[s.pos] as int - 48);
        DecimalGrows(t, p, s.pos + 1, G.Digits(t, s.pos));
      } else {
        var next := DigitStep(t, s, p);
        Via(t, s, next);
        s' := DigitsRun(t, next, p);
      }
    }
  }

  lemma DigitStep(t: seq<byte>, s: S1, p: nat) returns (next: S1)
    requires Phase(t, s, p) && Digit(At(t, s.pos)) && !OnDigit(At(t, s.pos), s.nodes[s.top].kind, s.num).NumFail?
    ensures Step1(t, s) == Go(next) && Phase(t, next, p) && next.pos == s.pos + 1 && next.nodes == s.nodes
    ensures next.num.e == s.num.e && Further(s, next)
  {
    next := Step1(t, s).s;
    assert next.nodes == s.nodes;
  }

  /** The number ends here. */
  predicate Over(t: seq<byte>, s: S1) {
    InNumber(s) && s.pos <= |t| && OnNumber(At(t, s.pos), s.nodes[s.top].kind, s.num) == NumEnd
  }

  /** The digits of an exponent. */
  lemma PowerRun(t: seq<byte>, s: S1, p: nat) returns (s': S1)
    requires Phase(t, s, p) && s.num.e && s.pos == p && (s.num.gotSign || !G.Sign(At(t, p)))
    ensures var r := G.Digits1(t, p);
            if r.None? then Dies(t, s) else Leads(t, s, s') && Over(t, s') && s'.pos == r.value && Further(s, s')
  {
    s' := DigitsRun(t, s, p);
    if !Refused(t, s, p, G.Digits(t, p)) {
      Via(t, s, s');
      OneStep(t, s');
    }
  }

  lemma ExponentRun(t: seq<byte>, s: S1, p: nat) returns (s': S1)
    requires Phase(t, s, p) && !s.num.e && !Digit(At(t, s.pos))
    requires if Whole(s) then At(t, s.pos) != 46 else s.pos > p
    ensures var r := G.Exponent(t, s.pos);
            if r.None? then Dies(t, s) else Leads(t, s, s') && Over(t, s') && s'.pos == r.value && Further(s, s')
  {
    s' := s;
    if G.Exp(At(t, s.pos)) {
      OneStep(t, s);
      var e := Step1(t, s).s;
      Via(t, s, e);
      assert Phase(t, e, s.pos + 1) && Further(s, e);
      if G.Sign(At(t, e.pos)) {
        OneStep(t, e);
        var g := Step1(t, e).s;
        Via(t, e, g);
        assert Phase(t, g, e.pos + 1) && Further(s, g);
        s' := PowerRun(t, g, e.pos + 1);
      } else {
        s' := PowerRun(t, e, e.pos);
      }
    }
  }

  /** A number after its sign. */
  lemma UnsignedRun(t: seq<byte>, s: S1) returns (s': S1)
    requires Phase(t, s, s.pos) && Whole(s)
    ensures var r := G.Unsigned(t, s.pos);
            if r.None? then Dies(t, s) else Leads(t, s, s') && Over(t, s') && s'.pos == r.value && Further(s, s')
  {
    var p := s.pos;
    var i := DigitsRun(t, s, p);
    s' := i;
    if !Refused(t, s, p, G.Digits(t, p)) {
      Via(t, s, i);
      if At(t, i.pos) != 46 {
        s' := ExponentRun(t, i, p);
      } else {
        OneStep(t, i);
        if i.pos > p {
          s' := FractionRun(t, i, p);
        }
      }
    }
  }

  lemma FractionRun(t: seq<byte>, s: S1, p: nat) returns (s': S1)
    requires Phase(t, s, p) && Whole(s) && s.pos > p && At(t, s.pos) == 46
    ensures var j := G.Digits1(t, s.pos + 1);
            var r := if j.None? then None else G.Exponent(t, j.value);
            if r.None? then Dies(t, s) else Leads(t, s, s') && Over(t, s') && s'.pos == r.value && Further(s, s')
  {
    OneStep(t, s);
    var d := Step1(t, s).s;
    Via(t, s, d);
    assert Phase(t, d, s.pos + 1) && Further(s, d);
    var e := DigitsRun(t, d, d.pos);
    s' := e;
    if !Refused(t, d, d.pos, G.Digits(t, d.pos)) {
      Via(t, d, e);
      if e.pos > d.pos {
        s' := ExponentRun(t, e, d.pos);
      } else {
        OneStep(t, e);
      }
    }
  }

  // ---------- values ----------

  /** A value is wanted: at the root, in an array, or in an object after a name. */
  predicate Seeks(s: S1) {
    && s.f == START && -1 <= s.top < |s.nodes|
    && (s.top >= 0 ==> Container(s.nodes[s.top].kind) && s.nodes[s.top].len <= s.pos)
  }

  /** All values but the current one are as they were, and that one is still the same. */
  predicate Stays(s: S1, s': S1) {
    && |s.nodes| <= |s'.nodes|
    && (forall i :: 0 <= i < |s.nodes| && i != s.top ==> s'.nodes[i] == s.nodes[i])
    && (0 <= s.top < |s.nodes| ==>
      s'.nodes[s.top].kind == s.nodes[s.top].kind && s'.nodes[s.top].parent == s.nodes[s.top].parent)
  }

  /** A value has been read where one was wanted, and ends at q. */
  predicate Followed(s: S1, s': S1, q: nat) {
    && s'.pos == q && Stays(s, s') && s'.f == AfterValue(KindOf(s.nodes, s.top))
    && (s.top >= 0 ==> s'.top == s.top < |s'.nodes| && s'.nodes[s.top].len <= q)
  }

  /** A value that is complete. */
  lemma FinishFollows(s: S1, nodes: seq<Node>, slen: nat, num: Num, top: nat, q: nat)
    requires Seeks(s) && s.pos < q && |s.nodes| <= top < |nodes| && nodes[top].parent == s.top
    requires forall i :: 0 <= i < |s.nodes| ==> nodes[i] == s.nodes[i]
    ensures var r := Finish1(slen, num, nodes, top, q); r.Go? ==> Followed(s, r.s, q)
    ensures Finish1(slen, num, nodes, top, q) != Accept
    ensures Finish1(slen, num, nodes, top, q).Fail? ==> q > LIMIT
  {
  }

  /** The same for the iteration in which it becomes complete. */
  lemma FinishRun(t: seq<byte>, s: S1, c: S1, nodes: seq<Node>, top: nat, q: nat) returns (s': S1)
    requires Seeks(s) && s.pos < q <= |t| && |s.nodes| <= top < |nodes| && nodes[top].parent == s.top
    requires forall i :: 0 <= i < |s.nodes| ==> nodes[i] == s.nodes[i]
    requires c.pos <= |t| && Step1(t, c) == Finish1(c.slen, c.num, nodes, top, q) && Unlimited(t, c)
    ensures Leads(t, c, s') && Followed(s, s', q)
  {
    FinishFollows(s, nodes, c.slen, c.num, top, q);
    OneStep(t, c);
    if Step1(t, c).Fail? {
      Lives(t, c);
    }
    s' := Step1(t, c).s;
  }

  lemma NumberRun(t: seq<byte>, s: S1) returns (s': S1)
    requires Seeks(s) && s.pos < |t| && (Digit(t[s.pos]) || t[s.pos] == 45) && Unlimited(t, s)
    ensures var r := G.Value(t, s.pos);
            if r.None? then Dies(t, s) else Leads(t, s, s') && Followed(s, s', r.value)
  {
    OneStep(t, s);
    var n := Step1(t, s).s;
    Via(t, s, n);
    assert n.nodes == s.nodes + [Node(Int, s.top, 0, 0, 0)] && n.top == |s.nodes| && InNumber(n);
    assert Phase(t, n, n.pos) && Whole(n);
    var e := UnsignedRun(t, n);
    s' := e;
    var r := G.Unsigned(t, n.pos);
    if r.Some? {
      Via(t, n, e);
      s' := FinishRun(t, s, e, Valued(e), e.top, r.value);
    }
  }

  lemma LiteralRun(t: seq<byte>, s: S1) returns (s': S1)
    requires Seeks(s) && s.pos <= |t| && Unlimited(t, s) && !White(At(t, s.pos)) && !Digit(At(t, s.pos))
    requires At(t, s.pos) != 45 && At(t, s.pos) != 34 && At(t, s.pos) != 91 && At(t, s.pos) != 123
    requires At(t, s.pos) != 93 || KindOf(s.nodes, s.top) != Some(Arr)
    ensures var r := G.Value(t, s.pos);
            if r.None? then Dies(t, s) else Leads(t, s, s') && Followed(s, s', r.value)
  {
    OneStep(t, s);
    var c := Decide(t, s.pos, s.f, s.slen, KindOf(s.nodes, s.top));
    LiteralDecided(t, s.pos, KindOf(s.nodes, s.top));
    s' := s;
    if c.Do? {
      s' := FinishRun(t, s, s, s.nodes + [Node(c.act.kind, s.top, 0, 0, c.act.value)], |s.nodes|, c.last + 1);
    }
  }

  lemma LiteralDecided(t: seq<byte>, p: nat, kind: Option<Kind>)
    requires p <= |t| && !White(At(t, p)) && !Digit(At(t, p)) && (At(t, p) == 93 ==> kind != Some(Arr))
    requires At(t, p) != 45 && At(t, p) != 34 && At(t, p) != 91 && At(t, p) != 123
    ensures var c, r := Decide(t, p, START, 0, kind), G.Literal(t, p);
            && (if r.None? then c == Stop else c.Do? && c.act.Literal? && c.last + 1 == r.value)
            && forall n :: Decide(t, p, START, n, kind) == c
  {
    if p + 4 <= |t| {
      assert t[p..p + 4] == [t[p], t[p + 1], t[p + 2], t[p + 3]];
    }
    if p + 5 <= |t| {
      assert t[p..p + 5] == [t[p], t[p + 1], t[p + 2], t[p + 3], t[p + 4]];
    }
  }

  lemma StringOpened(t: seq<byte>, s: S1) returns (n: S1)
    requires Seeks(s) && s.pos < |t| && t[s.pos] == 34
    ensures Leads(t, s, n)
    ensures n == s.(pos := s.pos + 1, f := START.(seek := false, str := true), top := |s.nodes|, slen := 0,
                    nodes := s.nodes + [Node(Str, s.top, 0, 0, 0)])
  {
    OneStep(t, s);
    n := Step1(t, s).s;
  }

  lemma StringRun(t: seq<byte>, s: S1) returns (s': S1)
    requires Seeks(s) && s.pos < |t| && t[s.pos] == 34 && Unlimited(t, s)
    ensures var r := G.Value(t, s.pos);
            if r.None? then Dies(t, s) else Leads(t, s, s') && Followed(s, s', r.value)
  {
    var n := StringOpened(t, s);
    Via(t, s, n);
    var e := QuoteRun(t, n);
    s' := e;
    if L.Quote(t, n.pos).Quoted? {
      Via(t, n, e);
      var nodes := e.nodes[e.top := e.nodes[e.top].(len := e.slen)];
      s' := FinishRun(t, s, e, nodes, e.top, e.pos + 1);
    }
  }

  // ---------- arrays and objects ----------

  /** An array or object that has been read up to its end. */
  predicate Closing(t: seq<byte>, s: S1, s': S1, q: nat) {
    && s'.pos + 1 == q <= |t| && Stays(s, s') && s'.top == s.top && !s'.f.str && !s'.f.done
    && if KindOf(s.nodes, s.top) == Some(Arr) then s'.f.seek && At(t, s'.pos) == 93
       else !s'.f.seek && At(t, s'.pos) == 125
  }

  /** The end of an array or object n that opened where a value was wanted. */
  lemma CloseRun(t: seq<byte>, s: S1, n: S1, e: S1, kind: Kind, q: nat) returns (s': S1)
    requires Seeks(s) && Container(kind) && s.pos < e.pos && e.pos <= |t| && Unlimited(t, e)
    requires n.nodes == s.nodes + [Node(kind, s.top, 0, 0, 0)] && n.top == |s.nodes| && Closing(t, n, e, q)
    ensures Leads(t, e, s') && Followed(s, s', q)
  {
    assert n.nodes[n.top] == Node(kind, s.top, 0, 0, 0);
    assert forall i :: 0 <= i < |s.nodes| ==> e.nodes[i] == n.nodes[i] == s.nodes[i];
    assert Decide(t, e.pos, e.f, e.slen, KindOf(e.nodes, e.top)) == Do(Close, e.pos);
    s' := FinishRun(t, s, e, e.nodes, e.top, q);
  }

  /** A value is read exactly as the grammar says, or the text is refused. */
  lemma {:induction false} ValueRun(t: seq<byte>, s: S1) returns (s': S1)
    requires Seeks(s) && s.pos <= |t| && Unlimited(t, s) && !White(At(t, s.pos))
    requires At(t, s.pos) != 93 || KindOf(s.nodes, s.top) != Some(Arr)
    ensures var r := G.Value(t, s.pos);
            if r.None? then Dies(t, s) else Leads(t, s, s') && Followed(s, s', r.value)
    decreases |t| - s.pos, 1
  {
    var b := At(t, s.pos);
    if b == 34 {
      s' := StringRun(t, s);
    } else if b == 45 || Digit(b) {
      s' := NumberRun(t, s);
    } else if b == 91 {
      s' := ArrayRun(t, s);
    } else if b == 123 {
      s' := ObjectRun(t, s);
    } else {
      s' := LiteralRun(t, s);
    }
  }

  lemma {:induction false} ArrayRun(t: seq<byte>, s: S1) returns (s': S1)
    requires Seeks(s) && s.pos < |t| && Unlimited(t, s) && t[s.pos] == 91
    ensures var r := G.Value(t, s.pos);
            if r.None? then Dies(t, s) else Leads(t, s, s') && Followed(s, s', r.value)
    decreases |t| - s.pos, 0
  {
    var n := Opened(t, s);
    Via(t, s, n);
    s' := ElementsRun(t, n);
    var r := G.Elements(t, s.pos + 1);
    assert G.Value(t, s.pos) == r;
    if r.Some? {
      Via(t, n, s');
      s' := CloseRun(t, s, n, s', Arr, r.value);
    }
  }

  lemma {:induction false} ObjectRun(t: seq<byte>, s: S1) returns (s': S1)
    requires Seeks(s) && s.pos < |t| && Unlimited(t, s) && t[s.pos] == 123
    ensures var r := G.Value(t, s.pos);
            if r.None? then Dies(t, s) else Leads(t, s, s') && Followed(s, s', r.value)
    decreases |t| - s.pos, 0
  {
    var n := Opened(t, s);
    Via(t, s, n);
    s' := MembersRun(t, n);
    var r := G.Members(t, s.pos + 1);
    assert G.Value(t, s.pos) == r;
    if r.Some? {
      Via(t, n, s');
      s' := CloseRun(t, s, n, s', Obj, r.value);
    }
  }

  /** A name is wanted. */
  predicate Names(s: S1) {
    s.f == START.(seek := false) && KindOf(s.nodes, s.top) == Some(Obj) && s.nodes[s.top].len <= s.pos
  }

  lemma Opened(t: seq<byte>, s: S1) returns (n: S1)
    requires Seeks(s) && s.pos < |t| && (t[s.pos] == 91 || t[s.pos] == 123)
    ensures var kind := if t[s.pos] == 123 then Obj else Arr;
            && n.nodes == s.nodes + [Node(kind, s.top, 0, 0, 0)] && n.top == |s.nodes| && Leads(t, s, n)
            && n.pos == s.pos + 1 && if kind == Obj then Names(n) else Seeks(n)
  {
    OneStep(t, s);
    n := Step1(t, s).s;
  }

  /** What comes after an element or a member, at c: a comma, the end, or a failure. */
  ghost predicate Ended(t: seq<byte>, s: S1, v: S1, c: nat, s': S1)
    requires v.pos <= |t| && 0 <= s.top < |s.nodes|
  {
    var arr := s.nodes[s.top].kind == Arr;
    if At(t, c) == 44 then
      && Leads(t, v, s') && s'.pos == c + 1 && Stays(s, s') && s'.top == s.top
      && if arr then Seeks(s') else Names(s')
    else if At(t, c) == (if arr then 93 else 125) then Leads(t, v, s') && Closing(t, s, s', c + 1)
    else Dies(t, v)
  }

  lemma ItemEnds(t: seq<byte>, s: S1, v: S1) returns (s': S1)
    requires v.pos <= |t| && Stays(s, v) && v.top == s.top && 0 <= s.top < |s.nodes| && Container(s.nodes[s.top].kind)
    requires v.f == AfterValue(KindOf(s.nodes, s.top)) && v.nodes[s.top].len <= v.pos
    ensures Ended(t, s, v, G.Blank(t, v.pos), s')
  {
    var c := BlankRun(t, v);
    Via(t, v, c);
    s' := c;
    if At(t, c.pos) == 44 {
      s' := Separated(t, s, c);
    } else {
      OneStep(t, c);
    }
  }

  /** An element and what comes after it. */
  lemma {:induction false} ElementRun(t: seq<byte>, s: S1, b: S1) returns (s': S1)
    requires Seeks(s) && s.pos <= b.pos <= |t| && Unlimited(t, s) && KindOf(s.nodes, s.top) == Some(Arr)
    requires b == s.(pos := b.pos) && Leads(t, s, b) && !White(At(t, b.pos)) && At(t, b.pos) != 93
    ensures var r := G.Value(t, b.pos);
            if r.None? then Dies(t, s) else Ended(t, s, s, G.Blank(t, r.value), s')
    decreases |t| - s.pos, 2
  {
    Via(t, s, b);
    var v := ValueRun(t, b);
    s' := v;
    if G.Value(t, b.pos).Some? {
      Via(t, s, v);
      s' := ItemEnds(t, s, v);
    }
  }

  lemma {:induction false} ElementsRun(t: seq<byte>, s: S1) returns (s': S1)
    requires Seeks(s) && s.pos <= |t| && Unlimited(t, s) && KindOf(s.nodes, s.top) == Some(Arr)
    ensures var r := G.Elements(t, s.pos);
            if r.None? then Dies(t, s) else Leads(t, s, s') && Closing(t, s, s', r.value)
    decreases |t| - s.pos, 3
  {
    var b := BlankRun(t, s);
    s' := b;
    if At(t, b.pos) != 93 {
      s' := ElementRun(t, s, b);
      var r := G.Value(t, b.pos);
      if r.Some? && At(t, G.Blank(t, r.value)) == 44 {
        var n := s';
        assert G.Elements(t, s.pos) == G.Elements(t, n.pos);
        Via(t, s, n);
        s' := ElementsRun(t, n);
        StaysOn(t, s, n, s', s'.pos + 1);
      }
    }
  }

  lemma StaysOn(t: seq<byte>, s: S1, n: S1, s': S1, q: nat)
    requires Stays(s, n) && n.top == s.top && 0 <= s.top < |s.nodes|
    ensures Closing(t, n, s', q) ==> Closing(t, s, s', q)
  {
  }

  lemma FollowsOn(s: S1, n: S1, s': S1, q: nat)
    requires Stays(s, n) && n.top == s.top && 0 <= s.top < |s.nodes|
    ensures Followed(n, s', q) ==> Followed(s, s', q)
  {
  }

  /** A comma after an element or a member. */
  lemma Separated(t: seq<byte>, s: S1, c: S1) returns (n: S1)
    requires c.pos < |t| && t[c.pos] == 44 && Stays(s, c) && c.top == s.top && 0 <= s.top < |s.nodes|
    requires Container(s.nodes[s.top].kind)
    requires c.f == AfterValue(KindOf(s.nodes, s.top)) && c.nodes[c.top].len <= c.pos
    ensures n == c.(pos := c.pos + 1, f := c.f.(comma := false)) && Leads(t, c, n) && Stays(s, n)
    ensures if KindOf(s.nodes, s.top) == Some(Arr) then Seeks(n) else Names(n)
  {
    OneStep(t, c);
    n := Step1(t, c).s;
  }

  lemma {:induction false} MembersRun(t: seq<byte>, s: S1) returns (s': S1)
    requires Names(s) && s.pos <= |t| && Unlimited(t, s)
    ensures var r := G.Members(t, s.pos);
            if r.None? then Dies(t, s) else Leads(t, s, s') && Closing(t, s, s', r.value)
    decreases |t| - s.pos, 5
  {
    var b := BlankRun(t, s);
    s' := b;
    if At(t, b.pos) != 125 {
      s' := MemberEnds(t, s, b);
      var r := G.Member(t, b.pos);
      if r.Some? && At(t, G.Blank(t, r.value)) == 44 {
        var n := s';
        assert G.Members(t, s.pos) == G.Members(t, n.pos);
        Via(t, s, n);
        s' := MembersRun(t, n);
        StaysOn(t, s, n, s', s'.pos + 1);
      }
    }
  }

  /** A member and what comes after it. */
  lemma {:induction false} MemberEnds(t: seq<byte>, s: S1, b: S1) returns (s': S1)
    requires Names(s) && s.pos <= b.pos <= |t| && Unlimited(t, s)
    requires b == s.(pos := b.pos) && Leads(t, s, b) && !White(At(t, b.pos)) && At(t, b.pos) != 125
    ensures var r := G.Member(t, b.pos);
            if r.None? then Dies(t, s) else Ended(t, s, s, G.Blank(t, r.value), s')
    decreases |t| - s.pos, 4
  {
    Via(t, s, b);
    var v := MemberRun(t, b);
    s' := v;
    if G.Member(t, b.pos).Some? {
      Via(t, s, v);
      s' := ItemEnds(t, s, v);
    }
  }

  /** A name, a colon and a value. */
  lemma {:induction false} MemberRun(t: seq<byte>, s: S1) returns (s': S1)
    requires Names(s) && s.pos <= |t| && Unlimited(t, s) && At(t, s.pos) != 125 && !White(At(t, s.pos))
    ensures var r := G.Member(t, s.pos);
            if r.None? then Dies(t, s) else Leads(t, s, s') && Followed(s, s', r.value)
    decreases |t| - s.pos, 3
  {
    s' := s;
    if At(t, s.pos) != 34 {
      NoName(t, s);
    } else {
      var k := KeyRun(t, s);
      var q := L.Quote(t, s.pos + 1);
      if q.Quoted? {
        assert k.pos == q.end + 1;
        Via(t, s, k);
        s' := NamedRun(t, k);
        FollowsOn(s, k, s', s'.pos);
      }
    }
  }

  lemma NoName(t: seq<byte>, s: S1)
    requires Names(s) && s.pos <= |t| && At(t, s.pos) != 125 && At(t, s.pos) != 34 && !White(At(t, s.pos))
    ensures Dies(t, s)
  {
    OneStep(t, s);
  }

  /** A name, up to the colon. */
  lemma KeyRun(t: seq<byte>, s: S1) returns (s': S1)
    requires Names(s) && s.pos < |t| && Unlimited(t, s) && t[s.pos] == 34
    ensures var q := L.Quote(t, s.pos + 1);
            if q.Unclosed? then Dies(t, s)
            else && Leads(t, s, s') && s'.pos == q.end + 1 && Stays(s, s') && s'.top == s.top
                 && s'.f == START.(colon := true) && s'.nodes[s.top].len <= s'.pos
  {
    OneStep(t, s);
    var o := Step1(t, s).s;
    assert o == s.(pos := s.pos + 1, f := s.f.(str := true), slen := 0);
    Via(t, s, o);
    var e := QuoteRun(t, o);
    s' := e;
    if L.Quote(t, s.pos + 1).Quoted? {
      Via(t, s, e);
      OneStep(t, e);
      s' := Step1(t, e).s;
    }
  }

  lemma {:induction false} NamedRun(t: seq<byte>, s: S1) returns (s': S1)
    requires s.pos <= |t| && Unlimited(t, s) && s.f == START.(colon := true)
    requires KindOf(s.nodes, s.top) == Some(Obj) && s.nodes[s.top].len <= s.pos
    ensures var r := G.Named(t, s.pos);
            if r.None? then Dies(t, s) else Leads(t, s, s') && Followed(s, s', r.value)
    decreases |t| - s.pos, 2
  {
    var b := BlankRun(t, s);
    Via(t, s, b);
    OneStep(t, b);
    s' := b;
    if At(t, b.pos) == 58 {
      var c := Step1(t, b).s;
      assert c == b.(pos := b.pos + 1, f := START);
      Via(t, s, c);
      var d := BlankRun(t, c);
      Via(t, s, d);
      s' := ValueRun(t, d);
      FollowsOn(s, d, s', s'.pos);
    }
  }

  // ---------- texts ----------

  /** json_parse_ex accepts only texts of the grammar; and every one of them below 4 GiB. */
  lemma AcceptsExactly(t: seq<byte>)
    ensures Run1(t, INIT1).Some? ==> G.Text(t)
    ensures |t| <= LIMIT ==> (Run1(t, INIT1).Some? <==> G.Text(t))
  {
    if |t| <= LIMIT || Run1(t, INIT1).Some? {
      var b := BlankRun(t, INIT1);
      Via(t, INIT1, b);
      var v := ValueRun(t, b);
      var r := G.Value(t, b.pos);
      if r.Some? {
        Via(t, INIT1, v);
        TextEnds(t, v);
      }
      assert InRun(0);
    }
  }

  /** After the value of a text. */
  lemma TextEnds(t: seq<byte>, v: S1)
    requires v.pos <= |t| && v.f == AfterValue(None)
    ensures if At(t, G.Blank(t, v.pos)) == 0 then Run1(t, v).Some? else Dies(t, v)
  {
    var c := BlankRun(t, v);
    Via(t, v, c);
    OneStep(t, c);
    assert InRun(0);
  }
}
