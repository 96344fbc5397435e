/**
 Texts with arbitrarily wide objects, which show that the int in which new_value of src/json.c computes the room for the
 entries of an object can overflow.
 */
module JsonWide {
  import opened Bytes
  import opened JsonText
  import opened JsonPass
  import opened JsonTwoPass

  const QUOTE: byte := 34

  /** The i-th character of an entry, which has an empty name and an empty string: "":"", */
  function EntryChar(i: nat): byte {
    if i == 2 then 58 else if i == 5 then 44 else QUOTE
  }

  function WideChar(n: nat, p: nat): byte {
    if p == 0 then 123 else if p == 6 * n + 1 then 125 else EntryChar((p - 1) % 6)
  }

  /** An object of n such entries. */
  function WideText(n: nat): (t: seq<byte>)
    ensures |t| == 6 * n + 2
  {
    seq(6 * n + 2, p requires p >= 0 => WideChar(n, p))
  }

  lemma CharAt(n: nat, k: nat, i: nat)
    requires k < n && i < 6
    ensures At(WideText(n), 1 + 6 * k + i) == EntryChar(i)
  {
    assert (6 * k + i) % 6 == i;
  }

  /** The values once k entries are read. */
  function WideNodes(k: nat): seq<Node> {
    [Node(Obj, -1, k, k, 0)] + seq(k, _ => Node(Str, 0, 0, 0, 0))
  }

  const READY := Flags(false, false, false, false, false, false)

  /** The first pass before the k-th entry. */
  function Before(k: nat): S1 {
    S1(1 + 6 * k, READY, 0, 0, NUM0, WideNodes(k))
  }

  lemma RunStep(t: seq<byte>, s: S1, s': S1)
    requires s.pos <= |t| && Step1(t, s) == Go(s')
    ensures s'.pos <= |t| && Run1(t, s) == Run1(t, s')
  {
    Progress1(t, s);
  }

  /** The name of an entry: its two quotes. */
  lemma ReadName(n: nat, k: nat) returns (s: S1)
    requires k < n
    ensures s == Before(k).(pos := 3 + 6 * k, f := READY.(seek := true, colon := true),
                            nodes := WideNodes(k)[0 := Node(Obj, -1, k, k + 1, 0)])
    ensures Run1(WideText(n), s) == Run1(WideText(n), Before(k))
  {
    var t, a := WideText(n), Before(k);
    CharAt(n, k, 0);
    var b := a.(pos := 2 + 6 * k, f := READY.(str := true));
    RunStep(t, a, b);
    CharAt(n, k, 1);
    s := b.(pos := 3 + 6 * k, f := READY.(seek := true, colon := true),
            nodes := WideNodes(k)[0 := Node(Obj, -1, k, k + 1, 0)]);
    RunStep(t, b, s);
  }

  /** The colon, and the quote that starts the value. */
  lemma ReadColon(n: nat, k: nat, a: S1) returns (s: S1)
    requires k < n && a == Before(k).(pos := 3 + 6 * k, f := READY.(seek := true, colon := true),
                                      nodes := WideNodes(k)[0 := Node(Obj, -1, k, k + 1, 0)])
    ensures s == a.(pos := 5 + 6 * k, f := READY.(str := true), top := k + 1, nodes := a.nodes +
            [Node(Str, 0, 0, 0, 0)])
    ensures Run1(WideText(n), s) == Run1(WideText(n), a)
  {
    var t := WideText(n);
    CharAt(n, k, 2);
    var b := a.(pos := 4 + 6 * k, f := READY.(seek := true));
    RunStep(t, a, b);
    CharAt(n, k, 3);
    s := b.(pos := 5 + 6 * k, f := READY.(str := true), top := k + 1, nodes := a.nodes + [Node(Str, 0, 0, 0, 0)]);
    RunStep(t, b, s);
  }

  /** The quote that ends the value, and the comma. */
  lemma ReadValue(n: nat, k: nat, a: S1)
    requires k < n && k + 1 <= LIMIT
    requires a == Before(k).(pos := 5 + 6 * k, f := READY.(str := true), top := k + 1,
                             nodes := WideNodes(k)[0 := Node(Obj, -1, k, k + 1, 0)] + [Node(Str, 0, 0, 0, 0)])
    ensures Run1(WideText(n), Before(k + 1)) == Run1(WideText(n), a)
  {
    var t := WideText(n);
    CharAt(n, k, 4);
    var b := Before(k + 1).(pos := 6 + 6 * k, f := AfterValue(Some(Obj)));
    assert a.nodes[k + 1 := a.nodes[k + 1].(len := 0)] == a.nodes;
    assert a.nodes[0 := Node(Obj, -1, k + 1, k + 1, 0)] == WideNodes(k + 1);
    RunStep(t, a, b);
    CharAt(n, k, 5);
    RunStep(t, b, Before(k + 1));
  }

  lemma {:induction false} ReadEntries(n: nat, k: nat)
    requires k <= n <= LIMIT
    ensures Run1(WideText(n), Before(k)) == Run1(WideText(n), Before(0))
  {
    if k > 0 {
      ReadEntries(n, k - 1);
      var s := ReadName(n, k - 1);
      s := ReadColon(n, k - 1, s);
      ReadValue(n, k - 1, s);
    }
  }

  lemma ReadOpen(n: nat)
    ensures Run1(WideText(n), INIT1) == Run1(WideText(n), Before(0))
  {
    assert At(WideText(n), 0) == 123 && WideNodes(0) == [Node(Obj, -1, 0, 0, 0)];
    RunStep(WideText(n), INIT1, Before(0));
  }

  lemma ReadClose(n: nat)
    ensures Run1(WideText(n), Before(n)) == Some(WideNodes(n))
  {
    var t := WideText(n);
    assert At(t, 6 * n + 1) == 125;
    var last := Before(n).(pos := 6 * n + 2, f := AfterValue(None));
    RunStep(t, Before(n), last);
    assert Step1(t, last) == Accept;
  }

  /** The text is accepted, with as many entries as it was made of. */
  lemma WideAccepted(n: nat)
    requires n <= LIMIT
    ensures Run1(WideText(n), INIT1) == Some(WideNodes(n)) && WideNodes(n)[0].len == n
  {
    ReadOpen(n);
    ReadEntries(n, n);
    ReadClose(n);
  }

  const TOO_WIDE: nat := 178_956_971

  /** A concrete text: the room of this object is computed as 8 bytes, and the second pass fills all of its entries. */
  lemma RoomOverflows()
    ensures var t := WideText(TOO_WIDE);
            && Run1(t, INIT1) == Some(WideNodes(TOO_WIDE)) && WideNodes(TOO_WIDE)[0].len == TOO_WIDE
            && ValuesSize(TOO_WIDE) == 8
            && Run2(t, WideNodes(TOO_WIDE), INIT2).Some?
            && |Run2(t, WideNodes(TOO_WIDE), INIT2).value| > 0
            && |Run2(t, WideNodes(TOO_WIDE), INIT2).value[0].slots| == TOO_WIDE
  {
    WideAccepted(TOO_WIDE);
    TwoPassesAgree(WideText(TOO_WIDE));
    var fills := Run2(WideText(TOO_WIDE), WideNodes(TOO_WIDE), INIT2).value;
    assert Matches(WideNodes(TOO_WIDE)[0], fills[0], WHOLE);
  }
}
