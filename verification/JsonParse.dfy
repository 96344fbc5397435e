/**
 Parsing and freeing together: what json_parse_ex returns, json_value_free_ex takes apart completely.
 */
module JsonParse {
  import opened Bytes
  import P = JsonPass
  import W = JsonTwoPass
  import L = JsonLex
  import G = JsonGrammar
  import A = JsonAccept
  import M = JsonMeaning
  import T = JsonText
  import F = JsonFree

  /** The values as json_value_free_ex sees them. */
  ghost function ForestOf(nodes: seq<P.Node>, fills: seq<P.Fill>): F.Forest
    requires |fills| == |nodes|
  {
    F.Forest(seq(|nodes|, i requires 0 <= i < |nodes| => nodes[i].parent),
             seq(|nodes|, i requires 0 <= i < |nodes| => fills[i].slots))
  }

  lemma TreeIsForest(nodes: seq<P.Node>, fills: seq<P.Fill>)
    requires W.Tree(nodes, fills)
    ensures F.Valid(ForestOf(nodes, fills))
  {
    var f := ForestOf(nodes, fills);
    forall i | 0 <= i < |f.kids|
      ensures F.KidsOk(f, f.kids[i], i)
    {
      assert W.SlotsOk(nodes, fills[i].slots, i);
    }
  }

  /** Both passes of json_parse_ex. What is accepted is a text of the grammar, and each text of the grammar that is
      below 4 GiB; and the values are those that the text says. */
  method Parse(t: seq<byte>) returns (r: Option<seq<P.Node>>, fills: seq<P.Fill>)
    ensures r == P.Run1(t, P.INIT1)
    ensures r.Some? ==> P.Run2(t, r.value, P.INIT2) == Some(fills)
    ensures r.Some? ==> W.Complete(r.value, fills) && W.Tree(r.value, fills)
    ensures r.Some? ==> G.Text(t) && M.Meant(L.Values(t), r.value, fills)
    ensures |t| <= T.LIMIT && G.Text(t) ==> r.Some?
  {
    A.AcceptsExactly(t);
    fills := [];
    r := P.FirstPass(t);
    if r.Some? {
      W.TwoPassesAgree(t);
      M.ParsedAsSaid(t);
      var filled := P.SecondPass(t, r.value);
      fills := filled.value;
    }
  }

  /** Of an accepted text, every value is freed exactly once, and before its parent. */
  lemma ParsedIsFreed(t: seq<byte>, i: nat)
    requires P.Run1(t, P.INIT1).Some? && i < |P.Run1(t, P.INIT1).value|
    ensures P.Run2(t, P.Run1(t, P.INIT1).value, P.INIT2).Some?
    ensures var nodes, fills := P.Run1(t, P.INIT1).value, P.Run2(t, P.Run1(t, P.INIT1).value, P.INIT2).value;
            && |fills| == |nodes| && F.Valid(ForestOf(nodes, fills))
            && F.All(F.Post(ForestOf(nodes, fills), 0), i) == 1
            && (i > 0 ==> nodes[i].parent >= 0 && F.Before(F.Post(ForestOf(nodes, fills), 0), i, nodes[i].parent))
  {
    W.TwoPassesAgree(t);
    var nodes, fills := P.Run1(t, P.INIT1).value, P.Run2(t, P.Run1(t, P.INIT1).value, P.INIT2).value;
    TreeIsForest(nodes, fills);
    var f := ForestOf(nodes, fills);
    F.FreedOnce(f, i);
    if i > 0 {
      F.FreedBeforeParent(f, i);
    }
  }
}
