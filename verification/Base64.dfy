/**
 The URL-safe base64 of src/base64.c (section 5 of RFC 4648): two loops over a bit accumulator. Characters and bytes
 are bit-vectors here, as are the 32-bit accumulators.
 */
module Base64 {
  import Bytes
  import opened Hiding

  const PAD: bv8 := 61
  const NUL: bv8 := 0
  const UINT_MAX: int := 0xFFFF_FFFF

  /** BASE64_SIZE: the text of n bytes, with its terminator. */
  function Size(n: nat): nat {
    (n + 2) / 3 * 4 + 1
  }

  // ---------- the encoding, position by position ----------

  /** The alphabet: A-Z, a-z, 0-9, '-' and '_'. */
  function Letter(s: bv8): bv8
    requires s < 64
  {
    if s < 26 then 65 + s
    else if s < 52 then 71 + s
    else if s < 62 then s - 4
    else if s == 62 then 45
    else 95
  }

  const INVALID: bv8 := 0xff

  /** The table map2, which covers the characters from '+' to 'z'. */
  function Value(c: bv8): bv8 {
    if 65 <= c <= 90 then c - 65
    else if 97 <= c <= 122 then c - 71
    else if 48 <= c <= 57 then c + 4
    else if c == 45 then 62
    else if c == 95 then 63
    else INVALID
  }

  lemma LetterValue(s: bv8)
    requires s < 64
    ensures Value(Letter(s)) == s && Letter(s) != PAD && Letter(s) != NUL
  {
  }

  /** The alphabet as section 5 of RFC 4648 gives it. */
  const ALPHABET := "ABCDEFGHIJKLMNOPQRSTUVWXYZabcdefghijklmnopqrstuvwxyz0123456789-_"

  /** Every letter is the one at its place in it. */
  lemma LettersAre()
    ensures [
      Letter(0) as char, Letter(1) as char, Letter(2) as char, Letter(3) as char,
      Letter(4) as char, Letter(5) as char, Letter(6) as char, Letter(7) as char,
      Letter(8) as char, Letter(9) as char, Letter(10) as char, Letter(11) as char,
      Letter(12) as char, Letter(13) as char, Letter(14) as char, Letter(15) as char,
      Letter(16) as char, Letter(17) as char, Letter(18) as char, Letter(19) as char,
      Letter(20) as char, Letter(21) as char, Letter(22) as char, Letter(23) as char,
      Letter(24) as char, Letter(25) as char, Letter(26) as char, Letter(27) as char,
      Letter(28) as char, Letter(29) as char, Letter(30) as char, Letter(31) as char,
      Letter(32) as char, Letter(33) as char, Letter(34) as char, Letter(35) as char,
      Letter(36) as char, Letter(37) as char, Letter(38) as char, Letter(39) as char,
      Letter(40) as char, Letter(41) as char, Letter(42) as char, Letter(43) as char,
      Letter(44) as char, Letter(45) as char, Letter(46) as char, Letter(47) as char,
      Letter(48) as char, Letter(49) as char, Letter(50) as char, Letter(51) as char,
      Letter(52) as char, Letter(53) as char, Letter(54) as char, Letter(55) as char,
      Letter(56) as char, Letter(57) as char, Letter(58) as char, Letter(59) as char,
      Letter(60) as char, Letter(61) as char, Letter(62) as char, Letter(63) as char
    ] == ALPHABET
  {
  }

  function At(x: seq<bv8>, i: nat): bv8 {
    if i < |x| then x[i] else 0
  }

  /** The j-th group of six bits. */
  function Sextet(x: seq<bv8>, j: nat): (s: bv8)
    ensures s < 64
  {
    var i := j / 4 * 3;
    Group(j % 4, At(x, i), At(x, i + 1), At(x, i + 2))
  }

  /** The t-th group of three bytes. */
  function Group(t: nat, a: bv8, b: bv8, c: bv8): (s: bv8)
    ensures s < 64
  {
    match t
    case 0 => a >> 2
    case 1 => ((a & 3) << 4) | (b >> 4)
    case 2 => ((b & 15) << 2) | (c >> 6)
    case _ => c & 63
  }

  /** The four groups, one after another, are the bits of the three bytes, the highest first. */
  lemma GroupsAreBits(a: bv8, b: bv8, c: bv8)
    ensures (Group(0, a, b, c) as bv32 << 18) | (Group(1, a, b, c) as bv32 << 12) |
            (Group(2, a, b, c) as bv32 << 6) | (Group(3, a, b, c) as bv32) ==
            (a as bv32 << 16) | (b as bv32 << 8) | (c as bv32)
  {
  }

  /** How many groups n bytes give. */
  function Groups(n: nat): nat {
    (4 * n + 2) / 3
  }

  function CharAt(x: seq<bv8>, j: nat): bv8 {
    if j < Groups(|x|) then Letter(Sextet(x, j)) else if j < Size(|x|) - 1 then PAD else NUL
  }

  /** The text of x, with padding and terminator. */
  function Text(x: seq<bv8>): (t: seq<bv8>)
    ensures |t| == Size(|x|)
  {
    seq(Size(|x|), j requires 0 <= j => CharAt(x, j))
  }

  /** Three test vectors of section 10 of RFC 4648, with the terminator: "f", "fo" and "foo". */
  lemma Vectors()
    ensures Text([102]) == [90, 103, 61, 61, 0]
    ensures Text([102, 111]) == [90, 109, 56, 61, 0]
    ensures Text([102, 111, 111]) == [90, 109, 57, 118, 0]
  {
    FiveOf([102]);
    FiveOf([102, 111]);
    FiveOf([102, 111, 111]);
  }

  lemma FiveOf(x: seq<bv8>)
    requires 1 <= |x| <= 3
    ensures Text(x) == [CharAt(x, 0), CharAt(x, 1), CharAt(x, 2), CharAt(x, 3), CharAt(x, 4)]
  {
  }

  // ---------- the accumulator ----------

  /** (bits << 6 >> shift) & 0x3f, for the shifts that occur. */
  function Window(bits: bv32, shift: nat): bv32 {
    match shift
    case 2 => (bits << 6 >> 2) & 0x3f
    case 4 => (bits << 6 >> 4) & 0x3f
    case 6 => (bits << 6 >> 6) & 0x3f
    case 8 => (bits << 6 >> 8) & 0x3f
    case 10 => (bits << 6 >> 10) & 0x3f
    case 12 => (bits << 6 >> 12) & 0x3f
    case 14 => (bits << 6 >> 14) & 0x3f
    case _ => 0
  }

  /** The accumulator ends in the bytes p and c. */
  predicate EndsIn(bits: bv32, p: bv8, c: bv8) {
    bits & 0xffff == (p as bv32 << 8) | c as bv32
  }

  lemma EndsInNext(bits: bv32, p: bv8, c: bv8, d: bv8)
    requires EndsIn(bits, p, c)
    ensures EndsIn((bits << 8) + d as bv32, c, d)
  {
  }

  /** The i-th byte, and 0 before the first. */
  function Back(x: seq<bv8>, i: int): bv8 {
    if i < 0 then 0 else At(x, i)
  }

  /** Where d characters come from k bytes with shift bits left over, the next group is within the last two bytes. */
  lemma Position(k: nat, d: nat, shift: nat)
    requires shift == 8 * k - 6 * d && 0 < shift <= 14
    ensures shift == 8 ==> d % 4 == 0 && d / 4 * 3 == k - 1
    ensures shift == 2 || shift == 10 ==> d % 4 == 1 && d / 4 * 3 == if shift == 2 then k - 1 else k - 2
    ensures shift == 4 || shift == 12 ==> d % 4 == 2 && d / 4 * 3 == if shift == 4 then k - 2 else k - 3
    ensures shift == 6 || shift == 14 ==> d % 4 == 3 && d / 4 * 3 == if shift == 6 then k - 3 else k - 4
    ensures shift % 2 == 0
  {
  }

  /** Which of the bytes a, b and e of group t are the last two, p and c, and which have run out. */
  predicate Aligned(shift: nat, t: nat, p: bv8, c: bv8, a: bv8, b: bv8, e: bv8) {
    match shift
    case 2 => t == 1 && a == c && b == 0
    case 4 => t == 2 && b == c && e == 0
    case 6 => t == 3 && e == c
    case 8 => t == 0 && a == c
    case 10 => t == 1 && a == p && b == c
    case 12 => t == 2 && b == p && e == c
    case 14 => t == 3 && e == p
    case _ => false
  }

  // Only the last two bytes show through the window.

  lemma WindowLate(bits: bv32, p: bv8, c: bv8, o: bv8, o': bv8)
    requires EndsIn(bits, p, c)
    ensures Window(bits, 2) == Group(1, c, 0, o) as bv32
    ensures Window(bits, 4) == Group(2, o, c, 0) as bv32
    ensures Window(bits, 6) == Group(3, o, o', c) as bv32
  {
  }

  lemma WindowEarly(bits: bv32, p: bv8, c: bv8, o: bv8, o': bv8)
    requires EndsIn(bits, p, c)
    ensures Window(bits, 8) == Group(0, c, o, o') as bv32
    ensures Window(bits, 10) == Group(1, p, c, o) as bv32
    ensures Window(bits, 12) == Group(2, o, p, c) as bv32
    ensures Window(bits, 14) == Group(3, o, o', p) as bv32
  {
  }

  function Wide(t: nat, a: bv8, b: bv8, e: bv8): bv32 {
    Group(t, a, b, e) as bv32
  }

  /** The same, when the window and the groups are given as functions. */
  lemma MatchUp(w: nat -> bv32, g: (nat, bv8, bv8, bv8) -> bv32, shift: nat, t: nat, p: bv8, c: bv8, a: bv8, b: bv8,
                e: bv8)
    requires Aligned(shift, t, p, c, a, b, e)
    requires w(2) == g(1, c, 0, e) && w(4) == g(2, a, c, 0) && w(6) == g(3, a, b, c)
    requires w(8) == g(0, c, b, e) && w(10) == g(1, p, c, e) && w(12) == g(2, a, p, c) && w(14) == g(3, a, b, p)
    ensures w(shift) == g(t, a, b, e)
  {
  }

  lemma WindowIsGroup(bits: bv32, shift: nat, t: nat, p: bv8, c: bv8, a: bv8, b: bv8, e: bv8)
    requires EndsIn(bits, p, c) && Aligned(shift, t, p, c, a, b, e)
    ensures Window(bits, shift) == Group(t, a, b, e) as bv32
  {
    WindowLate(bits, p, c, e, e);
    WindowLate(bits, p, c, a, b);
    WindowEarly(bits, p, c, b, e);
    WindowEarly(bits, p, c, e, e);
    WindowEarly(bits, p, c, a, b);
    var w := (s: nat) => Window(bits, s);
    MatchUp(w, Wide, shift, t, p, c, a, b, e);
  }

  lemma SextetAligned(x: seq<bv8>, k: nat, d: nat, shift: nat)
    requires shift == 8 * k - 6 * d && 0 < shift <= 14 && k <= |x| && (shift < 6 ==> k == |x|)
    ensures var i := d / 4 * 3;
            Aligned(shift, d % 4, Back(x, k - 2), Back(x, k - 1), At(x, i), At(x, i + 1), At(x, i + 2))
  {
    Position(k, d, shift);
  }

  /** What the window shows is the next group; when the bytes have run out, it is padded with zero bits. */
  lemma WindowIsSextet(x: seq<bv8>, d: nat, i: nat, t: nat, shift: nat, bits: bv32, p: bv8, c: bv8)
    requires EndsIn(bits, p, c) && i == d / 4 * 3 && t == d % 4
    requires Aligned(shift, t, p, c, At(x, i), At(x, i + 1), At(x, i + 2))
    ensures Window(bits, shift) == Sextet(x, d) as bv32
  {
    WindowIsGroup(bits, shift, t, p, c, At(x, i), At(x, i + 1), At(x, i + 2));
  }

  lemma GroupsIs(n: nat, d: nat, shift: int)
    requires shift == 8 * n - 6 * d && -6 < shift <= 0
    ensures d == Groups(n) && d <= Size(n) - 1
  {
  }

  lemma BelowGroups(n: nat, k: nat, d: nat, shift: int)
    requires shift == 8 * k - 6 * d && shift > 0 && k <= n
    ensures d < Groups(n) && d < Size(n) - 1
  {
  }

  method NextLetter(ghost x: seq<bv8>, ghost d: nat, ghost i: nat, ghost t: nat, shift: nat, bits: bv32, ghost p: bv8,
                    ghost c: bv8)
    returns (ch: bv8)
    requires EndsIn(bits, p, c) && i == d / 4 * 3 && t == d % 4
    requires Aligned(shift, t, p, c, At(x, i), At(x, i + 1), At(x, i + 2))
    requires d < Groups(|x|)
    ensures ch == CharAt(x, d)
  {
    WindowIsSextet(x, d, i, t, shift, bits, p, c);
    ch := Letter(Window(bits, shift) as bv8);
  }

  /** The inner loop of base64_encode: characters for the bits that k bytes have brought. */
  method Emit(out: array<bv8>, ghost x: seq<bv8>, k: nat, bits: bv32, shift: int, dst: nat, last: bool)
    returns (shift': int, dst': nat)
    requires k <= |x| && last == (k == |x|) && shift == 8 * k - 6 * dst && 8 <= shift <= 14 && out.Length >= Size(|x|)
    requires EndsIn(bits, Back(x, k - 2), Back(x, k - 1))
    modifies out
    ensures shift' == 8 * k - 6 * dst' && if last then -6 < shift' <= 0 else 0 < shift' <= 6
    ensures dst <= dst' <= Size(|x|) - 1
    ensures forall j :: 0 <= j < out.Length && !(dst <= j < dst') ==> out[j] == old(out[j])
    ensures forall j :: dst <= j < dst' ==> out[j] == CharAt(x, j)
  {
    shift', dst' := shift, dst;
    var more := true;
    while more
      invariant dst <= dst' <= Size(|x|) - 1 && shift' == 8 * k - 6 * dst'
      invariant if more then 0 < shift' <= 14 && (shift' > 6 || last) else if last then -6 < shift' <= 0
                else 0 < shift' <= 6
      invariant forall j :: 0 <= j < out.Length && !(dst <= j < dst') ==> out[j] == old(out[j])
      invariant forall j :: dst <= j < dst' ==> out[j] == CharAt(x, j)
      decreases more, shift'
    {
      BelowGroups(|x|, k, dst', shift');
      SextetAligned(x, k, dst', shift');
      out[dst'] := NextLetter(x, dst', dst' / 4 * 3, dst' % 4, shift', bits, Back(x, k - 2), Back(x, k - 1));
      dst', shift' := dst' + 1, shift' - 6;
      more := shift' > 6 || (last && shift' > 0);
    }
  }

  /** base64_encode: the text and its terminator take exactly Size(|x|) bytes of the output, and the rest is left
      alone. */
  method Encode(out: array<bv8>, x: seq<bv8>) returns (ok: bool)
    modifies out
    ensures ok <==> |x| < UINT_MAX / 4 && out.Length >= Size(|x|)
    ensures ok ==> out[..Size(|x|)] == Text(x)
    ensures forall j :: (if ok then Size(|x|) else 0) <= j < out.Length ==> out[j] == old(out[j])
  {
    if |x| >= UINT_MAX / 4 || out.Length < Size(|x|) {
      return false;
    }
    var bits: bv32, shift, dst, k := 0, 0, 0, 0;
    while k < |x|
      invariant 0 <= k <= |x| && 0 <= dst <= Size(|x|) - 1 && shift == 8 * k - 6 * dst
      invariant if k < |x| then 0 <= shift <= 6 else -6 < shift <= 0
      invariant EndsIn(bits, Back(x, k - 2), Back(x, k - 1))
      invariant forall j :: dst <= j < out.Length ==> out[j] == old(out[j])
      invariant forall j :: 0 <= j < dst ==> out[j] == CharAt(x, j)
    {
      EndsInNext(bits, Back(x, k - 2), Back(x, k - 1), x[k]);
      bits := (bits << 8) + x[k] as bv32;
      k, shift := k + 1, shift + 8;
      shift, dst := Emit(out, x, k, bits, shift, dst, k == |x|);
    }
    GroupsIs(|x|, dst, shift);
    Finish(out, x, dst);
    return true;
  }

  lemma PaddingIs(n: nat)
    ensures Groups(n) <= Size(n) - 1 < Groups(n) + 4 && (Size(n) - 1) % 4 == 0
  {
  }

  /** The padding and the terminator. */
  method Finish(out: array<bv8>, x: seq<bv8>, dst: nat)
    requires dst == Groups(|x|) && out.Length >= Size(|x|) && forall j :: 0 <= j < dst ==> out[j] == CharAt(x, j)
    modifies out
    ensures out[..Size(|x|)] == Text(x)
    ensures forall j :: Size(|x|) <= j < out.Length ==> out[j] == old(out[j])
  {
    PaddingIs(|x|);
    ghost var end := Size(|x|) - 1;
    var d := Pad(out, dst, end);
    out[d] := NUL;
    assert forall j :: 0 <= j <= end ==> out[j] == CharAt(x, j);
  }

  method Pad(out: array<bv8>, dst: nat, ghost end: nat) returns (d: nat)
    requires dst <= end < dst + 4 && end % 4 == 0 && end < out.Length
    modifies out
    ensures d == end && forall j :: dst <= j < end ==> out[j] == PAD
    ensures forall j :: 0 <= j < out.Length && !(dst <= j < end) ==> out[j] == old(out[j])
  {
    d := dst;
    while d % 4 != 0
      invariant dst <= d <= end
      invariant forall j :: dst <= j < d ==> out[j] == PAD
      invariant forall j :: 0 <= j < out.Length && !(dst <= j < d) ==> out[j] == old(out[j])
      decreases end - d
    {
      out[d] := PAD;
      d := d + 1;
    }
  }

  // ---------- decoding ----------

  predicate Ends(c: bv8) {
    c == NUL || c == PAD
  }

  /** How many bytes m characters give: none for the first of each four. */
  function Octets(m: nat): nat {
    m / 4 * 3 + if m % 4 == 0 then 0 else m % 4 - 1
  }

  /** The bytes of the first m characters: each but the first of four completes one. */
  function Decoded(t: seq<bv8>, m: nat): (x: seq<bv8>)
    requires m <= |t|
    ensures |x| == Octets(m)
  {
    if m == 0 then []
    else if (m - 1) % 4 == 0 then Decoded(t, m - 1)
    else Decoded(t, m - 1) + [Join((m - 1) % 4 - 1, Value(t[m - 2]), Value(t[m - 1]))]
  }

  function Join(r: nat, a: bv8, b: bv8): bv8 {
    match r
    case 0 => (a << 2) | (b >> 4)
    case 1 => (a << 4) | (b >> 2)
    case _ => (a << 6) | b
  }

  /** v >> (6 - 2 * (i & 3)), cut to a byte. */
  function Cut(v: bv32, r: nat): bv8 {
    match r
    case 0 => ((v >> 4) & 0xff) as bv8
    case 1 => ((v >> 2) & 0xff) as bv8
    case _ => (v & 0xff) as bv8
  }

  lemma CutIsJoin(v: bv32, r: nat, a: bv8, b: bv8)
    requires v & 0xfff == (a as bv32 << 6) + b as bv32 && a < 64 && b < 64
    ensures Cut(v, r) == Join(r, a, b)
  {
  }

  lemma Accumulate(v: bv32, a: bv8, b: bv8)
    requires v & 0x3f == a as bv32 && a < 64 && b < 64
    ensures ((v << 6) + b as bv32) & 0xfff == (a as bv32 << 6) + b as bv32
    ensures ((v << 6) + b as bv32) & 0x3f == b as bv32
  {
  }

  /** The text ends at m: its first padding or terminator is there. */
  predicate EndsAt(t: seq<bv8>, m: nat) {
    m < |t| && Ends(t[m]) && forall i :: 0 <= i < m ==> !Ends(t[i])
  }

  predicate AllValid(t: seq<bv8>, m: nat)
    requires m <= |t|
  {
    forall i :: 0 <= i < m ==> Value(t[i]) != INVALID
  }

  lemma ValueSmall(c: bv8)
    ensures Value(c) == INVALID || Value(c) < 64
  {
  }

  /** The accumulator ends in the six bits a. */
  predicate Low(v: bv32, a: bv8) {
    a < 64 && v & 0x3f == a as bv32
  }

  /** One more character in the accumulator, and the byte it completes unless it is the first of four. */
  method Push(v: bv32, ghost a: bv8, b: bv8, i: nat) returns (v': bv32, o: bv8)
    requires Low(v, a) && b < 64
    ensures Low(v', b) && (i % 4 != 0 ==> o == Join(i % 4 - 1, a, b))
  {
    Accumulate(v, a, b);
    v', o := (v << 6) + b as bv32, 0;
    if i % 4 != 0 {
      CutIsJoin(v', i % 4 - 1, a, b);
      o := Cut(v', i % 4 - 1);
    }
  }

  /** The value of the character before the i-th. */
  function Last(t: seq<bv8>, i: nat): bv8
    requires i <= |t|
  {
    if i == 0 then 0 else Value(t[i - 1])
  }

  /** The output holds the first n bytes of the sequence, and is otherwise as it was. */
  twostate predicate Written(out: array<bv8>, x: seq<bv8>, n: nat)
    requires n <= |x|
    reads out
  {
    && n <= out.Length && (forall k :: 0 <= k < n ==> out[k] == x[k])
    && forall k :: n <= k < out.Length ==> out[k] == old(out[k])
  }

  /** What is decoded after one more character. */
  lemma DecodedNext(t: seq<bv8>, i: nat, o: bv8)
    requires i < |t| && (i % 4 != 0 ==> o == Join(i % 4 - 1, Last(t, i), Value(t[i])))
    ensures Decoded(t, i + 1) == Decoded(t, i) + if i % 4 != 0 then [o] else []
  {
  }

  /** A byte is written if there is room for it. */
  method Put(out: array<bv8>, ghost x: seq<bv8>, dst: nat, o: bv8) returns (dst': nat)
    requires dst == Bytes.Min(|x|, out.Length) && forall k :: 0 <= k < dst ==> out[k] == x[k]
    modifies out
    ensures dst' == Bytes.Min(|x| + 1, out.Length) && forall k :: 0 <= k < dst' ==> out[k] == (x + [o])[k]
    ensures forall k :: dst' <= k < out.Length ==> out[k] == old(out[k])
  {
    dst' := dst;
    if dst < out.Length {
      out[dst] := o;
      dst' := dst + 1;
    }
  }

  /** The accumulator ends in the value of the character before the i-th. */
  ghost predicate Follows(v: bv32, t: seq<bv8>, i: nat)
    requires i <= |t|
  {
    forall k {:trigger InLow(k)} :: InLow(k) ==> Low(v, Last(t, i))
  }

  /** One round of the loop of base64_decode. */
  method Next(out: array<bv8>, t: seq<bv8>, i: nat, b: bv8, v: bv32, dst: nat, ghost x: seq<bv8>)
    returns (v': bv32, dst': nat, ghost x': seq<bv8>)
    requires i < |t| && b == Value(t[i]) && b < 64 && Follows(v, t, i) && x == Decoded(t, i)
    requires dst == Bytes.Min(|x|, out.Length) && forall k :: 0 <= k < dst ==> out[k] == x[k]
    modifies out
    ensures Follows(v', t, i + 1) && x' == Decoded(t, i + 1) && dst' == Bytes.Min(|x'|, out.Length) && dst <= dst'
    ensures forall k :: 0 <= k < dst' ==> out[k] == x'[k]
    ensures forall k :: dst' <= k < out.Length ==> out[k] == old(out[k])
  {
    assert InLow(0);
    var o;
    v', o := Push(v, Last(t, i), b, i);
    DecodedNext(t, i, o);
    dst', x' := dst, x;
    if i % 4 != 0 {
      dst' := Put(out, x, dst, o);
      x' := x + [o];
    }
  }

  /** base64_decode of a terminated text, which fails on a character outside the alphabet and otherwise gives as many
      bytes as there is room for. */
  method Decode(out: array<bv8>, t: seq<bv8>, ghost m: nat) returns (n: int)
    requires EndsAt(t, m)
    modifies out
    ensures n == if AllValid(t, m) then Bytes.Min(|Decoded(t, m)|, out.Length) else -1
    ensures n >= 0 ==> Written(out, Decoded(t, m), n)
  {
    var v: bv32, i, dst := 0, 0, 0;
    ghost var x := [];
    while !Ends(t[i])
      invariant 0 <= i <= m && AllValid(t, i) && Follows(v, t, i) && x == Decoded(t, i)
      invariant dst == Bytes.Min(|x|, out.Length) && (forall k :: 0 <= k < dst ==> out[k] == x[k])
      invariant forall k :: dst <= k < out.Length ==> out[k] == old(out[k])
      decreases m - i
    {
      var b := Value(t[i]);
      if b == INVALID {
        return -1;
      }
      ValueSmall(t[i]);
      v, dst, x := Next(out, t, i, b, v, dst, x);
      i := i + 1;
    }
    return dst;
  }

  // ---------- round trip ----------

  lemma TextEnds(x: seq<bv8>)
    ensures EndsAt(Text(x), Groups(|x|)) && AllValid(Text(x), Groups(|x|))
  {
    var t, m := Text(x), Groups(|x|);
    PaddingIs(|x|);
    assert t[m] == CharAt(x, m);
    forall i | 0 <= i < m
      ensures !Ends(t[i]) && Value(t[i]) == Sextet(x, i) && Value(t[i]) != INVALID
    {
      LetterValue(Sextet(x, i));
    }
  }

  lemma GroupsBack(a: bv8, b: bv8, c: bv8)
    ensures Join(0, Group(0, a, b, c), Group(1, a, b, c)) == a
    ensures Join(1, Group(1, a, b, c), Group(2, a, b, c)) == b
    ensures Join(2, Group(2, a, b, c), Group(3, a, b, c)) == c
  {
  }

  /** Two neighbouring groups, the second at i, give back a byte. */
  lemma SextetsBack(x: seq<bv8>, i: nat)
    requires i % 4 != 0
    ensures Join(i % 4 - 1, Sextet(x, i - 1), Sextet(x, i)) == At(x, i / 4 * 3 + i % 4 - 1)
  {
    var k := i / 4 * 3;
    assert (i - 1) / 4 == i / 4 && (i - 1) % 4 == i % 4 - 1;
    GroupsBack(At(x, k), At(x, k + 1), At(x, k + 2));
  }

  /** One more character gives at most one more byte, at the end. */
  lemma OneOctet(m: nat)
    requires m > 0
    ensures Octets(m) == Octets(m - 1) + if (m - 1) % 4 == 0 then 0 else 1
    ensures (m - 1) % 4 != 0 ==> Octets(m - 1) == (m - 1) / 4 * 3 + (m - 1) % 4 - 1
  {
    var q, r := (m - 1) / 4, (m - 1) % 4;
    assert m == if r == 3 then 4 * (q + 1) else 4 * q + r + 1;
  }

  /** The first m characters have the values of the first m sextets. */
  ghost predicate Reads(x: seq<bv8>, t: seq<bv8>, m: nat) {
    forall k {:trigger InRead(k)} :: InRead(k) ==> m <= |t| && forall i :: 0 <= i < m ==> Value(t[i]) == Sextet(x, i)
  }

  lemma LastJoin(x: seq<bv8>, t: seq<bv8>, m: nat)
    requires Reads(x, t, m) && 0 < m <= |t| && (m - 1) % 4 != 0
    ensures Join((m - 1) % 4 - 1, Value(t[m - 2]), Value(t[m - 1])) == At(x, (m - 1) / 4 * 3 + (m - 1) % 4 - 1)
  {
    assert InRead(0);
    SextetsBack(x, m - 1);
  }

  /** What the m-th character adds. */
  lemma LastOctet(x: seq<bv8>, t: seq<bv8>, m: nat) returns (more: seq<bv8>)
    requires Reads(x, t, m) && 0 < m <= |t|
    ensures Decoded(t, m) == Decoded(t, m - 1) + more && |more| == Octets(m) - Octets(m - 1) <= 1
    ensures |more| == 1 ==> more[0] == At(x, Octets(m - 1))
  {
    OneOctet(m);
    if (m - 1) % 4 == 0 {
      more := [];
    } else {
      LastJoin(x, t, m);
      more := [Join((m - 1) % 4 - 1, Value(t[m - 2]), Value(t[m - 1]))];
    }
  }

  lemma ReadsLess(x: seq<bv8>, t: seq<bv8>, m: nat)
    requires Reads(x, t, m) && m > 0
    ensures Reads(x, t, m - 1)
  {
    assert InRead(0);
  }

  lemma MoreIs(x: seq<bv8>, before: seq<bv8>, more: seq<bv8>)
    requires (forall k :: 0 <= k < |before| ==> before[k] == At(x, k)) && |more| <= 1
    requires |more| == 1 ==> more[0] == At(x, |before|)
    ensures forall k :: 0 <= k < |before| + |more| ==> (before + more)[k] == At(x, k)
  {
  }

  lemma {:induction false} DecodedIs(x: seq<bv8>, t: seq<bv8>, m: nat)
    requires Reads(x, t, m) && m <= |t|
    ensures forall k :: 0 <= k < Octets(m) ==> Decoded(t, m)[k] == At(x, k)
  {
    if m > 0 {
      ReadsLess(x, t, m);
      DecodedIs(x, t, m - 1);
      var more := LastOctet(x, t, m);
      MoreIs(x, Decoded(t, m - 1), more);
    }
  }

  lemma OctetsOfGroups(n: nat)
    ensures Octets(Groups(n)) == n
  {
    var q, r := n / 3, n % 3;
    assert Groups(n) == 4 * q + if r == 0 then 0 else r + 1;
  }

  /** Decoding the text of x gives x back. */
  lemma RoundTrip(x: seq<bv8>)
    ensures var t, m := Text(x), Groups(|x|);
            EndsAt(t, m) && AllValid(t, m) && Decoded(t, m) == x
  {
    var t, m := Text(x), Groups(|x|);
    TextEnds(x);
    forall i | 0 <= i < m
      ensures Value(t[i]) == Sextet(x, i)
    {
      LetterValue(Sextet(x, i));
    }
    DecodedIs(x, t, m);
    OctetsOfGroups(|x|);
  }
}
