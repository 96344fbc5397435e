/**
 What a JSON text says, by itself: the value of a quoted text, and the values of a text one after another, each with
 its parent and, in an object, its name. Nothing here knows of passes, flags or counts; a comma or colon is passed
 over, since the parser sees to it that they are where they belong.
 */
module JsonLex {
  import opened Bytes
  import opened JsonText

  // ---------- quoted text ----------

  datatype Quoted = Unclosed | Quoted(bytes: seq<byte>, end: nat) {
    function After(more: seq<byte>): Quoted {
      if Unclosed? then Unclosed else Quoted(more + bytes, end)
    }
  }

  /** What a letter stands for after a backslash; any other character stands for itself. */
  function Short(b: byte): byte {
    match b
    case 98 => 8      // \b
    case 102 => 12    // \f
    case 110 => 10    // \n
    case 114 => 13    // \r
    case 116 => 9     // \t
    case _ => b
  }

  /** The value of the quoted text whose first character is at p, and the position of the quote that ends it. */
  function Quote(t: seq<byte>, p: nat): (q: Quoted)
    requires p <= |t|
    ensures q.Quoted? ==> p <= q.end < |t| && t[q.end] == 34
    decreases |t| - p, 1
  {
    var b := At(t, p);
    if b == 0 then Unclosed
    else if b == 34 then Quoted([], p)
    else if b == 92 then Escaped(t, p + 1)
    else Quote(t, p + 1).After([b])
  }

  /** The same, from the character after a backslash. A \u escape stands for the UTF-8 bytes of its character. */
  function Escaped(t: seq<byte>, p: nat): (q: Quoted)
    requires p <= |t|
    ensures q.Quoted? ==> p <= q.end < |t| && t[q.end] == 34
    decreases |t| - p, 0
  {
    var b := At(t, p);
    if b == 0 then Unclosed
    else if b == 117 then
      match Unicode(t, p)
      case Bad => Unclosed
      case Code(u, last) => Quote(t, last + 1).After(Utf8(u))
    else Quote(t, p + 1).After([Short(b)])
  }

  /** The rest of a quoted text. */
  function Tail(t: seq<byte>, p: nat, esc: bool): Quoted
    requires p <= |t|
  {
    if esc then Escaped(t, p) else Quote(t, p)
  }

  // ---------- numbers ----------

  /** The end of the number at p. */
  function NumberEnd(t: seq<byte>, p: nat): (q: nat)
    requires p <= |t|
    ensures p <= q <= |t|
    decreases |t| - p
  {
    if NumberChar(At(t, p)) then NumberEnd(t, p + 1) else p
  }

  /** A number with a point or an exponent is a double. */
  predicate IsDouble(t: seq<byte>, p: nat, q: nat)
    requires p <= q <= |t|
  {
    exists i :: p <= i < q && (t[i] == 46 || t[i] == 101 || t[i] == 69)
  }

  /** The decimal value of the digits from p to q. */
  function Decimal(t: seq<byte>, p: nat, q: nat): int
    requires p <= q <= |t|
  {
    if p == q then 0 else Decimal(t, p, q - 1) * 10 + (t[q - 1] as int - 48)
  }

  function IntegerAt(t: seq<byte>, p: nat, q: nat): int
    requires p < q <= |t|
  {
    if t[p] == 45 then -Decimal(t, p + 1, q) else Decimal(t, p, q)
  }

  // ---------- values ----------

  /** A value: its kind, the number of its parent or -1, the text of a string, the value of an integer or a boolean, and
      its name in an object. */
  datatype Item = Item(kind: Kind, parent: int, text: seq<byte>, value: int, key: Option<seq<byte>>)

  /** An object or array that is open. */
  datatype Open = Open(id: nat, isObject: bool)

  function Innermost(open: seq<Open>): int {
    if open == [] then -1 else open[|open| - 1].id
  }

  predicate AtObject(open: seq<Open>) {
    open != [] && open[|open| - 1].isObject
  }

  /** The values from position p on, in order, when n came before, some of which are open; key is a name that waits
      for its value. */
  function Scan(t: seq<byte>, p: nat, open: seq<Open>, key: Option<seq<byte>>, n: nat): seq<Item>
    requires p <= |t|
    decreases |t| - p
  {
    var b := At(t, p);
    if b == 0 then []
    else if White(b) || b == 44 || b == 58 then Scan(t, p + 1, open, key, n)
    else if b == 93 || b == 125 then
      if open == [] then [] else Scan(t, p + 1, open[..|open| - 1], None, n)
    else if b == 123 || b == 91 then
      [Item(if b == 123 then Obj else Arr, Innermost(open), [], 0, key)] +
      Scan(t, p + 1, open + [Open(n, b == 123)], None, n + 1)
    else if b == 34 then
      match Quote(t, p + 1)
      case Unclosed => []
      case Quoted(bytes, end) =>
        if AtObject(open) && key.None? then Scan(t, end + 1, open, Some(bytes), n)
        else [Item(Str, Innermost(open), bytes, 0, key)] + Scan(t, end + 1, open, None, n + 1)
    else if b == 116 then
      if p + 4 <= |t| && t[p..p + 4] == TRUE then
        [Item(Bool, Innermost(open), [], 1, key)] + Scan(t, p + 4, open, None, n + 1)
      else []
    else if b == 102 then
      if p + 5 <= |t| && t[p..p + 5] == FALSE then
        [Item(Bool, Innermost(open), [], 0, key)] + Scan(t, p + 5, open, None, n + 1)
      else []
    else if b == 110 then
      if p + 4 <= |t| && t[p..p + 4] == NULL then
        [Item(Null, Innermost(open), [], 0, key)] + Scan(t, p + 4, open, None, n + 1)
      else []
    else if Digit(b) || b == 45 then
      var q := NumberEnd(t, p + 1);
      [Item(if IsDouble(t, p, q) then Dbl else Int, Innermost(open), [], if IsDouble(t, p, q) then 0
        else IntegerAt(t, p, q), key)] +
      Scan(t, q, open, None, n + 1)
    else []
  }

  const TRUE: seq<byte> := [116, 114, 117, 101]
  const FALSE: seq<byte> := [102, 97, 108, 115, 101]
  const NULL: seq<byte> := [110, 117, 108, 108]

  /** All values of a text. */
  function Values(t: seq<byte>): seq<Item> {
    Scan(t, 0, [], None, 0)
  }
}
