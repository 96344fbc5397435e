/**
 The texts that json_parse_ex in src/json.c accepts, as a grammar that is read from the left. It is the grammar of
 RFC 8259, except that a comma may come before a closing bracket or brace, that the integer after a minus
 sign may be missing, that any character but NUL may be in a quoted text, and that the parts of a number are bounded.
 */
module JsonGrammar {
  import opened Bytes
  import opened JsonText
  import L = JsonLex

  /** The end of the white space at p. */
  function Blank(t: seq<byte>, p: nat): (q: nat)
    requires p <= |t|
    ensures p <= q <= |t| && !White(At(t, q))
    decreases |t| - p
  {
    if White(At(t, p)) then Blank(t, p + 1) else p
  }

  /** The end of the digits at p. */
  function Digits(t: seq<byte>, p: nat): (q: nat)
    requires p <= |t|
    ensures p <= q <= |t| && !Digit(At(t, q))
    decreases |t| - p
  {
    if Digit(At(t, p)) then Digits(t, p + 1) else p
  }

  predicate Sign(b: byte) {
    b == 43 || b == 45
  }

  predicate Exp(b: byte) {
    b == 101 || b == 69
  }

  /** Digits whose value fits a long. */
  predicate Fit(t: seq<byte>, p: nat)
    requires p <= |t|
  {
    L.Decimal(t, p, Digits(t, p)) <= LONG_MAX
  }

  /** At least one digit. */
  function Digits1(t: seq<byte>, p: nat): (r: Option<nat>)
    requires p <= |t|
    ensures r.Some? ==> p < r.value <= |t|
  {
    if Digits(t, p) > p && Fit(t, p) then Some(Digits(t, p)) else None
  }

  /** An exponent, if there is one. */
  function Exponent(t: seq<byte>, p: nat): (r: Option<nat>)
    requires p <= |t|
    ensures r.Some? ==> p <= r.value <= |t|
  {
    if !Exp(At(t, p)) then Some(p)
    else if Sign(At(t, p + 1)) then Digits1(t, p + 2)
    else Digits1(t, p + 1)
  }

  /** What comes after the sign of a number: an integer without leading zeros, a fraction and an exponent. */
  function Unsigned(t: seq<byte>, p: nat): (r: Option<nat>)
    requires p <= |t|
    ensures r.Some? ==> p <= r.value <= |t|
    ensures r.Some? && Digit(At(t, p)) ==> p < r.value
  {
    var i := Digits(t, p);
    if !Fit(t, p) || (i > p + 1 && t[p] == 48) then None
    else if At(t, i) != 46 then Exponent(t, i)
    else if i == p then None
    else
      match Digits1(t, i + 1)
      case None => None
      case Some(j) => Exponent(t, j)
  }

  /** The end of the value at p. */
  function Value(t: seq<byte>, p: nat): (r: Option<nat>)
    requires p <= |t|
    ensures r.Some? ==> p < r.value <= |t|
    decreases |t| - p, 0
  {
    var b := At(t, p);
    if b == 123 then Members(t, p + 1)
    else if b == 91 then Elements(t, p + 1)
    else if b == 34 then
      match L.Quote(t, p + 1)
      case Unclosed => None
      case Quoted(_, end) => Some(end + 1)
    else if b == 45 then Unsigned(t, p + 1)
    else if Digit(b) then Unsigned(t, p)
    else Literal(t, p)
  }

  function Literal(t: seq<byte>, p: nat): (r: Option<nat>)
    requires p <= |t|
    ensures r.Some? ==> p < r.value <= |t|
  {
    if p + 4 <= |t| && (t[p..p + 4] == L.TRUE || t[p..p + 4] == L.NULL) then Some(p + 4)
    else if p + 5 <= |t| && t[p..p + 5] == L.FALSE then Some(p + 5)
    else None
  }

  /** The rest of an array, where a value may come. */
  function Elements(t: seq<byte>, p: nat): (r: Option<nat>)
    requires p <= |t|
    ensures r.Some? ==> p < r.value <= |t|
    decreases |t| - p, 1
  {
    var q := Blank(t, p);
    if At(t, q) == 93 then Some(q + 1)
    else
      match Value(t, q)
      case None => None
      case Some(v) =>
        var c := Blank(t, v);
        if At(t, c) == 93 then Some(c + 1) else if At(t, c) == 44 then Elements(t, c + 1) else None
  }

  /** The rest of an object, where a name may come. */
  function Members(t: seq<byte>, p: nat): (r: Option<nat>)
    requires p <= |t|
    ensures r.Some? ==> p < r.value <= |t|
    decreases |t| - p, 3
  {
    var q := Blank(t, p);
    if At(t, q) == 125 then Some(q + 1)
    else
      match Member(t, q)
      case None => None
      case Some(v) =>
        var c := Blank(t, v);
        if At(t, c) == 125 then Some(c + 1) else if At(t, c) == 44 then Members(t, c + 1) else None
  }

  /** A name, a colon and a value. */
  function Member(t: seq<byte>, p: nat): (r: Option<nat>)
    requires p <= |t|
    ensures r.Some? ==> p < r.value <= |t|
    decreases |t| - p, 2
  {
    if At(t, p) != 34 then None
    else
      match L.Quote(t, p + 1)
      case Unclosed => None
      case Quoted(_, end) => Named(t, end + 1)
  }

  /** A colon and a value. */
  function Named(t: seq<byte>, p: nat): (r: Option<nat>)
    requires p <= |t|
    ensures r.Some? ==> p < r.value <= |t|
    decreases |t| - p, 1
  {
    var q := Blank(t, p);
    if At(t, q) != 58 then None else Value(t, Blank(t, q + 1))
  }

  /** A text is one value; what follows a NUL is not read. */
  predicate Text(t: seq<byte>) {
    match Value(t, Blank(t, 0))
    case None => false
    case Some(q) => At(t, Blank(t, q)) == 0
  }

  /** The texts [1,] and - are accepted, though RFC 8259 has neither. */
  lemma LenientTexts()
    ensures Text([91, 49, 44, 93]) && Text([45])
  {
    var t: seq<byte> := [91, 49, 44, 93];
    assert Digits(t, 2) == 2 && Digits(t, 1) == 2;
    assert L.Decimal(t, 1, 1) == 0 && L.Decimal(t, 1, 2) == 1;
    assert Unsigned(t, 1) == Some(2);
    assert Value(t, 1) == Some(2);
    assert Blank(t, 1) == 1 && Blank(t, 2) == 2 && Blank(t, 3) == 3 && Blank(t, 4) == 4;
    assert Elements(t, 3) == Some(4);
    assert Elements(t, 1) == Some(4);
    assert Value(t, 0) == Some(4);
    var m: seq<byte> := [45];
    assert Digits(m, 1) == 1;
    assert Value(m, 0) == Some(1);
  }
}
