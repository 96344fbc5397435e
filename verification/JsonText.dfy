/**
 The loop body of json_parse_ex in src/json.c that both passes share, with comments off: from the current
 character and the flags to what is to be done. Positions are relative to the text after an optional byte order mark.
 */
module JsonText {
  import opened Bytes

  datatype Kind = Obj | Arr | Int | Dbl | Str | Bool | Null

  /** flag_seek_value, flag_need_comma, flag_need_colon, flag_done, flag_string and flag_escaped. The flags
      flag_next and flag_reproc do not outlive the iteration that sets them. */
  datatype Flags = Flags(seek: bool, comma: bool, colon: bool, done: bool, str: bool, esc: bool)

  const START := Flags(true, false, false, false, false, false)

  /** How much can be added before the next check: the largest unsigned int, less 8. */
  const LIMIT: int := TWO_TO_THE_32 - 1 - 8

  const LONG_MAX: int := 0x7FFF_FFFF_FFFF_FFFF

  datatype Act =
    | Idle | Comma | Colon | Escape
    | Emit(count: nat, bytes: seq<byte>)   // string_add: the first pass counts, the second writes
    | OpenKey | CloseKey
    | CloseString                 // the end of a string value
    | New(kind: Kind)             // new_value of an object, array or string
    | Literal(kind: Kind, value: int)   // new_value of true, false or null, which is complete at once
    | Number                      // a number starts here
    | Close                       // the end of an array or object

  /** The error exits, the end of the text, or an action that ends at position last. */
  datatype Control = Stop | Done | Do(act: Act, last: nat)

  /** The character at a position; the text is followed by NUL. */
  function At(t: seq<byte>, p: nat): byte {
    if p < |t| then t[p] else 0
  }

  predicate White(b: byte) {
    b == 10 || b == 32 || b == 9 || b == 13
  }

  predicate Digit(b: byte) {
    48 <= b <= 57
  }

  /** The characters that the second pass skips in a number. */
  predicate NumberChar(b: byte) {
    Digit(b) || b == 43 || b == 45 || b == 101 || b == 69 || b == 46
  }

  // ---------- escapes ----------

  /** hex_value, with -1 for 0xFF. */
  function Hex(b: byte): int {
    if Digit(b) then b - 48
    else if 97 <= b <= 102 then b - 87
    else if 65 <= b <= 70 then b - 55
    else -1
  }

  /** Four hexadecimal digits after position p, or -1. */
  function Hex4(t: seq<byte>, p: nat): (u: int)
    ensures -1 <= u < 65536
    ensures u >= 0 ==> p + 4 < |t|
  {
    var a, b, c, d := Hex(At(t, p + 1)), Hex(At(t, p + 2)), Hex(At(t, p + 3)), Hex(At(t, p + 4));
    if a < 0 || b < 0 || c < 0 || d < 0 then -1 else ((a * 16 + b) * 16 + c) * 16 + d
  }

  const DIGITS := "0123456789abcdef"
  const CAPITALS := "0123456789ABCDEF"

  /** A hexadecimal digit has its value, and nothing else has one. */
  lemma HexDigits(b: byte)
    ensures Hex(b) >= 0 <==> b as char in DIGITS || b as char in CAPITALS
    ensures Hex(b) >= 0 ==> Hex(b) < 16 && (b as char == DIGITS[Hex(b)] || b as char == CAPITALS[Hex(b)])
  {
    if Hex(b) < 0 {
      assert b as char !in DIGITS && b as char !in CAPITALS;
    }
  }

  datatype Escaped = Bad | Code(u: nat, last: nat)

  /** A \u escape whose 'u' is at p. A surrogate half takes a second escape, and 0x10000 is combined with the
      twenty bits by "or" rather than by addition. */
  function Unicode(t: seq<byte>, p: nat): (e: Escaped)
    requires p <= |t|
    ensures e.Code? ==> p < e.last < |t|
    ensures e.Code? ==> e.u < 0x11_0000
  {
    var u := Hex4(t, p);
    if |t| - p < 4 || u < 0 then Bad
    else if 0xD800 <= u < 0xE000 then
      var q := p + 4;
      var u2 := Hex4(t, q + 2);
      if |t| - q < 6 || At(t, q + 1) != 92 || At(t, q + 2) != 117 || u2 < 0 then Bad
      else
        Code(Combined(u, u2), q + 6)
    else Code(u, p + 4)
  }

  /** What a pair of surrogates u and v stands for, and what the source makes of it. */
  function Paired(u: nat, v: nat): nat
    requires 0xD800 <= u < 0xDC00 && 0xDC00 <= v < 0xE000
  {
    0x1_0000 + (u - 0xD800) * 1024 + (v - 0xDC00)
  }

  function Combined(u: nat, v: nat): nat {
    var bits := u % 1024 * 1024 + v % 1024;
    if bits / 65536 % 2 == 1 then bits else bits + 65536
  }

  /** The source reads a pair of surrogates as the character it stands for exactly when bit 6 of the first is clear. */
  lemma SurrogatesExactly(u: nat, v: nat)
    requires 0xD800 <= u < 0xDC00 && 0xDC00 <= v < 0xE000
    ensures Combined(u, v) == Paired(u, v) <==> u / 64 % 2 == 0
    ensures u / 64 % 2 == 1 ==> Combined(u, v) == Paired(u, v) - 65536
  {
    var a, b := u - 0xD800, v - 0xDC00;
    assert u % 1024 == a && v % 1024 == b;
    assert (a * 1024 + b) / 65536 == a / 64;
    assert u / 64 == 864 + a / 64;
  }

  /** An escape of a character that is not a surrogate stands for the number of its four digits. */
  lemma PlainEscape(t: seq<byte>, p: nat, a: nat, b: nat, c: nat, d: nat)
    requires p + 4 < |t| && a < 16 && b < 16 && c < 16 && d < 16
    requires Hex(t[p + 1]) == a && Hex(t[p + 2]) == b && Hex(t[p + 3]) == c && Hex(t[p + 4]) == d
    requires !(0xD800 <= 4096 * a + 256 * b + 16 * c + d < 0xE000)
    ensures Unicode(t, p) == Code(4096 * a + 256 * b + 16 * c + d, p + 4)
  {
    assert Hex4(t, p) == 4096 * a + 256 * b + 16 * c + d;
  }

  /** The escape as a whole: after the first surrogate at p and a second one, the character is the one that they
      stand for exactly under this condition. */
  lemma EscapeExactly(t: seq<byte>, p: nat)
    requires p + 10 < |t| && At(t, p + 5) == 92 && At(t, p + 6) == 117
    requires 0xD800 <= Hex4(t, p) < 0xDC00 && 0xDC00 <= Hex4(t, p + 6) < 0xE000
    ensures Unicode(t, p) == Code(Paired(Hex4(t, p), Hex4(t, p + 6)), p + 10) <==> Hex4(t, p) / 64 % 2 == 0
  {
    SurrogatesExactly(Hex4(t, p), Hex4(t, p + 6));
  }

  /** The text ud840\udc00, after a backslash: U+20000 is read as U+10000. */
  const SURROGATES: seq<byte> := [117, 100, 56, 52, 48, 92, 117, 100, 99, 48, 48]

  lemma SurrogatesMisread()
    ensures Hex4(SURROGATES, 0) == 0xD840 && Hex4(SURROGATES, 6) == 0xDC00 && Paired(0xD840, 0xDC00) == 0x2_0000
    ensures Unicode(SURROGATES, 0) == Code(0x1_0000, 10)
  {
  }

  /** The bytes that the second pass writes for a character. */
  function Utf8(u: nat): seq<byte>
    requires u < 0x11_0000
  {
    if u <= 0x7F then [u]
    else if u <= 0x7FF then [0xC0 + u / 64, 0x80 + u % 64]
    else if u <= 0xFFFF then [0xE0 + u / 4096, 0x80 + u / 64 % 64, 0x80 + u % 64]
    else [0xF0 + u / 262144, 0x80 + u / 4096 % 64, 0x80 + u / 64 % 64, 0x80 + u % 64]
  }

  /** The bits of a byte after its prefix. */
  function Low(b: byte, n: nat): nat
    requires n > 0
  {
    b as int % n
  }

  /** A byte that is not the first of its character. */
  predicate Continues(b: byte) {
    b / 64 == 2
  }

  /** The character that UTF-8 bytes stand for, by section 3 of RFC 3629. */
  function Decoded(s: seq<byte>): (u: Option<nat>) {
    if |s| == 1 && s[0] < 128 then Some(s[0])
    else if |s| == 2 && s[0] / 32 == 6 && Continues(s[1]) then Some(Low(s[0], 32) * 64 + Low(s[1], 64))
    else if |s| == 3 && s[0] / 16 == 14 && Continues(s[1]) && Continues(s[2]) then
      Some((Low(s[0], 16) * 64 + Low(s[1], 64)) * 64 + Low(s[2], 64))
    else if |s| == 4 && s[0] / 8 == 30 && Continues(s[1]) && Continues(s[2]) && Continues(s[3]) then
      Some(((Low(s[0], 8) * 64 + Low(s[1], 64)) * 64 + Low(s[2], 64)) * 64 + Low(s[3], 64))
    else None
  }

  /** What is written for a character is its UTF-8 form, and nothing shorter stands for it. */
  lemma Utf8Decodes(u: nat, s: seq<byte>)
    requires u < 0x11_0000
    ensures Decoded(Utf8(u)) == Some(u)
    ensures Decoded(s) == Some(u) ==> |Utf8(u)| <= |s|
  {
    Utf8Parts(u);
    DecodedBounds(s);
  }

  lemma Utf8Parts(u: nat)
    requires u < 0x11_0000
    ensures Decoded(Utf8(u)) == Some(u)
  {
    assert u / 4096 == u / 64 / 64 && u / 262144 == u / 64 / 64 / 64;
  }

  /** How large a character of one, two or three bytes can be. */
  lemma DecodedBounds(s: seq<byte>)
    ensures Decoded(s).Some? ==>
              var u := Decoded(s).value;
              |s| >= 1 && (|s| == 1 ==> u <= 0x7F) && (|s| == 2 ==> u <= 0x7FF) && (|s| == 3 ==> u <= 0xFFFF)
  {
  }

  /** How many the first pass counts for it. */
  function Utf8Count(u: nat): (n: nat)
    ensures u < 0x11_0000 ==> n == |Utf8(u)|
  {
    if u <= 0x7F then 1 else if u <= 0x7FF then 2 else if u <= 0xFFFF then 3 else 4
  }

  /** The character after a backslash. */
  function Unescape(t: seq<byte>, p: nat): (c: Control)
    requires p <= |t| && At(t, p) != 0
    ensures c.Do? ==> p <= c.last < |t| && c.act.Emit? && c.act.count == |c.act.bytes|
    ensures c != Done
  {
    var b := At(t, p);
    if b == 98 then Do(Emit(1, [8]), p)
    else if b == 102 then Do(Emit(1, [12]), p)
    else if b == 110 then Do(Emit(1, [10]), p)
    else if b == 114 then Do(Emit(1, [13]), p)
    else if b == 116 then Do(Emit(1, [9]), p)
    else if b == 117 then
      match Unicode(t, p)
      case Bad => Stop
      case Code(u, last) => Do(Emit(Utf8Count(u), Utf8(u)), last)
    else Do(Emit(1, [b]), p)
  }

  // ---------- the states ----------

  function InString(t: seq<byte>, p: nat, esc: bool, slen: nat, kind: Option<Kind>): (c: Control)
    requires p <= |t|
    ensures c.Do? ==> p <= c.last < |t| && (c.act.Emit? ==> c.act.count == |c.act.bytes|)
    ensures c != Done
  {
    var b := At(t, p);
    if b == 0 || slen > LIMIT then Stop
    else if esc then Unescape(t, p)
    else if b == 92 then Do(Escape, p)
    else if b == 34 then
      match kind
      case Some(Str) => Do(CloseString, p)
      case Some(Obj) => Do(CloseKey, p)
      case _ => Stop
    else Do(Emit(1, [b]), p)
  }

  /** The rest of a word that starts at p. */
  predicate Word(t: seq<byte>, p: nat, a: byte, b: byte, c: byte) {
    p + 3 <= |t| && At(t, p + 1) == a && At(t, p + 2) == b && At(t, p + 3) == c
  }

  function InSeek(t: seq<byte>, p: nat, f: Flags, kind: Option<Kind>): (c: Control)
    requires p <= |t|
    ensures c.Do? ==> p <= c.last < |t|
    ensures c != Done
  {
    var b := At(t, p);
    if White(b) then Do(Idle, p)
    else if b == 93 then if kind == Some(Arr) then Do(Close, p) else Stop
    else if f.comma then if b == 44 then Do(Comma, p) else Stop
    else if f.colon then if b == 58 then Do(Colon, p) else Stop
    else if b == 123 then Do(New(Obj), p)
    else if b == 91 then Do(New(Arr), p)
    else if b == 34 then Do(New(Str), p)
    else if b == 116 then if Word(t, p, 114, 117, 101) then Do(Literal(Bool, 1), p + 3) else Stop
    else if b == 102 then if Word(t, p, 97, 108, 115) && At(t, p + 4) == 101 then Do(Literal(Bool, 0), p + 4) else Stop
    else if b == 110 then if Word(t, p, 117, 108, 108) then Do(Literal(Null, 0), p + 3) else Stop
    else if Digit(b) || b == 45 then Do(Number, p)
    else Stop
  }

  function InObject(t: seq<byte>, p: nat, comma: bool): (c: Control)
    requires p <= |t|
    ensures c.Do? ==> c.last == p < |t|
    ensures c != Done
  {
    var b := At(t, p);
    if White(b) then Do(Idle, p)
    else if b == 34 then if comma then Stop else Do(OpenKey, p)
    else if b == 125 then Do(Close, p)
    else if b == 44 && comma then Do(Comma, p)
    else Stop
  }

  /** One iteration, outside numbers, given the kind of the current value. */
  function Decide(t: seq<byte>, p: nat, f: Flags, slen: nat, kind: Option<Kind>): (c: Control)
    requires p <= |t|
    ensures c.Do? ==> p <= c.last < |t| && (c.act.Emit? ==> c.act.count == |c.act.bytes|)
  {
    if f.str then InString(t, p, f.esc, slen, kind)
    else if f.done then
      if At(t, p) == 0 then Done else if White(At(t, p)) then Do(Idle, p) else Stop
    else if f.seek then InSeek(t, p, f, kind)
    else if kind == Some(Obj) then InObject(t, p, f.comma)
    else if At(t, p) == 0 then Stop
    else Do(Idle, p)
  }

  /** The flags once a value is complete, given the kind of its parent. */
  function AfterValue(parent: Option<Kind>): Flags {
    Flags(parent == Some(Arr), true, false, parent == None, false, false)
  }

  /** After a number, none of the characters that the second pass skips is accepted. */
  lemma NumberEnds(t: seq<byte>, p: nat, slen: nat, parent: Option<Kind>)
    requires p <= |t| && (parent.Some? ==> parent.value == Obj || parent.value == Arr) && NumberChar(At(t, p))
    ensures Decide(t, p, AfterValue(parent), slen, parent) == Stop
  {
  }
}
