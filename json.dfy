/**
  The part of Python's `json` module the session snapshot uses:
  `json.dumps` with its defaults (separators `", "` and `": "`, and
  `ensure_ascii`, so every character outside printable ASCII is written as
  a `\u` escape, a surrogate pair above U+FFFF) and `json.loads`,
  restricted to whole numbers. `Loads(Dumps(v)) == Some(v)` for every value.
*/
module Json {
  import opened Wrappers
  import opened Text

  datatype Value =
    | Null
    | Bool(b: bool)
    | Num(n: int)
    | Str(s: string)
    | Arr(items: seq<Value>)
    | Obj(fields: seq<Field>)

  datatype Field = Field(key: string, val: Value)

  /** `d.get(key)`: the value of the last field named `key`, as a decoded
      object keeps the last of repeated keys. */
  function Get(fields: seq<Field>, key: string): (r: Option<Value>)
    ensures r.Some? <==> exists i :: 0 <= i < |fields| && fields[i].key == key
  {
    if fields == [] then None
    else if fields[|fields| - 1].key == key then Some(fields[|fields| - 1].val)
    else Get(fields[..|fields| - 1], key)
  }

  /** The value of a field whose key no later field repeats. */
  lemma {:induction false} GetAt(fields: seq<Field>, i: nat, key: string)
    requires i < |fields| && fields[i].key == key
    requires forall j :: i < j < |fields| ==> fields[j].key != key
    ensures Get(fields, key) == Some(fields[i].val)
    decreases |fields|
  {
    if i < |fields| - 1 {
      GetAt(fields[..|fields| - 1], i, key);
    }
  }

  // ---------------------------------------------------------------------
  // json.dumps
  // ---------------------------------------------------------------------

  function HexDigit(d: nat): char
    requires d < 16
  {
    "0123456789abcdef"[d]
  }

  /** Four lowercase hexadecimal digits, as `"{0:04x}"` writes them. */
  function Hex4Text(n: nat): (r: string)
    requires n < 0x1_0000
    ensures |r| == 4
  {
    [HexDigit(n / 0x1000), HexDigit(n / 0x100 % 16), HexDigit(n / 16 % 16), HexDigit(n % 16)]
  }

  /** The escape of one UTF-16 code unit. */
  function UnitEscape(n: nat): (r: string)
    requires n < 0x1_0000
    ensures |r| == 6 && r[0] == '\\' && r[1] == 'u'
  {
    "\\u" + Hex4Text(n)
  }

  /** Printable ASCII, which `ensure_ascii` leaves as it is. */
  predicate IsPrintable(c: char) {
    ' ' <= c <= '~'
  }

  /** How one character of a string is written between the quotes: the
      short escapes, printable ASCII as itself, any other character up to
      U+FFFF as one `\u` escape, and above that as a surrogate pair. */
  function EscapeChar(c: char): string {
    if c == '"' then "\\\""
    else if c == '\\' then "\\\\"
    else if c == '\n' then "\\n"
    else if c == '\r' then "\\r"
    else if c == '\t' then "\\t"
    else if c == '\U{08}' then "\\b"
    else if c == '\U{0C}' then "\\f"
    else if IsPrintable(c) then [c]
    else if c as int < 0x1_0000 then UnitEscape(c as int)
    else
      var n := c as int - 0x1_0000;
      UnitEscape(0xD800 + n / 0x400) + UnitEscape(0xDC00 + n % 0x400)
  }

  function Escape(s: string): string {
    if s == [] then [] else EscapeChar(s[0]) + Escape(s[1..])
  }

  function Quote(s: string): string {
    "\"" + Escape(s) + "\""
  }

  function Dumps(v: Value): (r: string)
    ensures r != [] && !IsJsonSpace(r[0]) && r[0] != ']' && r[0] != '}'
  {
    match v
    case Null => "null"
    case Bool(b) => if b then "true" else "false"
    case Num(n) => IntToText(n)
    case Str(s) => Quote(s)
    case Arr(items) => "[" + DumpItems(items) + "]"
    case Obj(fields) => "{" + DumpFields(fields) + "}"
  }

  function DumpItems(items: seq<Value>): (r: string)
    ensures items != [] ==> r != [] && !IsJsonSpace(r[0]) && r[0] != ']'
  {
    if items == [] then []
    else if |items| == 1 then Dumps(items[0])
    else Dumps(items[0]) + ", " + DumpItems(items[1..])
  }

  function DumpField(f: Field): (r: string)
    ensures r != [] && r[0] == '"'
  {
    Quote(f.key) + ": " + Dumps(f.val)
  }

  function DumpFields(fields: seq<Field>): (r: string)
    ensures fields != [] ==> r != [] && r[0] == '"'
  {
    if fields == [] then []
    else if |fields| == 1 then DumpField(fields[0])
    else DumpField(fields[0]) + ", " + DumpFields(fields[1..])
  }

  // ---------------------------------------------------------------------
  // json.loads
  // ---------------------------------------------------------------------

  predicate IsJsonSpace(c: char) {
    c == ' ' || c == '\t' || c == '\n' || c == '\r'
  }

  /** The input after the whitespace JSON allows between tokens. */
  function SkipSpace(s: string): (r: string)
    ensures |r| <= |s| && r == s[|s| - |r|..]
    ensures r == [] || !IsJsonSpace(r[0])
  {
    if s != [] && IsJsonSpace(s[0]) then SkipSpace(s[1..]) else s
  }

  function HexValue(c: char): (r: Option<nat>)
    ensures r.Some? ==> r.value < 16
  {
    if '0' <= c <= '9' then Some(c as int - '0' as int)
    else if 'a' <= c <= 'f' then Some(c as int - 'a' as int + 10)
    else if 'A' <= c <= 'F' then Some(c as int - 'A' as int + 10)
    else None
  }

  /** Four hexadecimal digits, as after `\u`. */
  function Hex4(s: string): (r: Option<nat>)
    requires |s| == 4
    ensures r.Some? ==> r.value < 0x1_0000
  {
    match (HexValue(s[0]), HexValue(s[1]), HexValue(s[2]), HexValue(s[3]))
    case (Some(a), Some(b), Some(c), Some(d)) => Some(((a * 16 + b) * 16 + c) * 16 + d)
    case _ => None
  }

  /** The escape after a backslash: the character it stands for and how many
      characters it spans. A high surrogate followed by an escaped low one
      stands for the character above U+FFFF they encode; a surrogate that is
      not part of such a pair is refused. */
  function Unescape(s: string): (r: Option<(char, nat)>)
    ensures r.Some? ==> 1 <= r.value.1 <= |s|
  {
    if s == [] then None
    else if s[0] == '"' then Some(('"', 1))
    else if s[0] == '\\' then Some(('\\', 1))
    else if s[0] == '/' then Some(('/', 1))
    else if s[0] == 'b' then Some(('\U{08}', 1))
    else if s[0] == 'f' then Some(('\U{0C}', 1))
    else if s[0] == 'n' then Some(('\n', 1))
    else if s[0] == 'r' then Some(('\r', 1))
    else if s[0] == 't' then Some(('\t', 1))
    else if s[0] == 'u' && |s| >= 5 then
      match Hex4(s[1..5])
      case None => None
      case Some(code) =>
        if 0xD800 <= code < 0xDC00 && |s| >= 11 && s[5] == '\\' && s[6] == 'u' then
          match Hex4(s[7..11])
          case None => None
          case Some(low) =>
            if 0xDC00 <= low < 0xE000 then
              Some(((0x1_0000 + (code - 0xD800) * 0x400 + (low - 0xDC00)) as char, 11))
            else None
        else if 0xD800 <= code < 0xE000 then None
        else Some((code as char, 5))
    else None
  }

  /** The characters of a string literal after its opening quote, up to and
      including the closing quote; raw control characters are refused. */
  function ParseStringBody(s: string): (r: Option<(string, string)>)
    ensures r.Some? ==> |r.value.1| < |s|
  {
    if s == [] then None
    else if s[0] == '"' then Some(([], s[1..]))
    else if s[0] == '\\' then
      match Unescape(s[1..])
      case None => None
      case Some((c, k)) =>
        match ParseStringBody(s[1 + k..])
        case None => None
        case Some((t, rest)) => Some(([c] + t, rest))
    else if s[0] < ' ' then None
    else
      match ParseStringBody(s[1..])
      case None => None
      case Some((t, rest)) => Some(([s[0]] + t, rest))
  }

  /** Number of leading decimal digits. */
  function DigitRun(s: string): (n: nat)
    ensures n <= |s| && AllDigits(s[..n])
    ensures n < |s| ==> !IsDigit(s[n])
  {
    if s != [] && IsDigit(s[0]) then
      var n := 1 + DigitRun(s[1..]);
      assert s[..n] == [s[0]] + s[1..][..n - 1];
      n
    else 0
  }

  /** The integer part of a JSON number: `0` or a digit run not starting with `0`. */
  function ParseNat(s: string): (r: Option<(nat, string)>)
    ensures r.Some? ==> |r.value.1| < |s|
  {
    if s == [] || !IsDigit(s[0]) then None
    else if s[0] == '0' then Some((0, s[1..]))
    else
      var n := DigitRun(s);
      Some((DigitsValue(s[..n]), s[n..]))
  }

  function ParseNumber(s: string): (r: Option<(int, string)>)
    ensures r.Some? ==> |r.value.1| < |s|
  {
    if s != [] && s[0] == '-' then
      match ParseNat(s[1..])
      case None => None
      case Some((n, rest)) => Some((0 - n, rest))
    else
      match ParseNat(s)
      case None => None
      case Some((n, rest)) => Some((n as int, rest))
  }

  function ParseValue(s: string): (r: Option<(Value, string)>)
    decreases |s|, 1
    ensures r.Some? ==> |r.value.1| < |s|
  {
    ParseToken(SkipSpace(s))
  }

  /** A value that starts right at the first character. */
  function ParseToken(t: string): (r: Option<(Value, string)>)
    decreases |t|, 0
    ensures r.Some? ==> |r.value.1| < |t|
  {
    if t == [] then None
    else if StartsWith(t, "null") then Some((Null, t[4..]))
    else if StartsWith(t, "true") then Some((Bool(true), t[4..]))
    else if StartsWith(t, "false") then Some((Bool(false), t[5..]))
    else if t[0] == '"' then
      match ParseStringBody(t[1..])
      case None => None
      case Some((str, rest)) => Some((Str(str), rest))
    else if t[0] == '[' then ParseArray(t[1..])
    else if t[0] == '{' then ParseObject(t[1..])
    else
      match ParseNumber(t)
      case None => None
      case Some((n, rest)) => Some((Num(n), rest))
  }

  /** An array after its opening bracket. */
  function ParseArray(s: string): (r: Option<(Value, string)>)
    decreases |s|, 3
    ensures r.Some? ==> |r.value.1| < |s|
  {
    var t := SkipSpace(s);
    if t != [] && t[0] == ']' then Some((Arr([]), t[1..]))
    else
      match ParseItems(t)
      case None => None
      case Some((items, rest)) => Some((Arr(items), rest))
  }

  /** One or more array elements and the closing bracket. */
  function ParseItems(s: string): (r: Option<(seq<Value>, string)>)
    decreases |s|, 2
    ensures r.Some? ==> |r.value.1| < |s|
  {
    match ParseValue(s)
    case None => None
    case Some((v, r)) => ItemsAfter(v, r)
  }

  /** What follows an element: a comma and more elements, or the closing bracket. */
  function ItemsAfter(v: Value, s: string): (r: Option<(seq<Value>, string)>)
    decreases |s|, 0
    ensures r.Some? ==> |r.value.1| < |s|
  {
    var t := SkipSpace(s);
    if t != [] && t[0] == ',' then
      match ParseItems(t[1..])
      case None => None
      case Some((vs, rest)) => Some(([v] + vs, rest))
    else if t != [] && t[0] == ']' then Some(([v], t[1..]))
    else None
  }

  /** An object after its opening brace. */
  function ParseObject(s: string): (r: Option<(Value, string)>)
    decreases |s|, 4
    ensures r.Some? ==> |r.value.1| < |s|
  {
    var t := SkipSpace(s);
    if t != [] && t[0] == '}' then Some((Obj([]), t[1..]))
    else
      match ParseFields(t)
      case None => None
      case Some((fields, rest)) => Some((Obj(fields), rest))
  }

  /** One or more `"key": value` members and the closing brace. */
  function ParseFields(s: string): (r: Option<(seq<Field>, string)>)
    decreases |s|, 3
    ensures r.Some? ==> |r.value.1| < |s|
  {
    ParseMembers(SkipSpace(s))
  }

  function ParseMembers(t: string): (r: Option<(seq<Field>, string)>)
    decreases |t|, 2
    ensures r.Some? ==> |r.value.1| < |t|
  {
    if t == [] || t[0] != '"' then None
    else
      match ParseStringBody(t[1..])
      case None => None
      case Some((key, r1)) => MemberValue(key, r1)
  }

  /** After a member's key: the colon and the value. */
  function MemberValue(key: string, s: string): (r: Option<(seq<Field>, string)>)
    decreases |s|, 1
    ensures r.Some? ==> |r.value.1| < |s|
  {
    var t := SkipSpace(s);
    if t == [] || t[0] != ':' then None
    else
      match ParseValue(t[1..])
      case None => None
      case Some((v, r)) => MembersAfter(Field(key, v), r)
  }

  /** What follows a member: a comma and more members, or the closing brace. */
  function MembersAfter(f: Field, s: string): (r: Option<(seq<Field>, string)>)
    decreases |s|, 0
    ensures r.Some? ==> |r.value.1| < |s|
  {
    var t := SkipSpace(s);
    if t != [] && t[0] == ',' then
      match ParseFields(t[1..])
      case None => None
      case Some((fs, rest)) => Some(([f] + fs, rest))
    else if t != [] && t[0] == '}' then Some(([f], t[1..]))
    else None
  }

  /** `json.loads(s)`: one value, with nothing but whitespace around it. */
  function Loads(s: string): Option<Value> {
    match ParseValue(s)
    case None => None
    case Some((v, rest)) => if SkipSpace(rest) == [] then Some(v) else None
  }

  // ---------------------------------------------------------------------
  // Round trip: json.loads(json.dumps(v)) == v
  // ---------------------------------------------------------------------

  lemma HexDigitValue(d: nat)
    requires d < 16
    ensures HexValue(HexDigit(d)) == Some(d)
  {
  }

  /** Four hexadecimal digits read back as the number they spell. */
  lemma Hex4Of(a: nat, b: nat, c: nat, d: nat)
    requires a < 16 && b < 16 && c < 16 && d < 16
    ensures Hex4([HexDigit(a), HexDigit(b), HexDigit(c), HexDigit(d)]) == Some(((a * 16 + b) * 16 + c) * 16 + d)
  {
    HexDigitValue(a);
    HexDigitValue(b);
    HexDigitValue(c);
    HexDigitValue(d);
  }

  /** A number below 0x10000 is spelled by its four base-16 digits. */
  lemma Base16(n: nat)
    requires n < 0x1_0000
    ensures n == ((n / 0x1000 * 16 + n / 0x100 % 16) * 16 + n / 16 % 16) * 16 + n % 16
  {
    assert n / 0x100 == n / 0x1000 * 16 + n / 0x100 % 16;
    assert n / 16 == n / 0x100 * 16 + n / 16 % 16;
  }

  /** Four written hexadecimal digits read back as the number. */
  lemma Hex4RoundTrip(n: nat)
    requires n < 0x1_0000
    ensures Hex4(Hex4Text(n)) == Some(n)
  {
    Hex4Of(n / 0x1000, n / 0x100 % 16, n / 16 % 16, n % 16);
    Base16(n);
  }

  /** A written code unit read back from the `\\u` escape, whatever follows. */
  lemma UnitRead(n: nat, tail: string)
    requires n < 0x1_0000
    ensures var u := UnitEscape(n)[1..] + tail;
      |u| >= 5 && u[0] == 'u' && Hex4(u[1..5]) == Some(n)
  {
    var u := UnitEscape(n)[1..] + tail;
    assert u[1..5] == Hex4Text(n);
    Hex4RoundTrip(n);
  }

  /** An escaped high surrogate followed by an escaped low one is read as
      the character they encode. */
  lemma PairRead(u: string, hi: nat, lo: nat, c: char)
    requires |u| >= 11 && u[0] == 'u' && u[5] == '\\' && u[6] == 'u'
    requires Hex4(u[1..5]) == Some(hi) && 0xD800 <= hi < 0xDC00
    requires Hex4(u[7..11]) == Some(lo) && 0xDC00 <= lo < 0xE000
    requires c as int == 0x1_0000 + (hi - 0xD800) * 0x400 + (lo - 0xDC00)
    ensures Unescape(u) == Some((c, 11))
  {
  }

  /** A character up to U+FFFF without a short escape, outside printable
      ASCII, reads back from its one `\u` escape. */
  lemma BmpEscape(c: char, tail: string)
    requires !IsPrintable(c) && c as int < 0x1_0000
    requires c != '\n' && c != '\r' && c != '\t' && c != '\U{08}' && c != '\U{0C}'
    ensures |EscapeChar(c)| == 6 && EscapeChar(c)[0] == '\\'
    ensures Unescape(EscapeChar(c)[1..] + tail) == Some((c, 5))
  {
    UnitRead(c as int, tail);
  }

  /** The two halves of a surrogate pair give back the code point. */
  lemma SurrogateHalves(n: int)
    requires 0 <= n < 0x10_0000
    ensures 0xD800 <= 0xD800 + n / 0x400 < 0xDC00 && 0xDC00 <= 0xDC00 + n % 0x400 < 0xE000
    ensures (0xD800 + n / 0x400 - 0xD800) * 0x400 + (0xDC00 + n % 0x400 - 0xDC00) == n
  {
  }

  /** The text after the backslash of a two-escape pair, seen from both ends. */
  lemma PairText(x: string, y: string, tail: string)
    requires |x| == 6 && |y| == 6
    ensures var u := (x + y)[1..] + tail;
      |u| >= 11 && u[..5] == x[1..] && u[5..] == y + tail && u[7..11] == y[2..]
  {
  }

  /** A character above U+FFFF is written as the escapes of the UTF-16
      surrogate pair that encodes it: a high surrogate, then a low one. */
  lemma AstralText(c: char, hi: int, lo: int)
    requires 0xD800 <= hi < 0xDC00 && 0xDC00 <= lo < 0xE000
    requires c as int == 0x1_0000 + (hi - 0xD800) * 0x400 + (lo - 0xDC00)
    ensures EscapeChar(c) == UnitEscape(hi) + UnitEscape(lo)
  {
    var n := c as int - 0x1_0000;
    SplitQuotient(n, hi - 0xD800, lo - 0xDC00);
    AstralBranch(c);
    SameUnits(EscapeChar(c), 0xD800 + n / 0x400, 0xDC00 + n % 0x400, hi, lo);
  }

  lemma SameUnits(e: string, a: nat, b: nat, hi: nat, lo: nat)
    requires a < 0x1_0000 && b < 0x1_0000 && a == hi && b == lo
    requires e == UnitEscape(a) + UnitEscape(b)
    ensures e == UnitEscape(hi) + UnitEscape(lo)
  {
  }

  lemma AstralBranch(c: char)
    requires c as int >= 0x1_0000
    ensures var n := c as int - 0x1_0000;
      EscapeChar(c) == UnitEscape(0xD800 + n / 0x400) + UnitEscape(0xDC00 + n % 0x400)
  {
  }

  /** Division by 0x400 recovers the two parts of `q * 0x400 + r`. */
  lemma SplitQuotient(n: int, q: int, r: int)
    requires 0 <= r < 0x400 && n == q * 0x400 + r
    ensures n / 0x400 == q && n % 0x400 == r
  {
  }

  /** The surrogate pair written for the code point `0x10000 + n` reads
      back as that character. */
  lemma PairEscapeRead(n: int, c: char, tail: string)
    requires 0 <= n < 0x10_0000 && c as int == 0x1_0000 + n
    ensures var e := UnitEscape(0xD800 + n / 0x400) + UnitEscape(0xDC00 + n % 0x400);
      |e| == 12 && e[0] == '\\' && Unescape(e[1..] + tail) == Some((c, 11))
  {
    SurrogateHalves(n);
    var hi, lo := 0xD800 + n / 0x400, 0xDC00 + n % 0x400;
    var x, y := UnitEscape(hi), UnitEscape(lo);
    var u := (x + y)[1..] + tail;
    PairText(x, y, tail);
    UnitRead(hi, []);
    assert x[1..] + [] == x[1..];
    assert u[1..5] == x[2..];
    Hex4RoundTrip(lo);
    PairRead(u, hi, lo, c);
  }

  /** Reading one written character, whatever follows it. */
  lemma EscapeCharRoundTrip(c: char, tail: string)
    ensures ParseStringBody(EscapeChar(c) + tail) ==
      match ParseStringBody(tail)
      case None => None
      case Some((t, rest)) => Some(([c] + t, rest))
  {
    var e := EscapeChar(c);
    if c == '"' || c == '\\' || c == '\n' || c == '\r' || c == '\t' || c == '\U{08}' || c == '\U{0C}' {
      assert (e[1..] + tail)[0] == e[1];
      EscapedStep(e, c, tail);
    } else if IsPrintable(c) {
      assert ([c] + tail)[1..] == tail;
    } else if c as int < 0x1_0000 {
      BmpEscape(c, tail);
      EscapedStep(e, c, tail);
    } else {
      AstralRoundTrip(c, tail);
    }
  }

  lemma AstralRoundTrip(c: char, tail: string)
    requires c as int >= 0x1_0000
    ensures ParseStringBody(EscapeChar(c) + tail) ==
      match ParseStringBody(tail)
      case None => None
      case Some((t, rest)) => Some(([c] + t, rest))
  {
    var n := c as int - 0x1_0000;
    AstralBranch(c);
    PairEscapeRead(n, c, tail);
    EscapedStep(UnitEscape(0xD800 + n / 0x400) + UnitEscape(0xDC00 + n % 0x400), c, tail);
  }

  /** A backslash escape spanning all of `e`, then anything. */
  lemma EscapedStep(e: string, c: char, tail: string)
    requires |e| >= 2 && e[0] == '\\'
    requires Unescape(e[1..] + tail) == Some((c, |e| - 1))
    ensures ParseStringBody(e + tail) ==
      match ParseStringBody(tail)
      case None => None
      case Some((t, rest)) => Some(([c] + t, rest))
  {
    var s := e + tail;
    assert s[1..] == e[1..] + tail;
    assert s[1 + (|e| - 1)..] == tail;
  }

  lemma {:induction false} EscapeRoundTrip(s: string, rest: string)
    ensures ParseStringBody(Escape(s) + "\"" + rest) == Some((s, rest))
  {
    if s == [] {
      assert Escape(s) + "\"" + rest == "\"" + rest;
    } else {
      assert Escape(s) + "\"" + rest == EscapeChar(s[0]) + (Escape(s[1..]) + "\"" + rest);
      EscapeCharRoundTrip(s[0], Escape(s[1..]) + "\"" + rest);
      EscapeRoundTrip(s[1..], rest);
      assert [s[0]] + s[1..] == s;
    }
  }

  lemma {:induction false} DigitRunOf(d: string, rest: string)
    requires AllDigits(d)
    requires rest == [] || !IsDigit(rest[0])
    ensures DigitRun(d + rest) == |d|
  {
    if d != [] {
      assert (d + rest)[1..] == d[1..] + rest;
      DigitRunOf(d[1..], rest);
    } else {
      assert d + rest == rest;
    }
  }

  lemma NatRoundTrip(n: nat, rest: string)
    requires rest == [] || !IsDigit(rest[0])
    ensures ParseNat(NatToText(n) + rest) == Some((n, rest))
  {
    var d := NatToText(n);
    NatTextFacts(n);
    var s := d + rest;
    assert s[0] == d[0];
    if d[0] == '0' {
      assert s[1..] == rest;
    } else {
      DigitRunOf(d, rest);
      assert s[..|d|] == d;
      assert s[|d|..] == rest;
    }
  }

  lemma NumberRoundTrip(i: int, rest: string)
    requires rest == [] || !IsDigit(rest[0])
    ensures ParseNumber(IntToText(i) + rest) == Some((i, rest))
  {
    if i < 0 {
      var n: nat := -i;
      var x := NatToText(n) + rest;
      assert IntToText(i) == "-" + NatToText(n);
      Regroup3("-", NatToText(n), rest);
      NatRoundTrip(n, rest);
      NegativeStep(x);
    } else {
      var n: nat := i;
      var x := NatToText(n) + rest;
      assert IntToText(i) == NatToText(n);
      assert x[0] == NatToText(n)[0];
      NatRoundTrip(n, rest);
    }
  }

  lemma NegativeStep(x: string)
    ensures ParseNumber("-" + x) ==
      match ParseNat(x)
      case None => None
      case Some((n, rest)) => Some((0 - n, rest))
  {
    assert ("-" + x)[1..] == x;
  }

  // Single parsing steps, stated for any text.

  /** A space before a value changes nothing. */
  lemma ValueAfterSpace(x: string)
    ensures ParseValue(" " + x) == ParseValue(x)
  {
    assert SkipSpace(" " + x) == SkipSpace(x) by {
      assert (" " + x)[1..] == x;
    }
  }

  lemma ItemsAfterSpace(x: string)
    ensures ParseItems(" " + x) == ParseItems(x)
  {
    ValueAfterSpace(x);
  }

  lemma FieldsAfterSpace(x: string)
    ensures ParseFields(" " + x) == ParseFields(x)
  {
    assert SkipSpace(" " + x) == SkipSpace(x) by {
      assert (" " + x)[1..] == x;
    }
  }

  lemma ValueNoSpace(s: string)
    requires s != [] && !IsJsonSpace(s[0])
    ensures ParseValue(s) == ParseToken(s)
  {
    assert SkipSpace(s) == s;
  }

  /** A text that starts with none of the letters of `null`, `true`, `false`. */
  lemma NotLiteral(s: string)
    requires s != [] && s[0] != 'n' && s[0] != 't' && s[0] != 'f'
    ensures !StartsWith(s, "null") && !StartsWith(s, "true") && !StartsWith(s, "false")
  {
    if |s| >= 4 { assert s[..4][0] == s[0]; }
    if |s| >= 5 { assert s[..5][0] == s[0]; }
  }

  lemma LiteralToken(v: Value, word: string, rest: string)
    requires (v, word) == (Null, "null") || (v, word) == (Bool(true), "true") || (v, word) == (Bool(false), "false")
    ensures Dumps(v) == word
    ensures ParseToken(word + rest) == Some((v, rest))
  {
    var s := word + rest;
    assert s[..|word|] == word;
    assert s[|word|..] == rest;
    if word == "true" {
      assert s[..4][0] == 't';
    } else if word == "false" {
      assert s[..4][0] == 'f';
    }
  }

  lemma NumberToken(n: int, rest: string)
    requires rest == [] || !IsDigit(rest[0])
    ensures ParseToken(IntToText(n) + rest) == Some((Num(n), rest))
  {
    var s := IntToText(n) + rest;
    assert s[0] == IntToText(n)[0];
    NumberRoundTrip(n, rest);
    NumberStep(s, n, rest);
  }

  lemma NumberStep(s: string, n: int, rest: string)
    requires s != [] && (s[0] == '-' || IsDigit(s[0]))
    requires ParseNumber(s) == Some((n, rest))
    ensures ParseToken(s) == Some((Num(n), rest))
  {
    NotLiteral(s);
  }

  lemma StringToken(x: string, str: string, rest: string)
    requires ParseStringBody(x) == Some((str, rest))
    ensures ParseToken("\"" + x) == Some((Str(str), rest))
  {
    var s := "\"" + x;
    NotLiteral(s);
    assert s[1..] == x;
  }

  lemma ArrayToken(x: string)
    ensures ParseToken("[" + x) == ParseArray(x)
  {
    var s := "[" + x;
    NotLiteral(s);
    assert s[1..] == x;
  }

  lemma ObjectToken(x: string)
    ensures ParseToken("{" + x) == ParseObject(x)
  {
    var s := "{" + x;
    NotLiteral(s);
    assert s[1..] == x;
  }

  lemma EmptyArray(rest: string)
    ensures ParseArray("]" + rest) == Some((Arr([]), rest))
  {
    var s := "]" + rest;
    assert SkipSpace(s) == s;
    assert s[1..] == rest;
  }

  lemma ArrayStep(s: string, items: seq<Value>, rest: string)
    requires s != [] && !IsJsonSpace(s[0]) && s[0] != ']'
    requires ParseItems(s) == Some((items, rest))
    ensures ParseArray(s) == Some((Arr(items), rest))
  {
    assert SkipSpace(s) == s;
  }

  lemma ItemsStep(s: string, v: Value, after: string)
    requires ParseValue(s) == Some((v, after))
    ensures ParseItems(s) == ItemsAfter(v, after)
  {
  }

  lemma LastItem(v: Value, rest: string)
    ensures ItemsAfter(v, "]" + rest) == Some(([v], rest))
  {
    var after := "]" + rest;
    assert SkipSpace(after) == after;
    assert after[1..] == rest;
  }

  lemma NextItem(v: Value, more: string, vs: seq<Value>, rest: string)
    requires ParseItems(more) == Some((vs, rest))
    ensures ItemsAfter(v, ", " + more) == Some(([v] + vs, rest))
  {
    var u := " " + more;
    CommaSpace(more);
    ItemsAfterSpace(more);
    CommaItems(v, u, vs, rest);
  }

  lemma CommaSpace(x: string)
    ensures ", " + x == "," + (" " + x)
  {
  }

  lemma ColonSpace(x: string)
    ensures ": " + x == ":" + (" " + x)
  {
  }

  lemma CommaItems(v: Value, u: string, vs: seq<Value>, rest: string)
    requires ParseItems(u) == Some((vs, rest))
    ensures ItemsAfter(v, "," + u) == Some(([v] + vs, rest))
  {
    var after := "," + u;
    assert SkipSpace(after) == after;
    assert after[1..] == u;
  }

  lemma EmptyObject(rest: string)
    ensures ParseObject("}" + rest) == Some((Obj([]), rest))
  {
    var s := "}" + rest;
    assert SkipSpace(s) == s;
    assert s[1..] == rest;
  }

  lemma ObjectStep(s: string, fields: seq<Field>, rest: string)
    requires s != [] && s[0] == '"'
    requires ParseFields(s) == Some((fields, rest))
    ensures ParseObject(s) == Some((Obj(fields), rest))
  {
    assert SkipSpace(s) == s;
  }

  lemma FieldsStep(s: string)
    requires s != [] && s[0] == '"'
    ensures ParseFields(s) == ParseMembers(s)
  {
    assert SkipSpace(s) == s;
  }

  lemma MemberStep(x: string, key: string, y: string, v: Value, after: string)
    requires ParseStringBody(x) == Some((key, ": " + y))
    requires ParseValue(y) == Some((v, after))
    ensures ParseMembers("\"" + x) == MembersAfter(Field(key, v), after)
  {
    KeyRead("\"" + x, key, ": " + y);
    ColonValue(key, y, v, after);
  }

  /** A member starts with its key. */
  lemma KeyRead(t: string, key: string, r1: string)
    requires t != [] && t[0] == '"' && ParseStringBody(t[1..]) == Some((key, r1))
    ensures ParseMembers(t) == MemberValue(key, r1)
  {
  }

  /** After the key: the colon, a space and the value. */
  lemma ColonValue(key: string, y: string, v: Value, after: string)
    requires ParseValue(y) == Some((v, after))
    ensures MemberValue(key, ": " + y) == MembersAfter(Field(key, v), after)
  {
    var u := " " + y;
    ColonSpace(y);
    ValueAfterSpace(y);
    ColonThenValue(key, u, v, after);
  }

  lemma ColonThenValue(key: string, u: string, v: Value, after: string)
    requires ParseValue(u) == Some((v, after))
    ensures MemberValue(key, ":" + u) == MembersAfter(Field(key, v), after)
  {
    var r1 := ":" + u;
    assert SkipSpace(r1) == r1;
    assert r1[1..] == u;
  }

  lemma LastMember(f: Field, rest: string)
    ensures MembersAfter(f, "}" + rest) == Some(([f], rest))
  {
    var after := "}" + rest;
    assert SkipSpace(after) == after;
    assert after[1..] == rest;
  }

  lemma NextMember(f: Field, more: string, fs: seq<Field>, rest: string)
    requires ParseFields(more) == Some((fs, rest))
    ensures MembersAfter(f, ", " + more) == Some(([f] + fs, rest))
  {
    var u := " " + more;
    CommaSpace(more);
    FieldsAfterSpace(more);
    CommaFields(f, u, fs, rest);
  }

  lemma CommaFields(f: Field, u: string, fs: seq<Field>, rest: string)
    requires ParseFields(u) == Some((fs, rest))
    ensures MembersAfter(f, "," + u) == Some(([f] + fs, rest))
  {
    var after := "," + u;
    assert SkipSpace(after) == after;
    assert after[1..] == u;
  }

  // The round trip itself, by induction over the value.

  lemma {:induction false} ValueRoundTrip(v: Value, rest: string)
    requires rest == [] || !IsDigit(rest[0])
    ensures ParseValue(Dumps(v) + rest) == Some((v, rest))
    decreases v, 1
  {
    ValueNoSpace(Dumps(v) + rest);
    TokenRoundTrip(v, rest);
  }

  lemma {:induction false} TokenRoundTrip(v: Value, rest: string)
    requires rest == [] || !IsDigit(rest[0])
    ensures ParseToken(Dumps(v) + rest) == Some((v, rest))
    decreases v, 0
  {
    match v
    case Null => LiteralToken(v, "null", rest);
    case Bool(b) => if b { LiteralToken(v, "true", rest); } else { LiteralToken(v, "false", rest); }
    case Num(n) => NumberToken(n, rest);
    case Str(str) =>
      var x := Escape(str) + "\"" + rest;
      Regroup4("\"", Escape(str), "\"", rest);
      EscapeRoundTrip(str, rest);
      StringToken(x, str, rest);
    case Arr(items) =>
      var x := DumpItems(items) + "]" + rest;
      Regroup4("[", DumpItems(items), "]", rest);
      ArrayToken(x);
      ArrayRoundTrip(items, rest);
    case Obj(fields) =>
      var x := DumpFields(fields) + "}" + rest;
      Regroup4("{", DumpFields(fields), "}", rest);
      ObjectToken(x);
      ObjectRoundTrip(fields, rest);
  }

  lemma {:induction false} ArrayRoundTrip(items: seq<Value>, rest: string)
    ensures ParseArray(DumpItems(items) + "]" + rest) == Some((Arr(items), rest))
    decreases items, 2
  {
    var s := DumpItems(items) + "]" + rest;
    if items == [] {
      assert s == "]" + rest;
      EmptyArray(rest);
    } else {
      ItemsRoundTrip(items, rest);
      ArrayStep(s, items, rest);
    }
  }

  lemma {:induction false} ItemsRoundTrip(items: seq<Value>, rest: string)
    requires items != []
    ensures ParseItems(DumpItems(items) + "]" + rest) == Some((items, rest))
    decreases items, 1
  {
    if |items| == 1 {
      OneItemRoundTrip(items, rest);
    } else {
      MoreItemsRoundTrip(items, rest);
    }
  }

  lemma {:induction false} OneItemRoundTrip(items: seq<Value>, rest: string)
    requires |items| == 1
    ensures ParseItems(DumpItems(items) + "]" + rest) == Some((items, rest))
    decreases items, 0
  {
    var v := items[0];
    var s := DumpItems(items) + "]" + rest;
    var after := "]" + rest;
    assert s == Dumps(v) + after by {
      assert DumpItems(items) == Dumps(v);
    }
    ValueRoundTrip(v, after);
    ItemsStep(s, v, after);
    LastItem(v, rest);
    assert [v] == items;
  }

  lemma {:induction false} MoreItemsRoundTrip(items: seq<Value>, rest: string)
    requires |items| > 1
    ensures ParseItems(DumpItems(items) + "]" + rest) == Some((items, rest))
    decreases items, 0
  {
    var v := items[0];
    var s := DumpItems(items) + "]" + rest;
    var more := DumpItems(items[1..]) + "]" + rest;
    var after := ", " + more;
    assert DumpItems(items) == Dumps(v) + ", " + DumpItems(items[1..]);
    Regroup(Dumps(v), ", ", DumpItems(items[1..]), "]", rest);
    ValueRoundTrip(v, after);
    ItemsStep(s, v, after);
    ItemsRoundTrip(items[1..], rest);
    NextItem(v, more, items[1..], rest);
    HeadTail(items);
  }

  lemma {:induction false} ObjectRoundTrip(fields: seq<Field>, rest: string)
    ensures ParseObject(DumpFields(fields) + "}" + rest) == Some((Obj(fields), rest))
    decreases fields, 3
  {
    var s := DumpFields(fields) + "}" + rest;
    if fields == [] {
      assert s == "}" + rest;
      EmptyObject(rest);
    } else {
      FieldsRoundTrip(fields, rest);
      ObjectStep(s, fields, rest);
    }
  }

  lemma {:induction false} FieldsRoundTrip(fields: seq<Field>, rest: string)
    requires fields != []
    ensures ParseFields(DumpFields(fields) + "}" + rest) == Some((fields, rest))
    decreases fields, 2
  {
    FieldsStep(DumpFields(fields) + "}" + rest);
    if |fields| == 1 {
      OneFieldRoundTrip(fields, rest);
    } else {
      MoreFieldsRoundTrip(fields, rest);
    }
  }

  lemma {:induction false} OneFieldRoundTrip(fields: seq<Field>, rest: string)
    requires |fields| == 1
    ensures ParseMembers(DumpFields(fields) + "}" + rest) == Some((fields, rest))
    decreases fields, 0
  {
    var f := fields[0];
    var s := DumpFields(fields) + "}" + rest;
    var after := "}" + rest;
    assert s == DumpField(f) + after by {
      assert DumpFields(fields) == DumpField(f);
    }
    MemberRoundTrip(f, after);
    LastMember(f, rest);
    assert [f] == fields;
  }

  lemma {:induction false} MoreFieldsRoundTrip(fields: seq<Field>, rest: string)
    requires |fields| > 1
    ensures ParseMembers(DumpFields(fields) + "}" + rest) == Some((fields, rest))
    decreases fields, 1
  {
    var f := fields[0];
    var more := DumpFields(fields[1..]) + "}" + rest;
    FirstField(fields, rest);
    FieldsRoundTrip(fields[1..], rest);
    NextMember(f, more, fields[1..], rest);
    HeadTail(fields);
  }

  /** The first of several members is read, and parsing goes on after the comma. */
  lemma {:induction false} FirstField(fields: seq<Field>, rest: string)
    requires |fields| > 1
    ensures ParseMembers(DumpFields(fields) + "}" + rest) ==
      MembersAfter(fields[0], ", " + (DumpFields(fields[1..]) + "}" + rest))
    decreases fields, 0
  {
    var f, d, more := fields[0], DumpFields(fields[1..]), DumpFields(fields[1..]) + "}" + rest;
    assert DumpFields(fields) == DumpField(f) + ", " + d;
    Regroup(DumpField(f), ", ", d, "}", rest);
    MemberRoundTrip(f, ", " + more);
  }

  /** A written member reads back as that member, and parsing goes on with what follows it. */
  lemma {:induction false} MemberRoundTrip(f: Field, after: string)
    requires after != [] && !IsDigit(after[0])
    ensures ParseMembers(DumpField(f) + after) == MembersAfter(f, after)
    decreases f, 0
  {
    var y := Dumps(f.val) + after;
    var x := Escape(f.key) + "\"" + (": " + y);
    assert DumpField(f) == "\"" + Escape(f.key) + "\"" + ": " + Dumps(f.val);
    Regroup6("\"", Escape(f.key), "\"", ": ", Dumps(f.val), after);
    EscapeRoundTrip(f.key, ": " + y);
    ValueRoundTrip(f.val, after);
    MemberStep(x, f.key, y, f.val, after);
  }

  /** `json.loads(json.dumps(v)) == v` */
  lemma LoadsDumps(v: Value)
    ensures Loads(Dumps(v)) == Some(v)
  {
    ValueRoundTrip(v, "");
    assert Dumps(v) + "" == Dumps(v);
  }

  // ---------------------------------------------------------------------
  // Which characters json.dumps can produce
  // ---------------------------------------------------------------------

  /** The characters the writer itself puts down: brackets, separators,
      quotes, escapes, digits and the letters of the literals. */
  predicate IsSyntax(c: char) {
    c in {'{', '}', '[', ']', ',', ':', ' ', '"', '\\', '-',
          '0', '1', '2', '3', '4', '5', '6', '7', '8', '9',
          'a', 'b', 'c', 'd', 'e', 'f', 'l', 'n', 'r', 's', 't', 'u'}
  }

  /** Some string or key inside `v` holds the character `c`. */
  predicate Mentions(v: Value, c: char) {
    match v
    case Str(s) => c in s
    case Arr(items) => MentionsItems(items, c)
    case Obj(fields) => MentionsFields(fields, c)
    case _ => false
  }

  predicate MentionsItems(items: seq<Value>, c: char) {
    items != [] && (Mentions(items[0], c) || MentionsItems(items[1..], c))
  }

  predicate MentionsFields(fields: seq<Field>, c: char) {
    fields != [] &&
    (c in fields[0].key || Mentions(fields[0].val, c) || MentionsFields(fields[1..], c))
  }

  lemma HexDigitSyntax(d: nat)
    requires d < 16
    ensures IsSyntax(HexDigit(d))
  {
  }

  /** A `\\uXXXX` escape is made of the writer's own characters. */
  lemma UnitSyntax(n: nat)
    requires n < 0x1_0000
    ensures forall x :: x in UnitEscape(n) ==> IsSyntax(x)
  {
    HexDigitSyntax(n / 0x1000);
    HexDigitSyntax(n / 0x100 % 16);
    HexDigitSyntax(n / 16 % 16);
    HexDigitSyntax(n % 16);
  }

  /** Every character written for an escaped character is one of the
      writer's own. */
  lemma EscapeSyntax(x: char)
    requires !IsPrintable(x) || x == '"' || x == '\\'
    ensures forall y :: y in EscapeChar(x) ==> IsSyntax(y)
  {
    var e := EscapeChar(x);
    if x == '"' || x == '\\' || x == '\n' || x == '\r' || x == '\t' || x == '\U{08}' || x == '\U{0C}' {
      assert |e| == 2 && IsSyntax(e[0]) && IsSyntax(e[1]);
      assert forall y :: y in e ==> y == e[0] || y == e[1];
    } else if x as int < 0x1_0000 {
      UnitSyntax(x as int);
    } else {
      var n := x as int - 0x1_0000;
      UnitSyntax(0xD800 + n / 0x400);
      UnitSyntax(0xDC00 + n % 0x400);
    }
  }

  /** A character outside the writer's own alphabet appears in an escaped
      character only as that character, and control characters never do. */
  lemma EscapeCharAvoids(x: char, c: char)
    requires !IsSyntax(c) && (c < ' ' || x != c)
    ensures c !in EscapeChar(x)
  {
    if !IsPrintable(x) || x == '"' || x == '\\' {
      EscapeSyntax(x);
    } else {
      assert EscapeChar(x) == [x];
    }
  }

  lemma {:induction false} EscapeAvoids(s: string, c: char)
    requires !IsSyntax(c) && (c < ' ' || c !in s)
    ensures c !in Escape(s)
  {
    if s != [] {
      assert s[0] in s;
      EscapeCharAvoids(s[0], c);
      assert c < ' ' || c !in s[1..] by {
        if c in s[1..] {
          var j :| 0 <= j < |s[1..]| && s[1..][j] == c;
          assert s[j + 1] == c;
        }
      }
      EscapeAvoids(s[1..], c);
    }
  }

  lemma IntTextAvoids(n: int, c: char)
    requires !IsSyntax(c)
    ensures c !in IntToText(n)
  {
    IntTextChars(n);
  }

  /** The text `json.dumps` writes holds a character outside its own
      alphabet only where a string of the value does; a line break or other
      control character never appears raw. */
  lemma {:induction false} DumpsAvoids(v: Value, c: char)
    requires !IsSyntax(c) && (c < ' ' || !Mentions(v, c))
    ensures c !in Dumps(v)
  {
    match v
    case Null =>
    case Bool(b) =>
    case Num(n) => IntTextAvoids(n, c);
    case Str(s) => EscapeAvoids(s, c);
    case Arr(items) => DumpItemsAvoids(items, c);
    case Obj(fields) => DumpFieldsAvoids(fields, c);
  }

  lemma {:induction false} DumpItemsAvoids(items: seq<Value>, c: char)
    requires !IsSyntax(c) && (c < ' ' || !MentionsItems(items, c))
    ensures c !in DumpItems(items)
    decreases items, 0
  {
    if items != [] {
      DumpsAvoids(items[0], c);
      if |items| > 1 {
        DumpItemsAvoids(items[1..], c);
      }
    }
  }

  lemma {:induction false} DumpFieldsAvoids(fields: seq<Field>, c: char)
    requires !IsSyntax(c) && (c < ' ' || !MentionsFields(fields, c))
    ensures c !in DumpFields(fields)
    decreases fields, 0
  {
    if fields != [] {
      var f := fields[0];
      EscapeAvoids(f.key, c);
      DumpsAvoids(f.val, c);
      assert DumpField(f) == "\"" + Escape(f.key) + "\"" + ": " + Dumps(f.val);
      if |fields| > 1 {
        DumpFieldsAvoids(fields[1..], c);
      }
    }
  }
}
