/** A stand-in for jsoncpp: its value tree, its compact writer, and what it reads in the texts of RFC 8259.
    Like jsoncpp, the writer escapes everything that is not ASCII, and the reader ignores what follows the
    first value. What jsoncpp makes of other texts is left to the library. */
module Json {
  import opened Text

  datatype Value =
    | Null
    | Bool(b: bool)
    | Number(n: int)
    | Real(text: string)
    | String(s: string)
    | Array(items: seq<Value>)
    | Object(members: seq<Member>)

  datatype Member = Member(key: string, value: Value)

  // ---------------------------------------------------------------- numbers

  const MIN_INTEGER := -0x8000_0000_0000_0000
  const MAX_INTEGER := 0xFFFF_FFFF_FFFF_FFFF

  /** The integers that are kept as such; larger ones become floating-point numbers. */
  predicate IsInteger(n: int) {
    MIN_INTEGER <= n <= MAX_INTEGER
  }

  function Pow(base: real, n: nat): (r: real)
    requires base >= 1.0
    ensures r >= 1.0
  {
    if n == 0 then 1.0 else base * Pow(base, n - 1)
  }

  /** The value of a text of digits, a fraction and an exponent, before it is rounded. */
  function Exact(text: string): real {
    if text != "" && text[0] == '-' then -Magnitude(text[1..]) else Magnitude(text)
  }

  function Magnitude(digits: string): real {
    var n := DigitRun(digits);
    var tail := digits[n..];
    var f := FractionLength(tail);
    var whole := DigitsValue(digits[..n]) as real;
    var part := if f == 0 then 0.0 else DigitsValue(tail[1..f]) as real / Pow(10.0, f - 1);
    Scaled(whole + part, tail[f..])
  }

  /** `value` times the power of ten that `exponent`, with its sign and the letter before it, says. */
  function Scaled(value: real, exponent: string): real {
    if |exponent| < 2 then value
    else
      var signed := exponent[1] == '-' || exponent[1] == '+';
      var digits := if signed then exponent[2..] else exponent[1..];
      Shifted(value, exponent[1] != '-', DigitsValue(digits[..DigitRun(digits)]))
  }

  function Shifted(value: real, up: bool, places: nat): real {
    if up then value * Pow(10.0, places) else value / Pow(10.0, places)
  }

  /** The length of the fraction at the start of `s`, with its dot. */
  function FractionLength(s: string): (n: nat)
    ensures n <= |s|
    ensures n > 0 ==> n >= 2 && s[0] == '.' && forall k :: 1 <= k < n ==> IsDigit(s[k])
  {
    if s != "" && s[0] == '.' && DigitRun(s[1..]) > 0 then 1 + DigitRun(s[1..]) else 0
  }

  /** The length of the exponent at the start of `s`, with its letter and sign. */
  function ExponentLength(s: string): (n: nat)
    ensures n <= |s|
  {
    if s == "" || (s[0] != 'e' && s[0] != 'E') then 0
    else
      var sign := if |s| > 1 && (s[1] == '+' || s[1] == '-') then 1 else 0;
      var n := DigitRun(s[1 + sign..]);
      if n == 0 then 0 else 1 + sign + n
  }

  /** Half the least positive double: what is not beyond it is rounded to zero. */
  function Vanishing(): real { 1.0 / Pow(2.0, 1075) }

  /** The text does not overflow when it is rounded to a double. */
  predicate IsFinite(text: string) {
    -(Pow(2.0, 1024) - Pow(2.0, 970)) < Exact(text) < Pow(2.0, 1024) - Pow(2.0, 970)
  }

  /** The double is an unsigned 64-bit number as far as jsoncpp can tell; 2 to the 64th, which is what the
      largest one is rounded to, is not told from it. */
  predicate FitsUInt64(text: string) {
    -Vanishing() <= Exact(text) <= Pow(2.0, 64) + 2048.0
  }

  predicate IsZero(text: string) {
    -Vanishing() <= Exact(text) <= Vanishing()
  }

  // ---------------------------------------------------------------- objects

  /** The order in which jsoncpp keeps the members of an object. */
  predicate Less(a: string, b: string) {
    if b == "" then false
    else if a == "" then true
    else a[0] < b[0] || (a[0] == b[0] && Less(a[1..], b[1..]))
  }

  lemma {:induction false} LessTransitive(a: string, b: string, c: string)
    requires Less(a, b) && Less(b, c)
    ensures Less(a, c)
  {
    if a != "" && a[0] == b[0] == c[0] {
      LessTransitive(a[1..], b[1..], c[1..]);
    }
  }

  lemma {:induction false} LessTotal(a: string, b: string)
    ensures Less(a, b) || a == b || Less(b, a)
  {
    if a != "" && b != "" && a[0] == b[0] {
      LessTotal(a[1..], b[1..]);
      assert a == [a[0]] + a[1..] && b == [b[0]] + b[1..];
    }
  }

  lemma {:induction false} LessIrreflexive(a: string)
    ensures !Less(a, a)
  {
    if a != "" {
      LessIrreflexive(a[1..]);
    }
  }

  predicate Sorted(ms: seq<Member>) {
    |ms| <= 1 || (Less(ms[0].key, ms[1].key) && Sorted(ms[1..]))
  }

  /** `object[key] = value`. */
  function Put(ms: seq<Member>, key: string, value: Value): seq<Member> {
    if ms == [] || Less(key, ms[0].key) then [Member(key, value)] + ms
    else if key == ms[0].key then [Member(key, value)] + ms[1..]
    else [ms[0]] + Put(ms[1..], key, value)
  }

  /** A new key goes between the smaller ones and the greater ones. */
  lemma {:induction false} PutBetween(before: seq<Member>, after: seq<Member>, key: string, value: Value)
    requires forall k :: 0 <= k < |before| ==> !Less(key, before[k].key) && key != before[k].key
    requires after == [] || Less(key, after[0].key)
    ensures Put(before + after, key, value) == before + [Member(key, value)] + after
  {
    if before == [] {
      assert before + after == after;
    } else {
      PutBetween(before[1..], after, key, value);
      assert (before + after)[1..] == before[1..] + after;
    }
  }

  function Get(ms: seq<Member>, key: string): Option<Value> {
    if ms == [] then None
    else if ms[0].key == key then Some(ms[0].value)
    else Get(ms[1..], key)
  }

  lemma {:induction false} GetPut(ms: seq<Member>, key: string, value: Value, k: string)
    ensures Get(Put(ms, key, value), k) == if k == key then Some(value) else Get(ms, k)
  {
    if ms != [] && !Less(key, ms[0].key) && key != ms[0].key {
      GetPut(ms[1..], key, value, k);
    }
  }

  lemma {:induction false} PutSorted(ms: seq<Member>, key: string, value: Value)
    requires Sorted(ms)
    ensures Sorted(Put(ms, key, value))
  {
    if ms != [] && !Less(key, ms[0].key) && key != ms[0].key {
      LessTotal(key, ms[0].key);
      PutSorted(ms[1..], key, value);
    }
  }

  /** A key after all the others is appended. */
  lemma {:induction false} PutLast(ms: seq<Member>, m: Member)
    requires Sorted(ms + [m])
    ensures Put(ms, m.key, m.value) == ms + [m]
  {
    if ms != [] {
      FirstIsLeast(ms, m);
      NotBoth(ms[0].key, m.key);
      assert (ms + [m])[1..] == ms[1..] + [m];
      PutLast(ms[1..], m);
    }
  }

  lemma {:induction false} FirstIsLeast(ms: seq<Member>, m: Member)
    requires ms != [] && Sorted(ms + [m])
    ensures Less(ms[0].key, m.key)
  {
    var all := ms + [m];
    if |ms| > 1 {
      assert all[1..] == ms[1..] + [m];
      FirstIsLeast(ms[1..], m);
      LessTransitive(ms[0].key, ms[1].key, m.key);
    }
  }

  lemma NotBoth(a: string, b: string)
    requires Less(a, b)
    ensures !Less(b, a) && a != b
  {
    LessIrreflexive(a);
    if Less(b, a) {
      LessTransitive(a, b, a);
    }
  }

  lemma {:induction false} SortedPrefix(a: seq<Member>, b: seq<Member>)
    requires Sorted(a + b)
    ensures Sorted(a) && Sorted(b)
  {
    if a == [] {
      assert a + b == b;
    } else {
      assert (a + b)[1..] == a[1..] + b;
      SortedPrefix(a[1..], b);
    }
  }

  /** Members in ascending order at every level, and no numbers but integers. */
  predicate WellFormed(v: Value) {
    match v
    case Number(n) => IsInteger(n)
    case Real(_) => false
    case Array(items) => forall i :: 0 <= i < |items| ==> WellFormed(items[i])
    case Object(members) => Sorted(members) && forall i :: 0 <= i < |members| ==> WellFormed(members[i].value)
    case _ => true
  }

  // ---------------------------------------------------------------- writing strings

  function HexDigit(d: nat): char
    requires d < 16
  {
    if d < 10 then ('0' as int + d) as char else ('a' as int + d - 10) as char
  }

  function Hex4(n: nat): string
    requires n < 0x1_0000
  {
    [HexDigit(n / 0x1000), HexDigit(n / 0x100 % 16), HexDigit(n / 16 % 16), HexDigit(n % 16)]
  }

  function EscapeUnit(n: nat): string
    requires n < 0x1_0000
  {
    "\\u" + Hex4(n)
  }

  /** One character of a string; those outside the Basic Multilingual Plane become two units. */
  function EscapeChar(c: char): string {
    if c == '"' then "\\\""
    else if c == '\\' then "\\\\"
    else if c == '\U{08}' then "\\b"
    else if c == '\U{0C}' then "\\f"
    else if c == '\n' then "\\n"
    else if c == '\r' then "\\r"
    else if c == '\t' then "\\t"
    else if ' ' <= c < '\U{80}' then [c]
    else if c as int < 0x1_0000 then EscapeUnit(c as int)
    else
      var n := c as int - 0x1_0000;
      EscapeUnit(0xD800 + n / 0x400) + EscapeUnit(0xDC00 + n % 0x400)
  }

  function Escape(s: string): string {
    if s == "" then "" else EscapeChar(s[0]) + Escape(s[1..])
  }

  function Quote(s: string): string { "\"" + Escape(s) + "\"" }

  // ---------------------------------------------------------------- writing values

  function Write(v: Value): string
    decreases v, 1
  {
    match v
    case Null => "null"
    case Bool(b) => if b then "true" else "false"
    case Number(n) => IntToString(n)
    case Real(text) => text
    case String(s) => Quote(s)
    case Array(items) => "[" + WriteItems(items) + "]"
    case Object(members) => "{" + WriteMembers(members) + "}"
  }

  function WriteItems(items: seq<Value>): string
    decreases items, 0
  {
    if items == [] then ""
    else if |items| == 1 then Write(items[0])
    else Write(items[0]) + "," + WriteItems(items[1..])
  }

  function WriteMembers(members: seq<Member>): string
    decreases members, 0
  {
    if members == [] then ""
    else if |members| == 1 then WriteMember(members[0])
    else WriteMember(members[0]) + "," + WriteMembers(members[1..])
  }

  function WriteMember(m: Member): string
    decreases m, 2
  {
    Quote(m.key) + ":" + Write(m.value)
  }

  // ---------------------------------------------------------------- reading strings

  function HexValue(c: char): Option<nat> {
    if '0' <= c <= '9' then Some(c as int - '0' as int)
    else if 'a' <= c <= 'f' then Some(c as int - 'a' as int + 10)
    else if 'A' <= c <= 'F' then Some(c as int - 'A' as int + 10)
    else None
  }

  /** The unit written as `\uXXXX` at the start of `s`. */
  function ReadUnit(s: string): (u: Option<nat>)
    ensures u.Some? ==> |s| >= 6 && u.value < 0x1_0000
  {
    if |s| < 6 || s[0] != '\\' || s[1] != 'u' then None
    else
      var a, b, c, d := HexValue(s[2]), HexValue(s[3]), HexValue(s[4]), HexValue(s[5]);
      if a.None? || b.None? || c.None? || d.None? then None
      else
        assert a.value < 16 && b.value < 16 && c.value < 16 && d.value < 16;
        Some(a.value * 0x1000 + b.value * 0x100 + c.value * 16 + d.value)
  }

  datatype Piece = Piece(c: char, length: nat)

  function ReadShortEscape(c: char): Option<char> {
    if c == '"' || c == '\\' || c == '/' then Some(c)
    else if c == 'b' then Some('\U{08}')
    else if c == 'f' then Some('\U{0C}')
    else if c == 'n' then Some('\n')
    else if c == 'r' then Some('\r')
    else if c == 't' then Some('\t')
    else None
  }

  /** The first character of a string's text, and how much of the text it takes; two surrogate units
      make one character, and a lone one makes none. */
  function ReadPiece(s: string): (p: Option<Piece>)
    ensures p.Some? ==> 0 < p.value.length <= |s|
  {
    if s == "" then None
    else if s[0] != '\\' then Some(Piece(s[0], 1))
    else if |s| == 1 then None
    else if s[1] != 'u' then
      match ReadShortEscape(s[1])
      case Some(c) => Some(Piece(c, 2))
      case None => None
    else
      match ReadUnit(s)
      case None => None
      case Some(u) =>
        if u < 0xD800 || 0xE000 <= u then Some(Piece(u as char, 6))
        else if 0xDC00 <= u then None
        else
          match ReadUnit(s[6..])
          case None => None
          case Some(l) =>
            if 0xDC00 <= l < 0xE000
            then Some(Piece((0x1_0000 + (u - 0xD800) * 0x400 + (l - 0xDC00)) as char, 12))
            else None
  }

  datatype Read<T> = Ok(value: T, rest: string) | Bad

  /** The text of a string up to its closing quote. */
  function ReadString(s: string): (r: Read<string>)
    ensures r.Ok? ==> |r.rest| < |s|
  {
    if s == "" then Bad
    else if s[0] == '"' then Ok("", s[1..])
    else
      match ReadPiece(s)
      case None => Bad
      case Some(p) =>
        match ReadString(s[p.length..])
        case Bad => Bad
        case Ok(t, rest) => Ok([p.c] + t, rest)
  }

  // ---------------------------------------------------------------- reading values

  predicate StartsWith(s: string, prefix: string) {
    |prefix| <= |s| && s[..|prefix|] == prefix
  }

  /** The digits at the start of a text, their value, the length of the fraction and the exponent after them, and
      what follows. */
  datatype Shape = Shape(digits: nat, value: int, fraction: nat, exponent: nat, rest: string)

  function ShapeOf(s: string): (shape: Shape)
    ensures |shape.rest| + shape.digits <= |s|
  {
    var n := DigitRun(s);
    var tail := s[n..];
    var f := FractionLength(tail);
    var e := ExponentLength(tail[f..]);
    Shape(n, DigitsValue(s[..n]), f, e, tail[f..][e..])
  }

  /** The number at the start of `s`, unless its fraction or its exponent is cut short. */
  function ReadNumber(s: string): (r: Read<Value>)
    ensures r.Ok? ==> |r.rest| < |s|
  {
    var negative := s != "" && s[0] == '-';
    var shape := ShapeOf(if negative then s[1..] else s);
    if shape.digits == 0 || CutShort(shape.fraction, shape.exponent, shape.rest) then Bad
    else
      var n := if negative then -shape.value else shape.value;
      var whole := shape.fraction == 0 && shape.exponent == 0 && IsInteger(n);
      Ok(if whole then Number(n) else Real(s[..|s| - |shape.rest|]), shape.rest)
  }

  predicate CutShort(fraction: nat, exponent: nat, rest: string) {
    && exponent == 0 && rest != ""
    && (rest[0] == 'e' || rest[0] == 'E' || (rest[0] == '.' && fraction == 0))
  }

  function ReadValue(input: string): (r: Read<Value>)
    ensures r.Ok? ==> |r.rest| < |input|
    decreases |input|, 1
  {
    var s := SkipBlanks(input);
    if s == "" then Bad
    else if s[0] == '"' then
      match ReadString(s[1..])
      case Bad => Bad
      case Ok(t, rest) => Ok(String(t), rest)
    else if s[0] == '[' then
      var t := SkipBlanks(s[1..]);
      if t != "" && t[0] == ']' then Ok(Array([]), t[1..])
      else
        match ReadItems(t)
        case Bad => Bad
        case Ok(items, rest) => Ok(Array(items), rest)
    else if s[0] == '{' then
      var t := SkipBlanks(s[1..]);
      if t != "" && t[0] == '}' then Ok(Object([]), t[1..])
      else
        match ReadMembers(t, [])
        case Bad => Bad
        case Ok(members, rest) => Ok(Object(members), rest)
    else if StartsWith(s, "null") then Ok(Null, s[4..])
    else if StartsWith(s, "true") then Ok(Bool(true), s[4..])
    else if StartsWith(s, "false") then Ok(Bool(false), s[5..])
    else ReadNumber(s)
  }

  /** One item or more, and the closing bracket. */
  function ReadItems(s: string): (r: Read<seq<Value>>)
    ensures r.Ok? ==> |r.rest| < |s|
    decreases |s|, 2
  {
    match ReadValue(s)
    case Bad => Bad
    case Ok(v, rest) =>
      var t := SkipBlanks(rest);
      if t == "" then Bad
      else if t[0] == ']' then Ok([v], t[1..])
      else if t[0] == ',' then
        match ReadItems(t[1..])
        case Bad => Bad
        case Ok(vs, rest) => Ok([v] + vs, rest)
      else Bad
  }

  /** One member or more, put into `ms` in turn, and the closing brace. */
  function ReadMembers(input: string, ms: seq<Member>): (r: Read<seq<Member>>)
    ensures r.Ok? ==> |r.rest| < |input|
    decreases |input|, 2
  {
    var s := SkipBlanks(input);
    if s == "" || s[0] != '"' then Bad
    else
      match ReadString(s[1..])
      case Bad => Bad
      case Ok(key, rest) =>
        var t := SkipBlanks(rest);
        if t == "" || t[0] != ':' then Bad
        else
          match ReadValue(t[1..])
          case Bad => Bad
          case Ok(v, rest) =>
            var more := Put(ms, key, v);
            var u := SkipBlanks(rest);
            if u == "" then Bad
            else if u[0] == '}' then Ok(more, u[1..])
            else if u[0] == ',' then ReadMembers(u[1..], more)
            else Bad
  }

  /** The document at the start of a text; what follows it is ignored. */
  function Parse(text: string): Option<Value> {
    match ReadValue(text)
    case Bad => None
    case Ok(v, _) => Some(v)
  }

  // ---------------------------------------------------------------- reading back what was written

  lemma UnitReadsBack(n: nat, rest: string)
    requires n < 0x1_0000
    ensures ReadUnit(EscapeUnit(n) + rest) == Some(n)
    ensures (EscapeUnit(n) + rest)[6..] == rest
  {
    var s := EscapeUnit(n) + rest;
    assert s[0] == '\\' && s[1] == 'u';
    assert s[2] == HexDigit(n / 0x1000) && s[3] == HexDigit(n / 0x100 % 16);
    assert s[4] == HexDigit(n / 16 % 16) && s[5] == HexDigit(n % 16);
    HexReadsBack(n / 0x1000);
    HexReadsBack(n / 0x100 % 16);
    HexReadsBack(n / 16 % 16);
    HexReadsBack(n % 16);
    HexDigitsSum(n);
  }

  lemma HexReadsBack(d: nat)
    requires d < 16
    ensures HexValue(HexDigit(d)) == Some(d)
  {
  }

  lemma HexDigitsSum(n: nat)
    requires n < 0x1_0000
    ensures n / 0x1000 * 0x1000 + n / 0x100 % 16 * 0x100 + n / 16 % 16 * 16 + n % 16 == n
  {
    assert n / 0x100 == n / 16 / 16 && n / 0x1000 == n / 0x100 / 16;
  }

  /** Each character comes back from its escape, and the escape does not look like a closing quote. */
  lemma PieceReadsBack(c: char, rest: string)
    ensures EscapeChar(c) != "" && EscapeChar(c)[0] != '"'
    ensures ReadPiece(EscapeChar(c) + rest) == Some(Piece(c, |EscapeChar(c)|))
  {
    var e := EscapeChar(c);
    var s := e + rest;
    if c == '"' || c == '\\' || c == '\U{08}' || c == '\U{0C}' || c == '\n' || c == '\r' || c == '\t' {
      hide EscapeUnit, ReadUnit;
      assert s[0] == e[0] && s[1] == e[1];
    } else if ' ' <= c < '\U{80}' {
      hide EscapeUnit, ReadUnit;
      assert s[0] == c;
    } else if c as int < 0x1_0000 {
      hide ReadUnit;
      UnitReadsBack(c as int, rest);
      assert s[0] == e[0] && s[1] == e[1];
    } else {
      hide ReadUnit;
      SurrogatesReadBack(c, rest);
    }
  }

  lemma SurrogatesReadBack(c: char, rest: string)
    requires c as int >= 0x1_0000
    ensures |EscapeChar(c)| == 12 && EscapeChar(c)[0] == '\\'
    ensures ReadPiece(EscapeChar(c) + rest) == Some(Piece(c, 12))
  {
    hide ReadUnit;
    var s := EscapeChar(c) + rest;
    var n := c as int - 0x1_0000;
    var high, low := 0xD800 + n / 0x400, 0xDC00 + n % 0x400;
    UnitReadsBack(high, EscapeUnit(low) + rest);
    UnitReadsBack(low, rest);
    assert s == EscapeUnit(high) + (EscapeUnit(low) + rest);
    assert s[0] == '\\' && s[1] == 'u';
  }

  /** Strings come back from their quoted form, control characters and all. */
  lemma {:induction false} StringReadsBack(s: string, rest: string)
    ensures ReadString(Escape(s) + "\"" + rest) == Ok(s, rest)
  {
    hide EscapeChar, ReadPiece;
    if s == "" {
      assert (Escape(s) + "\"" + rest)[1..] == rest;
    } else {
      var tail := Escape(s[1..]) + "\"" + rest;
      var e := EscapeChar(s[0]);
      PieceReadsBack(s[0], tail);
      assert Escape(s) + "\"" + rest == e + tail;
      assert (e + tail)[0] == e[0];
      assert (e + tail)[|e|..] == tail;
      StringReadsBack(s[1..], rest);
      assert [s[0]] + s[1..] == s;
    }
  }

  /** `rest` cannot be taken for more of a number. */
  predicate Stops(rest: string) {
    rest == "" || (!IsDigit(rest[0]) && rest[0] != '.' && rest[0] != 'e' && rest[0] != 'E')
  }

  lemma NumberReadsBack(n: int, rest: string)
    requires Stops(rest) && IsInteger(n)
    ensures ReadNumber(IntToString(n) + rest) == Ok(Number(n), rest)
  {
    hide ReadNumber, DigitRun, DigitsValue, NatToString, IsInteger;
    var v := if n < 0 then -n else n;
    var d := NatToString(v);
    NatReadsBackBefore(v, rest);
    if n < 0 {
      AfterSign("-" + d, d, rest);
      SignAndDigits("-" + d + rest, d, n, rest);
    } else {
      assert (d + rest)[0] == d[0];
      SignAndDigits(d + rest, d, n, rest);
    }
  }

  lemma AfterSign(text: string, d: string, rest: string)
    requires text == "-" + d
    ensures (text + rest)[0] == '-' && (text + rest)[1..] == d + rest
  {
  }

  lemma SignAndDigits(s: string, d: string, n: int, rest: string)
    requires s != "" && d != "" && (if s[0] == '-' then s[1..] else s) == d + rest
    requires (forall k :: 0 <= k < |d| ==> IsDigit(d[k])) && DigitRun(d + rest) == |d|
    requires DigitsValue(d) == if s[0] == '-' then -n else n
    requires IsInteger(n) && Stops(rest)
    ensures ReadNumber(s) == Ok(Number(n), rest)
  {
    hide DigitRun, DigitsValue, FractionLength, ExponentLength, CutShort, IsInteger;
    NoMoreNumber(rest);
    assert rest[0..] == rest;
    assert (d + rest)[..|d|] == d && (d + rest)[|d|..] == rest;
  }

  lemma NoMoreNumber(rest: string)
    requires Stops(rest)
    ensures FractionLength(rest) == 0 && ExponentLength(rest) == 0 && !CutShort(0, 0, rest)
  {
  }

  lemma NatReadsBackBefore(n: nat, rest: string)
    requires rest == "" || !IsDigit(rest[0])
    ensures var d := NatToString(n);
      && IsDigit(d[0]) && DigitRun(d + rest) == |d|
      && (d + rest)[..|d|] == d && (d + rest)[|d|..] == rest && DigitsValue(d) == n
  {
    DigitRunOfNat(n, rest);
    DigitsValueOfNat(n);
  }

  /** What a written value can start with. */
  predicate Opens(c: char) {
    c == '"' || c == '[' || c == '{' || c == 'n' || c == 't' || c == 'f' || c == '-' || IsDigit(c)
  }

  lemma WriteOpens(v: Value)
    requires !v.Real?
    ensures Write(v) != "" && Opens(Write(v)[0])
  {
    if v.Number? {
      var digits := NatToString(if v.n < 0 then -v.n else v.n);
      assert IsDigit(digits[0]);
    }
  }

  lemma WriteMemberOpens(m: Member)
    ensures WriteMember(m) != "" && WriteMember(m)[0] == '"'
  {
  }

  lemma NothingToSkip(s: string)
    requires s == "" || !IsBlank(s[0])
    ensures SkipBlanks(s) == s
  {
  }

  /** Reading is a left inverse of writing, and stops exactly at the end of what was written. */
  lemma {:induction false} ValueReadsBack(v: Value, rest: string)
    requires WellFormed(v) && Stops(rest)
    ensures ReadValue(Write(v) + rest) == Ok(v, rest)
    decreases v, 1
  {
    hide ReadString, ReadNumber, ReadItems, ReadMembers, SkipBlanks, Escape, WriteItems, WriteMembers;
    var s := Write(v) + rest;
    WriteOpens(v);
    assert s[0] == Write(v)[0];
    NothingToSkip(s);
    match v {
      case Null =>
        assert s[..4] == "null" && s[4..] == rest;
      case Bool(b) =>
        if b {
          assert s[..4] == "true" && s[4..] == rest;
        } else {
          assert s[..5] == "false" && s[5..] == rest;
        }
      case Number(n) =>
        NumberReadsBack(n, rest);
        NotAWord(s);
      case String(t) =>
        assert s[1..] == Escape(t) + "\"" + rest;
        StringReadsBack(t, rest);
      case Array(items) =>
        ArrayReadsBack(items, rest);
      case Object(members) =>
        ObjectReadsBack(members, rest);
    }
  }

  lemma NotAWord(s: string)
    requires s != "" && s[0] != 'n' && s[0] != 't' && s[0] != 'f'
    ensures !StartsWith(s, "null") && !StartsWith(s, "true") && !StartsWith(s, "false")
  {
    if |s| >= 4 {
      assert s[..4][0] == s[0];
    }
    if |s| >= 5 {
      assert s[..5][0] == s[0];
    }
  }

  lemma {:induction false} ArrayReadsBack(items: seq<Value>, rest: string)
    requires forall i :: 0 <= i < |items| ==> WellFormed(items[i])
    ensures ReadValue("[" + WriteItems(items) + "]" + rest) == Ok(Array(items), rest)
    decreases items, 2
  {
    hide ReadString, ReadNumber, StartsWith, ReadMembers, SkipBlanks, Write;
    var s := "[" + WriteItems(items) + "]" + rest;
    var t := WriteItems(items) + "]" + rest;
    assert s[0] == '[' && s[1..] == t;
    NothingToSkip(s);
    if items == [] {
      assert t[0] == ']' && t[1..] == rest;
      NothingToSkip(t);
    } else {
      WriteOpens(items[0]);
      assert t[0] == Write(items[0])[0];
      NothingToSkip(t);
      ItemsReadBack(items, rest);
    }
  }

  lemma {:induction false} ItemsReadBack(items: seq<Value>, rest: string)
    requires items != [] && forall i :: 0 <= i < |items| ==> WellFormed(items[i])
    ensures ReadItems(WriteItems(items) + "]" + rest) == Ok(items, rest)
    decreases items, 0
  {
    hide ReadValue, Write, WellFormed, SkipBlanks;
    var s := WriteItems(items) + "]" + rest;
    var after := if |items| == 1 then "]" + rest else "," + (WriteItems(items[1..]) + "]" + rest);
    assert s == Write(items[0]) + after;
    ValueReadsBack(items[0], after);
    NothingToSkip(after);
    if |items| == 1 {
      assert after[1..] == rest;
      assert [items[0]] == items;
    } else {
      assert after[1..] == WriteItems(items[1..]) + "]" + rest;
      ItemsReadBack(items[1..], rest);
      assert [items[0]] + items[1..] == items;
    }
  }

  lemma {:induction false} ObjectReadsBack(members: seq<Member>, rest: string)
    requires Sorted(members) && forall i :: 0 <= i < |members| ==> WellFormed(members[i].value)
    ensures ReadValue("{" + WriteMembers(members) + "}" + rest) == Ok(Object(members), rest)
    decreases members, 2
  {
    hide ReadString, ReadNumber, StartsWith, ReadItems, SkipBlanks, WriteMember, WellFormed, Sorted;
    var s := "{" + WriteMembers(members) + "}" + rest;
    var t := WriteMembers(members) + "}" + rest;
    assert s[0] == '{' && s[1..] == t;
    NothingToSkip(s);
    if members == [] {
      assert t[0] == '}' && t[1..] == rest;
      NothingToSkip(t);
    } else {
      WriteMemberOpens(members[0]);
      assert t[0] == WriteMember(members[0])[0];
      NothingToSkip(t);
      assert [] + members == members;
      MembersReadBack(members, [], rest);
    }
  }

  lemma {:induction false} MembersReadBack(members: seq<Member>, before: seq<Member>, rest: string)
    requires members != [] && Sorted(before + members)
    requires forall i :: 0 <= i < |members| ==> WellFormed(members[i].value)
    ensures ReadMembers(WriteMembers(members) + "}" + rest, before) == Ok(before + members, rest)
    decreases members, 0
  {
    hide ReadString, ReadValue, WriteMember, Escape, Put, WellFormed, Sorted;
    var m := members[0];
    var s := WriteMembers(members) + "}" + rest;
    var after := if |members| == 1 then "}" + rest else "," + (WriteMembers(members[1..]) + "}" + rest);
    assert s == WriteMember(m) + after;
    MemberReadsBack(m, after);
    NothingToSkip(after);
    var more := before + [m];
    assert before + members == more + members[1..];
    SortedPrefix(more, members[1..]);
    PutLast(before, m);
    if |members| == 1 {
      assert after[1..] == rest;
      assert before + members == more;
    } else {
      assert after[1..] == WriteMembers(members[1..]) + "}" + rest;
      MembersReadBack(members[1..], more, rest);
    }
  }

  /** The reader's steps on one member. */
  lemma {:induction false} MemberReadsBack(m: Member, after: string)
    requires WellFormed(m.value) && Stops(after)
    ensures var s := WriteMember(m) + after;
      var colon := ":" + (Write(m.value) + after);
      && SkipBlanks(s) == s && s != "" && s[0] == '"'
      && ReadString(s[1..]) == Ok(m.key, colon)
      && SkipBlanks(colon) == colon && colon[0] == ':'
      && ReadValue(colon[1..]) == Ok(m.value, after)
    decreases m, 2
  {
    hide ReadString, ReadValue, Write, Escape, WellFormed, SkipBlanks;
    var s := WriteMember(m) + after;
    var colon := ":" + (Write(m.value) + after);
    assert s[0] == '"' && s[1..] == Escape(m.key) + "\"" + colon;
    NothingToSkip(s);
    StringReadsBack(m.key, colon);
    NothingToSkip(colon);
    assert colon[1..] == Write(m.value) + after;
    ValueReadsBack(m.value, after);
  }

  lemma ParseReadsBack(v: Value)
    requires WellFormed(v)
    ensures Parse(Write(v)) == Some(v)
  {
    ValueReadsBack(v, "");
    assert Write(v) + "" == Write(v);
  }

  /** Blanks before a value are skipped. */
  lemma BlanksBefore(blanks: string, v: Value, rest: string)
    requires AllBlank(blanks) && WellFormed(v) && Stops(rest)
    ensures ReadValue(blanks + Write(v) + rest) == Ok(v, rest)
  {
    var s := Write(v) + rest;
    WriteOpens(v);
    assert s[0] == Write(v)[0];
    BlanksAreSkipped(blanks, s);
    NothingToSkip(s);
    ValueReadsBack(v, rest);
    assert blanks + Write(v) + rest == blanks + s;
    hide SkipBlanks, ReadString, ReadNumber, ReadItems, ReadMembers, Write, StartsWith;
    assert ReadValue(blanks + s) == ReadValue(s);
  }

  lemma {:induction false} BlanksAreSkipped(blanks: string, s: string)
    requires AllBlank(blanks) && (s == "" || !IsBlank(s[0]))
    ensures SkipBlanks(blanks + s) == s
  {
    if blanks == "" {
      assert blanks + s == s;
    } else {
      BlanksAreSkipped(blanks[1..], s);
      assert (blanks + s)[1..] == blanks[1..] + s;
    }
  }

  /** The two-character escapes of section 7 of RFC 8259, and no others. */
  lemma ShortEscapes(c: char, rest: string)
    requires c != 'u'
    ensures var piece := ReadPiece(['\\', c] + rest);
      match c
      case '"' => piece == Some(Piece('"', 2))
      case '\\' => piece == Some(Piece('\\', 2))
      case '/' => piece == Some(Piece('/', 2))
      case 'b' => piece == Some(Piece('\U{08}', 2))
      case 'f' => piece == Some(Piece('\U{0C}', 2))
      case 'n' => piece == Some(Piece('\n', 2))
      case 'r' => piece == Some(Piece('\r', 2))
      case 't' => piece == Some(Piece('\t', 2))
      case _ => piece == None
  {
  }

  // ---------------------------------------------------------------- the text is one printable line

  /** Printable ASCII: in particular neither a newline nor a NUL. */
  predicate Printable(s: string) {
    forall i :: 0 <= i < |s| ==> ' ' <= s[i] <= '\U{7F}'
  }

  lemma EscapePrintable(s: string)
    ensures Printable(Escape(s))
  {
    if s != "" {
      EscapeCharPrintable(s[0]);
      EscapePrintable(s[1..]);
    }
  }

  lemma EscapeCharPrintable(c: char)
    ensures Printable(EscapeChar(c))
  {
  }

  lemma {:induction false} WritePrintable(v: Value)
    requires WellFormed(v)
    ensures Printable(Write(v))
    decreases v, 1
  {
    match v {
      case Null => assert Printable("null");
      case Bool(b) => assert Printable("true") && Printable("false");
      case Number(n) =>
        var digits := NatToString(if n < 0 then -n else n);
        assert forall i :: 0 <= i < |digits| ==> IsDigit(digits[i]);
      case String(s) => EscapePrintable(s);
      case Array(items) => WriteItemsPrintable(items);
      case Object(members) => WriteMembersPrintable(members);
    }
  }

  lemma {:induction false} WriteItemsPrintable(items: seq<Value>)
    requires forall i :: 0 <= i < |items| ==> WellFormed(items[i])
    ensures Printable(WriteItems(items))
    decreases items, 0
  {
    if items != [] {
      WritePrintable(items[0]);
      WriteItemsPrintable(items[1..]);
    }
  }

  lemma {:induction false} WriteMembersPrintable(members: seq<Member>)
    requires forall i :: 0 <= i < |members| ==> WellFormed(members[i].value)
    ensures Printable(WriteMembers(members))
    decreases members, 0
  {
    if members != [] {
      EscapePrintable(members[0].key);
      WritePrintable(members[0].value);
      WriteMembersPrintable(members[1..]);
    }
  }

  // ---------------------------------------------------------------- the library

  /** How deep jsoncpp's reader goes before it throws. */
  const STACK_LIMIT := 1000

  /** No value is nested more than `depth` deep. */
  predicate Shallow(v: Value, depth: nat) {
    && depth > 0
    && match v
       case Array(items) => forall i :: 0 <= i < |items| ==> Shallow(items[i], depth - 1)
       case Object(members) => forall i :: 0 <= i < |members| ==> Shallow(members[i].value, depth - 1)
       case _ => true
  }

  predicate AllFinite(v: Value) {
    match v
    case Real(text) => IsFinite(text)
    case Array(items) => forall i :: 0 <= i < |items| ==> AllFinite(items[i])
    case Object(members) => forall i :: 0 <= i < |members| ==> AllFinite(members[i].value)
    case _ => true
  }

  /** What the reader makes of a text: it rejects it with a message, finds a value, or throws. */
  datatype Reading = Rejected(errors: string) | Found(root: Value) | StackExceeded

  /** jsoncpp: its reader, and what a floating-point number becomes as a text and as a 32-bit id. */
  datatype Library = Library(read: string -> Reading, realText: string -> string, realId: string -> uint32)

  function Standard(text: string): Reading {
    match Parse(text)
    case None => Rejected("")
    case Some(root) => if Shallow(root, STACK_LIMIT) then Found(root) else StackExceeded
  }

  /** The library reads the texts of RFC 8259 as they are, up to its limits. What it makes of comments, trailing
      commas, lone surrogates, numbers that overflow and everything else is its own affair. */
  ghost predicate Conforms(lib: Library) {
    forall text :: Parse(text).Some? && AllFinite(Parse(text).value) ==> lib.read(text) == Standard(text)
  }

  /** There is such a library. */
  lemma SomeLibraryConforms()
    ensures exists lib :: Conforms(lib)
  {
    var lib := Library(Standard, text => text, text => 0);
    assert Conforms(lib);
  }

  lemma {:induction false} DeeperIsShallow(v: Value, depth: nat, more: nat)
    requires Shallow(v, depth) && depth <= more
    ensures Shallow(v, more)
  {
    match v {
      case Array(items) =>
        forall i | 0 <= i < |items| ensures Shallow(items[i], more - 1) {
          DeeperIsShallow(items[i], depth - 1, more - 1);
        }
      case Object(members) =>
        forall i | 0 <= i < |members| ensures Shallow(members[i].value, more - 1) {
          DeeperIsShallow(members[i].value, depth - 1, more - 1);
        }
      case _ =>
    }
  }

  function Decimal(n: nat, f: nat): string {
    NatToString(n) + "." + NatToString(f)
  }

  /** Decimals are read as far as they go. */
  lemma DecimalReadsBack(n: nat, f: nat, rest: string)
    requires Stops(rest)
    ensures ReadNumber(Decimal(n, f) + rest) == Ok(Real(Decimal(n, f)), rest)
  {
    hide DigitRun, DigitsValue, NatToString, FractionLength, ExponentLength, Decimal;
    DecimalParts(n, f, rest);
    FractionParts(f, rest);
    assert rest[0..] == rest;
  }

  /** They have the value that they show. */
  lemma DecimalValue(n: nat, f: nat)
    ensures Exact(Decimal(n, f)) == n as real + f as real / Pow(10.0, |NatToString(f)|)
  {
    hide DigitRun, DigitsValue, NatToString, FractionLength, ExponentLength, Scaled, Pow;
    MagnitudeOf(n, f, "");
    NotScaled();
    DecimalOpens(n, f);
    assert Decimal(n, f) + "" == Decimal(n, f);
    hide Decimal, Magnitude;
  }

  lemma NotScaled()
    ensures forall value :: Scaled(value, "") == value
  {
  }

  lemma DecimalParts(n: nat, f: nat, rest: string)
    ensures var s, d := Decimal(n, f) + rest, NatToString(n);
      && d != "" && s[0] != '-' && DigitRun(s) == |d| && s[..|d|] == d && DigitsValue(d) == n
      && s[|d|..] == "." + NatToString(f) + rest && s[..|s| - |rest|] == Decimal(n, f)
  {
    hide DigitRun, DigitsValue, NatToString;
    var d := NatToString(n);
    var tail := "." + NatToString(f) + rest;
    NatReadsBackBefore(n, tail);
    assert Decimal(n, f) + rest == d + tail;
    assert (d + tail)[0] == d[0];
  }

  lemma FractionParts(f: nat, rest: string)
    requires Stops(rest)
    ensures var e := NatToString(f);
      var tail := "." + e + rest;
      && FractionLength(tail) == 1 + |e| && tail[1..1 + |e|] == e && tail[1 + |e|..] == rest
      && ExponentLength(rest) == 0 && DigitsValue(e) == f
  {
    hide DigitRun, DigitsValue, NatToString;
    NatReadsBackBefore(f, rest);
    assert ("." + NatToString(f) + rest)[1..] == NatToString(f) + rest;
  }

  /** An exponent moves the decimal point up or down. */
  lemma ScientificValue(n: nat, f: nat, sign: string, k: nat)
    requires sign == "" || sign == "+" || sign == "-"
    ensures Exact(Decimal(n, f) + ("e" + sign + NatToString(k))) == Shifted(Exact(Decimal(n, f)), sign != "-", k)
  {
    var rest := "e" + sign + NatToString(k);
    assert rest[0] == 'e';
    ScaledByExponent(Exact(Decimal(n, f)), sign, k);
    DecimalOpens(n, f);
    assert (Decimal(n, f) + rest)[0] == Decimal(n, f)[0];
    hide Magnitude, Decimal, NatToString, Scaled, Shifted;
    ScaledMagnitude(n, f, rest);
  }

  /** One place up is ten times, and one place down a tenth. */
  lemma OnePlace(value: real)
    ensures Shifted(value, true, 1) == 10.0 * value && Shifted(value, false, 1) == value / 10.0
  {
    PowOne(10.0);
    hide Pow;
  }

  lemma ScaledMagnitude(n: nat, f: nat, rest: string)
    requires rest == "" || !IsDigit(rest[0])
    ensures Magnitude(Decimal(n, f) + rest) == Scaled(Exact(Decimal(n, f)), rest)
  {
    hide Magnitude, Decimal, NatToString, Scaled, Pow, Exact;
    MagnitudeOf(n, f, rest);
    DecimalValue(n, f);
  }

  lemma MagnitudeOf(n: nat, f: nat, rest: string)
    requires rest == "" || !IsDigit(rest[0])
    ensures Magnitude(Decimal(n, f) + rest)
         == Scaled(n as real + f as real / Pow(10.0, |NatToString(f)|), rest)
  {
    hide DigitRun, DigitsValue, NatToString, FractionLength, Scaled, Pow;
    DecimalParts(n, f, rest);
    FractionBefore(f, rest);
    hide Decimal;
  }

  lemma ScaledByExponent(value: real, sign: string, k: nat)
    requires sign == "" || sign == "+" || sign == "-"
    ensures Scaled(value, "e" + sign + NatToString(k)) == Shifted(value, sign != "-", k)
  {
    var digits := NatToString(k);
    var exponent := "e" + sign + digits;
    NatReadsBack(k);
    assert exponent[1] == if sign == "" then digits[0] else sign[0];
    assert exponent[1 + |sign|..] == digits;
    hide DigitRun, DigitsValue, NatToString, Shifted;
  }

  lemma FractionBefore(f: nat, rest: string)
    requires rest == "" || !IsDigit(rest[0])
    ensures var e := NatToString(f);
      var tail := "." + e + rest;
      && FractionLength(tail) == 1 + |e| && tail[1..1 + |e|] == e && tail[1 + |e|..] == rest && DigitsValue(e) == f
  {
    hide DigitRun, DigitsValue, NatToString;
    NatReadsBackBefore(f, rest);
    assert ("." + NatToString(f) + rest)[1..] == NatToString(f) + rest;
  }

  lemma NegativeValue(text: string)
    requires text != "" && text[0] != '-'
    ensures Exact("-" + text) == -Exact(text)
  {
    assert ("-" + text)[1..] == text;
    hide Magnitude;
  }

  lemma DecimalInArray(n: nat, f: nat)
    ensures Parse("[" + Decimal(n, f) + "]") == Some(Array([Real(Decimal(n, f))]))
  {
    hide ReadItems, ReadMembers, ReadNumber, ReadString, Decimal, SkipBlanks;
    var s := Decimal(n, f) + "]";
    var line := "[" + Decimal(n, f) + "]";
    DecimalAsItem(n, f);
    DecimalOpens(n, f);
    NothingToSkip(line);
    NothingToSkip(s);
    assert line[0] == '[' && line[1..] == s && s[0] == Decimal(n, f)[0];
  }

  lemma DecimalAsItem(n: nat, f: nat)
    ensures ReadItems(Decimal(n, f) + "]") == Ok([Real(Decimal(n, f))], "")
  {
    hide ReadValue, Decimal, SkipBlanks;
    DecimalAsValue(n, f);
    NothingToSkip("]");
    assert "]"[1..] == "";
  }

  lemma DecimalAsValue(n: nat, f: nat)
    ensures ReadValue(Decimal(n, f) + "]") == Ok(Real(Decimal(n, f)), "]")
  {
    hide ReadValue, ReadNumber, Decimal;
    DecimalReadsBack(n, f, "]");
    DecimalOpens(n, f);
    DigitStartsNumber(Decimal(n, f) + "]");
  }

  lemma DigitStartsNumber(s: string)
    requires s != "" && IsDigit(s[0])
    ensures ReadValue(s) == ReadNumber(s)
  {
    hide ReadItems, ReadMembers, ReadNumber, ReadString, SkipBlanks, StartsWith;
    NothingToSkip(s);
    NotAWord(s);
  }

  lemma DecimalOpens(n: nat, f: nat)
    ensures Decimal(n, f) != "" && IsDigit(Decimal(n, f)[0])
  {
    assert Decimal(n, f)[0] == NatToString(n)[0];
  }

  /** An ordinary number does not overflow. */
  lemma OneAndAHalfIsFinite()
    ensures Decimal(1, 5) == "1.5" && IsFinite("1.5")
  {
    hide Exact, Pow, NatToString;
    OneAndFive();
    DecimalValue(1, 5);
    PowOne(10.0);
    assert Decimal(1, 5) == "1.5" && |NatToString(5)| == 1;
    assert Exact("1.5") == 1.5;
    TwoToTheLast(970, 1024);
  }

  lemma OneAndFive()
    ensures NatToString(1) == "1" && NatToString(5) == "5"
  {
  }

  lemma PowOne(base: real)
    requires base >= 1.0
    ensures Pow(base, 1) == base
  {
  }

  lemma {:induction false} TwoToTheLast(m: nat, n: nat)
    requires m + 2 <= n
    ensures Pow(2.0, n) - Pow(2.0, m) >= 3.0
  {
    if m + 2 < n {
      TwoToTheLast(m, n - 1);
    } else {
      assert Pow(2.0, n) == 2.0 * Pow(2.0, n - 1) && Pow(2.0, n - 1) == 2.0 * Pow(2.0, m);
    }
  }

  lemma {:induction false} WellFormedIsFinite(v: Value)
    requires WellFormed(v)
    ensures AllFinite(v)
  {
    match v {
      case Array(items) =>
        forall i | 0 <= i < |items| ensures AllFinite(items[i]) {
          WellFormedIsFinite(items[i]);
        }
      case Object(members) =>
        forall i | 0 <= i < |members| ensures AllFinite(members[i].value) {
          WellFormedIsFinite(members[i].value);
        }
      case _ =>
    }
  }

  /** Whatever else the library does, it reads what was written. */
  lemma LibraryReadsBack(lib: Library, v: Value)
    requires Conforms(lib) && WellFormed(v) && Shallow(v, STACK_LIMIT)
    ensures lib.read(Write(v)) == Found(v)
  {
    hide Parse, Write, WellFormed, AllFinite, Shallow;
    ParseReadsBack(v);
    WellFormedIsFinite(v);
  }
}
