/** Strings as the C++ sources handle them: trimming, `find`, `std::getline`, and decimal integers. */
module Text {

  datatype Option<+T> = None | Some(value: T) {
    function GetOr(default: T): T {
      match this
      case Some(v) => v
      case None => default
    }
  }

  /** A C++ `int` on the platforms the daemon targets. */
  type int32 = x: int | -0x8000_0000 <= x < 0x8000_0000

  /** `uid_t` and `gid_t`. */
  type uint32 = x: int | 0 <= x < 0x1_0000_0000

  // ---------------------------------------------------------------- trimming

  predicate IsBlank(c: char) {
    c == ' ' || c == '\t' || c == '\r' || c == '\n'
  }

  predicate Trimmed(s: string) {
    s == "" || (!IsBlank(s[0]) && !IsBlank(s[|s| - 1]))
  }

  function SkipBlanks(s: string): (r: string)
    ensures |r| <= |s|
  {
    if s != "" && IsBlank(s[0]) then SkipBlanks(s[1..]) else s
  }

  function DropTrailingBlanks(s: string): (r: string)
    ensures |r| <= |s|
  {
    if s != "" && IsBlank(s[|s| - 1]) then DropTrailingBlanks(s[..|s| - 1]) else s
  }

  /** The text between the first and the last non-blank character. */
  function Trim(s: string): string {
    DropTrailingBlanks(SkipBlanks(s))
  }

  /** `r` sits in `s` from position `from` on, with nothing but blanks around it. */
  ghost predicate BlanksAround(s: string, r: string, from: nat) {
    && from + |r| <= |s|
    && r == s[from..from + |r|]
    && forall k :: 0 <= k < from || from + |r| <= k < |s| ==> IsBlank(s[k])
  }

  lemma {:induction false} SkipBlanksSpec(s: string)
    ensures var r := SkipBlanks(s);
      && r == s[|s| - |r|..]
      && (forall k :: 0 <= k < |s| - |r| ==> IsBlank(s[k]))
      && (r == "" || !IsBlank(r[0]))
  {
    if s != "" && IsBlank(s[0]) {
      SkipBlanksSpec(s[1..]);
      var r := SkipBlanks(s[1..]);
      assert forall k :: 0 < k < |s| - |r| ==> s[k] == s[1..][k - 1];
    }
  }

  lemma {:induction false} DropTrailingBlanksSpec(s: string)
    ensures var r := DropTrailingBlanks(s);
      && r == s[..|r|]
      && (forall k :: |r| <= k < |s| ==> IsBlank(s[k]))
      && (r == "" || !IsBlank(r[|r| - 1]))
  {
    if s != "" && IsBlank(s[|s| - 1]) {
      DropTrailingBlanksSpec(s[..|s| - 1]);
      var r := DropTrailingBlanks(s[..|s| - 1]);
      assert forall k :: |r| <= k < |s| - 1 ==> s[k] == s[..|s| - 1][k];
    }
  }

  /** `Trim` removes blanks, from the two ends, and nothing else. */
  lemma TrimSpec(s: string) returns (from: nat)
    ensures Trimmed(Trim(s))
    ensures BlanksAround(s, Trim(s), from)
  {
    var t := SkipBlanks(s);
    var r := Trim(s);
    SkipBlanksSpec(s);
    DropTrailingBlanksSpec(t);
    hide SkipBlanks, DropTrailingBlanks, IsBlank;
    from := |s| - |t|;
    assert forall k :: from + |r| <= k < |s| ==> s[k] == t[k - from];
  }

  ghost predicate AllBlank(s: string) {
    forall k :: 0 <= k < |s| ==> IsBlank(s[k])
  }

  /** `line` is what is left of `raw` without the blanks at its two ends. */
  ghost predicate IsTrimOf(raw: string, line: string) {
    && Trimmed(line)
    && exists before, after :: AllBlank(before) && AllBlank(after) && raw == before + line + after
  }

  /** There is just one such text, and `Trim` finds it. */
  lemma TrimExactly(raw: string, line: string)
    ensures Trim(raw) == line <==> IsTrimOf(raw, line)
  {
    hide Trim;
    var from := TrimSpec(raw);
    var r := Trim(raw);
    var before, after := raw[..from], raw[from + |r|..];
    assert raw == before + r + after;
    assert AllBlank(before) && AllBlank(after);
    if IsTrimOf(raw, line) {
      var b, a :| AllBlank(b) && AllBlank(a) && raw == b + line + a;
      OneCore(before, r, after, b, line, a);
    }
  }

  lemma OneCore(b: string, r: string, a: string, c: string, s: string, d: string)
    requires AllBlank(b) && AllBlank(a) && AllBlank(c) && AllBlank(d)
    requires Trimmed(r) && Trimmed(s) && b + r + a == c + s + d
    ensures r == s
  {
    hide IsBlank;
    var raw := b + r + a;
    if r != "" {
      assert raw[|b|] == r[0] && raw[|b| + |r| - 1] == r[|r| - 1];
      assert forall k :: 0 <= k < |c| ==> raw[k] == c[k];
      assert forall k :: |c| + |s| <= k < |raw| ==> raw[k] == d[k - |c| - |s|];
      assert |c| <= |b| && |b| + |r| <= |c| + |s|;
    }
    if s != "" {
      assert raw[|c|] == s[0] && raw[|c| + |s| - 1] == s[|s| - 1];
      assert forall k :: 0 <= k < |b| ==> raw[k] == b[k];
      assert forall k :: |b| + |r| <= k < |raw| ==> raw[k] == a[k - |b| - |r|];
      assert |b| <= |c| && |c| + |s| <= |b| + |r|;
    }
    assert r == raw[|b|..|b| + |r|] && s == raw[|c|..|c| + |s|];
  }

  /** Trimming leaves exactly the trimmed texts alone. */
  lemma TrimIdentity(s: string)
    ensures Trim(s) == s <==> Trimmed(s)
  {
    var from := TrimSpec(s);
  }

  /** A trimmed text keeps no character that was not there. */
  lemma TrimAvoids(s: string, c: char)
    requires c !in s
    ensures c !in Trim(s)
  {
    var from := TrimSpec(s);
  }

  // ---------------------------------------------------------------- searching

  /** `s.find(c)`, with `|s|` standing for `npos`. */
  function IndexOf(s: string, c: char): (i: nat)
    ensures i <= |s|
    ensures i < |s| ==> s[i] == c
  {
    if s == "" || s[0] == c then 0 else 1 + IndexOf(s[1..], c)
  }

  lemma {:induction false} IndexOfFirst(s: string, c: char)
    ensures c !in s[..IndexOf(s, c)]
    ensures IndexOf(s, c) == |s| <==> c !in s
  {
    if s != "" && s[0] != c {
      IndexOfFirst(s[1..], c);
      var i := IndexOf(s, c);
      assert s[..i] == [s[0]] + s[1..][..i - 1];
      assert s == [s[0]] + s[1..];
    }
  }

  /** Only the first occurrence is found. */
  lemma {:induction false} IndexOfPrefix(a: string, c: char, b: string)
    requires c !in a
    ensures IndexOf(a + [c] + b, c) == |a|
  {
    var s := a + [c] + b;
    if a == "" {
      assert s[0] == c;
    } else {
      IndexOfPrefix(a[1..], c, b);
      assert s[1..] == a[1..] + [c] + b;
      assert s[0] == a[0];
    }
  }

  // ---------------------------------------------------------------- lines

  /** What repeated `std::getline` delivers: a final line needs no newline, an empty rest is no line. */
  function Lines(s: string): seq<string> {
    if s == "" then []
    else
      var i := IndexOf(s, '\n');
      if i == |s| then [s] else [s[..i]] + Lines(s[i + 1..])
  }

  /** What one `std::getline` delivers, and what it leaves. */
  function LineOf(s: string): string { s[..IndexOf(s, '\n')] }

  function AfterLine(s: string): (r: string)
    requires s != ""
    ensures |r| < |s|
  {
    var i := IndexOf(s, '\n');
    if i == |s| then "" else s[i + 1..]
  }

  lemma LinesOneMore(s: string)
    requires s != ""
    ensures Lines(s) == [LineOf(s)] + Lines(AfterLine(s))
  {
    if IndexOf(s, '\n') == |s| {
      assert s[..|s|] == s;
      assert [s] + [] == [s];
    }
  }

  lemma {:induction false} LinesHaveNoNewline(s: string)
    ensures forall k :: 0 <= k < |Lines(s)| ==> '\n' !in Lines(s)[k]
  {
    if s != "" {
      var i := IndexOf(s, '\n');
      IndexOfFirst(s, '\n');
      if i < |s| {
        LinesHaveNoNewline(s[i + 1..]);
      }
    }
  }

  /** Each line followed by its newline. */
  function Join(ls: seq<string>): string {
    if ls == [] then "" else ls[0] + "\n" + Join(ls[1..])
  }

  lemma {:induction false} JoinAppend(ls: seq<string>, l: string)
    ensures Join(ls + [l]) == Join(ls) + l + "\n"
  {
    if ls == [] {
      assert ls + [l] == [l];
    } else {
      JoinAppend(ls[1..], l);
      assert (ls + [l])[1..] == ls[1..] + [l];
    }
  }

  /** Splitting is a left inverse of joining. */
  lemma {:induction false} LinesOfJoin(ls: seq<string>)
    requires forall k :: 0 <= k < |ls| ==> '\n' !in ls[k]
    ensures Lines(Join(ls)) == ls
  {
    if ls != [] {
      var s := Join(ls);
      var rest := Join(ls[1..]);
      assert s == ls[0] + ['\n'] + rest;
      IndexOfPrefix(ls[0], '\n', rest);
      assert s[..|ls[0]|] == ls[0];
      assert s[|ls[0]| + 1..] == rest;
      LinesOfJoin(ls[1..]);
    }
  }

  /** The lines with their newlines are the text again, and a final line without one gets it. */
  lemma {:induction false} LinesExactly(s: string)
    ensures Join(Lines(s)) == if s == "" || s[|s| - 1] == '\n' then s else s + "\n"
    ensures forall k :: 0 <= k < |Lines(s)| ==> '\n' !in Lines(s)[k]
  {
    LinesHaveNoNewline(s);
    if s != "" {
      var i := IndexOf(s, '\n');
      if i == |s| {
        IndexOfFirst(s, '\n');
        assert s[..|s|] == s;
        assert Join([s]) == s + "\n" + Join([]);
      } else {
        var rest := s[i + 1..];
        LinesExactly(rest);
        assert s == s[..i] + "\n" + rest;
        assert Lines(s)[1..] == Lines(rest);
      }
    }
  }

  // ---------------------------------------------------------------- decimal integers

  predicate IsDigit(c: char) {
    '0' <= c <= '9'
  }

  function Digit(d: nat): (c: char)
    requires d < 10
    ensures IsDigit(c) && c as int == '0' as int + d
  {
    ('0' as int + d) as char
  }

  function NatToString(n: nat): (s: string)
    ensures s != "" && forall k :: 0 <= k < |s| ==> IsDigit(s[k])
  {
    if n < 10 then [Digit(n)] else NatToString(n / 10) + [Digit(n % 10)]
  }

  /** `operator<<` and `std::to_string` on a signed integer. */
  function IntToString(i: int): string {
    if i < 0 then "-" + NatToString(-i) else NatToString(i)
  }

  function DigitsValue(s: string): (v: int)
    requires forall k :: 0 <= k < |s| ==> IsDigit(s[k])
    ensures v >= 0
  {
    if s == "" then 0
    else
      assert IsDigit(s[|s| - 1]);
      10 * DigitsValue(s[..|s| - 1]) + (s[|s| - 1] as int - '0' as int)
  }

  /** How many digits `s` starts with. */
  function DigitRun(s: string): (n: nat)
    ensures n <= |s|
    ensures forall k :: 0 <= k < n ==> IsDigit(s[k])
    ensures n < |s| ==> !IsDigit(s[n])
  {
    if s == "" || !IsDigit(s[0]) then 0 else 1 + DigitRun(s[1..])
  }

  lemma {:induction false} DigitsValueOfNat(n: nat)
    ensures DigitsValue(NatToString(n)) == n
  {
    if n >= 10 {
      DigitsValueOfNat(n / 10);
      assert NatToString(n)[..|NatToString(n)| - 1] == NatToString(n / 10);
    } else {
      assert NatToString(n)[..0] == "";
    }
  }

  /** Every digit is consumed, and nothing after the digits. */
  lemma DigitRunOfNat(n: nat, rest: string)
    requires rest == "" || !IsDigit(rest[0])
    ensures DigitRun(NatToString(n) + rest) == |NatToString(n)|
  {
    var digits := NatToString(n);
    var s := digits + rest;
    assert forall k :: 0 <= k < |digits| ==> s[k] == digits[k] && IsDigit(s[k]);
    assert |digits| < |s| ==> s[|digits|] == rest[0];
  }

  /** `isspace` in the C locale, which is wider than the set `trim` removes. */
  predicate IsSpace(c: char) {
    IsBlank(c) || c == '\U{0B}' || c == '\U{0C}'
  }

  function SkipSpaces(s: string): string {
    if s != "" && IsSpace(s[0]) then SkipSpaces(s[1..]) else s
  }

  /** `std::stoi`: leading white space, an optional sign, then the longest run of digits; whatever
      follows is ignored. `None` stands for the exceptions (no digit, or out of range). */
  function Stoi(s: string): Option<int32> {
    var t := SkipSpaces(s);
    var signed := t != "" && (t[0] == '-' || t[0] == '+');
    var u := if signed then t[1..] else t;
    var n := DigitRun(u);
    if n == 0 then None
    else
      var v := if signed && t[0] == '-' then -DigitsValue(u[..n]) else DigitsValue(u[..n]);
      if -0x8000_0000 <= v < 0x8000_0000 then Some(v) else None
  }

  /** `text` cut into white space, a sign if there is one, all the digits that follow, and the rest. */
  predicate CutAround(text: string, spaces: string, sign: string, digits: string, rest: string) {
    && text == spaces + sign + digits + rest
    && (forall k :: 0 <= k < |spaces| ==> IsSpace(spaces[k]))
    && (sign == "" || sign == "+" || sign == "-")
    && digits != "" && (forall k :: 0 <= k < |digits| ==> IsDigit(digits[k]))
    && (rest == "" || !IsDigit(rest[0]))
  }

  /** `text` starts with the integer `i`. */
  ghost predicate StartsWithInteger(text: string, i: int32) {
    exists spaces, sign, digits, rest ::
      && CutAround(text, spaces, sign, digits, rest)
      && i == if sign == "-" then -DigitsValue(digits) else DigitsValue(digits)
  }

  lemma {:induction false} SkipSpacesSpec(spaces: string, t: string)
    requires forall k :: 0 <= k < |spaces| ==> IsSpace(spaces[k])
    requires t == "" || !IsSpace(t[0])
    ensures SkipSpaces(spaces + t) == t
  {
    if spaces == "" {
      assert spaces + t == t;
    } else {
      SkipSpacesSpec(spaces[1..], t);
      assert (spaces + t)[1..] == spaces[1..] + t;
    }
  }

  lemma {:induction false} SkipSpacesCut(s: string) returns (spaces: string)
    ensures s == spaces + SkipSpaces(s)
    ensures forall k :: 0 <= k < |spaces| ==> IsSpace(spaces[k])
    ensures SkipSpaces(s) == "" || !IsSpace(SkipSpaces(s)[0])
  {
    spaces := "";
    if s != "" && IsSpace(s[0]) {
      var more := SkipSpacesCut(s[1..]);
      spaces := [s[0]] + more;
      assert s == [s[0]] + s[1..];
    }
  }

  lemma {:induction false} DigitRunSpec(digits: string, rest: string)
    requires forall k :: 0 <= k < |digits| ==> IsDigit(digits[k])
    requires rest == "" || !IsDigit(rest[0])
    ensures DigitRun(digits + rest) == |digits|
  {
    if digits == "" {
      assert digits + rest == rest;
    } else {
      DigitRunSpec(digits[1..], rest);
      assert (digits + rest)[1..] == digits[1..] + rest;
    }
  }

  /** `stoi` yields exactly the integer that the text starts with. */
  lemma StoiExactly(text: string, i: int32)
    ensures Stoi(text) == Some(i) <==> StartsWithInteger(text, i)
  {
    hide Stoi, DigitsValue;
    if Stoi(text) == Some(i) {
      StoiStarts(text, i);
    }
    if StartsWithInteger(text, i) {
      var spaces, sign, digits, rest :|
        && CutAround(text, spaces, sign, digits, rest)
        && i == if sign == "-" then -DigitsValue(digits) else DigitsValue(digits);
      StoiReads(text, spaces, sign, digits, rest);
    }
  }

  lemma StoiStarts(text: string, i: int32)
    requires Stoi(text) == Some(i)
    ensures StartsWithInteger(text, i)
  {
    var spaces := SkipSpacesCut(text);
    hide IsSpace, DigitsValue, SkipSpaces, DigitRun;
    var t := SkipSpaces(text);
    var sign := if t != "" && (t[0] == '-' || t[0] == '+') then [t[0]] else "";
    var u := t[|sign|..];
    var n := DigitRun(u);
    assert text == spaces + sign + u[..n] + u[n..];
    assert CutAround(text, spaces, sign, u[..n], u[n..]);
  }

  lemma StoiReads(text: string, spaces: string, sign: string, digits: string, rest: string)
    requires CutAround(text, spaces, sign, digits, rest)
    ensures var v := if sign == "-" then -DigitsValue(digits) else DigitsValue(digits);
      Stoi(text) == if -0x8000_0000 <= v < 0x8000_0000 then Some(v) else None
  {
    var u := digits + rest;
    var t := sign + u;
    hide Stoi, DigitsValue;
    SignComesFirst(sign, u);
    assert text == spaces + t;
    SkipSpacesSpec(spaces, t);
    DigitRunSpec(digits, rest);
    assert u[..|digits|] == digits;
    StoiOf(text, sign, u, digits);
  }

  lemma SignComesFirst(sign: string, u: string)
    requires (sign == "" || sign == "+" || sign == "-") && u != "" && IsDigit(u[0])
    ensures sign + u != "" && !IsSpace((sign + u)[0])
  {
    assert (sign + u)[0] == if sign == "" then u[0] else sign[0];
  }

  lemma StoiOf(text: string, sign: string, u: string, digits: string)
    requires (sign == "" || sign == "+" || sign == "-") && u != "" && IsDigit(u[0])
    requires SkipSpaces(text) == sign + u
    requires digits != "" && DigitRun(u) == |digits| && u[..|digits|] == digits
    ensures var v := if sign == "-" then -DigitsValue(digits) else DigitsValue(digits);
      Stoi(text) == if -0x8000_0000 <= v < 0x8000_0000 then Some(v) else None
  {
    hide SkipSpaces, DigitRun, DigitsValue;
    var t := sign + u;
    assert t[0] == if sign == "" then u[0] else sign[0];
    assert t[|sign|..] == u;
  }

  /** A leading zero adds nothing. */
  lemma {:induction false} LeadingZero(digits: string)
    requires forall k :: 0 <= k < |digits| ==> IsDigit(digits[k])
    ensures DigitsValue("0" + digits) == DigitsValue(digits)
  {
    var s := "0" + digits;
    if digits == "" {
      assert s[..|s| - 1] == "";
    } else {
      assert s[..|s| - 1] == "0" + digits[..|digits| - 1];
      LeadingZero(digits[..|digits| - 1]);
    }
  }

  lemma NatReadsBack(n: nat)
    ensures var d := NatToString(n); IsDigit(d[0]) && DigitRun(d) == |d| && d[..|d|] == d && DigitsValue(d) == n
  {
    DigitsValueOfNat(n);
    DigitRunOfNat(n, "");
    assert NatToString(n) + "" == NatToString(n);
  }

  /** Reading back a printed integer, negative or not, gives that integer. */
  lemma StoiOfIntToString(i: int32)
    ensures Stoi(IntToString(i)) == Some(i)
  {
    hide NatToString, DigitRun, DigitsValue;
    var digits := NatToString(if i < 0 then -(i as int) else i);
    NatReadsBack(if i < 0 then -(i as int) else i);
    if i < 0 {
      assert IntToString(i)[0] == '-' && IntToString(i)[1..] == digits;
    }
  }
}
