/** The configuration file: what `Config::load` reads out of a text and what `Config::save` writes. */
module Configuration {
  import opened Text

  datatype General = General(
    defaultSession: string,
    rememberLastUser: bool,
    lastUser: string,
    greeterCommand: string,
    greeterUser: string,
    vt: int32,
    numlock: bool)

  datatype Autologin = Autologin(enabled: bool, user: string, session: string)

  datatype Settings = Settings(general: General, autologin: Autologin)

  const DEFAULTS := Settings(
    General("miquland", true, "", "miquland -s /usr/bin/miqudm-greeter", "greeter", 1, false),
    Autologin(false, "", "miquland"))

  // ---------------------------------------------------------------- one line

  datatype Group = InGeneral | InAutologin | Elsewhere

  /** The fields a line can set. */
  datatype Key =
    | DefaultSession | RememberLastUser | LastUser | GreeterCommand | GreeterUser | Vt | Numlock
    | Enabled | User | Session
    | NoKey

  datatype Line = Ignored | Header(section: string) | Assignment(name: string, val: string)

  /** How the loop of `load` sees one line of the file. */
  function Shape(raw: string): Line {
    var line := Trim(raw);
    if line == "" || line[0] == '#' || line[0] == ';' then Ignored
    else if line[0] == '[' && line[|line| - 1] == ']' then Header(line[1..|line| - 1])
    else
      var eq := IndexOf(line, '=');
      if eq == |line| then Ignored
      else Assignment(Trim(line[..eq]), Trim(line[eq + 1..]))
  }

  /** A file that has no header yet is in "General". */
  function GroupOf(section: string): Group {
    if section == "General" || section == "" then InGeneral
    else if section == "Autologin" then InAutologin
    else Elsewhere
  }

  function GeneralKey(name: string): Key {
    if name == "default_session" then DefaultSession
    else if name == "remember_last_user" then RememberLastUser
    else if name == "last_user" then LastUser
    else if name == "greeter_command" then GreeterCommand
    else if name == "greeter_user" then GreeterUser
    else if name == "vt" then Vt
    else if name == "numlock" then Numlock
    else NoKey
  }

  function AutologinKey(name: string): Key {
    if name == "enabled" then Enabled
    else if name == "user" then User
    else if name == "session" then Session
    else NoKey
  }

  /** One line with its names resolved: what it does in each of the two groups. */
  datatype Item = Nothing | Enter(group: Group) | Set(general: Key, autologin: Key, val: string)

  function Resolve(line: Line): Item {
    match line
    case Ignored => Nothing
    case Header(section) => Enter(GroupOf(section))
    case Assignment(name, val) => Set(GeneralKey(name), AutologinKey(name), val)
  }

  function Items(lines: seq<string>): (items: seq<Item>)
    ensures |items| == |lines|
    ensures forall i :: 0 <= i < |lines| ==> items[i] == Resolve(Shape(lines[i]))
  {
    seq(|lines|, i requires 0 <= i < |lines| => Resolve(Shape(lines[i])))
  }

  /** The field that an item sets when it stands in `group`. */
  function KeyIn(group: Group, item: Item): Key
    requires item.Set?
  {
    match group
    case InGeneral => item.general
    case InAutologin => item.autologin
    case Elsewhere => NoKey
  }

  /** The field that an assignment to `name` sets in `section`. */
  function KeyNamed(section: string, name: string): Key {
    KeyIn(GroupOf(section), Resolve(Assignment(name, "")))
  }

  /** The two differ in the field of `key` at most. */
  predicate SameExcept(key: Key, s: Settings, t: Settings) {
    && (key != DefaultSession ==> s.general.defaultSession == t.general.defaultSession)
    && (key != RememberLastUser ==> s.general.rememberLastUser == t.general.rememberLastUser)
    && (key != LastUser ==> s.general.lastUser == t.general.lastUser)
    && (key != GreeterCommand ==> s.general.greeterCommand == t.general.greeterCommand)
    && (key != GreeterUser ==> s.general.greeterUser == t.general.greeterUser)
    && (key != Vt ==> s.general.vt == t.general.vt)
    && (key != Numlock ==> s.general.numlock == t.general.numlock)
    && (key != Enabled ==> s.autologin.enabled == t.autologin.enabled)
    && (key != User ==> s.autologin.user == t.autologin.user)
    && (key != Session ==> s.autologin.session == t.autologin.session)
  }

  function ToLower(s: string): (r: string)
    ensures |r| == |s|
  {
    if s == "" then ""
    else [if 'A' <= s[0] <= 'Z' then (s[0] as int + 32) as char else s[0]] + ToLower(s[1..])
  }

  function ParseBool(val: string, default: bool): bool {
    var lower := ToLower(val);
    if lower == "true" || lower == "1" || lower == "yes" || lower == "on" then true
    else if lower == "false" || lower == "0" || lower == "no" || lower == "off" then false
    else default
  }

  function Assigned(s: Settings, key: Key, val: string): Settings {
    match key
    case DefaultSession => s.(general := s.general.(defaultSession := val))
    case RememberLastUser => s.(general := s.general.(rememberLastUser := ParseBool(val, true)))
    case LastUser => s.(general := s.general.(lastUser := val))
    case GreeterCommand => s.(general := s.general.(greeterCommand := val))
    case GreeterUser => s.(general := s.general.(greeterUser := val))
    case Vt => s.(general := s.general.(vt := Stoi(val).GetOr(s.general.vt)))
    case Numlock => s.(general := s.general.(numlock := ParseBool(val, false)))
    case Enabled => s.(autologin := s.autologin.(enabled := ParseBool(val, false)))
    case User => s.(autologin := s.autologin.(user := val))
    case Session => s.(autologin := s.autologin.(session := val))
    case NoKey => s
  }

  /** The loop's variables: the group of the current section and the fields read so far. */
  datatype Reading = Reading(group: Group, settings: Settings)

  function Consume(r: Reading, item: Item): Reading {
    match item
    case Nothing => r
    case Enter(group) => r.(group := group)
    case Set(_, _, val) => r.(settings := Assigned(r.settings, KeyIn(r.group, item), val))
  }

  function ReadItems(items: seq<Item>, prior: Settings): Reading {
    if items == [] then Reading(InGeneral, prior)
    else Consume(ReadItems(items[..|items| - 1], prior), items[|items| - 1])
  }

  /** The settings after loading `text` into an object that held `prior`. */
  function Loaded(text: string, prior: Settings): Settings {
    ReadItems(Items(Lines(text)), prior).settings
  }

  // ---------------------------------------------------------------- the declarative meaning of a text

  /** The group in force after `items`: that of the last header, or "General". */
  function GroupAfter(items: seq<Item>): Group {
    if items == [] then InGeneral
    else if items[|items| - 1].Enter? then items[|items| - 1].group
    else GroupAfter(items[..|items| - 1])
  }

  /** Item `i` assigns to `key` a value that `parse` accepts. */
  ghost predicate Assigns<T>(items: seq<Item>, i: nat, key: Key, parse: string -> Option<T>) {
    && i < |items|
    && items[i].Set?
    && KeyIn(GroupAfter(items[..i]), items[i]) == key
    && parse(items[i].val).Some?
  }

  /** `value` is what the last accepted assignment to `key` says, or `before` if there is none. */
  ghost predicate LastWins<T>(items: seq<Item>, key: Key, parse: string -> Option<T>, before: T, value: T) {
    || (exists i: nat :: Assigns(items, i, key, parse)
                         && parse(items[i].val) == Some(value)
                         && forall j: nat :: Assigns(items, j, key, parse) ==> j <= i)
    || (value == before && forall i: nat :: !Assigns(items, i, key, parse))
  }

  const UPPER := "ABCDEFGHIJKLMNOPQRSTUVWXYZ"
  const LOWER := "abcdefghijklmnopqrstuvwxyz"

  /** The same character, or the same letter in the other case. */
  predicate SameLetter(a: char, b: char) {
    a == b || exists k :: 0 <= k < 26 && ((a == UPPER[k] && b == LOWER[k]) || (a == LOWER[k] && b == UPPER[k]))
  }

  /** The same text except for the case of its letters. */
  predicate SameWord(a: string, b: string) {
    |a| == |b| && forall i :: 0 <= i < |a| ==> SameLetter(a[i], b[i])
  }

  predicate Affirms(val: string) {
    SameWord(val, "true") || SameWord(val, "1") || SameWord(val, "yes") || SameWord(val, "on")
  }

  predicate Denies(val: string) {
    SameWord(val, "false") || SameWord(val, "0") || SameWord(val, "no") || SameWord(val, "off")
  }

  function AnyText(val: string): Option<string> { Some(val) }

  function TrueUnlessDenied(val: string): Option<bool> { Some(!Denies(val)) }

  function FalseUnlessAffirmed(val: string): Option<bool> { Some(Affirms(val)) }

  function Integer(val: string): Option<int32> { Stoi(val) }

  lemma LettersInOrder()
    ensures |UPPER| == |LOWER| == 26
    ensures forall k :: 0 <= k < 26 ==> UPPER[k] as int == 'A' as int + k && LOWER[k] as int == 'a' as int + k
  {
  }

  lemma LowerIsSameLetter(c: char, d: char)
    requires !('A' <= d <= 'Z')
    ensures ToLower([c]) == [d] <==> SameLetter(c, d)
  {
    LettersInOrder();
    hide UPPER, LOWER;
    assert ToLower([c])[0] == if 'A' <= c <= 'Z' then (c as int + 32) as char else c;
    if 'A' <= c <= 'Z' {
      assert UPPER[c as int - 65] == c && LOWER[c as int - 65] == (c as int + 32) as char;
    }
  }

  lemma {:induction false} LowerIsSameWord(val: string, word: string)
    requires forall i :: 0 <= i < |word| ==> !('A' <= word[i] <= 'Z')
    ensures ToLower(val) == word <==> SameWord(val, word)
  {
    hide SameLetter;
    if val != "" && |val| == |word| {
      LowerIsSameLetter(val[0], word[0]);
      LowerIsSameWord(val[1..], word[1..]);
      assert ToLower([val[0]]) == [ToLower(val)[0]];
      assert ToLower(val) == ToLower([val[0]]) + ToLower(val[1..]);
      assert word == [word[0]] + word[1..];
      assert SameWord(val, word) <==> SameLetter(val[0], word[0]) && SameWord(val[1..], word[1..]) by {
        assert forall i :: 0 < i < |val| ==> val[i] == val[1..][i - 1] && word[i] == word[1..][i - 1];
      }
    }
  }

  /** What a truth value says, whatever the case of its letters, and that anything else says nothing. */
  lemma BoolExactly(val: string, default: bool)
    ensures ParseBool(val, default) == if Affirms(val) then true else if Denies(val) then false else default
    ensures !(Affirms(val) && Denies(val))
  {
    hide SameWord;
    LowerIsSameWord(val, "true");
    LowerIsSameWord(val, "1");
    LowerIsSameWord(val, "yes");
    LowerIsSameWord(val, "on");
    LowerIsSameWord(val, "false");
    LowerIsSameWord(val, "0");
    LowerIsSameWord(val, "no");
    LowerIsSameWord(val, "off");
  }

  // ---------------------------------------------------------------- the lines themselves

  /** Apart from blanks around it the line is `[section]`. */
  ghost predicate IsHeader(raw: string, section: string) {
    IsTrimOf(raw, "[" + section + "]")
  }

  /** Apart from blanks around it the line is no comment and no header, and `name` and `val` are what is left and right
      of its first '=', without the blanks around them. */
  ghost predicate IsAssignment(raw: string, name: string, val: string) {
    exists left, right ::
      && '=' !in left && IsTrimOf(left, name) && IsTrimOf(right, val)
      && var line := left + "=" + right;
         && IsTrimOf(raw, line)
         && line[0] != '#' && line[0] != ';'
         && !(line[0] == '[' && line[|line| - 1] == ']')
  }

  lemma HeaderExactly(raw: string, section: string)
    ensures Shape(raw) == Header(section) <==> IsHeader(raw, section)
  {
    hide Trim, IsTrimOf;
    var line := Trim(raw);
    TrimExactly(raw, line);
    TrimExactly(raw, "[" + section + "]");
    if line == "[" + section + "]" {
      assert line[1..|line| - 1] == section;
    }
    if Shape(raw) == Header(section) {
      assert line == [line[0]] + line[1..|line| - 1] + [line[|line| - 1]];
    }
  }

  lemma AssignmentExactly(raw: string, name: string, val: string)
    ensures Shape(raw) == Assignment(name, val) <==> IsAssignment(raw, name, val)
  {
    hide Trim, IsTrimOf, IndexOf;
    var line := Trim(raw);
    TrimExactly(raw, line);
    if Shape(raw) == Assignment(name, val) {
      var eq := IndexOf(line, '=');
      IndexOfFirst(line, '=');
      var left, right := line[..eq], line[eq + 1..];
      TrimExactly(left, name);
      TrimExactly(right, val);
      assert line == left + "=" + right;
    }
    if IsAssignment(raw, name, val) {
      var left, right :|
        && '=' !in left && IsTrimOf(left, name) && IsTrimOf(right, val)
        && var whole := left + "=" + right;
           && IsTrimOf(raw, whole)
           && whole[0] != '#' && whole[0] != ';'
           && !(whole[0] == '[' && whole[|whole| - 1] == ']');
      TrimExactly(raw, left + "=" + right);
      TrimExactly(left, name);
      TrimExactly(right, val);
      assert line == left + ['='] + right;
      IndexOfPrefix(left, '=', right);
      assert line[..|left|] == left && line[|left| + 1..] == right;
    }
  }

  /** The section in force after `lines`: that of the last header, or none. */
  ghost predicate InSection(lines: seq<string>, section: string) {
    || (section == "" && forall k, other :: 0 <= k < |lines| ==> !IsHeader(lines[k], other))
    || exists j :: 0 <= j < |lines| && IsHeader(lines[j], section)
                   && forall k, other :: j < k < |lines| ==> !IsHeader(lines[k], other)
  }

  /** Line `i` stands in one of the sections and assigns `val` to `name`. */
  ghost predicate Says(lines: seq<string>, i: nat, sections: set<string>, name: string, val: string) {
    && i < |lines| && IsAssignment(lines[i], name, val)
    && exists section :: section in sections && InSection(lines[..i], section)
  }

  /** `value` is what the last assignment says that `parse` accepts, or `before` if there is none. */
  ghost predicate LastSays<T>(lines: seq<string>, sections: set<string>, name: string, parse: string -> Option<T>,
                              before: T, value: T) {
    || (exists i: nat, val ::
          && Says(lines, i, sections, name, val) && parse(val) == Some(value)
          && forall j: nat, other :: i < j && Says(lines, j, sections, name, other) ==> parse(other) == None)
    || (value == before && forall j: nat, other :: Says(lines, j, sections, name, other) ==> parse(other) == None)
  }

  const GENERAL := {"", "General"}
  const AUTOLOGIN := {"Autologin"}

  /** Each field takes its last accepted assignment in its own section; other sections have no effect. */
  ghost predicate Means(lines: seq<string>, prior: Settings, s: Settings) {
    var g, h, a, b := prior.general, s.general, prior.autologin, s.autologin;
    && LastSays(lines, GENERAL, "default_session", AnyText, g.defaultSession, h.defaultSession)
    && LastSays(lines, GENERAL, "remember_last_user", TrueUnlessDenied, g.rememberLastUser, h.rememberLastUser)
    && LastSays(lines, GENERAL, "last_user", AnyText, g.lastUser, h.lastUser)
    && LastSays(lines, GENERAL, "greeter_command", AnyText, g.greeterCommand, h.greeterCommand)
    && LastSays(lines, GENERAL, "greeter_user", AnyText, g.greeterUser, h.greeterUser)
    && LastSays(lines, GENERAL, "vt", Integer, g.vt, h.vt)
    && LastSays(lines, GENERAL, "numlock", FalseUnlessAffirmed, g.numlock, h.numlock)
    && LastSays(lines, AUTOLOGIN, "enabled", FalseUnlessAffirmed, a.enabled, b.enabled)
    && LastSays(lines, AUTOLOGIN, "user", AnyText, a.user, b.user)
    && LastSays(lines, AUTOLOGIN, "session", AnyText, a.session, b.session)
  }

  lemma {:induction false} SectionIsGroup(lines: seq<string>) returns (section: string)
    ensures InSection(lines, section)
    ensures forall other :: InSection(lines, other) ==> other == section
    ensures GroupOf(section) == GroupAfter(Items(lines))
  {
    section := "";
    assert GroupOf("") == InGeneral;
    hide Shape, IsHeader, GroupOf;
    if lines != [] {
      var init, last := lines[..|lines| - 1], lines[|lines| - 1];
      section := SectionIsGroup(init);
      assert Items(lines)[..|lines| - 1] == Items(init);
      forall other {
        HeaderExactly(last, other);
      }
      OneHeader(lines, init, section);
      if Shape(last).Header? {
        section := Shape(last).section;
      }
    }
  }

  /** One more line: a header says which section it is, any other line changes nothing. */
  lemma OneHeader(lines: seq<string>, init: seq<string>, section: string)
    requires lines != [] && init == lines[..|lines| - 1] && InSection(init, section)
    requires forall other :: InSection(init, other) ==> other == section
    ensures var last := Shape(lines[|lines| - 1]);
      forall other :: InSection(lines, other) <==> other == if last.Header? then last.section else section
  {
    hide Shape, IsHeader;
    var last := lines[|lines| - 1];
    forall other {
      HeaderExactly(last, other);
    }
    forall other ensures InSection(lines, other) <==>
      other == if Shape(last).Header? then Shape(last).section else section
    {
      if Shape(last).Header? {
        assert IsHeader(last, Shape(last).section);
      } else {
        assert InSection(lines, other) <==> InSection(init, other);
      }
    }
  }

  /** `key` is the field that `name` sets in these sections, and nothing else sets it. */
  ghost predicate Names(key: Key, sections: set<string>, name: string) {
    forall section, other :: KeyNamed(section, other) == key <==> section in sections && other == name
  }

  /** On the side of the items, a line that assigns is an item that sets. */
  lemma SaysIsAssigns<T>(lines: seq<string>, i: nat, key: Key, sections: set<string>, name: string,
                         parse: string -> Option<T>)
    requires i < |lines| && Names(key, sections, name)
    ensures Assigns(Items(lines), i, key, parse) <==>
      exists val :: Says(lines, i, sections, name, val) && parse(val).Some?
    ensures forall val :: Says(lines, i, sections, name, val) ==> Items(lines)[i].Set? && Items(lines)[i].val == val
  {
    var section := SectionIsGroup(lines[..i]);
    assert Items(lines)[..i] == Items(lines[..i]);
    forall n, val {
      AssignmentExactly(lines[i], n, val);
    }
    hide Shape, IsAssignment, InSection, GroupOf, GroupAfter, GeneralKey, AutologinKey;
    var item := Resolve(Shape(lines[i]));
    if item.Set? {
      var line := Shape(lines[i]);
      assert IsAssignment(lines[i], line.name, line.val);
      assert KeyIn(GroupOf(section), item) == KeyNamed(section, line.name);
      if section in sections && line.name == name {
        assert Says(lines, i, sections, name, line.val);
      }
    }
  }

  lemma LastWinsSays<T>(lines: seq<string>, key: Key, sections: set<string>, name: string, parse: string -> Option<T>,
                        before: T, value: T)
    requires Names(key, sections, name) && LastWins(Items(lines), key, parse, before, value)
    ensures LastSays(lines, sections, name, parse, before, value)
  {
    hide Says, Assigns, Names, Items;
    var items := Items(lines);
    forall j: nat, other | Says(lines, j, sections, name, other)
      ensures parse(other) == None || (Assigns(items, j, key, parse) && j < |lines|)
    {
      SaysInside(lines, j, sections, name, other);
      SaysIsAssigns(lines, j, key, sections, name, parse);
    }
    forall i: nat | Assigns(items, i, key, parse) ensures i < |items| && i < |lines| && items[i].Set? {
      AssignsInside(lines, i, key, parse);
    }
    if i: nat :| Assigns(items, i, key, parse) && parse(items[i].val) == Some(value)
                 && forall j: nat :: Assigns(items, j, key, parse) ==> j <= i {
      SaysIsAssigns(lines, i, key, sections, name, parse);
      var val :| Says(lines, i, sections, name, val) && parse(val).Some?;
    }
  }

  lemma AssignsInside<T>(lines: seq<string>, i: nat, key: Key, parse: string -> Option<T>)
    requires Assigns(Items(lines), i, key, parse)
    ensures i < |Items(lines)| && i < |lines| && Items(lines)[i].Set?
  {
  }

  lemma SaysInside(lines: seq<string>, i: nat, sections: set<string>, name: string, val: string)
    requires Says(lines, i, sections, name, val)
    ensures i < |lines|
  {
  }

  lemma GeneralKeysAreNamed()
    ensures Names(DefaultSession, GENERAL, "default_session") && Names(RememberLastUser, GENERAL, "remember_last_user")
    ensures Names(LastUser, GENERAL, "last_user") && Names(GreeterCommand, GENERAL, "greeter_command")
    ensures Names(GreeterUser, GENERAL, "greeter_user") && Names(Vt, GENERAL, "vt")
    ensures Names(Numlock, GENERAL, "numlock")
  {
    GeneralNames();
    GroupsAreNamed();
    hide GroupOf;
  }

  lemma AutologinKeysAreNamed()
    ensures Names(Enabled, AUTOLOGIN, "enabled") && Names(User, AUTOLOGIN, "user")
    ensures Names(Session, AUTOLOGIN, "session")
  {
    AutologinNames();
    GroupsAreNamed();
    hide GroupOf;
  }

  lemma GroupsAreNamed()
    ensures forall section :: GroupOf(section) == InGeneral <==> section in GENERAL
    ensures forall section :: GroupOf(section) == InAutologin <==> section in AUTOLOGIN
  {
    assert "Autologin" != "General" by { assert |"Autologin"| == 9 && |"General"| == 7; }
  }

  lemma {:induction false} GroupOfLastHeader(items: seq<Item>, prior: Settings)
    ensures ReadItems(items, prior).group == GroupAfter(items)
  {
    if items != [] {
      GroupOfLastHeader(items[..|items| - 1], prior);
    }
  }

  lemma AssignsInPrefix<T>(items: seq<Item>, i: nat, key: Key, parse: string -> Option<T>)
    requires i < |items| - 1
    ensures Assigns(items[..|items| - 1], i, key, parse) <==> Assigns(items, i, key, parse)
  {
    assert items[..|items| - 1][..i] == items[..i];
  }

  /** One more line either assigns the key or leaves its value alone. */
  lemma LastWinsStep<T>(items: seq<Item>, key: Key, parse: string -> Option<T>, before: T, was: T, now: T)
    requires items != []
    requires LastWins(items[..|items| - 1], key, parse, before, was)
    requires if Assigns(items, |items| - 1, key, parse)
             then parse(items[|items| - 1].val) == Some(now)
             else now == was
    ensures LastWins(items, key, parse, before, now)
  {
    var init := items[..|items| - 1];
    forall i: nat | i < |init| ensures Assigns(init, i, key, parse) <==> Assigns(items, i, key, parse) {
      AssignsInPrefix(items, i, key, parse);
    }
    if !Assigns(items, |items| - 1, key, parse) {
      assert forall i: nat :: Assigns(items, i, key, parse) <==> Assigns(init, i, key, parse);
    }
  }

  /** `get` reads the field that `key` sets, and no other key changes it. */
  ghost predicate FieldOf<T>(key: Key, parse: string -> Option<T>, get: Settings -> T) {
    forall s, k, val ::
      get(Assigned(s, k, val)) == if k == key then parse(val).GetOr(get(s)) else get(s)
  }

  lemma {:induction false} FieldMeans<T>(items: seq<Item>, key: Key, parse: string -> Option<T>, get: Settings -> T,
                                         prior: Settings)
    requires key != NoKey
    requires FieldOf(key, parse, get)
    ensures LastWins(items, key, parse, get(prior), get(ReadItems(items, prior).settings))
  {
    if items != [] {
      var init := items[..|items| - 1];
      FieldMeans(init, key, parse, get, prior);
      GroupOfLastHeader(init, prior);
      var was, now := ReadItems(init, prior).settings, ReadItems(items, prior).settings;
      LastWinsStep(items, key, parse, get(prior), get(was), get(now));
    }
  }

  function GetDefaultSession(s: Settings): string { s.general.defaultSession }
  function GetRememberLastUser(s: Settings): bool { s.general.rememberLastUser }
  function GetLastUser(s: Settings): string { s.general.lastUser }
  function GetGreeterCommand(s: Settings): string { s.general.greeterCommand }
  function GetGreeterUser(s: Settings): string { s.general.greeterUser }
  function GetVt(s: Settings): int32 { s.general.vt }
  function GetNumlock(s: Settings): bool { s.general.numlock }
  function GetEnabled(s: Settings): bool { s.autologin.enabled }
  function GetUser(s: Settings): string { s.autologin.user }
  function GetSession(s: Settings): string { s.autologin.session }

  lemma GeneralFieldsAreIndependent()
    ensures FieldOf(DefaultSession, AnyText, GetDefaultSession)
    ensures FieldOf(RememberLastUser, TrueUnlessDenied, GetRememberLastUser)
    ensures FieldOf(LastUser, AnyText, GetLastUser)
    ensures FieldOf(GreeterCommand, AnyText, GetGreeterCommand)
    ensures FieldOf(GreeterUser, AnyText, GetGreeterUser)
    ensures FieldOf(Vt, Integer, GetVt)
    ensures FieldOf(Numlock, FalseUnlessAffirmed, GetNumlock)
  {
    forall val, default {
      BoolExactly(val, default);
    }
    hide ParseBool, Affirms, Denies, Stoi, KeyIn;
  }

  lemma AutologinFieldsAreIndependent()
    ensures FieldOf(Enabled, FalseUnlessAffirmed, GetEnabled)
    ensures FieldOf(User, AnyText, GetUser)
    ensures FieldOf(Session, AnyText, GetSession)
  {
    forall val, default {
      BoolExactly(val, default);
    }
    hide ParseBool, Affirms, Denies, Stoi, KeyIn;
  }

  /** One field, in terms of the lines. */
  lemma FieldSays<T>(lines: seq<string>, key: Key, sections: set<string>, name: string, parse: string -> Option<T>,
                     get: Settings -> T, prior: Settings)
    requires key != NoKey && FieldOf(key, parse, get) && Names(key, sections, name)
    ensures LastSays(lines, sections, name, parse, get(prior), get(ReadItems(Items(lines), prior).settings))
  {
    hide LastWins, ReadItems, FieldOf, Names, LastSays, Items;
    FieldMeans(Items(lines), key, parse, get, prior);
    LastWinsSays(lines, key, sections, name, parse, get(prior), get(ReadItems(Items(lines), prior).settings));
  }

  /** `load` computes the declarative meaning, for every text and every prior state. */
  lemma ReadItemsMeans(lines: seq<string>, prior: Settings)
    ensures Means(lines, prior, ReadItems(Items(lines), prior).settings)
  {
    GeneralFieldsAreIndependent();
    AutologinFieldsAreIndependent();
    GeneralKeysAreNamed();
    AutologinKeysAreNamed();
    hide LastSays, ReadItems, FieldOf, Names, Items, GENERAL, AUTOLOGIN;
    FieldSays(lines, DefaultSession, GENERAL, "default_session", AnyText, GetDefaultSession, prior);
    FieldSays(lines, RememberLastUser, GENERAL, "remember_last_user", TrueUnlessDenied, GetRememberLastUser, prior);
    FieldSays(lines, LastUser, GENERAL, "last_user", AnyText, GetLastUser, prior);
    FieldSays(lines, GreeterCommand, GENERAL, "greeter_command", AnyText, GetGreeterCommand, prior);
    FieldSays(lines, GreeterUser, GENERAL, "greeter_user", AnyText, GetGreeterUser, prior);
    FieldSays(lines, Vt, GENERAL, "vt", Integer, GetVt, prior);
    FieldSays(lines, Numlock, GENERAL, "numlock", FalseUnlessAffirmed, GetNumlock, prior);
    FieldSays(lines, Enabled, AUTOLOGIN, "enabled", FalseUnlessAffirmed, GetEnabled, prior);
    FieldSays(lines, User, AUTOLOGIN, "user", AnyText, GetUser, prior);
    FieldSays(lines, Session, AUTOLOGIN, "session", AnyText, GetSession, prior);
  }

  // ---------------------------------------------------------------- what `save` writes

  function ShowBool(b: bool): string { if b then "true" else "false" }

  function Pair(name: string, val: string): string { name + "=" + val }

  function GeneralLines(g: General): seq<string> {
    [ "[General]",
      Pair("default_session", g.defaultSession),
      Pair("remember_last_user", ShowBool(g.rememberLastUser)),
      Pair("last_user", g.lastUser),
      Pair("greeter_command", g.greeterCommand),
      Pair("greeter_user", g.greeterUser),
      Pair("vt", IntToString(g.vt)),
      Pair("numlock", ShowBool(g.numlock)),
      "" ]
  }

  function AutologinLines(a: Autologin): seq<string> {
    [ "[Autologin]",
      Pair("enabled", ShowBool(a.enabled)),
      Pair("user", a.user),
      Pair("session", a.session) ]
  }

  function RenderedLines(s: Settings): seq<string> {
    GeneralLines(s.general) + AutologinLines(s.autologin)
  }

  /** The text of a saved configuration. */
  function Rendered(s: Settings): string { Join(RenderedLines(s)) }

  /** A value that survives a line-based file: no newline inside and no blanks at its ends. */
  predicate StorableText(s: string) { Trimmed(s) && '\n' !in s }

  predicate Storable(s: Settings) {
    && StorableText(s.general.defaultSession)
    && StorableText(s.general.lastUser)
    && StorableText(s.general.greeterCommand)
    && StorableText(s.general.greeterUser)
    && StorableText(s.autologin.user)
    && StorableText(s.autologin.session)
  }

  predicate KeyText(name: string) {
    && name != "" && Trimmed(name)
    && name[0] != '#' && name[0] != ';' && name[0] != '['
    && '=' !in name && '\n' !in name
  }

  lemma ShapeOfAssignment(name: string, val: string)
    requires KeyText(name) && Trimmed(val)
    ensures Shape(Pair(name, val)) == Assignment(name, val)
  {
    var line := name + ['='] + val;
    assert line == name + "=" + val;
    assert line[0] == name[0];
    assert line[|line| - 1] == if val == "" then '=' else val[|val| - 1];
    TrimIdentity(line);
    IndexOfPrefix(name, '=', val);
    assert line[..|name|] == name && line[|name| + 1..] == val;
    TrimIdentity(name);
    TrimIdentity(val);
  }

  lemma ReadNext(items: seq<Item>, k: nat, prior: Settings)
    requires k < |items|
    ensures ReadItems(items[..k + 1], prior) == Consume(ReadItems(items[..k], prior), items[k])
  {
    assert items[..k + 1][..k] == items[..k];
  }

  /** What the lines that `save` writes mean to `load`. */
  function RenderedItems(s: Settings): seq<Item> {
    GeneralItems(s.general) + AutologinItems(s.autologin)
  }

  function GeneralItems(g: General): seq<Item> {
    [ Enter(InGeneral),
      Set(DefaultSession, NoKey, g.defaultSession),
      Set(RememberLastUser, NoKey, ShowBool(g.rememberLastUser)),
      Set(LastUser, NoKey, g.lastUser),
      Set(GreeterCommand, NoKey, g.greeterCommand),
      Set(GreeterUser, NoKey, g.greeterUser),
      Set(Vt, NoKey, IntToString(g.vt)),
      Set(Numlock, NoKey, ShowBool(g.numlock)),
      Nothing ]
  }

  function AutologinItems(a: Autologin): seq<Item> {
    [ Enter(InAutologin),
      Set(NoKey, Enabled, ShowBool(a.enabled)),
      Set(NoKey, User, a.user),
      Set(NoKey, Session, a.session) ]
  }

  lemma BoolsReadBack(b: bool)
    ensures ParseBool(ShowBool(b), true) == b && ParseBool(ShowBool(b), false) == b
  {
    assert ToLower("true") == "true";
    assert ToLower("false") == "false";
  }

  lemma BoolsStorable(b: bool)
    ensures StorableText(ShowBool(b))
  {
  }

  lemma PrintedIntegerStorable(i: int)
    ensures StorableText(IntToString(i))
  {
    var digits := NatToString(if i < 0 then -i else i);
    assert IsDigit(digits[0]) && IsDigit(digits[|digits| - 1]);
    assert forall k :: 0 <= k < |digits| ==> IsDigit(digits[k]);
  }

  lemma GeneralHeader()
    ensures Resolve(Shape("[General]")) == Enter(InGeneral)
  {
    var line := "[General]";
    hide Trim, IndexOf;
    TrimIdentity(line);
    assert line[1..|line| - 1] == "General";
  }

  lemma AutologinHeader()
    ensures Resolve(Shape("[Autologin]")) == Enter(InAutologin)
  {
    var line := "[Autologin]";
    hide Trim, IndexOf;
    TrimIdentity(line);
    assert line[1..|line| - 1] == "Autologin";
    assert |"Autologin"| == 9 && |"General"| == 7;
  }

  lemma EmptyLine()
    ensures Resolve(Shape("")) == Nothing
  {
    hide IndexOf;
  }

  lemma GeneralItem(name: string, key: Key, val: string)
    requires KeyText(name) && GeneralKey(name) == key && AutologinKey(name) == NoKey
    requires Trimmed(val)
    ensures Resolve(Shape(Pair(name, val))) == Set(key, NoKey, val)
  {
    ShapeOfAssignment(name, val);
  }

  lemma AutologinItem(name: string, key: Key, val: string)
    requires KeyText(name) && GeneralKey(name) == NoKey && AutologinKey(name) == key
    requires Trimmed(val)
    ensures Resolve(Shape(Pair(name, val))) == Set(NoKey, key, val)
  {
    ShapeOfAssignment(name, val);
  }

  lemma GeneralNames()
    ensures GeneralKey("default_session") == DefaultSession && AutologinKey("default_session") == NoKey
    ensures GeneralKey("remember_last_user") == RememberLastUser && AutologinKey("remember_last_user") == NoKey
    ensures GeneralKey("last_user") == LastUser && AutologinKey("last_user") == NoKey
    ensures GeneralKey("greeter_command") == GreeterCommand && AutologinKey("greeter_command") == NoKey
    ensures GeneralKey("greeter_user") == GreeterUser && AutologinKey("greeter_user") == NoKey
    ensures GeneralKey("vt") == Vt && AutologinKey("vt") == NoKey
    ensures GeneralKey("numlock") == Numlock && AutologinKey("numlock") == NoKey
  {
  }

  lemma AutologinNames()
    ensures GeneralKey("enabled") == NoKey && AutologinKey("enabled") == Enabled
    ensures GeneralKey("user") == NoKey && AutologinKey("user") == User
    ensures GeneralKey("session") == NoKey && AutologinKey("session") == Session
  {
  }

  lemma LongNamesAreKeyTexts()
    ensures KeyText("default_session") && KeyText("remember_last_user")
    ensures KeyText("greeter_command") && KeyText("greeter_user")
  {
  }

  lemma ShortNamesAreKeyTexts()
    ensures KeyText("last_user") && KeyText("vt") && KeyText("numlock")
    ensures KeyText("enabled") && KeyText("user") && KeyText("session")
  {
  }

  /** The lines of the first section are read as its seven assignments. */
  lemma GeneralMeaning(g: General)
    requires StorableText(g.defaultSession) && StorableText(g.lastUser)
    requires StorableText(g.greeterCommand) && StorableText(g.greeterUser)
    ensures Items(GeneralLines(g)) == GeneralItems(g)
  {
    hide Shape, Resolve, KeyText, Trimmed, GeneralKey, AutologinKey, Pair, ShowBool, IntToString;
    GeneralHeader();
    EmptyLine();
    GeneralNames();
    LongNamesAreKeyTexts();
    ShortNamesAreKeyTexts();
    PrintedIntegerStorable(g.vt);
    BoolsStorable(g.rememberLastUser);
    BoolsStorable(g.numlock);
    GeneralItem("default_session", DefaultSession, g.defaultSession);
    GeneralItem("remember_last_user", RememberLastUser, ShowBool(g.rememberLastUser));
    GeneralItem("last_user", LastUser, g.lastUser);
    GeneralItem("greeter_command", GreeterCommand, g.greeterCommand);
    GeneralItem("greeter_user", GreeterUser, g.greeterUser);
    GeneralItem("vt", Vt, IntToString(g.vt));
    GeneralItem("numlock", Numlock, ShowBool(g.numlock));
  }

  lemma AutologinMeaning(a: Autologin)
    requires StorableText(a.user) && StorableText(a.session)
    ensures Items(AutologinLines(a)) == AutologinItems(a)
  {
    hide Shape, Resolve, KeyText, Trimmed, GeneralKey, AutologinKey, Pair, ShowBool;
    AutologinHeader();
    AutologinNames();
    ShortNamesAreKeyTexts();
    BoolsStorable(a.enabled);
    AutologinItem("enabled", Enabled, ShowBool(a.enabled));
    AutologinItem("user", User, a.user);
    AutologinItem("session", Session, a.session);
  }

  lemma RenderedMeaning(s: Settings)
    requires Storable(s)
    ensures Items(RenderedLines(s)) == RenderedItems(s)
  {
    GeneralMeaning(s.general);
    AutologinMeaning(s.autologin);
    hide Shape, Resolve, GeneralLines, AutologinLines, GeneralItems, AutologinItems, StorableText;
    ItemsConcat(GeneralLines(s.general), AutologinLines(s.autologin));
  }

  lemma ItemsConcat(a: seq<string>, b: seq<string>)
    ensures Items(a + b) == Items(a) + Items(b)
  {
    hide Shape, Resolve;
  }

  lemma GeneralItemsReadBack(items: seq<Item>, g: General, prior: Settings)
    requires |items| == 9
    requires items[0] == Enter(InGeneral) && items[8] == Nothing
    requires items[1] == Set(DefaultSession, NoKey, g.defaultSession)
    requires items[2] == Set(RememberLastUser, NoKey, ShowBool(g.rememberLastUser))
    requires items[3] == Set(LastUser, NoKey, g.lastUser)
    requires items[4] == Set(GreeterCommand, NoKey, g.greeterCommand)
    requires items[5] == Set(GreeterUser, NoKey, g.greeterUser)
    requires items[6] == Set(Vt, NoKey, IntToString(g.vt))
    requires items[7] == Set(Numlock, NoKey, ShowBool(g.numlock))
    ensures ReadItems(items, prior) == Reading(InGeneral, Settings(g, prior.autologin))
  {
    BoolsReadBack(g.rememberLastUser);
    BoolsReadBack(g.numlock);
    StoiOfIntToString(g.vt);
    hide Stoi, ParseBool, IntToString, ShowBool;
    ReadNext(items, 0, prior);
    ReadNext(items, 1, prior);
    ReadNext(items, 2, prior);
    ReadNext(items, 3, prior);
    ReadNext(items, 4, prior);
    ReadNext(items, 5, prior);
    ReadNext(items, 6, prior);
    ReadNext(items, 7, prior);
    ReadNext(items, 8, prior);
    assert items[..9] == items;
  }

  lemma RenderedItemsReadBack(items: seq<Item>, s: Settings, prior: Settings)
    requires items == RenderedItems(s)
    ensures ReadItems(items, prior).settings == s
  {
    hide Stoi, ParseBool, IntToString, ShowBool, ReadItems;
    GeneralItemsReadBack(items[..9], s.general, prior);
    BoolsReadBack(s.autologin.enabled);
    ReadNext(items, 9, prior);
    ReadNext(items, 10, prior);
    ReadNext(items, 11, prior);
    ReadNext(items, 12, prior);
    assert items[..13] == items;
  }

  lemma PairIsLine(name: string, val: string)
    requires KeyText(name) && StorableText(val)
    ensures '\n' !in Pair(name, val)
  {
  }

  lemma RenderedLinesAreLines(s: Settings)
    requires Storable(s)
    ensures Lines(Rendered(s)) == RenderedLines(s)
  {
    hide KeyText, StorableText, GeneralKey, AutologinKey, Pair, ShowBool;
    var g, a := s.general, s.autologin;
    GeneralNames();
    AutologinNames();
    LongNamesAreKeyTexts();
    ShortNamesAreKeyTexts();
    PrintedIntegerStorable(g.vt);
    BoolsStorable(s.general.rememberLastUser);
    BoolsStorable(s.general.numlock);
    BoolsStorable(s.autologin.enabled);
    PairIsLine("default_session", g.defaultSession);
    PairIsLine("remember_last_user", ShowBool(g.rememberLastUser));
    PairIsLine("last_user", g.lastUser);
    PairIsLine("greeter_command", g.greeterCommand);
    PairIsLine("greeter_user", g.greeterUser);
    PairIsLine("vt", IntToString(g.vt));
    PairIsLine("numlock", ShowBool(g.numlock));
    PairIsLine("enabled", ShowBool(a.enabled));
    PairIsLine("user", a.user);
    PairIsLine("session", a.session);
    LinesOfJoin(RenderedLines(s));
  }

  /** Loading the saved text gives back the settings, whatever the object held before. */
  lemma RoundTrip(s: Settings, prior: Settings)
    requires Storable(s)
    ensures Loaded(Rendered(s), prior) == s
  {
    RenderedLinesAreLines(s);
    RenderedMeaning(s);
    RenderedItemsReadBack(RenderedItems(s), s, prior);
  }

  // ---------------------------------------------------------------- normal form

  lemma ShapeValueStorable(raw: string)
    requires '\n' !in raw
    ensures Shape(raw).Assignment? ==> StorableText(Shape(raw).val)
  {
    var line := Trim(raw);
    TrimAvoids(raw, '\n');
    var eq := IndexOf(line, '=');
    if eq < |line| {
      TrimAvoids(line[eq + 1..], '\n');
      var from := TrimSpec(line[eq + 1..]);
    }
  }

  lemma {:induction false} ReadItemsStorable(items: seq<Item>, prior: Settings)
    requires Storable(prior)
    requires forall k :: 0 <= k < |items| && items[k].Set? ==> StorableText(items[k].val)
    ensures Storable(ReadItems(items, prior).settings)
  {
    if items != [] {
      ReadItemsStorable(items[..|items| - 1], prior);
    }
  }

  /** From the defaults, any text loads to a storable configuration, so one save reaches a fixpoint. */
  lemma NormalForm(text: string, prior: Settings)
    ensures Storable(Loaded(text, DEFAULTS))
    ensures Loaded(Rendered(Loaded(text, DEFAULTS)), prior) == Loaded(text, DEFAULTS)
  {
    var lines := Lines(text);
    LinesHaveNoNewline(text);
    forall k | 0 <= k < |lines| && Items(lines)[k].Set? ensures StorableText(Items(lines)[k].val) {
      ShapeValueStorable(lines[k]);
    }
    ReadItemsStorable(Items(lines), DEFAULTS);
    RoundTrip(Loaded(text, DEFAULTS), prior);
  }

  /** Saving loses nothing exactly when every text value is trimmed and free of newlines. */
  lemma RoundTripExactly(s: Settings)
    ensures (forall prior :: Loaded(Rendered(s), prior) == s) <==> Storable(s)
    ensures Loaded(Rendered(s), DEFAULTS) == s <==> Storable(s)
  {
    NormalForm(Rendered(s), s);
    if Storable(s) {
      forall prior ensures Loaded(Rendered(s), prior) == s {
        RoundTrip(s, prior);
      }
    } else {
      assert Loaded(Rendered(s), DEFAULTS) != s;
    }
  }

  function WithLastUser(s: Settings, user: string): Settings {
    s.(general := s.general.(lastUser := user))
  }

  /** Remembering a user and reloading changes `last_user` and nothing else, exactly for the user
      names the file can hold. */
  lemma RememberedUserReloads(text: string, user: string)
    ensures Loaded(Rendered(WithLastUser(Loaded(text, DEFAULTS), user)), DEFAULTS)
         == WithLastUser(Loaded(text, DEFAULTS), user)
       <==> StorableText(user)
  {
    NormalForm(text, DEFAULTS);
    RoundTripExactly(WithLastUser(Loaded(text, DEFAULTS), user));
  }

  /** For one: a name that ends in a blank does not come back. */
  lemma TrailingBlankIsLost(text: string)
    ensures Loaded(Rendered(WithLastUser(Loaded(text, DEFAULTS), "ann ")), DEFAULTS).general.lastUser != "ann "
  {
    assert !Trimmed("ann ") by { assert IsBlank("ann "[3]); }
    var saved := Rendered(WithLastUser(Loaded(text, DEFAULTS), "ann "));
    NormalForm(saved, DEFAULTS);
  }

  // ---------------------------------------------------------------- the object

  /** The `Config` singleton together with the file it was loaded from. */
  class Config {
    var general: General
    var autologin: Autologin
    var file: string

    constructor (file: string)
      ensures Current() == DEFAULTS && this.file == file
    {
      general, autologin := DEFAULTS.general, DEFAULTS.autologin;
      this.file := file;
    }

    function Current(): Settings
      reads this
    {
      Settings(general, autologin)
    }

    /** `readable` is false when no candidate file exists or opening it fails. */
    method Load(readable: bool) returns (ok: bool)
      modifies this`general, this`autologin
      ensures ok == readable
      ensures Current() == if ok then Loaded(file, old(Current())) else old(Current())
      ensures ok ==> Means(Lines(file), old(Current()), Current())
    {
      if !readable {
        return false;
      }
      var currentSection := "";
      ghost var prior := Current();
      ghost var done: seq<string> := [];
      var rest := file;
      hide Shape, Resolve, Consume, Means, GroupOf, LineOf, AfterLine, ReadItems, Items, Lines;
      NothingRead(file, prior);
      while rest != ""
        invariant Lines(file) == done + Lines(rest)
        invariant ReadItems(Items(done), prior) == Reading(GroupOf(currentSection), Current())
        decreases |rest|
      {
        ReadOneMore(file, done, rest, prior);
        done := done + [LineOf(rest)];
        currentSection := LoadLine(currentSection, LineOf(rest));
        rest := AfterLine(rest);
      }
      assert done + [] == done;
      ReadItemsMeans(Lines(file), prior);
      return true;
    }

    /** The body of the loop, for one line. */
    method LoadLine(currentSection: string, raw: string) returns (section: string)
      modifies this`general, this`autologin
      ensures Reading(GroupOf(section), Current())
           == Consume(Reading(GroupOf(currentSection), old(Current())), Resolve(Shape(raw)))
    {
      hide Trim, IndexOf, GroupOf, GeneralKey, AutologinKey, Assigned, SameExcept;
      var line := Trim(raw);
      if line == "" || line[0] == '#' || line[0] == ';' {
        return currentSection;
      }
      if line[0] == '[' && line[|line| - 1] == ']' {
        return line[1..|line| - 1];
      }
      var eq := IndexOf(line, '=');
      if eq == |line| {
        return currentSection;
      }
      Assign(currentSection, Trim(line[..eq]), Trim(line[eq + 1..]));
      return currentSection;
    }

    /** The two `if` chains at the end of the loop body: the section and the key name one field or none, and
        every other field keeps its value. */
    method Assign(section: string, name: string, val: string)
      modifies this`general, this`autologin
      ensures Current() == Assigned(old(Current()), KeyNamed(section, name), val)
      ensures SameExcept(KeyNamed(section, name), old(Current()), Current())
    {
      hide ParseBool, Stoi;
      if section == "General" || section == "" {
        if name == "default_session" {
          general := general.(defaultSession := val);
        } else if name == "remember_last_user" {
          general := general.(rememberLastUser := ParseBool(val, true));
        } else if name == "last_user" {
          general := general.(lastUser := val);
        } else if name == "greeter_command" {
          general := general.(greeterCommand := val);
        } else if name == "greeter_user" {
          general := general.(greeterUser := val);
        } else if name == "vt" {
          var parsed := Stoi(val);
          if parsed.Some? {
            general := general.(vt := parsed.value);
          }
        } else if name == "numlock" {
          general := general.(numlock := ParseBool(val, false));
        }
      } else if section == "Autologin" {
        if name == "enabled" {
          autologin := autologin.(enabled := ParseBool(val, false));
        } else if name == "user" {
          autologin := autologin.(user := val);
        } else if name == "session" {
          autologin := autologin.(session := val);
        }
      }
    }

    /** One `<<` chain of `save`. */
    method WriteLine(ghost before: seq<string>, line: string) returns (ghost written: seq<string>)
      requires file == Join(before)
      modifies this`file
      ensures written == before + [line] && file == Join(written)
    {
      file := file + line + "\n";
      JoinAppend(before, line);
      written := before + [line];
    }

    method WriteGeneral(ghost before: seq<string>) returns (ghost written: seq<string>)
      requires file == Join(before)
      modifies this`file
      ensures written == before + GeneralLines(general) && file == Join(written)
    {
      hide Join, Pair, ShowBool, IntToString;
      written := WriteLine(before, "[General]");
      written := WriteLine(written, Pair("default_session", general.defaultSession));
      written := WriteLine(written, Pair("remember_last_user", ShowBool(general.rememberLastUser)));
      written := WriteLine(written, Pair("last_user", general.lastUser));
      written := WriteLine(written, Pair("greeter_command", general.greeterCommand));
      written := WriteLine(written, Pair("greeter_user", general.greeterUser));
      written := WriteLine(written, Pair("vt", IntToString(general.vt)));
      written := WriteLine(written, Pair("numlock", ShowBool(general.numlock)));
      written := WriteLine(written, "");
    }

    method WriteAutologin(ghost before: seq<string>) returns (ghost written: seq<string>)
      requires file == Join(before)
      modifies this`file
      ensures written == before + AutologinLines(autologin) && file == Join(written)
    {
      hide Join, Pair, ShowBool, IntToString;
      written := WriteLine(before, "[Autologin]");
      written := WriteLine(written, Pair("enabled", ShowBool(autologin.enabled)));
      written := WriteLine(written, Pair("user", autologin.user));
      written := WriteLine(written, Pair("session", autologin.session));
    }

    /** `writable` is false when the file cannot be opened for writing. */
    method Save(writable: bool) returns (ok: bool)
      modifies this`file
      ensures ok == writable
      ensures file == if ok then Rendered(Current()) else old(file)
    {
      if !writable {
        return false;
      }
      file := "";
      assert Join([]) == "";
      hide Join, Pair, ShowBool, IntToString;
      ghost var ls := WriteGeneral([]);
      ls := WriteAutologin(ls);
      assert ls == RenderedLines(Current());
      return true;
    }
  }

  lemma NothingRead(text: string, prior: Settings)
    ensures Lines(text) == [] + Lines(text) && Lines("") == []
    ensures ReadItems(Items([]), prior) == Reading(GroupOf(""), prior)
  {
  }

  /** One turn of the loop, on the side of the specification. */
  lemma ReadOneMore(text: string, done: seq<string>, rest: string, prior: Settings)
    requires rest != "" && Lines(text) == done + Lines(rest)
    ensures Lines(text) == done + [LineOf(rest)] + Lines(AfterLine(rest))
    ensures ReadItems(Items(done + [LineOf(rest)]), prior)
         == Consume(ReadItems(Items(done), prior), Resolve(Shape(LineOf(rest))))
  {
    hide Shape, Resolve, Consume, Lines, LineOf, AfterLine;
    LinesOneMore(rest);
    var items := Items(done + [LineOf(rest)]);
    assert items[..|items| - 1] == Items(done);
  }
}
