/** Which Wayland sessions there are, and which one a login request means. */
module Sessions {
  import opened Text
  import opened Messages

  // ---------------------------------------------------------------- one .desktop file

  datatype Item = Skipped | Group(entry: bool) | Entry(key: string, val: string)

  /** How the parser sees one line: keys and values are not trimmed on their own. */
  function Shape(raw: string): Item {
    var line := Trim(raw);
    if line == "" || line[0] == '#' then Skipped
    else if line == "[Desktop Entry]" then Group(true)
    else if line[0] == '[' then Group(false)
    else
      var eq := IndexOf(line, '=');
      if eq == |line| then Skipped else Entry(line[..eq], line[eq + 1..])
  }

  function Items(lines: seq<string>): (items: seq<Item>)
    ensures |items| == |lines|
    ensures forall i :: 0 <= i < |lines| ==> items[i] == Shape(lines[i])
  {
    seq(|lines|, i requires 0 <= i < |lines| => Shape(lines[i]))
  }

  /** The loop's variables. */
  datatype Reading = Reading(inEntry: bool, name: string, exec: string, comment: string, desktopNames: string)

  const NOTHING_READ := Reading(false, "", "", "", "")

  function Consume(r: Reading, item: Item): Reading {
    match item
    case Skipped => r
    case Group(entry) => r.(inEntry := entry)
    case Entry(key, val) =>
      if !r.inEntry then r
      else if key == "Name" && r.name == "" then r.(name := val)
      else if key == "Exec" && r.exec == "" then r.(exec := val)
      else if key == "Comment" && r.comment == "" then r.(comment := val)
      else if key == "DesktopNames" then r.(desktopNames := val)
      else r
  }

  function ReadItems(items: seq<Item>): Reading {
    if items == [] then NOTHING_READ else Consume(ReadItems(items[..|items| - 1]), items[|items| - 1])
  }

  /** Whether a line after `items` is inside a `[Desktop Entry]` group: what the last header says. */
  function InEntry(items: seq<Item>): bool {
    if items == [] then false
    else if items[|items| - 1].Group? then items[|items| - 1].entry
    else InEntry(items[..|items| - 1])
  }

  ghost predicate SetsItem(items: seq<Item>, i: nat, key: string) {
    i < |items| && items[i].Entry? && items[i].key == key && InEntry(items[..i])
  }

  /** The first non-empty value of `key` in the entry groups, or nothing. */
  ghost predicate FirstItem(items: seq<Item>, key: string, value: string) {
    || (exists i: nat :: SetsItem(items, i, key) && items[i].val == value != ""
                         && forall j: nat :: j < i && SetsItem(items, j, key) ==> items[j].val == "")
    || (value == "" && forall i: nat :: SetsItem(items, i, key) ==> items[i].val == "")
  }

  /** The last value of `key` in the entry groups, or nothing. */
  ghost predicate LastItem(items: seq<Item>, key: string, value: string) {
    || (exists i: nat :: SetsItem(items, i, key) && items[i].val == value
                         && forall j: nat :: SetsItem(items, j, key) ==> j <= i)
    || (value == "" && forall i: nat :: !SetsItem(items, i, key))
  }

  lemma {:induction false} InEntryIsLastGroup(items: seq<Item>)
    ensures ReadItems(items).inEntry == InEntry(items)
  {
    if items != [] {
      InEntryIsLastGroup(items[..|items| - 1]);
    }
  }

  lemma SetsInPrefix(items: seq<Item>, i: nat, key: string)
    requires i < |items| - 1
    ensures SetsItem(items[..|items| - 1], i, key) <==> SetsItem(items, i, key)
  {
    assert items[..|items| - 1][..i] == items[..i];
  }

  lemma FirstItemStep(items: seq<Item>, key: string, was: string, now: string)
    requires items != [] && FirstItem(items[..|items| - 1], key, was)
    requires now == if SetsItem(items, |items| - 1, key) && was == "" then items[|items| - 1].val else was
    ensures FirstItem(items, key, now)
  {
    var init := items[..|items| - 1];
    forall i: nat | i < |init| ensures SetsItem(init, i, key) <==> SetsItem(items, i, key) {
      SetsInPrefix(items, i, key);
    }
    if was == "" {
      assert forall i: nat :: SetsItem(init, i, key) ==> init[i].val == "";
      if !SetsItem(items, |items| - 1, key) {
        assert forall i: nat :: SetsItem(items, i, key) ==> i < |init|;
      }
    } else {
      var i: nat :| SetsItem(init, i, key) && init[i].val == was
                    && forall j: nat :: j < i && SetsItem(init, j, key) ==> init[j].val == "";
      assert SetsItem(items, i, key);
    }
  }

  lemma LastItemStep(items: seq<Item>, key: string, was: string, now: string)
    requires items != [] && LastItem(items[..|items| - 1], key, was)
    requires now == if SetsItem(items, |items| - 1, key) then items[|items| - 1].val else was
    ensures LastItem(items, key, now)
  {
    var init := items[..|items| - 1];
    forall i: nat | i < |init| ensures SetsItem(init, i, key) <==> SetsItem(items, i, key) {
      SetsInPrefix(items, i, key);
    }
    if !SetsItem(items, |items| - 1, key) {
      assert forall i: nat :: SetsItem(items, i, key) <==> SetsItem(init, i, key);
    }
  }

  /** What the four fields mean, whatever the lines and however many entry groups they have. */
  ghost predicate ItemsMean(items: seq<Item>, r: Reading) {
    && FirstItem(items, "Name", r.name)
    && FirstItem(items, "Exec", r.exec)
    && FirstItem(items, "Comment", r.comment)
    && LastItem(items, "DesktopNames", r.desktopNames)
  }

  lemma KeysDiffer()
    ensures "Name" != "Exec" && "Name" != "Comment" && "Name" != "DesktopNames"
    ensures "Exec" != "Comment" && "Exec" != "DesktopNames" && "Comment" != "DesktopNames"
  {
    assert |"Name"| == |"Exec"| == 4 && "Name"[0] != "Exec"[0];
    assert |"Comment"| == 7 && |"DesktopNames"| == 12;
  }

  /** What one line does to each of the four fields. */
  lemma FieldsAfter(r: Reading, item: Item)
    ensures var sets := (key: string) => r.inEntry && item.Entry? && item.key == key;
      var now := Consume(r, item);
      && now.name == (if sets("Name") && r.name == "" then item.val else r.name)
      && now.exec == (if sets("Exec") && r.exec == "" then item.val else r.exec)
      && now.comment == (if sets("Comment") && r.comment == "" then item.val else r.comment)
      && now.desktopNames == (if sets("DesktopNames") then item.val else r.desktopNames)
  {
    KeysDiffer();
  }

  lemma {:induction false} ReadItemsMean(items: seq<Item>)
    ensures ItemsMean(items, ReadItems(items))
  {
    if items != [] {
      var init, last := items[..|items| - 1], items[|items| - 1];
      ReadItemsMean(init);
      InEntryIsLastGroup(init);
      var was, now := ReadItems(init), ReadItems(items);
      FieldsAfter(was, last);
      hide FirstItem, LastItem, Consume, ReadItems, InEntry;
      FirstItemStep(items, "Name", was.name, now.name);
      FirstItemStep(items, "Exec", was.exec, now.exec);
      FirstItemStep(items, "Comment", was.comment, now.comment);
      LastItemStep(items, "DesktopNames", was.desktopNames, now.desktopNames);
    }
  }

  // ---------------------------------------------------------------- the lines themselves

  /** Apart from blanks around it the line is a header, of whatever group. */
  ghost predicate IsGroup(raw: string) {
    exists line :: IsTrimOf(raw, line) && line != "" && line[0] == '['
  }

  /** Apart from blanks around it the line is no comment and no header, and reads `key=val`. */
  ghost predicate IsEntry(raw: string, key: string, val: string) {
    var line := key + "=" + val;
    '=' !in key && IsTrimOf(raw, line) && line[0] != '#' && line[0] != '['
  }

  /** The last header in `lines` is `[Desktop Entry]`. */
  ghost predicate InEntryGroup(lines: seq<string>) {
    exists j :: 0 <= j < |lines| && IsTrimOf(lines[j], "[Desktop Entry]")
                && forall k :: j < k < |lines| ==> !IsGroup(lines[k])
  }

  ghost predicate Says(lines: seq<string>, i: nat, key: string, val: string) {
    i < |lines| && IsEntry(lines[i], key, val) && InEntryGroup(lines[..i])
  }

  /** The first non-empty value of `key` in the entry groups, or nothing. */
  ghost predicate FirstNonEmpty(lines: seq<string>, key: string, value: string) {
    || (exists i: nat :: Says(lines, i, key, value) && value != ""
                         && forall j: nat, other :: j < i && Says(lines, j, key, other) ==> other == "")
    || (value == "" && forall j: nat, other :: Says(lines, j, key, other) ==> other == "")
  }

  /** The last value of `key` in the entry groups, or nothing. */
  ghost predicate LastValue(lines: seq<string>, key: string, value: string) {
    || (exists i: nat :: Says(lines, i, key, value)
                         && forall j: nat, other :: Says(lines, j, key, other) ==> j <= i)
    || (value == "" && forall j: nat, other :: !Says(lines, j, key, other))
  }

  lemma GroupExactly(raw: string)
    ensures Shape(raw).Group? <==> IsGroup(raw)
    ensures Shape(raw) == Group(true) <==> IsTrimOf(raw, "[Desktop Entry]")
  {
    hide Trim, IsTrimOf, IndexOf;
    var line := Trim(raw);
    TrimExactly(raw, line);
    TrimExactly(raw, "[Desktop Entry]");
    assert "[Desktop Entry]"[0] == '[';
    if other :| IsTrimOf(raw, other) && other != "" && other[0] == '[' {
      TrimExactly(raw, other);
    }
  }

  lemma EntryExactly(raw: string, key: string, val: string)
    ensures Shape(raw) == Entry(key, val) <==> IsEntry(raw, key, val)
  {
    hide Trim, IsTrimOf, IndexOf;
    var line, whole := Trim(raw), key + "=" + val;
    TrimExactly(raw, whole);
    assert "[Desktop Entry]"[0] == '[';
    if Shape(raw) == Entry(key, val) {
      var eq := IndexOf(line, '=');
      IndexOfFirst(line, '=');
      assert line == line[..eq] + "=" + line[eq + 1..];
    }
    if IsEntry(raw, key, val) {
      assert line == key + ['='] + val;
      IndexOfPrefix(key, '=', val);
      assert line[..|key|] == key && line[|key| + 1..] == val;
    }
  }

  lemma {:induction false} InEntryExactly(lines: seq<string>)
    ensures InEntry(Items(lines)) <==> InEntryGroup(lines)
  {
    hide Shape, IsGroup, IsTrimOf;
    if lines != [] {
      var init, last := lines[..|lines| - 1], lines[|lines| - 1];
      InEntryExactly(init);
      GroupExactly(last);
      assert Items(lines)[..|lines| - 1] == Items(init);
      assert forall k :: 0 <= k < |init| ==> lines[k] == init[k];
      if !Shape(last).Group? && InEntryGroup(lines) {
        var j :| 0 <= j < |lines| && IsTrimOf(lines[j], "[Desktop Entry]")
                 && forall k :: j < k < |lines| ==> !IsGroup(lines[k]);
        assert IsTrimOf(init[j], "[Desktop Entry]");
      }
    }
  }

  lemma SaysExactly(lines: seq<string>, i: nat, key: string, val: string)
    ensures Says(lines, i, key, val) <==> SetsItem(Items(lines), i, key) && Items(lines)[i].val == val
  {
    hide Shape, IsEntry, InEntry, InEntryGroup;
    if i < |lines| {
      InEntryExactly(lines[..i]);
      assert Items(lines)[..i] == Items(lines[..i]);
      EntryExactly(lines[i], key, val);
    }
  }

  /** What is said of the items is said of the lines. */
  lemma FirstExactly(lines: seq<string>, key: string, value: string)
    requires FirstItem(Items(lines), key, value)
    ensures FirstNonEmpty(lines, key, value)
  {
    var items := Items(lines);
    SetsInside(lines, key);
    hide Says, SetsItem, Items;
    forall i: nat, val ensures Says(lines, i, key, val) <==> SetsItem(items, i, key) && items[i].val == val {
      SaysExactly(lines, i, key, val);
    }
    if i: nat :| SetsItem(items, i, key) && items[i].val == value != ""
                 && forall j: nat :: j < i && SetsItem(items, j, key) ==> items[j].val == "" {
      assert Says(lines, i, key, value);
    }
  }

  lemma LastExactly(lines: seq<string>, key: string, value: string)
    requires LastItem(Items(lines), key, value)
    ensures LastValue(lines, key, value)
  {
    var items := Items(lines);
    SetsInside(lines, key);
    hide Says, SetsItem, Items;
    forall i: nat, val ensures Says(lines, i, key, val) <==> SetsItem(items, i, key) && items[i].val == val {
      SaysExactly(lines, i, key, val);
    }
    if i: nat :| SetsItem(items, i, key) && items[i].val == value
                 && forall j: nat :: SetsItem(items, j, key) ==> j <= i {
      assert Says(lines, i, key, value);
    }
  }

  lemma SetsInside(lines: seq<string>, key: string)
    ensures forall i: nat :: SetsItem(Items(lines), i, key) ==> i < |Items(lines)| && Items(lines)[i].Entry?
  {
  }

  /** What the four fields mean, whatever the lines and however many entry groups they have. */
  ghost predicate Means(lines: seq<string>, r: Reading) {
    && FirstNonEmpty(lines, "Name", r.name)
    && FirstNonEmpty(lines, "Exec", r.exec)
    && FirstNonEmpty(lines, "Comment", r.comment)
    && LastValue(lines, "DesktopNames", r.desktopNames)
  }

  lemma ReadItemsMeans(lines: seq<string>)
    ensures Means(lines, ReadItems(Items(lines)))
  {
    var r := ReadItems(Items(lines));
    ReadItemsMean(Items(lines));
    hide FirstItem, LastItem, FirstNonEmpty, LastValue, ReadItems, Items;
    FirstExactly(lines, "Name", r.name);
    FirstExactly(lines, "Exec", r.exec);
    FirstExactly(lines, "Comment", r.comment);
    LastExactly(lines, "DesktopNames", r.desktopNames);
  }

  // ---------------------------------------------------------------- one directory

  /** `None` is a file that cannot be opened. */
  datatype File = File(name: string, regular: bool, content: Option<string>)

  /** Where the extension of a file name starts: the last dot, unless there is none or it comes first. */
  function ExtensionStart(name: string): (k: nat)
    ensures k <= |name|
  {
    if name == "." || name == ".." then |name|
    else
      var k := LastDot(name);
      if k == 0 then |name| else k
  }

  function LastDot(name: string): (k: nat)
    ensures k <= |name|
  {
    if name == "" then 0
    else if name[|name| - 1] == '.' then |name| - 1
    else
      var k := LastDot(name[..|name| - 1]);
      if k == |name| - 1 then |name| else k
  }

  function Stem(name: string): string { name[..ExtensionStart(name)] }

  function Extension(name: string): string { name[ExtensionStart(name)..] }

  /** Where a file name is cut: before its last dot, unless that is where it starts. */
  lemma NameIsCut(name: string)
    ensures Stem(name) + Extension(name) == name
    ensures Extension(name) == "" <==> name == ".." || forall k :: 0 < k < |name| ==> name[k] != '.'
    ensures Extension(name) != "" ==> Stem(name) != "" && Extension(name)[0] == '.' && '.' !in Extension(name)[1..]
  {
    LastDotSpec(name);
    hide LastDot;
  }

  lemma {:induction false} LastDotSpec(name: string)
    ensures var k := LastDot(name);
      && (k < |name| ==> name[k] == '.' && forall i :: k < i < |name| ==> name[i] != '.')
      && (k == |name| ==> '.' !in name)
  {
    if name != "" && name[|name| - 1] != '.' {
      LastDotSpec(name[..|name| - 1]);
    }
  }

  /** The names of `.desktop` files. */
  lemma DesktopNames(name: string)
    ensures Extension(name) == ".desktop" <==> exists id :: id != "" && name == id + ".desktop"
    ensures forall id :: id != "" && name == id + ".desktop" ==> Stem(name) == id
  {
    hide Stem, Extension;
    NameIsCut(name);
    forall id | id != "" && name == id + ".desktop" ensures Stem(name) == id && Extension(name) == ".desktop" {
      DesktopName(id);
    }
  }

  /** What `parse_desktop_file` makes of the fields it read. */
  function Completed(path: string, name: string, wayland: bool, r: Reading): SessionInfo {
    var id := Stem(name);
    var title := if r.name == "" then id else r.name;
    SessionInfo(id, title, r.exec, r.comment, if r.desktopNames == "" then title else r.desktopNames,
                path + "/" + name, wayland)
  }

  function Parsed(path: string, file: File, wayland: bool): SessionInfo {
    match file.content
    case None => BLANK_SESSION.(id := Stem(file.name), desktopFile := path + "/" + file.name, isWayland := wayland)
    case Some(text) => Completed(path, file.name, wayland, ReadItems(Items(Lines(text))))
  }

  /** What a file says about its session: the command and the comment are the first that are not empty; the name is the
      first that is not empty, or else the id; the desktop names are the last ones, or else the name. */
  ghost predicate Describes(info: SessionInfo, lines: seq<string>) {
    && FirstNonEmpty(lines, "Exec", info.exec)
    && FirstNonEmpty(lines, "Comment", info.comment)
    && (exists name :: FirstNonEmpty(lines, "Name", name) && info.name == if name != "" then name else info.id)
    && (exists names :: LastValue(lines, "DesktopNames", names)
                        && info.desktopNames == if names != "" then names else info.name)
  }

  method ParseDesktopFile(path: string, file: File, wayland: bool) returns (info: SessionInfo)
    ensures info == Parsed(path, file, wayland)
    ensures info.id == Stem(file.name) && info.desktopFile == path + "/" + file.name && info.isWayland == wayland
    ensures match file.content
            case Some(text) => Describes(info, Lines(text))
            case None => info.name == info.exec == info.comment == info.desktopNames == ""
  {
    if file.content.None? {
      return BLANK_SESSION.(id := Stem(file.name), desktopFile := path + "/" + file.name, isWayland := wayland);
    }
    var text := file.content.value;
    var r := NOTHING_READ;
    var rest := text;
    ghost var done: seq<string> := [];
    hide Stem, Shape, LineOf, AfterLine, FirstNonEmpty, LastValue;
    NothingRead(text);
    while rest != ""
      invariant Lines(text) == done + Lines(rest)
      invariant r == ReadItems(Items(done))
      decreases |rest|
    {
      ReadOneMore(text, done, rest);
      r := ReadLine(r, LineOf(rest));
      done := done + [LineOf(rest)];
      rest := AfterLine(rest);
    }
    assert done + [] == done;
    ReadItemsMeans(Lines(text));
    info := Completed(path, file.name, wayland, r);
  }

  lemma NothingRead(text: string)
    ensures Lines(text) == [] + Lines(text) && Lines("") == []
    ensures ReadItems(Items([])) == NOTHING_READ
  {
  }

  lemma ReadOneMore(text: string, done: seq<string>, rest: string)
    requires rest != "" && Lines(text) == done + Lines(rest)
    ensures Lines(text) == done + [LineOf(rest)] + Lines(AfterLine(rest))
    ensures ReadItems(Items(done + [LineOf(rest)])) == Consume(ReadItems(Items(done)), Shape(LineOf(rest)))
  {
    hide Shape, Consume, Lines, LineOf, AfterLine;
    LinesOneMore(rest);
    var items := Items(done + [LineOf(rest)]);
    assert items[..|items| - 1] == Items(done);
  }

  /** The body of the loop. */
  method ReadLine(before: Reading, raw: string) returns (r: Reading)
    ensures r == Consume(before, Shape(raw))
  {
    hide Trim, IndexOf;
    r := before;
    var line := Trim(raw);
    if line == "" || line[0] == '#' {
      return;
    }
    if line == "[Desktop Entry]" {
      r := r.(inEntry := true);
      return;
    } else if line[0] == '[' {
      r := r.(inEntry := false);
      return;
    }
    if !r.inEntry {
      return;
    }
    var eq := IndexOf(line, '=');
    if eq == |line| {
      return;
    }
    var key, val := line[..eq], line[eq + 1..];
    if key == "Name" && r.name == "" {
      r := r.(name := val);
    } else if key == "Exec" && r.exec == "" {
      r := r.(exec := val);
    } else if key == "Comment" && r.comment == "" {
      r := r.(comment := val);
    } else if key == "DesktopNames" {
      r := r.(desktopNames := val);
    }
  }

  // ---------------------------------------------------------------- no two sessions alike

  /** Two sessions clash if they share the id or the name; this is not transitive. */
  predicate Clash(a: SessionInfo, b: SessionInfo) {
    a.id == b.id || a.name == b.name
  }

  predicate Usable(s: SessionInfo) {
    s.name != "" && s.exec != ""
  }

  predicate ClashesWithAny(s: SessionInfo, kept: seq<SessionInfo>) {
    exists k :: 0 <= k < |kept| && Clash(kept[k], s)
  }

  function Keep(kept: seq<SessionInfo>, s: SessionInfo): seq<SessionInfo> {
    if Usable(s) && !ClashesWithAny(s, kept) then kept + [s] else kept
  }

  /** The list after all of `candidates` were offered in turn. */
  function Greedy(kept: seq<SessionInfo>, candidates: seq<SessionInfo>): seq<SessionInfo> {
    if candidates == [] then kept
    else Keep(Greedy(kept, candidates[..|candidates| - 1]), candidates[|candidates| - 1])
  }

  ghost predicate PairwiseDistinct(kept: seq<SessionInfo>) {
    forall i, j :: 0 <= i < j < |kept| ==> kept[i].id != kept[j].id && kept[i].name != kept[j].name
  }

  lemma {:induction false} GreedyDistinct(kept: seq<SessionInfo>, candidates: seq<SessionInfo>)
    requires PairwiseDistinct(kept)
    ensures PairwiseDistinct(Greedy(kept, candidates))
  {
    if candidates != [] {
      GreedyDistinct(kept, candidates[..|candidates| - 1]);
    }
  }

  /** Two passes are one pass over the concatenation. */
  lemma {:induction false} GreedyConcat(kept: seq<SessionInfo>, a: seq<SessionInfo>, b: seq<SessionInfo>)
    ensures Greedy(Greedy(kept, a), b) == Greedy(kept, a + b)
  {
    if b == [] {
      assert a + b == a;
    } else {
      GreedyConcat(kept, a, b[..|b| - 1]);
      assert (a + b)[..|a + b| - 1] == a + b[..|b| - 1];
    }
  }

  /** Nothing more is dropped when the result is offered again. */
  lemma {:induction false} GreedyIdempotent(kept: seq<SessionInfo>)
    requires PairwiseDistinct(kept)
    requires forall i :: 0 <= i < |kept| ==> Usable(kept[i])
    ensures Greedy([], kept) == kept
  {
    if kept != [] {
      var init, last := kept[..|kept| - 1], kept[|kept| - 1];
      assert Usable(last) && PairwiseDistinct(init);
      DistinctIsKept(kept);
      hide Usable, Clash, ClashesWithAny, PairwiseDistinct, Keep;
      GreedyIdempotent(init);
    }
  }

  lemma DistinctIsKept(kept: seq<SessionInfo>)
    requires kept != [] && PairwiseDistinct(kept) && Usable(kept[|kept| - 1])
    ensures Keep(kept[..|kept| - 1], kept[|kept| - 1]) == kept
  {
    hide Usable;
    var init, last := kept[..|kept| - 1], kept[|kept| - 1];
    assert forall k :: 0 <= k < |init| ==> init[k] == kept[k];
    assert !ClashesWithAny(last, init);
    assert init + [last] == kept;
  }

  lemma {:induction false} GreedyUsable(kept: seq<SessionInfo>, candidates: seq<SessionInfo>)
    requires forall i :: 0 <= i < |kept| ==> Usable(kept[i])
    ensures forall i :: 0 <= i < |Greedy(kept, candidates)| ==> Usable(Greedy(kept, candidates)[i])
  {
    if candidates != [] {
      GreedyUsable(kept, candidates[..|candidates| - 1]);
    }
  }

  /** The rule of the selection, stated on positions: a candidate is in exactly if it is usable and
      clashes with no earlier candidate that is in. */
  ghost predicate FirstComeFirstServed(candidates: seq<SessionInfo>, chosen: set<nat>) {
    forall i: nat :: i < |candidates| ==>
      (i in chosen <==>
        Usable(candidates[i]) && forall j: nat :: j < i && j in chosen ==> !Clash(candidates[j], candidates[i]))
  }

  /** The chosen candidates, in their own order. */
  ghost function Picked(candidates: seq<SessionInfo>, chosen: set<nat>): seq<SessionInfo> {
    if candidates == [] then []
    else
      var n := |candidates| - 1;
      Picked(candidates[..n], chosen) + if n in chosen then [candidates[n]] else []
  }

  lemma {:induction false} PickedMembers(candidates: seq<SessionInfo>, chosen: set<nat>, s: SessionInfo)
    ensures ClashesWithAny(s, Picked(candidates, chosen))
       <==> exists j: nat :: j < |candidates| && j in chosen && Clash(candidates[j], s)
  {
    if candidates != [] {
      var n := |candidates| - 1;
      var before, after := Picked(candidates[..n], chosen), Picked(candidates, chosen);
      PickedMembers(candidates[..n], chosen, s);
      assert forall k :: 0 <= k < |before| ==> after[k] == before[k];
      if n in chosen {
        assert after[|before|] == candidates[n];
      }
    }
  }

  /** The scanner's list is the one that the rule determines: any set of positions that obeys the rule
      picks exactly that list. */
  lemma {:induction false} GreedyIsTheSelection(candidates: seq<SessionInfo>, chosen: set<nat>)
    requires FirstComeFirstServed(candidates, chosen)
    ensures Greedy([], candidates) == Picked(candidates, chosen)
  {
    if candidates != [] {
      var n := |candidates| - 1;
      GreedyIsTheSelection(candidates[..n], chosen);
      PickedMembers(candidates[..n], chosen, candidates[n]);
    }
  }

  /** There is such a set of positions. */
  lemma {:induction false} SelectionExists(candidates: seq<SessionInfo>) returns (chosen: set<nat>)
    ensures FirstComeFirstServed(candidates, chosen)
    ensures forall i :: i in chosen ==> i < |candidates|
  {
    chosen := {};
    if candidates != [] {
      var n := |candidates| - 1;
      var init := SelectionExists(candidates[..n]);
      if Usable(candidates[n]) && forall j: nat :: j < n && j in init ==> !Clash(candidates[j], candidates[n]) {
        chosen := init + {n};
      } else {
        chosen := init;
      }
      forall i: nat | i < |candidates|
        ensures i in chosen <==>
          Usable(candidates[i]) && forall j: nat :: j < i && j in chosen ==> !Clash(candidates[j], candidates[i])
      {
        if i < n {
          assert candidates[..n][i] == candidates[i];
          assert forall j: nat :: j < i ==> (j in chosen <==> j in init) && candidates[..n][j] == candidates[j];
        } else {
          assert forall j: nat :: j < n ==> (j in chosen <==> j in init);
        }
      }
    }
  }

  // ---------------------------------------------------------------- scanning

  /** What the file system says about a directory: it may not be there. */
  datatype Directory = Missing | Listing(path: string, files: seq<File>)

  /** The sessions described by the regular `.desktop` files, in listing order. */
  function Candidates(path: string, files: seq<File>, wayland: bool): seq<SessionInfo> {
    if files == [] then []
    else
      var file := files[|files| - 1];
      Candidates(path, files[..|files| - 1], wayland)
      + if file.regular && Extension(file.name) == ".desktop" then [Parsed(path, file, wayland)] else []
  }

  function Offered(dir: Directory): seq<SessionInfo> {
    match dir
    case Missing => []
    case Listing(path, files) => Candidates(path, files, true)
  }

  const FALLBACK := SessionInfo("miquland", "miquland (Wayland)", "miquland",
                                "Default miquland Wayland Compositor", "miquland", "", true)

  /** The list that the two directories determine. */
  function Scanned(usr: Directory, local: Directory): seq<SessionInfo> {
    var kept := Greedy([], Offered(usr) + Offered(local));
    if kept == [] then [FALLBACK] else kept
  }

  /** The vector that the scanner fills. */
  class SessionList {
    var sessions: seq<SessionInfo>

    constructor ()
      ensures sessions == []
    {
      sessions := [];
    }

    method ScanDirectory(dir: Directory)
      modifies this
      ensures sessions == Greedy(old(sessions), Offered(dir))
    {
      if dir.Missing? {
        return;
      }
      hide Extension, Parsed, Candidates, Greedy;
      NoCandidates(dir.path, sessions);
      assert dir.files[..0] == [];
      for n := 0 to |dir.files|
        invariant sessions == Greedy(old(sessions), Candidates(dir.path, dir.files[..n], true))
      {
        CandidatesOneMore(dir.path, dir.files, n);
        var file := dir.files[n];
        if file.regular && Extension(file.name) == ".desktop" {
          var session := ParseDesktopFile(dir.path, file, true);
          GreedyOneMore(old(sessions), Candidates(dir.path, dir.files[..n], true), session);
          if session.name != "" && session.exec != "" {
            var duplicate := FindClash(session);
            if !duplicate {
              sessions := sessions + [session];
            }
          }
        }
      }
      assert dir.files[..|dir.files|] == dir.files;
    }

    /** The `find_if` over the sessions kept so far. */
    method FindClash(s: SessionInfo) returns (found: bool)
      ensures found == ClashesWithAny(s, sessions)
    {
      for k := 0 to |sessions|
        invariant forall i :: 0 <= i < k ==> !Clash(sessions[i], s)
      {
        if sessions[k].id == s.id || sessions[k].name == s.name {
          return true;
        }
      }
      return false;
    }
  }

  lemma NoCandidates(path: string, kept: seq<SessionInfo>)
    ensures Greedy(kept, Candidates(path, [], true)) == kept
  {
  }

  lemma CandidatesOneMore(path: string, files: seq<File>, n: nat)
    requires n < |files|
    ensures Candidates(path, files[..n + 1], true)
         == if files[n].regular && Extension(files[n].name) == ".desktop"
            then Candidates(path, files[..n], true) + [Parsed(path, files[n], true)]
            else Candidates(path, files[..n], true)
  {
    hide Extension, Parsed;
    assert files[..n + 1][..n] == files[..n];
    assert Candidates(path, files[..n], true) + [] == Candidates(path, files[..n], true);
  }

  lemma GreedyOneMore(kept: seq<SessionInfo>, candidates: seq<SessionInfo>, s: SessionInfo)
    ensures Greedy(kept, candidates + [s]) == Keep(Greedy(kept, candidates), s)
  {
    assert (candidates + [s])[..|candidates|] == candidates;
  }

  method ScanAll(usr: Directory, local: Directory) returns (sessions: seq<SessionInfo>)
    ensures sessions == Scanned(usr, local)
  {
    var list := new SessionList();
    list.ScanDirectory(usr);
    list.ScanDirectory(local);
    GreedyConcat([], Offered(usr), Offered(local));
    sessions := list.sessions;
    if sessions == [] {
      sessions := [FALLBACK];
    }
  }

  /** The candidates of a directory come from its files, one after the other in listing order. */
  lemma {:induction false} CandidatesInOrder(path: string, files: seq<File>, more: seq<File>)
    ensures Candidates(path, files + more, true) == Candidates(path, files, true) + Candidates(path, more, true)
  {
    hide Extension, Parsed;
    if more == [] {
      assert files + more == files;
    } else {
      var n := |more| - 1;
      CandidatesInOrder(path, files, more[..n]);
      assert (files + more)[..|files| + n] == files + more[..n];
    }
  }

  /** Only a regular file whose name ends in ".desktop" after something else is a candidate. */
  lemma OneCandidate(path: string, file: File)
    ensures Candidates(path, [file], true)
         == if file.regular && exists id :: id != "" && file.name == id + ".desktop"
            then [Parsed(path, file, true)] else []
    ensures Offered(Listing(path, [file])) == Candidates(path, [file], true) && Offered(Missing) == []
  {
    DesktopNames(file.name);
    hide Extension, Parsed;
    assert [file][..0] == [];
  }

  /** A scan is the selection among the candidates of the first directory and then those of the second one, or the
      session that is there without any. */
  lemma ScannedIsTheSelection(usr: Directory, local: Directory, chosen: set<nat>)
    requires FirstComeFirstServed(Offered(usr) + Offered(local), chosen)
    ensures var picked := Picked(Offered(usr) + Offered(local), chosen);
      if picked != [] then Scanned(usr, local) == picked
      else Scanned(usr, local) == [SessionInfo("miquland", "miquland (Wayland)", "miquland",
                                               "Default miquland Wayland Compositor", "miquland", "", true)]
  {
    hide FirstComeFirstServed, Greedy, Picked;
    GreedyIsTheSelection(Offered(usr) + Offered(local), chosen);
  }

  /** A scan never comes back empty-handed, and no two of its sessions share an id or a name. */
  lemma ScannedWellFormed(usr: Directory, local: Directory)
    ensures Scanned(usr, local) != []
    ensures PairwiseDistinct(Scanned(usr, local))
    ensures forall i :: 0 <= i < |Scanned(usr, local)| ==> Usable(Scanned(usr, local)[i])
    ensures Greedy([], Scanned(usr, local)) == Scanned(usr, local)
  {
    GreedyDistinct([], Offered(usr) + Offered(local));
    GreedyUsable([], Offered(usr) + Offered(local));
    GreedyIdempotent(Scanned(usr, local));
  }

  // ---------------------------------------------------------------- the session of a login request

  /** The three-way test of the login handler. */
  predicate Answers(s: SessionInfo, desktopName: string, sessionExec: string) {
    s.id == desktopName || s.name == desktopName || s.exec == sessionExec
  }

  function FirstAnswer(cache: seq<SessionInfo>, desktopName: string, sessionExec: string): Option<SessionInfo> {
    if cache == [] then None
    else if Answers(cache[0], desktopName, sessionExec) then Some(cache[0])
    else FirstAnswer(cache[1..], desktopName, sessionExec)
  }

  /** The session that a login launches. */
  function Chosen(cache: seq<SessionInfo>, desktopName: string, sessionExec: string): SessionInfo {
    match FirstAnswer(cache, desktopName, sessionExec)
    case Some(s) => s
    case None =>
      var name := if desktopName == "" then "Wayland" else desktopName;
      BLANK_SESSION.(
        name := name,
        exec := if sessionExec == "" then "miquland" else sessionExec,
        desktopNames := name)
  }

  /** The first session that has the desktop name as its id or its name, or runs the command; without one, a session
      that is made up. */
  lemma ChosenExactly(cache: seq<SessionInfo>, desktopName: string, sessionExec: string, f: nat)
    requires f <= |cache|
    requires forall i :: 0 <= i < f ==>
      cache[i].id != desktopName && cache[i].name != desktopName && cache[i].exec != sessionExec
    requires f < |cache| ==>
      cache[f].id == desktopName || cache[f].name == desktopName || cache[f].exec == sessionExec
    ensures f < |cache| ==> Chosen(cache, desktopName, sessionExec) == cache[f]
    ensures f == |cache| ==>
      var name := if desktopName != "" then desktopName else "Wayland";
      Chosen(cache, desktopName, sessionExec)
        == SessionInfo("", name, if sessionExec != "" then sessionExec else "miquland", "", name, "", true)
  {
    if f < |cache| {
      FirstAnswerAt(cache, desktopName, sessionExec, f);
    } else {
      NoAnswer(cache, desktopName, sessionExec);
    }
  }

  lemma {:induction false} NoAnswer(cache: seq<SessionInfo>, desktopName: string, sessionExec: string)
    requires forall i :: 0 <= i < |cache| ==> !Answers(cache[i], desktopName, sessionExec)
    ensures FirstAnswer(cache, desktopName, sessionExec) == None
  {
    if cache != [] {
      NoAnswer(cache[1..], desktopName, sessionExec);
    }
  }

  lemma {:induction false} FirstAnswerAt(cache: seq<SessionInfo>, desktopName: string, sessionExec: string, f: nat)
    requires f < |cache| && Answers(cache[f], desktopName, sessionExec)
    requires forall i :: 0 <= i < f ==> !Answers(cache[i], desktopName, sessionExec)
    ensures FirstAnswer(cache, desktopName, sessionExec) == Some(cache[f])
  {
    if f > 0 {
      FirstAnswerAt(cache[1..], desktopName, sessionExec, f - 1);
    }
  }

  lemma {:induction false} FirstAnswerIndex(cache: seq<SessionInfo>, k: nat, desktopName: string, sessionExec: string)
    returns (f: nat)
    requires k < |cache| && Answers(cache[k], desktopName, sessionExec)
    ensures f <= k && Answers(cache[f], desktopName, sessionExec)
    ensures forall i :: 0 <= i < f ==> !Answers(cache[i], desktopName, sessionExec)
  {
    if i: nat :| i < k && Answers(cache[i], desktopName, sessionExec) {
      f := FirstAnswerIndex(cache, i, desktopName, sessionExec);
    } else {
      f := k;
    }
  }

  /** No earlier session is mistaken for entry `k` because its name is `k`'s id, unless a session that
      runs the same command comes before it. */
  predicate NotMistaken(cache: seq<SessionInfo>, k: nat)
    requires k < |cache|
  {
    forall i :: 0 <= i < k && cache[i].name == cache[k].id && cache[i].exec != cache[k].exec ==>
      exists j :: 0 <= j < i && cache[j].exec == cache[k].exec
  }

  /** Picking entry `k` in the greeter launches the command of entry `k` exactly if it is not mistaken. */
  lemma PickedCommandRuns(cache: seq<SessionInfo>, k: nat)
    requires PairwiseDistinct(cache) && k < |cache|
    ensures FirstAnswer(cache, cache[k].id, cache[k].exec).Some?
    ensures Chosen(cache, cache[k].id, cache[k].exec).exec == cache[k].exec <==> NotMistaken(cache, k)
  {
    var id, exec := cache[k].id, cache[k].exec;
    var f := FirstAnswerIndex(cache, k, id, exec);
    FirstAnswerAt(cache, id, exec, f);
    if cache[f].exec != exec {
      assert f < k && cache[f].name == id;
    } else {
      forall i | 0 <= i < k && cache[i].name == id && cache[i].exec != exec
        ensures exists j :: 0 <= j < i && cache[j].exec == exec
      {
        assert Answers(cache[i], id, exec);
        assert f < i;
      }
    }
  }

  /** It is launched as entry `k`, with its names, exactly if no earlier entry answers too. */
  lemma PickedEntryIsChosen(cache: seq<SessionInfo>, k: nat)
    requires PairwiseDistinct(cache) && k < |cache|
    ensures Chosen(cache, cache[k].id, cache[k].exec) == cache[k]
       <==> forall i :: 0 <= i < k ==> cache[i].name != cache[k].id && cache[i].exec != cache[k].exec
  {
    var id, exec := cache[k].id, cache[k].exec;
    var f := FirstAnswerIndex(cache, k, id, exec);
    FirstAnswerAt(cache, id, exec, f);
    if f < k {
      assert cache[f].id != id;
    } else {
      assert forall i :: 0 <= i < k ==> !Answers(cache[i], id, exec);
    }
  }

  /** If no session has another's id as its name, every entry of a scan launches its own command. */
  lemma ScannedCommandsRun(usr: Directory, local: Directory, k: nat)
    requires k < |Scanned(usr, local)|
    requires var c := Scanned(usr, local);
      forall i, j :: 0 <= i < |c| && 0 <= j < |c| && i != j ==> c[i].name != c[j].id
    ensures var c := Scanned(usr, local);
      Chosen(c, c[k].id, c[k].exec).exec == c[k].exec
  {
    ScannedWellFormed(usr, local);
    PickedCommandRuns(Scanned(usr, local), k);
  }

  // ---------------------------------------------------------------- a scan in which it goes wrong

  /** The text of a plain `.desktop` file. */
  function EntryText(name: string, exec: string): string {
    Join(["[Desktop Entry]", "Name=" + name, "Exec=" + exec])
  }

  predicate Plain(val: string) {
    val != "" && Trimmed(val) && '\n' !in val
  }

  /** `key=val` is read as such. */
  lemma PlainLine(key: string, val: string)
    requires key != "" && !IsBlank(key[0]) && key[0] != '#' && key[0] != '[' && '=' !in key && '\n' !in key
    requires Plain(val)
    ensures Shape(key + "=" + val) == Entry(key, val) && '\n' !in key + "=" + val
  {
    hide Trim, IndexOf;
    var line := key + "=" + val;
    assert line[0] == key[0] && line[|line| - 1] == val[|val| - 1];
    TrimIdentity(line);
    IndexOfPrefix(key, '=', val);
    assert line == key + ['='] + val;
    assert line[..|key|] == key && line[|key| + 1..] == val;
    assert line != "[Desktop Entry]" by { assert "[Desktop Entry]"[0] == '['; }
  }

  lemma EntryHeader()
    ensures Shape("[Desktop Entry]") == Group(true)
  {
    hide Trim, IndexOf;
    TrimIdentity("[Desktop Entry]");
  }

  /** A plain file is parsed as written. */
  lemma PlainFile(path: string, name: string, title: string, exec: string)
    requires Plain(title) && Plain(exec)
    ensures Parsed(path, File(name, true, Some(EntryText(title, exec))), true)
         == SessionInfo(Stem(name), title, exec, "", title, path + "/" + name, true)
  {
    hide Shape, Stem, Lines, Join, Plain;
    var ls := ["[Desktop Entry]", "Name=" + title, "Exec=" + exec];
    PlainLine("Name", title);
    PlainLine("Exec", exec);
    assert "Name" + "=" + title == ls[1] && "Exec" + "=" + exec == ls[2];
    EntryHeader();
    LinesOfJoin(ls);
    PlainItems(Items(ls), title, exec);
    assert title != "" by { NotEmpty(title); }
  }

  lemma NotEmpty(val: string)
    requires Plain(val)
    ensures val != ""
  {
  }

  lemma PlainItems(items: seq<Item>, title: string, exec: string)
    requires items == [Group(true), Entry("Name", title), Entry("Exec", exec)]
    ensures ReadItems(items) == Reading(true, title, exec, "", "")
  {
    KeysDiffer();
    var one, two := items[..1], items[..2];
    assert items[..2][..1] == one && one[..0] == [];
    assert ReadItems(one) == Consume(NOTHING_READ, items[0]);
    assert ReadItems(two) == Consume(ReadItems(one), items[1]);
    assert ReadItems(items) == Consume(ReadItems(two), items[2]);
  }

  lemma {:induction false} LastDotAt(name: string, k: nat)
    requires k < |name| && name[k] == '.' && forall i :: k < i < |name| ==> name[i] != '.'
    ensures LastDot(name) == k
  {
    if k < |name| - 1 {
      LastDotAt(name[..|name| - 1], k);
    }
  }

  lemma DesktopName(id: string)
    requires id != ""
    ensures Stem(id + ".desktop") == id && Extension(id + ".desktop") == ".desktop"
  {
    var name := id + ".desktop";
    assert forall i :: |id| < i < |name| ==> name[i] == ".desktop"[i - |id|];
    LastDotAt(name, |id|);
    assert |name| > 2;
    assert name[..|id|] == id && name[|id|..] == ".desktop";
  }

  /** Two plain files in a directory are two candidates. */
  lemma TwoFiles(path: string, f: File, g: File)
    requires f.regular && g.regular && Extension(f.name) == ".desktop" && Extension(g.name) == ".desktop"
    ensures Offered(Listing(path, [f, g])) == [Parsed(path, f, true), Parsed(path, g, true)]
  {
    hide Extension, Parsed;
    var files := [f, g];
    assert files[..1] == [f] && files[..1][..0] == [];
    assert Candidates(path, files[..1], true) == [Parsed(path, f, true)];
  }

  lemma TwoScanned(usr: Directory, a: SessionInfo, b: SessionInfo)
    requires Offered(usr) == [a, b] && Usable(a) && Usable(b) && !Clash(a, b)
    ensures Scanned(usr, Missing) == [a, b]
  {
    hide Usable, Clash;
    var both := [a, b];
    assert both[..1] == [a] && both[..1][..0] == [];
    assert Greedy([], [a]) == [a];
    assert Greedy([], both) == Keep([a], b) == [a, b];
    assert Offered(usr) + Offered(Missing) == both;
  }

  /** With such a name it goes wrong: of two files, the first of which has the second's id as its name, picking
      the second launches the first. */
  lemma MistakenScan(path: string, first: string, second: string, title: string, exec: string, other: string)
    requires Plain(first) && Plain(second) && Plain(title) && Plain(exec) && Plain(other)
    requires first != second && title != second && exec != other
    ensures var files := [ File(first + ".desktop", true, Some(EntryText(second, exec))),
                           File(second + ".desktop", true, Some(EntryText(title, other))) ];
      var cache := Scanned(Listing(path, files), Missing);
      && |cache| == 2 && cache[1].id == second && cache[1].exec == other
      && Chosen(cache, cache[1].id, cache[1].exec) == cache[0] && cache[0].exec == exec
  {
    var f := File(first + ".desktop", true, Some(EntryText(second, exec)));
    var g := File(second + ".desktop", true, Some(EntryText(title, other)));
    DesktopName(first);
    DesktopName(second);
    PlainFile(path, f.name, second, exec);
    PlainFile(path, g.name, title, other);
    hide Stem, Extension, Parsed, EntryText, Greedy, Offered, Scanned, Trimmed;
    TwoFiles(path, f, g);
    var a, b := Parsed(path, f, true), Parsed(path, g, true);
    TwoScanned(Listing(path, [f, g]), a, b);
    FirstAnswerAt([a, b], second, other, 0);
  }

  /** For one: `a.desktop` with the name "b", and `b.desktop`. */
  lemma MistakenExample()
    ensures var files := [ File("a.desktop", true, Some(EntryText("b", "x"))),
                           File("b.desktop", true, Some(EntryText("c", "y"))) ];
      var cache := Scanned(Listing("/usr/share/wayland-sessions", files), Missing);
      && |cache| == 2 && cache[1].exec == "y" && Chosen(cache, cache[1].id, cache[1].exec).exec == "x"
  {
    assert "a"[0] != "b"[0] && "b"[0] != "c"[0] && "x"[0] != "y"[0];
    assert "a" + ".desktop" == "a.desktop" && "b" + ".desktop" == "b.desktop";
    hide Scanned, Chosen, EntryText;
    MistakenScan("/usr/share/wayland-sessions", "a", "b", "c", "x", "y");
  }
}
