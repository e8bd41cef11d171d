/** `IpcMessage`: one message as one line of JSON. */
module Ipc {
  import opened Text
  import opened Messages
  import opened Json

  // ---------------------------------------------------------------- message types

  function TypeToString(t: MessageType): string {
    match t
    case Ping => "ping"
    case GetUsers => "get_users"
    case GetSessions => "get_sessions"
    case Login => "login"
    case PowerAction => "power_action"
    case Response => "response"
    case SessionStatus => "session_status"
    case Unknown => "unknown"
  }

  function StringToType(s: string): MessageType {
    if s == "ping" then Ping
    else if s == "get_users" then GetUsers
    else if s == "get_sessions" then GetSessions
    else if s == "login" then Login
    else if s == "power_action" then PowerAction
    else if s == "response" then Response
    else if s == "session_status" then SessionStatus
    else Unknown
  }

  lemma TypeReadsBack(t: MessageType)
    ensures StringToType(TypeToString(t)) == t
  {
  }

  const TYPE_NAMES := {
    ("ping", Ping), ("get_users", GetUsers), ("get_sessions", GetSessions), ("login", Login),
    ("power_action", PowerAction), ("response", Response), ("session_status", SessionStatus) }

  /** The names of the types; every other text is the unknown type. */
  lemma TypesExactly(s: string)
    ensures forall t :: t != Unknown ==> (StringToType(s) == t <==> (s, t) in TYPE_NAMES)
    ensures forall t :: (t != Unknown ==> (TypeToString(t), t) in TYPE_NAMES)
  {
  }

  // ---------------------------------------------------------------- encoding

  /** `if (given) object[key] = value`. */
  function PutIf(ms: seq<Member>, given: bool, key: string, value: Value): seq<Member> {
    if given then Put(ms, key, value) else ms
  }

  function PutText(ms: seq<Member>, key: string, text: string): seq<Member> {
    PutIf(ms, text != "", key, String(text))
  }

  function UserFields(u: UserInfo): seq<Member> {
    var ms := Put([], "username", String(u.username));
    var ms := Put(ms, "display_name", String(u.displayName));
    var ms := Put(ms, "home_dir", String(u.homeDir));
    var ms := Put(ms, "avatar_path", String(u.avatarPath));
    var ms := Put(ms, "uid", Number(u.uid));
    var ms := Put(ms, "gid", Number(u.gid));
    Put(ms, "shell", String(u.shell))
  }

  function SessionFields(s: SessionInfo): seq<Member> {
    var ms := Put([], "id", String(s.id));
    var ms := Put(ms, "name", String(s.name));
    var ms := Put(ms, "exec", String(s.exec));
    var ms := Put(ms, "comment", String(s.comment));
    var ms := Put(ms, "desktop_names", String(s.desktopNames));
    var ms := Put(ms, "desktop_file", String(s.desktopFile));
    Put(ms, "is_wayland", Bool(s.isWayland))
  }

  function UserValues(users: seq<UserInfo>): (items: seq<Value>)
    ensures |items| == |users|
    ensures forall i :: 0 <= i < |users| ==> items[i] == Object(UserFields(users[i]))
  {
    seq(|users|, i requires 0 <= i < |users| => Object(UserFields(users[i])))
  }

  function SessionValues(sessions: seq<SessionInfo>): (items: seq<Value>)
    ensures |items| == |sessions|
    ensures forall i :: 0 <= i < |sessions| ==> items[i] == Object(SessionFields(sessions[i]))
  {
    seq(|sessions|, i requires 0 <= i < |sessions| => Object(SessionFields(sessions[i])))
  }

  function RootFields(m: Message): seq<Member> {
    var ms := Put([], "type", String(TypeToString(m.kind)));
    var ms := Put(ms, "success", Bool(m.success));
    var ms := Put(ms, "message", String(m.message));
    var ms := PutText(ms, "username", m.username);
    var ms := PutText(ms, "password", m.password);
    var ms := PutText(ms, "session_exec", m.sessionExec);
    var ms := PutText(ms, "desktop_name", m.desktopName);
    var ms := PutText(ms, "power_action", m.powerAction);
    var ms := PutIf(ms, m.users != [], "users", Array(UserValues(m.users)));
    PutIf(ms, m.sessions != [], "sessions", Array(SessionValues(m.sessions)))
  }

  /** The JSON text of a message. */
  function Encoded(m: Message): string { Write(Object(RootFields(m))) }

  /** What goes over the socket. */
  function Wire(m: Message): string { Encoded(m) + "\n" }

  method Serialize(m: Message) returns (out: string)
    ensures out == Wire(m)
  {
    hide Put, Write, UserFields, SessionFields, TypeToString;
    var root := Put([], "type", String(TypeToString(m.kind)));
    root := Put(root, "success", Bool(m.success));
    root := Put(root, "message", String(m.message));
    if m.username != "" { root := Put(root, "username", String(m.username)); }
    if m.password != "" { root := Put(root, "password", String(m.password)); }
    if m.sessionExec != "" { root := Put(root, "session_exec", String(m.sessionExec)); }
    if m.desktopName != "" { root := Put(root, "desktop_name", String(m.desktopName)); }
    if m.powerAction != "" { root := Put(root, "power_action", String(m.powerAction)); }
    if m.users != [] {
      var values: seq<Value> := [];
      for i := 0 to |m.users|
        invariant values == UserValues(m.users)[..i]
      {
        values := values + [Object(UserFields(m.users[i]))];
      }
      assert values == UserValues(m.users);
      root := Put(root, "users", Array(values));
    }
    if m.sessions != [] {
      var values: seq<Value> := [];
      for i := 0 to |m.sessions|
        invariant values == SessionValues(m.sessions)[..i]
      {
        values := values + [Object(SessionFields(m.sessions[i]))];
      }
      assert values == SessionValues(m.sessions);
      root := Put(root, "sessions", Array(values));
    }
    out := Write(Object(root));
    out := out + "\n";
  }

  // ---------------------------------------------------------------- decoding

  /** A value, or the exception that jsoncpp throws for a value of the wrong kind. */
  datatype Outcome<T> = Fine(value: T) | Thrown {
    predicate IsFailure() { Thrown? }

    function PropagateFailure<U>(): Outcome<U>
      requires Thrown?
    {
      Thrown
    }

    function Extract(): T
      requires Fine?
    {
      value
    }
  }

  /** `asString`: scalars convert, arrays and objects do not. */
  function AsString(lib: Library, v: Value): Outcome<string> {
    match v
    case String(s) => Fine(s)
    case Null => Fine("")
    case Bool(b) => Fine(if b then "true" else "false")
    case Number(n) => Fine(IntToString(n))
    case Real(text) => Fine(lib.realText(text))
    case _ => Thrown
  }

  function AsBool(v: Value): Outcome<bool> {
    match v
    case Bool(b) => Fine(b)
    case Null => Fine(false)
    case Number(n) => Fine(n != 0)
    case Real(text) => Fine(!IsZero(text))
    case _ => Thrown
  }

  /** `asUInt64`, then the cast to 32 bits. */
  function AsId(lib: Library, v: Value): Outcome<uint32> {
    match v
    case Number(n) => if 0 <= n <= MAX_INTEGER then Fine(n % 0x1_0000_0000) else Thrown
    case Real(text) => if FitsUInt64(text) then Fine(lib.realId(text)) else Thrown
    case Null => Fine(0)
    case Bool(b) => Fine(if b then 1 else 0)
    case _ => Thrown
  }

  /** An id comes through exactly if 32 bits hold it; of a greater one only the low bits are left. */
  lemma IdExactly(lib: Library, n: int)
    ensures AsId(lib, Number(n)).Fine? && AsId(lib, Number(n)).value == n <==> 0 <= n <= 4294967295
    ensures AsId(lib, Number(4294967296)) == Fine(0)
    ensures AsId(lib, Number(n)) == Thrown <==> n < 0 || n > 18446744073709551615
  {
    hide IsZero, FitsUInt64;
  }

  /** What the conversions make of the other kinds. */
  lemma OtherKinds(lib: Library, n: int)
    ensures AsString(lib, Null) == Fine("") && AsString(lib, Number(n)) == Fine(IntToString(n))
    ensures AsString(lib, Bool(true)) == Fine("true") && AsString(lib, Bool(false)) == Fine("false")
    ensures AsBool(Null) == Fine(false) && (AsBool(Number(n)) == Fine(false) <==> n == 0)
    ensures AsId(lib, Null) == AsId(lib, Bool(false)) == Fine(0) && AsId(lib, Bool(true)) == Fine(1)
  {
  }

  /** The members that `get` looks in: only objects and null have any. */
  function MembersOf(v: Value): Outcome<seq<Member>> {
    match v
    case Object(ms) => Fine(ms)
    case Null => Fine([])
    case _ => Thrown
  }

  function GetText(lib: Library, ms: seq<Member>, key: string, default: string): Outcome<string> {
    match Get(ms, key)
    case None => Fine(default)
    case Some(v) => AsString(lib, v)
  }

  function GetBool(ms: seq<Member>, key: string, default: bool): Outcome<bool> {
    match Get(ms, key)
    case None => Fine(default)
    case Some(v) => AsBool(v)
  }

  function GetId(lib: Library, ms: seq<Member>, key: string): Outcome<uint32> {
    match Get(ms, key)
    case None => Fine(0)
    case Some(v) => AsId(lib, v)
  }

  /** The elements of an array member; anything else counts as none. */
  function GetItems(ms: seq<Member>, key: string): seq<Value> {
    match Get(ms, key)
    case Some(Array(items)) => items
    case _ => []
  }

  function DecodeUser(lib: Library, v: Value): Outcome<UserInfo> {
    var ms :- MembersOf(v);
    var username :- GetText(lib, ms, "username", "");
    var displayName :- GetText(lib, ms, "display_name", "");
    var homeDir :- GetText(lib, ms, "home_dir", "");
    var avatarPath :- GetText(lib, ms, "avatar_path", "");
    var uid :- GetId(lib, ms, "uid");
    var gid :- GetId(lib, ms, "gid");
    var shell :- GetText(lib, ms, "shell", "/bin/bash");
    Fine(UserInfo(username, displayName, homeDir, avatarPath, uid, gid, shell))
  }

  function DecodeSession(lib: Library, v: Value): Outcome<SessionInfo> {
    var ms :- MembersOf(v);
    var id :- GetText(lib, ms, "id", "");
    var name :- GetText(lib, ms, "name", "");
    var exec :- GetText(lib, ms, "exec", "");
    var comment :- GetText(lib, ms, "comment", "");
    var desktopNames :- GetText(lib, ms, "desktop_names", "");
    var desktopFile :- GetText(lib, ms, "desktop_file", "");
    var isWayland :- GetBool(ms, "is_wayland", true);
    Fine(SessionInfo(id, name, exec, comment, desktopNames, desktopFile, isWayland))
  }

  function DecodeUsers(lib: Library, items: seq<Value>): Outcome<seq<UserInfo>> {
    if items == [] then Fine([])
    else
      var us :- DecodeUsers(lib, items[..|items| - 1]);
      var u :- DecodeUser(lib, items[|items| - 1]);
      Fine(us + [u])
  }

  function DecodeSessions(lib: Library, items: seq<Value>): Outcome<seq<SessionInfo>> {
    if items == [] then Fine([])
    else
      var ss :- DecodeSessions(lib, items[..|items| - 1]);
      var s :- DecodeSession(lib, items[|items| - 1]);
      Fine(ss + [s])
  }

  function DecodeRoot(lib: Library, root: Value): Outcome<Message> {
    var ms :- MembersOf(root);
    var kind :- GetText(lib, ms, "type", "unknown");
    var success :- GetBool(ms, "success", false);
    var text :- GetText(lib, ms, "message", "");
    var username :- GetText(lib, ms, "username", "");
    var password :- GetText(lib, ms, "password", "");
    var sessionExec :- GetText(lib, ms, "session_exec", "");
    var desktopName :- GetText(lib, ms, "desktop_name", "");
    var powerAction :- GetText(lib, ms, "power_action", "");
    var users :- DecodeUsers(lib, GetItems(ms, "users"));
    var sessions :- DecodeSessions(lib, GetItems(ms, "sessions"));
    Fine(Message(StringToType(kind), success, text, username, password, sessionExec, desktopName, powerAction,
                 users, sessions))
  }

  /** What a text that is rejected becomes. */
  function Unparsable(errors: string): Message {
    BLANK_MESSAGE.(message := "Failed to parse JSON: " + errors)
  }

  function Decoded(lib: Library, raw: string): Outcome<Message> {
    match lib.read(raw)
    case Rejected(errors) => Fine(Unparsable(errors))
    case Found(root) => DecodeRoot(lib, root)
    case StackExceeded => Thrown
  }

  method Deserialize(lib: Library, raw: string) returns (r: Outcome<Message>)
    ensures r == Decoded(lib, raw)
    ensures lib.read(raw).Rejected? ==>
      r == Fine(Message(Unknown, false, "Failed to parse JSON: " + lib.read(raw).errors, "", "", "", "", "", [], []))
    ensures r == Thrown <==> lib.read(raw) == StackExceeded || (lib.read(raw).Found? && WrongKind(lib.read(raw).root))
  {
    ThrowsExactly(lib, raw);
    hide WrongKind, GetText, GetBool, GetItems, MembersOf, StringToType;
    var msg := BLANK_MESSAGE;
    var reading := lib.read(raw);
    if reading.StackExceeded? {
      return Thrown;
    }
    if reading.Rejected? {
      msg := msg.(kind := Unknown);
      msg := msg.(message := "Failed to parse JSON: " + reading.errors);
      return Fine(msg);
    }
    var root :- MembersOf(reading.root);
    var kind :- GetText(lib, root, "type", "unknown");
    msg := msg.(kind := StringToType(kind));
    var success :- GetBool(root, "success", false);
    msg := msg.(success := success);
    var text :- GetText(lib, root, "message", "");
    msg := msg.(message := text);
    var username :- GetText(lib, root, "username", "");
    msg := msg.(username := username);
    var password :- GetText(lib, root, "password", "");
    msg := msg.(password := password);
    var sessionExec :- GetText(lib, root, "session_exec", "");
    msg := msg.(sessionExec := sessionExec);
    var desktopName :- GetText(lib, root, "desktop_name", "");
    msg := msg.(desktopName := desktopName);
    var powerAction :- GetText(lib, root, "power_action", "");
    msg := msg.(powerAction := powerAction);
    var users :- ReadUsers(lib, GetItems(root, "users"));
    var sessions :- ReadSessions(lib, GetItems(root, "sessions"));
    return Fine(msg.(users := users, sessions := sessions));
  }

  /** Where nothing is said, the message, the account and the session have their defaults; null says nothing. */
  lemma NothingSaid(lib: Library, v: Value)
    requires v == Object([]) || v == Null
    ensures DecodeRoot(lib, v) == Fine(Message(Unknown, false, "", "", "", "", "", "", [], []))
  {
    NothingThere(lib);
    assert MembersOf(v) == Fine([]);
    TypeReadsBack(Unknown);
    hide GetText, GetBool, GetId, GetItems, StringToType, TypeToString, MembersOf;
    assert "unknown" == TypeToString(Unknown) by { UnknownIsNamed(); }
  }

  lemma UnknownIsNamed()
    ensures TypeToString(Unknown) == "unknown"
  {
  }

  lemma NoUserSaid(lib: Library, v: Value)
    requires v == Object([]) || v == Null
    ensures DecodeUser(lib, v) == Fine(UserInfo("", "", "", "", 0, 0, "/bin/bash"))
  {
    NothingThere(lib);
    assert MembersOf(v) == Fine([]);
    hide GetText, GetId, MembersOf;
  }

  lemma NoSessionSaid(lib: Library, v: Value)
    requires v == Object([]) || v == Null
    ensures DecodeSession(lib, v) == Fine(SessionInfo("", "", "", "", "", "", true))
  {
    NothingThere(lib);
    assert MembersOf(v) == Fine([]);
    hide GetText, GetBool, MembersOf;
  }

  lemma NothingThere(lib: Library)
    ensures forall key, default :: GetText(lib, [], key, default) == Fine(default)
    ensures forall key, default :: GetBool([], key, default) == Fine(default)
    ensures forall key :: GetId(lib, [], key) == Fine(0) && GetItems([], key) == []
  {
  }

  // ---------------------------------------------------------------- which texts throw

  /** Member `key` is there and cannot be a text: it is an array or an object. */
  predicate WrongText(ms: seq<Member>, key: string) {
    match Get(ms, key)
    case Some(v) => v.Array? || v.Object?
    case None => false
  }

  /** Member `key` is there and cannot be a truth value. */
  predicate WrongBool(ms: seq<Member>, key: string) {
    match Get(ms, key)
    case Some(v) => v.String? || v.Array? || v.Object?
    case None => false
  }

  /** Member `key` is there and cannot be an id: it is no number, or one that 64 bits without sign do not hold. */
  predicate WrongId(ms: seq<Member>, key: string) {
    match Get(ms, key)
    case Some(v) => v.String? || v.Array? || v.Object? 
      || (v.Number? && !(0 <= v.n <= MAX_INTEGER)) || (v.Real? && !FitsUInt64(v.text))
    case None => false
  }

  predicate WrongUser(v: Value) {
    if v.Object? then
      || WrongText(v.members, "username") || WrongText(v.members, "display_name") || WrongText(v.members, "home_dir")
      || WrongText(v.members, "avatar_path") || WrongId(v.members, "uid") || WrongId(v.members, "gid")
      || WrongText(v.members, "shell")
    else !v.Null?
  }

  predicate WrongSession(v: Value) {
    if v.Object? then
      || WrongText(v.members, "id") || WrongText(v.members, "name") || WrongText(v.members, "exec")
      || WrongText(v.members, "comment") || WrongText(v.members, "desktop_names")
      || WrongText(v.members, "desktop_file") || WrongBool(v.members, "is_wayland")
    else !v.Null?
  }

  /** A value of the wrong kind stands where the message has a field: at the root, in a member, or in an element
      of one of the two lists. */
  predicate WrongKind(root: Value) {
    if root.Object? then
      var ms := root.members;
      || WrongText(ms, "type") || WrongBool(ms, "success") || WrongText(ms, "message") || WrongText(ms, "username")
      || WrongText(ms, "password") || WrongText(ms, "session_exec") || WrongText(ms, "desktop_name")
      || WrongText(ms, "power_action")
      || (exists i :: 0 <= i < |GetItems(ms, "users")| && WrongUser(GetItems(ms, "users")[i]))
      || (exists i :: 0 <= i < |GetItems(ms, "sessions")| && WrongSession(GetItems(ms, "sessions")[i]))
    else !root.Null?
  }

  lemma FieldThrows(lib: Library, ms: seq<Member>, key: string)
    ensures forall default :: GetText(lib, ms, key, default).Thrown? <==> WrongText(ms, key)
    ensures forall default :: GetBool(ms, key, default).Thrown? <==> WrongBool(ms, key)
    ensures GetId(lib, ms, key).Thrown? <==> WrongId(ms, key)
  {
    hide Get, IntToString, IsZero, FitsUInt64;
  }

  lemma UserThrows(lib: Library, v: Value)
    ensures DecodeUser(lib, v).Thrown? <==> WrongUser(v)
  {
    hide IsZero, FitsUInt64, GetText, GetId, WrongText, WrongId;
    if v.Object? {
      FieldThrows(lib, v.members, "username");
      FieldThrows(lib, v.members, "display_name");
      FieldThrows(lib, v.members, "home_dir");
      FieldThrows(lib, v.members, "avatar_path");
      FieldThrows(lib, v.members, "uid");
      FieldThrows(lib, v.members, "gid");
      FieldThrows(lib, v.members, "shell");
    } else if v.Null? {
      NothingThrows(lib);
    }
  }

  lemma SessionThrows(lib: Library, v: Value)
    ensures DecodeSession(lib, v).Thrown? <==> WrongSession(v)
  {
    hide IsZero, FitsUInt64, GetText, GetBool, WrongText, WrongBool;
    if v.Object? {
      FieldThrows(lib, v.members, "id");
      FieldThrows(lib, v.members, "name");
      FieldThrows(lib, v.members, "exec");
      FieldThrows(lib, v.members, "comment");
      FieldThrows(lib, v.members, "desktop_names");
      FieldThrows(lib, v.members, "desktop_file");
      FieldThrows(lib, v.members, "is_wayland");
    } else if v.Null? {
      NothingThrows(lib);
    }
  }

  lemma NothingThrows(lib: Library)
    ensures forall key, default :: GetText(lib, [], key, default).Fine?
    ensures forall key, default :: GetBool([], key, default).Fine?
    ensures forall key :: GetId(lib, [], key).Fine? && GetItems([], key) == []
  {
    hide IsZero, FitsUInt64;
    NoMember();
  }

  lemma {:induction false} UsersThrowExactly(lib: Library, items: seq<Value>)
    ensures DecodeUsers(lib, items).Thrown? <==> exists i :: 0 <= i < |items| && WrongUser(items[i])
  {
    hide DecodeUser, WrongUser;
    if items != [] {
      var init, last := items[..|items| - 1], items[|items| - 1];
      UsersThrowExactly(lib, init);
      UserThrows(lib, last);
      assert forall i :: 0 <= i < |init| ==> init[i] == items[i];
    }
  }

  lemma {:induction false} SessionsThrowExactly(lib: Library, items: seq<Value>)
    ensures DecodeSessions(lib, items).Thrown? <==> exists i :: 0 <= i < |items| && WrongSession(items[i])
  {
    hide DecodeSession, WrongSession;
    if items != [] {
      var init, last := items[..|items| - 1], items[|items| - 1];
      SessionsThrowExactly(lib, init);
      SessionThrows(lib, last);
      assert forall i :: 0 <= i < |init| ==> init[i] == items[i];
    }
  }

  lemma RootThrows(lib: Library, root: Value)
    ensures DecodeRoot(lib, root).Thrown? <==> WrongKind(root)
  {
    hide IsZero, FitsUInt64, GetText, GetBool, GetItems, WrongText, WrongBool, WrongUser, WrongSession, DecodeUsers,
         DecodeSessions, StringToType;
    if root.Object? {
      var ms := root.members;
      FieldThrows(lib, ms, "type");
      FieldThrows(lib, ms, "success");
      FieldThrows(lib, ms, "message");
      FieldThrows(lib, ms, "username");
      FieldThrows(lib, ms, "password");
      FieldThrows(lib, ms, "session_exec");
      FieldThrows(lib, ms, "desktop_name");
      FieldThrows(lib, ms, "power_action");
      UsersThrowExactly(lib, GetItems(ms, "users"));
      SessionsThrowExactly(lib, GetItems(ms, "sessions"));
    } else if root.Null? {
      NothingThrows(lib);
      UsersThrowExactly(lib, []);
      SessionsThrowExactly(lib, []);
    }
  }

  /** The decoder throws exactly if the reader does, or finds a value of the wrong kind. For a text of RFC 8259
      without overflow that is: it is nested too deep, or it has a value of the wrong kind. */
  lemma ThrowsExactly(lib: Library, raw: string)
    ensures Decoded(lib, raw) == Thrown <==>
      lib.read(raw) == StackExceeded || (lib.read(raw).Found? && WrongKind(lib.read(raw).root))
    ensures Conforms(lib) && Parse(raw).Some? && AllFinite(Parse(raw).value) ==>
      (Decoded(lib, raw) == Thrown <==> !Shallow(Parse(raw).value, STACK_LIMIT) || WrongKind(Parse(raw).value))
  {
    hide Parse, WrongKind, DecodeRoot, AllFinite, Shallow;
    if lib.read(raw).Found? {
      RootThrows(lib, lib.read(raw).root);
    }
  }

  /** For one: an empty array instead of an object. */
  lemma EmptyArrayThrows(lib: Library)
    requires Conforms(lib)
    ensures Decoded(lib, "[]") == Thrown
  {
    hide Parse, Conforms;
    assert Write(Array([])) == "[]";
    LibraryReadsBack(lib, Array([]));
    ThrowsExactly(lib, "[]");
  }

  /** For another: an array with a fraction in it. */
  lemma FractionThrows(lib: Library)
    requires Conforms(lib)
    ensures Decoded(lib, "[1.5]") == Thrown
  {
    hide IsZero, FitsUInt64, Parse, Conforms, IsFinite;
    OneAndAHalfIsFinite();
    DecimalInArray(1, 5);
    assert "[" + Decimal(1, 5) + "]" == "[1.5]";
    var root := Array([Real("1.5")]);
    assert AllFinite(root) && WrongKind(root);
    ThrowsExactly(lib, "[1.5]");
  }

  /** The loop over the users array. */
  method ReadUsers(lib: Library, items: seq<Value>) returns (r: Outcome<seq<UserInfo>>)
    ensures r == DecodeUsers(lib, items)
  {
    hide DecodeUser;
    var users: seq<UserInfo> := [];
    for i := 0 to |items|
      invariant DecodeUsers(lib, items[..i]) == Fine(users)
    {
      UsersOneMore(lib, items, i);
      var u :- DecodeUser(lib, items[i]);
      users := users + [u];
    }
    assert items[..|items|] == items;
    return Fine(users);
  }

  /** The loop over the sessions array. */
  method ReadSessions(lib: Library, items: seq<Value>) returns (r: Outcome<seq<SessionInfo>>)
    ensures r == DecodeSessions(lib, items)
  {
    hide DecodeSession;
    var sessions: seq<SessionInfo> := [];
    for i := 0 to |items|
      invariant DecodeSessions(lib, items[..i]) == Fine(sessions)
    {
      SessionsOneMore(lib, items, i);
      var s :- DecodeSession(lib, items[i]);
      sessions := sessions + [s];
    }
    assert items[..|items|] == items;
    return Fine(sessions);
  }

  /** One element that throws makes the whole array throw. */
  lemma {:induction false} UsersThrow(lib: Library, items: seq<Value>, i: nat)
    requires i < |items| && DecodeUser(lib, items[i]).Thrown?
    ensures DecodeUsers(lib, items).Thrown?
  {
    if i < |items| - 1 {
      UsersThrow(lib, items[..|items| - 1], i);
    }
  }

  lemma {:induction false} SessionsThrow(lib: Library, items: seq<Value>, i: nat)
    requires i < |items| && DecodeSession(lib, items[i]).Thrown?
    ensures DecodeSessions(lib, items).Thrown?
  {
    if i < |items| - 1 {
      SessionsThrow(lib, items[..|items| - 1], i);
    }
  }

  lemma UsersOneMore(lib: Library, items: seq<Value>, i: nat)
    requires i < |items| && DecodeUsers(lib, items[..i]).Fine?
    ensures DecodeUser(lib, items[i]).Thrown? ==> DecodeUsers(lib, items).Thrown?
    ensures DecodeUser(lib, items[i]).Fine? ==>
      DecodeUsers(lib, items[..i + 1]) == Fine(DecodeUsers(lib, items[..i]).value + [DecodeUser(lib, items[i]).value])
  {
    assert items[..i + 1][..i] == items[..i];
    if DecodeUser(lib, items[i]).Thrown? {
      UsersThrow(lib, items, i);
    }
  }

  lemma SessionsOneMore(lib: Library, items: seq<Value>, i: nat)
    requires i < |items| && DecodeSessions(lib, items[..i]).Fine?
    ensures DecodeSession(lib, items[i]).Thrown? ==> DecodeSessions(lib, items).Thrown?
    ensures DecodeSession(lib, items[i]).Fine? ==>
      DecodeSessions(lib, items[..i + 1])
      == Fine(DecodeSessions(lib, items[..i]).value + [DecodeSession(lib, items[i]).value])
  {
    assert items[..i + 1][..i] == items[..i];
    if DecodeSession(lib, items[i]).Thrown? {
      SessionsThrow(lib, items, i);
    }
  }

  // ---------------------------------------------------------------- round trip

  lemma GetPutAnywhere()
    ensures forall ms, key, value, k {:trigger Get(Put(ms, key, value), k)} ::
      Get(Put(ms, key, value), k) == if k == key then Some(value) else Get(ms, k)
  {
    forall ms, key, value, k ensures Get(Put(ms, key, value), k) == if k == key then Some(value) else Get(ms, k) {
      GetPut(ms, key, value, k);
    }
  }

  lemma GetPutIfAnywhere()
    ensures forall ms, given, key, value, k {:trigger Get(PutIf(ms, given, key, value), k)} ::
      Get(PutIf(ms, given, key, value), k) == if given && k == key then Some(value) else Get(ms, k)
  {
    GetPutAnywhere();
  }

  lemma UserKeysDiffer()
    ensures "username" != "display_name" && "username" != "home_dir" && "username" != "avatar_path"
    ensures "username" != "uid"
    ensures "username" != "gid" && "username" != "shell" && "display_name" != "home_dir"
    ensures "display_name" != "avatar_path"
    ensures "display_name" != "uid" && "display_name" != "gid" && "display_name" != "shell"
    ensures "home_dir" != "avatar_path"
    ensures "home_dir" != "uid" && "home_dir" != "gid" && "home_dir" != "shell" && "avatar_path" != "uid"
    ensures "avatar_path" != "gid" && "avatar_path" != "shell" && "uid" != "gid" && "uid" != "shell" && "gid" != "shell"
  {
    assert "username"[0] == 'u' && "home_dir"[0] == 'h' && "uid"[0] == 'u' && "gid"[0] == 'g';
  }

  lemma UserReadsBack(lib: Library, u: UserInfo)
    ensures DecodeUser(lib, Object(UserFields(u))) == Fine(u)
  {
    GetPutAnywhere();
    UserKeysDiffer();
    hide IsZero, FitsUInt64, Get, Put;
  }

  lemma SessionKeysDiffer()
    ensures "id" != "name" && "id" != "exec" && "id" != "comment" && "id" != "desktop_names"
    ensures "id" != "desktop_file" && "id" != "is_wayland" && "name" != "exec" && "name" != "comment"
    ensures "name" != "desktop_names" && "name" != "desktop_file" && "name" != "is_wayland" && "exec" != "comment"
    ensures "exec" != "desktop_names" && "exec" != "desktop_file" && "exec" != "is_wayland"
    ensures "comment" != "desktop_names"
    ensures "comment" != "desktop_file" && "comment" != "is_wayland" && "desktop_names" != "desktop_file"
    ensures "desktop_names" != "is_wayland"
    ensures "desktop_file" != "is_wayland"
  {
    assert |"id"| == 2 && |"name"| == 4 && |"comment"| == 7;
    assert "name"[0] == 'n' && "exec"[0] == 'e';
    assert |"desktop_names"| == 13 && |"desktop_file"| == 12 && |"is_wayland"| == 10;
  }

  lemma SessionReadsBack(lib: Library, s: SessionInfo)
    ensures DecodeSession(lib, Object(SessionFields(s))) == Fine(s)
  {
    GetPutAnywhere();
    SessionKeysDiffer();
    hide IsZero, FitsUInt64, Get, Put;
  }

  lemma RootKeysDiffer()
    ensures "type" != "success" && "type" != "message" && "type" != "username" && "type" != "password"
    ensures "type" != "session_exec" && "type" != "desktop_name" && "type" != "power_action" && "type" != "users"
    ensures "type" != "sessions" && "success" != "message" && "success" != "username" && "success" != "password"
    ensures "success" != "session_exec" && "success" != "desktop_name" && "success" != "power_action"
    ensures "success" != "users"
    ensures "success" != "sessions" && "message" != "username" && "message" != "password" && "message" != "session_exec"
    ensures "message" != "desktop_name" && "message" != "power_action" && "message" != "users"
    ensures "message" != "sessions"
    ensures "username" != "password" && "username" != "session_exec" && "username" != "desktop_name"
    ensures "username" != "power_action"
    ensures "username" != "users" && "username" != "sessions" && "password" != "session_exec"
    ensures "password" != "desktop_name"
    ensures "password" != "power_action" && "password" != "users" && "password" != "sessions"
    ensures "session_exec" != "desktop_name"
    ensures "session_exec" != "power_action" && "session_exec" != "users" && "session_exec" != "sessions"
    ensures "desktop_name" != "power_action"
    ensures "desktop_name" != "users" && "desktop_name" != "sessions" && "power_action" != "users"
    ensures "power_action" != "sessions"
    ensures "users" != "sessions"
  {
    assert |"type"| == 4 && |"users"| == 5;
    assert |"success"| == |"message"| == 7 && "success"[0] == 's' && "message"[0] == 'm';
    assert |"username"| == |"password"| == |"sessions"| == 8;
    assert "username"[0] == 'u' && "password"[0] == 'p' && "sessions"[0] == 's';
    assert |"session_exec"| == |"desktop_name"| == |"power_action"| == 12;
    assert "session_exec"[0] == 's' && "desktop_name"[0] == 'd' && "power_action"[0] == 'p';
  }

  lemma {:induction false} UsersReadBack(lib: Library, users: seq<UserInfo>)
    ensures DecodeUsers(lib, UserValues(users)) == Fine(users)
  {
    hide DecodeUser, UserFields;
    if users != [] {
      var init, last := users[..|users| - 1], users[|users| - 1];
      UsersReadBack(lib, init);
      UserReadsBack(lib, last);
      assert UserValues(users)[..|users| - 1] == UserValues(init);
      assert init + [last] == users;
    }
  }

  lemma {:induction false} SessionsReadBack(lib: Library, sessions: seq<SessionInfo>)
    ensures DecodeSessions(lib, SessionValues(sessions)) == Fine(sessions)
  {
    hide DecodeSession, SessionFields;
    if sessions != [] {
      var init, last := sessions[..|sessions| - 1], sessions[|sessions| - 1];
      SessionsReadBack(lib, init);
      SessionReadsBack(lib, last);
      assert SessionValues(sessions)[..|sessions| - 1] == SessionValues(init);
      assert init + [last] == sessions;
    }
  }

  lemma RootHead(m: Message)
    ensures var ms := RootFields(m);
      && Get(ms, "type") == Some(String(TypeToString(m.kind)))
      && Get(ms, "success") == Some(Bool(m.success))
      && Get(ms, "message") == Some(String(m.message))
  {
    hide Get, Put, PutIf, TypeToString, UserValues, SessionValues;
    GetPutAnywhere();
    GetPutIfAnywhere();
    RootKeysDiffer();
  }

  lemma RootTexts(lib: Library, m: Message)
    ensures var ms := RootFields(m);
      && GetText(lib, ms, "username", "") == Fine(m.username)
      && GetText(lib, ms, "password", "") == Fine(m.password)
      && GetText(lib, ms, "session_exec", "") == Fine(m.sessionExec)
      && GetText(lib, ms, "desktop_name", "") == Fine(m.desktopName)
      && GetText(lib, ms, "power_action", "") == Fine(m.powerAction)
  {
    hide Get, Put, PutIf, TypeToString, UserValues, SessionValues, IntToString;
    GetPutAnywhere();
    GetPutIfAnywhere();
    NoMember();
    RootKeysDiffer();
  }

  lemma RootLists(m: Message)
    ensures GetItems(RootFields(m), "users") == UserValues(m.users)
    ensures GetItems(RootFields(m), "sessions") == SessionValues(m.sessions)
  {
    hide Get, Put, PutIf, TypeToString;
    GetPutAnywhere();
    GetPutIfAnywhere();
    NoMember();
    RootKeysDiffer();
  }

  /** Omitted members come back as their defaults, all others as themselves. */
  lemma RootReadsBack(lib: Library, m: Message)
    ensures DecodeRoot(lib, Object(RootFields(m))) == Fine(m)
  {
    hide Get, RootFields, TypeToString, StringToType, DecodeUsers, DecodeSessions, UserValues, SessionValues;
    RootHead(m);
    RootTexts(lib, m);
    RootLists(m);
    TypeReadsBack(m.kind);
    UsersReadBack(lib, m.users);
    SessionsReadBack(lib, m.sessions);
  }

  lemma NoMember()
    ensures forall k :: Get([], k) == None
  {
  }

  /** A value that is read back as it was written, if it is written at this depth. */
  predicate Sound(v: Value, depth: nat) {
    WellFormed(v) && Shallow(v, depth)
  }

  predicate MembersSound(ms: seq<Member>, depth: nat) {
    Sorted(ms) && forall i :: 0 <= i < |ms| ==> Sound(ms[i].value, depth)
  }

  lemma {:induction false} PutSound(ms: seq<Member>, key: string, value: Value, depth: nat)
    requires MembersSound(ms, depth) && Sound(value, depth)
    ensures MembersSound(Put(ms, key, value), depth)
  {
    hide Sound;
    PutSorted(ms, key, value);
    if ms != [] && !Less(key, ms[0].key) && key != ms[0].key {
      assert MembersSound(ms[1..], depth);
      PutSound(ms[1..], key, value, depth);
    }
  }

  lemma PutSoundAnywhere(depth: nat)
    requires depth > 0
    ensures MembersSound([], depth)
    ensures forall ms, key, value {:trigger Put(ms, key, value)} ::
      MembersSound(ms, depth) && Sound(value, depth) ==> MembersSound(Put(ms, key, value), depth)
    ensures forall s {:trigger String(s)} :: Sound(String(s), depth)
    ensures forall n {:trigger Number(n)} :: IsInteger(n) ==> Sound(Number(n), depth)
    ensures forall b {:trigger Bool(b)} :: Sound(Bool(b), depth)
    ensures forall ms {:trigger Object(ms)} :: MembersSound(ms, depth) ==> Sound(Object(ms), depth + 1)
  {
    forall ms, key, value | MembersSound(ms, depth) && Sound(value, depth)
      ensures MembersSound(Put(ms, key, value), depth)
    {
      PutSound(ms, key, value, depth);
    }
  }

  lemma UserSound(u: UserInfo)
    ensures Sound(Object(UserFields(u)), 2)
  {
    hide Put, MembersSound, Sound;
    PutSoundAnywhere(1);
  }

  lemma SessionSound(s: SessionInfo)
    ensures Sound(Object(SessionFields(s)), 2)
  {
    hide Put, MembersSound, Sound;
    PutSoundAnywhere(1);
  }

  lemma ArraysSound(users: seq<UserInfo>, sessions: seq<SessionInfo>)
    ensures Sound(Array(UserValues(users)), 3) && Sound(Array(SessionValues(sessions)), 3)
  {
    hide UserFields, SessionFields;
    forall u ensures Sound(Object(UserFields(u)), 2) {
      UserSound(u);
    }
    forall s ensures Sound(Object(SessionFields(s)), 2) {
      SessionSound(s);
    }
  }

  lemma RootSound(m: Message)
    ensures Sound(Object(RootFields(m)), 4)
  {
    hide Put, MembersSound, Sound, TypeToString, UserValues, SessionValues;
    PutSoundAnywhere(3);
    ArraysSound(m.users, m.sessions);
  }

  /** Reading the text of a message gives the message, for every message and every library that reads the texts
      of RFC 8259. */
  lemma RoundTrip(lib: Library, m: Message)
    requires Conforms(lib)
    ensures Decoded(lib, Encoded(m)) == Fine(m)
  {
    var root := Object(RootFields(m));
    RootSound(m);
    DeeperIsShallow(root, 4, STACK_LIMIT);
    hide RootFields, DecodeRoot, Write, WellFormed, Shallow, Conforms;
    LibraryReadsBack(lib, root);
    RootReadsBack(lib, m);
  }

  /** The text of a message is one line without NUL. */
  lemma EncodedIsOneLine(m: Message)
    ensures '\n' !in Encoded(m) && '\0' !in Encoded(m)
  {
    RootSound(m);
    WritePrintable(Object(RootFields(m)));
  }

  // ---------------------------------------------------------------- what a request looks like

  lemma FirstDecides(a: string, b: string)
    requires a != "" && b != "" && a[0] < b[0]
    ensures Less(a, b) && !Less(b, a) && a != b
  {
  }

  lemma KeyOrder()
    ensures Less("session_exec", "success") && !Less("success", "session_exec") && "session_exec" != "success"
  {
    assert "session_exec"[1..] == "ession_exec" && "success"[1..] == "uccess";
    FirstDecides("ession_exec", "uccess");
  }

  /** A member goes between those before it and those after it. */
  lemma PutIn(before: seq<Member>, x: Member, after: seq<Member>, whole: seq<Member>, more: seq<Member>)
    requires whole == before + after && more == before + [x] + after
    requires forall k :: 0 <= k < |before| ==> Before(before[k], x)
    requires after == [] || Before(x, after[0])
    ensures Put(whole, x.key, x.value) == more
  {
    PutBetween(before, after, x.key, x.value);
  }

  /** Seven members that are put in another order. */
  lemma InOrder(d: Member, m: Member, p: Member, e: Member, s: Member, t: Member, u: Member)
    requires Before(d, m) && Before(m, p) && Before(m, e) && Before(m, s) && Before(m, u) && Before(p, e)
    requires Before(p, s) && Before(e, s) && Before(s, t) && Before(s, u) && Before(t, u)
    ensures var all := Put(Put(Put(Put([t], s.key, s.value), m.key, m.value), u.key, u.value), p.key, p.value);
      Put(Put(all, e.key, e.value), d.key, d.value) == [d, m, p, e, s, t, u]
  {
    hide Put, Before;
    PutIn([], s, [t], [t], [s, t]);
    PutIn([], m, [s, t], [s, t], [m, s, t]);
    PutIn([m, s, t], u, [], [m, s, t], [m, s, t, u]);
    PutIn([m], p, [s, t, u], [m, s, t, u], [m, p, s, t, u]);
    PutIn([m, p], e, [s, t, u], [m, p, s, t, u], [m, p, e, s, t, u]);
    PutIn([], d, [m, p, e, s, t, u], [m, p, e, s, t, u], [d, m, p, e, s, t, u]);
  }

  predicate Before(a: Member, b: Member) {
    Less(a.key, b.key) && !Less(b.key, a.key) && a.key != b.key
  }

  /** The members of a request to log in, in the order in which they are written. */
  lemma LoginFields(username: string, password: string, sessionExec: string, desktopName: string)
    requires username != "" && password != "" && sessionExec != "" && desktopName != ""
    ensures RootFields(Message(Login, false, "", username, password, sessionExec, desktopName, "", [], []))
         == LoginMembers(username, password, sessionExec, desktopName)
  {
    var all := LoginMembers(username, password, sessionExec, desktopName);
    KeyOrder();
    FirstDecides("success", "type");
    FirstDecides("message", "success");
    FirstDecides("message", "username");
    FirstDecides("success", "username");
    FirstDecides("type", "username");
    FirstDecides("message", "password");
    FirstDecides("password", "success");
    FirstDecides("message", "session_exec");
    FirstDecides("password", "session_exec");
    FirstDecides("desktop_name", "message");
    hide Less;
    InOrder(all[0], all[1], all[2], all[3], all[4], all[5], all[6]);
    assert Put([], "type", String("login")) == [all[5]];
    hide Put;
  }

  function LoginMembers(username: string, password: string, sessionExec: string, desktopName: string): (ms: seq<Member>)
    ensures |ms| == 7
  {
    [ Member("desktop_name", String(desktopName)), Member("message", String("")),
      Member("password", String(password)), Member("session_exec", String(sessionExec)),
      Member("success", Bool(false)), Member("type", String("login")), Member("username", String(username)) ]
  }
}
