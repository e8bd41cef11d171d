/** The records that the daemon and the greeter exchange. */
module Messages {
  import opened Text

  datatype UserInfo = UserInfo(
    username: string,
    displayName: string,
    homeDir: string,
    avatarPath: string,
    uid: uint32,
    gid: uint32,
    shell: string)

  const BLANK_USER := UserInfo("", "", "", "", 0, 0, "/bin/bash")

  datatype SessionInfo = SessionInfo(
    id: string,
    name: string,
    exec: string,
    comment: string,
    desktopNames: string,
    desktopFile: string,
    isWayland: bool)

  const BLANK_SESSION := SessionInfo("", "", "", "", "", "", true)

  datatype MessageType = Unknown | Ping | GetUsers | GetSessions | Login | PowerAction | Response | SessionStatus

  datatype Message = Message(
    kind: MessageType,
    success: bool,
    message: string,
    username: string,
    password: string,
    sessionExec: string,
    desktopName: string,
    powerAction: string,
    users: seq<UserInfo>,
    sessions: seq<SessionInfo>)

  const BLANK_MESSAGE := Message(Unknown, false, "", "", "", "", "", "", [], [])

  /** A reply that carries no list. */
  function Answer(success: bool, text: string): Message {
    BLANK_MESSAGE.(kind := Response, success := success, message := text)
  }

  /** The answer to a login that succeeded; no other request is answered so. */
  const LOGIN_GRANTED := Answer(true, "Login successful")
}
