/**
 * The line protocol spoken between clients, the coordinator and the storage
 * nodes: the request lines the handlers dispatch on (`Command`), the reply
 * lines they send (`Reply`), and what a connection observes (`Msg`).
 *
 * The token spellings are those of the protocol's constant names
 * (`Protocol.JOIN_TOKEN` is "JOIN", and so on).
 */
module Protocol {
  import opened Wire

  const JOIN := "JOIN"
  const LIST := "LIST"
  const STORE := "STORE"
  const STORE_TO := "STORE_TO"
  const STORE_ACK := "STORE_ACK"
  const STORE_COMPLETE := "STORE_COMPLETE"
  const LOAD := "LOAD"
  const LOAD_FROM := "LOAD_FROM"
  const LOAD_DATA := "LOAD_DATA"
  const RELOAD := "RELOAD"
  const REMOVE := "REMOVE"
  const REMOVE_ACK := "REMOVE_ACK"
  const REMOVE_COMPLETE := "REMOVE_COMPLETE"
  const ACK := "ACK"
  const ERROR_FILE_ALREADY_EXISTS := "ERROR_FILE_ALREADY_EXISTS"
  const ERROR_NOT_ENOUGH_DSTORES := "ERROR_NOT_ENOUGH_DSTORES"
  const ERROR_FILE_DOES_NOT_EXIST := "ERROR_FILE_DOES_NOT_EXIST"
  const ERROR_LOAD := "ERROR_LOAD"

  /** The first tokens a dispatcher acts on. */
  const RequestTokens: set<string> :=
    {JOIN, LIST, STORE, STORE_ACK, LOAD, RELOAD, REMOVE, REMOVE_ACK, LOAD_DATA}

  /** A request line after `line.split(" ")`, by its first token. */
  datatype Command =
    | Join(port: string)
    | List
    | Store(name: string, size: string)
    | StoreAck(name: string)
    | Load(name: string)
    | Reload(name: string)
    | Remove(name: string)
    | RemoveAck(name: string)
    | LoadData(name: string)
    | Other(token: string)   // any other first token: logged and ignored

  function Token(c: Command): string {
    match c
    case Join(_) => JOIN
    case List => LIST
    case Store(_, _) => STORE
    case StoreAck(_) => STORE_ACK
    case Load(_) => LOAD
    case Reload(_) => RELOAD
    case Remove(_) => REMOVE
    case RemoveAck(_) => REMOVE_ACK
    case LoadData(_) => LOAD_DATA
    case Other(t) => t
  }

  function Args(c: Command): seq<string> {
    match c
    case Join(p) => [p]
    case List => []
    case Store(n, s) => [n, s]
    case StoreAck(n) => [n]
    case Load(n) => [n]
    case Reload(n) => [n]
    case Remove(n) => [n]
    case RemoveAck(n) => [n]
    case LoadData(n) => [n]
    case Other(_) => []
  }

  /**
   * The commands the model handles: every argument is a word, a STORE size
   * is a decimal numeral, and an unrecognised token is not one of the
   * request tokens.
   */
  predicate WellFormed(c: Command) {
    && AllWords(Args(c))
    && (c.Store? ==> IsNumeral(c.size))
    && (c.Other? ==> IsWord(c.token) && c.token !in RequestTokens)
  }

  /** The text of a request line. */
  function Render(c: Command): string {
    JoinWords([Token(c)] + Args(c))
  }

  /**
   * The dispatch on `args[0]` after `line.split(" ")`. `None` stands for a
   * line on which the handler would throw: no token at all, or a known
   * token with too few arguments.
   */
  function Parse(line: string): Option<Command> {
    var args := Split(line);
    if |args| == 0 then None
    else if args[0] == JOIN then (if |args| < 2 then None else Some(Join(args[1])))
    else if args[0] == LIST then Some(List)
    else if args[0] == STORE then (if |args| < 3 then None else Some(Store(args[1], args[2])))
    else if args[0] == STORE_ACK then (if |args| < 2 then None else Some(StoreAck(args[1])))
    else if args[0] == LOAD then (if |args| < 2 then None else Some(Load(args[1])))
    else if args[0] == RELOAD then (if |args| < 2 then None else Some(Reload(args[1])))
    else if args[0] == REMOVE then (if |args| < 2 then None else Some(Remove(args[1])))
    else if args[0] == REMOVE_ACK then (if |args| < 2 then None else Some(RemoveAck(args[1])))
    else if args[0] == LOAD_DATA then (if |args| < 2 then None else Some(LoadData(args[1])))
    else Some(Other(args[0]))
  }

  /** Every well-formed command survives being written as a line and read back. */
  lemma ParseRender(c: Command)
    requires WellFormed(c)
    ensures Parse(Render(c)) == Some(c)
  {
    var ws := [Token(c)] + Args(c);
    assert AllWords(ws) by {
      assert IsWord(Token(c)) by {
        match c
        case Other(t) =>
        case _ =>
      }
    }
    SplitJoin(ws);
    assert Split(Render(c)) == ws;
    match c
    case Join(p) => assert ws[0] == JOIN;
    case List => assert ws == [LIST];
    case Store(n, s) => assert ws[0] == STORE;
    case StoreAck(n) => assert ws[0] == STORE_ACK;
    case Load(n) => assert ws[0] == LOAD;
    case Reload(n) => assert ws[0] == RELOAD;
    case Remove(n) => assert ws[0] == REMOVE;
    case RemoveAck(n) => assert ws[0] == REMOVE_ACK;
    case LoadData(n) => assert ws[0] == LOAD_DATA;
    case Other(t) => assert ws == [t];
  }

  /** The lines a coordinator or a storage node sends. */
  datatype Reply =
    | StoreTo(ports: seq<string>)
    | StoreComplete
    | LoadFrom(port: string, size: string)
    | RemoveComplete
    | FileList(names: seq<string>)
    | ErrorFileAlreadyExists
    | ErrorNotEnoughDstores
    | ErrorFileDoesNotExist
    | ErrorFileDoesNotExistNamed(name: string)
    | ErrorLoad
    | Ack

  function ReplyLine(r: Reply): string {
    match r
    case StoreTo(ports) => STORE_TO + " " + JoinWords(ports)
    case StoreComplete => STORE_COMPLETE
    case LoadFrom(port, size) => LOAD_FROM + " " + port + " " + size
    case RemoveComplete => REMOVE_COMPLETE
    case FileList(names) => if names == [] then LIST else LIST + " " + JoinWords(names)
    case ErrorFileAlreadyExists => ERROR_FILE_ALREADY_EXISTS
    case ErrorNotEnoughDstores => ERROR_NOT_ENOUGH_DSTORES
    case ErrorFileDoesNotExist => ERROR_FILE_DOES_NOT_EXIST
    case ErrorFileDoesNotExistNamed(name) => ERROR_FILE_DOES_NOT_EXIST + " " + name
    case ErrorLoad => ERROR_LOAD
    case Ack => ACK
  }

  /** A client splitting a LIST reply gets the token followed by exactly the listed names. */
  lemma ListReplySplit(names: seq<string>)
    requires AllWords(names)
    ensures Split(ReplyLine(FileList(names))) == [LIST] + names
  {
    if names != [] {
      JoinWordsCons(LIST, names);
    }
    SplitJoin([LIST] + names);
  }

  /**
   * A client splitting a STORE_TO reply gets the token followed by exactly
   * the chosen ports. With no ports (R = 0) the reply is "STORE_TO " and the
   * trailing empty piece is dropped.
   */
  lemma StoreToReplySplit(ports: seq<string>)
    requires AllWords(ports)
    ensures Split(ReplyLine(StoreTo(ports))) == [STORE_TO] + ports
  {
    if ports == [] {
      var s := STORE_TO + " ";
      assert s == STORE_TO + " " + "" && s[8] == ' ';
      RawSplitCons(STORE_TO, "");
      assert DropTrailingEmpty([STORE_TO, ""]) == DropTrailingEmpty([STORE_TO]);
    } else {
      JoinWordsCons(STORE_TO, ports);
      SplitJoin([STORE_TO] + ports);
    }
  }

  /** What one connection sees: a text line, raw bytes, or the connection being closed. */
  datatype Msg =
    | Line(to: ConnId, text: string)
    | Bytes(to: ConnId, data: seq<byte>)
    | Close(conn: ConnId)

  function Send(to: ConnId, r: Reply): Msg {
    Line(to, ReplyLine(r))
  }
}
