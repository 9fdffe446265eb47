/**
 * A storage node (`Dstore`): a folder of named blobs, one connection to the
 * coordinator, and one connection per client. The coordinator connection
 * carries REMOVE orders; client connections carry STORE and LOAD_DATA.
 *
 * The folder is a map from name to contents. What the node sends on a
 * connection is appended to `log`. The outcomes of the file system and of
 * the blocking socket read are parameters: whether `File.delete` succeeds,
 * and which bytes `readNBytes` returns (or that it failed).
 */
module Dstore {
  import opened Wire
  import opened Protocol

  /** A node's folder and everything it has sent, as values. */
  datatype Node = Node(blobs: map<string, seq<byte>>, log: seq<Msg>)

  /** The line a node announces itself with: `JOIN port`. */
  function JoinLine(port: nat): string {
    JOIN + " " + NatToString(port)
  }

  function StoreAckLine(name: string): string {
    STORE_ACK + " " + name
  }

  function RemoveAckLine(name: string): string {
    REMOVE_ACK + " " + name
  }

  // ---------------------------------------------------------------------
  // The handlers as transitions
  // ---------------------------------------------------------------------

  /**
   * REMOVE name, requested on `requester`: a missing blob is reported to
   * the coordinator; a present one is deleted and acknowledged to the
   * requester when `deleted` (the delete succeeded); otherwise nothing.
   */
  function AfterRemove(n: Node, controller: ConnId, name: string, requester: ConnId, deleted: bool): Node {
    if name !in n.blobs then
      n.(log := n.log + [Send(controller, ErrorFileDoesNotExistNamed(name))])
    else if deleted then
      Node(n.blobs - {name}, n.log + [Line(requester, RemoveAckLine(name))])
    else n
  }

  /** LOAD_DATA name from `client`: the contents, or the connection closed. */
  function AfterLoad(n: Node, name: string, client: ConnId): Node {
    if name !in n.blobs then n.(log := n.log + [Close(client)])
    else n.(log := n.log + [Bytes(client, n.blobs[name])])
  }

  /**
   * STORE name size from `client`: ACK first; then, when the read delivers
   * `received`, the bytes replace the blob and STORE_ACK goes to the
   * coordinator. A failed read stops after the ACK.
   */
  function AfterStore(n: Node, controller: ConnId, name: string, client: ConnId,
                      received: Option<seq<byte>>): Node {
    var acked := n.log + [Send(client, Ack)];
    match received
    case None => n.(log := acked)
    case Some(data) => Node(n.blobs[name := data], acked + [Line(controller, StoreAckLine(name))])
  }

  /** `readNBytes(size)` returns at most `size` bytes. */
  predicate ReadFits(received: Option<seq<byte>>, size: string)
    requires IsNumeral(size)
  {
    received.Some? ==> |received.value| <= ParseNat(size)
  }

  /** One line read by one of the node's connection threads, with what the environment did. */
  datatype Event =
    | Order(cmd: Command, deleted: bool)                                  // on the coordinator connection
    | Request(client: ConnId, cmd: Command, received: Option<seq<byte>>)  // on a client connection

  /**
   * The two dispatches on a line's first token: the coordinator connection
   * acts on REMOVE only, a client connection on STORE and LOAD_DATA only;
   * every other token is logged and changes nothing. A client connection
   * the node has closed reads no further line: its thread has ended.
   */
  predicate Step(n: Node, n': Node, controller: ConnId, e: Event) {
    && WellFormed(e.cmd)
    && match e
       case Order(cmd, deleted) =>
         n' == (if cmd.Remove? then AfterRemove(n, controller, cmd.name, controller, deleted) else n)
       case Request(client, cmd, received) =>
         Close(client) !in n.log &&
         match cmd
         case Store(name, size) => ReadFits(received, size) && n' == AfterStore(n, controller, name, client, received)
         case LoadData(name) => n' == AfterLoad(n, name, client)
         case _ => n' == n
  }

  /** A sequence of nodes, each obtained from the one before by the corresponding event. */
  predicate Run(ns: seq<Node>, es: seq<Event>, controller: ConnId) {
    && |ns| == |es| + 1
    && forall i :: 0 <= i < |es| ==> Step(ns[i], ns[i + 1], controller, es[i])
  }

  /** Event `e` is a STORE of `name` whose read delivered exactly `data`. */
  predicate Writes(e: Event, name: string, data: seq<byte>) {
    e.Request? && e.cmd.Store? && e.cmd.name == name && e.received == Some(data)
  }

  // ---------------------------------------------------------------------
  // What the coordinator reads
  // ---------------------------------------------------------------------

  /** The coordinator reads the announcement as JOIN with the node's own port. */
  lemma JoinLineParses(port: nat)
    ensures Parse(JoinLine(port)) == Some(Join(NatToString(port)))
    ensures ParseNat(NatToString(port)) == port
  {
    var c := Join(NatToString(port));
    NumeralIsWord(NatToString(port));
    JoinWordsCons(JOIN, [NatToString(port)]);
    assert Render(c) == JoinLine(port);
    ParseRender(c);
    ParseNatToString(port);
  }

  /** The coordinator reads a node's STORE_ACK as an acknowledgement of that very name. */
  lemma StoreAckLineParses(name: string)
    requires IsWord(name)
    ensures Parse(StoreAckLine(name)) == Some(StoreAck(name))
  {
    JoinWordsCons(STORE_ACK, [name]);
    assert Render(StoreAck(name)) == StoreAckLine(name);
    ParseRender(StoreAck(name));
  }

  /** The coordinator reads a node's REMOVE_ACK as an acknowledgement of that very name. */
  lemma RemoveAckLineParses(name: string)
    requires IsWord(name)
    ensures Parse(RemoveAckLine(name)) == Some(RemoveAck(name))
  {
    JoinWordsCons(REMOVE_ACK, [name]);
    assert Render(RemoveAck(name)) == RemoveAckLine(name);
    ParseRender(RemoveAck(name));
  }

  /**
   * The report of a missing blob carries a token the coordinator does not
   * dispatch on: it is logged there and acknowledges nothing.
   */
  lemma MissingReportIgnored(name: string)
    requires IsWord(name)
    ensures Parse(ReplyLine(ErrorFileDoesNotExistNamed(name))) == Some(Other(ERROR_FILE_DOES_NOT_EXIST))
  {
    var ws := [ERROR_FILE_DOES_NOT_EXIST, name];
    JoinWordsCons(ERROR_FILE_DOES_NOT_EXIST, [name]);
    SplitJoin(ws);
    assert ERROR_FILE_DOES_NOT_EXIST !in RequestTokens;
  }

  // ---------------------------------------------------------------------
  // Properties of the handlers
  // ---------------------------------------------------------------------

  /** A REMOVE for a missing blob leaves the folder alone and reports the name to the coordinator only. */
  lemma RemoveMissing(n: Node, controller: ConnId, name: string, requester: ConnId, deleted: bool)
    requires name !in n.blobs
    ensures var n' := AfterRemove(n, controller, name, requester, deleted);
      n'.blobs == n.blobs && n'.log == n.log + [Line(controller, ERROR_FILE_DOES_NOT_EXIST + " " + name)]
  {
  }

  /**
   * A REMOVE for a present blob acknowledges exactly when the blob is gone
   * afterwards; a failed delete sends nothing and keeps the contents.
   */
  lemma RemovePresent(n: Node, controller: ConnId, name: string, requester: ConnId, deleted: bool)
    requires name in n.blobs
    ensures var n' := AfterRemove(n, controller, name, requester, deleted);
      && (name !in n'.blobs <==> deleted)
      && (deleted ==> n'.blobs == n.blobs - {name} && n'.log == n.log + [Line(requester, RemoveAckLine(name))])
      && (!deleted ==> n' == n)
  {
  }

  /**
   * STORE always sends ACK to the client first; STORE_ACK reaches the
   * coordinator exactly when the bytes were received, and then after the
   * blob holds them.
   */
  lemma StoreAcksAfterWrite(n: Node, controller: ConnId, name: string, client: ConnId,
                            received: Option<seq<byte>>)
    ensures var n' := AfterStore(n, controller, name, client, received);
      && |n'.log| > |n.log| && n'.log[..|n.log| + 1] == n.log + [Line(client, ACK)]
      && (Line(controller, StoreAckLine(name)) in n'.log[|n.log|..] <==> received.Some?)
      && (received.Some? ==> name in n'.blobs && n'.blobs[name] == received.value)
      && (received.None? ==> n'.blobs == n.blobs && n'.log == n.log + [Line(client, ACK)])
  {
    var n' := AfterStore(n, controller, name, client, received);
    var suffix := n'.log[|n.log|..];
    if received.None? {
      assert suffix == [Line(client, ACK)];
    } else {
      assert suffix == [Line(client, ACK), Line(controller, StoreAckLine(name))];
    }
  }

  /** Storing then loading hands the reader exactly the received bytes. */
  lemma StoreThenLoad(n: Node, controller: ConnId, name: string, client: ConnId, data: seq<byte>, reader: ConnId)
    ensures var n' := AfterStore(n, controller, name, client, Some(data));
      AfterLoad(n', name, reader).log == n'.log + [Bytes(reader, data)]
  {
  }

  /** Deleting a stored blob then loading it closes the reader's connection without data. */
  lemma RemoveThenLoad(n: Node, controller: ConnId, name: string, data: seq<byte>, reader: ConnId)
    ensures var n' := AfterRemove(n.(blobs := n.blobs[name := data]), controller, name, controller, true);
      && name !in n'.blobs
      && AfterLoad(n', name, reader).log == n'.log + [Close(reader)]
  {
  }

  /**
   * A second REMOVE of the same name after a successful one is reported as
   * missing and leaves the folder as the first one left it.
   */
  lemma RemoveTwice(n: Node, controller: ConnId, name: string)
    requires name in n.blobs
    ensures var n1 := AfterRemove(n, controller, name, controller, true);
      var n2 := AfterRemove(n1, controller, name, controller, true);
      n2.blobs == n1.blobs == n.blobs - {name} &&
      n2.log == n.log + [Line(controller, RemoveAckLine(name)), Send(controller, ErrorFileDoesNotExistNamed(name))]
  {
  }

  /** The name a line is about (the empty string for LIST and unrecognised tokens). */
  function Subject(c: Command): string {
    match c
    case Store(name, _) => name
    case Remove(name) => name
    case LoadData(name) => name
    case _ => ""
  }

  /**
   * One step touches at most the blob its line names, only appends to the
   * log, and never sends more than two messages.
   */
  lemma StepFrame(n: Node, n': Node, controller: ConnId, e: Event)
    requires Step(n, n', controller, e)
    ensures forall k :: k != Subject(e.cmd) ==> (k in n'.blobs <==> k in n.blobs)
    ensures forall k :: k != Subject(e.cmd) && k in n.blobs ==> n'.blobs[k] == n.blobs[k]
    ensures |n.log| <= |n'.log| <= |n.log| + 2 && n'.log[..|n.log|] == n.log
  {
  }

  /**
   * Only a client's STORE can make a name's contents anything other than
   * they were: every blob after a step is unchanged or was just received
   * under that name.
   */
  lemma StepOrigin(n: Node, n': Node, controller: ConnId, e: Event)
    requires Step(n, n', controller, e)
    ensures forall k :: k in n'.blobs ==> (k in n.blobs && n'.blobs[k] == n.blobs[k]) || Writes(e, k, n'.blobs[k])
  {
  }

  /**
   * Over a whole run, the node never invents contents or moves them between
   * names: each blob holds what the folder held at the start, or the bytes
   * of an earlier STORE of that same name.
   */
  lemma {:induction false} RunOrigin(ns: seq<Node>, es: seq<Event>, controller: ConnId, m: nat)
    requires Run(ns, es, controller) && m < |ns|
    ensures forall k :: k in ns[m].blobs ==>
      (k in ns[0].blobs && ns[m].blobs[k] == ns[0].blobs[k]) ||
      exists i :: 0 <= i < m && Writes(es[i], k, ns[m].blobs[k])
  {
    if m > 0 {
      RunOrigin(ns, es, controller, m - 1);
      StepOrigin(ns[m - 1], ns[m], controller, es[m - 1]);
      forall k | k in ns[m].blobs
        ensures (k in ns[0].blobs && ns[m].blobs[k] == ns[0].blobs[k]) ||
                exists i :: 0 <= i < m && Writes(es[i], k, ns[m].blobs[k])
      {
        if !Writes(es[m - 1], k, ns[m].blobs[k]) {
          assert k in ns[m - 1].blobs && ns[m].blobs[k] == ns[m - 1].blobs[k];
        }
      }
    }
  }

  /** Along a run, nothing sent is taken back. */
  lemma {:induction false} RunKeepsLog(ns: seq<Node>, es: seq<Event>, controller: ConnId, i: nat, j: nat)
    requires Run(ns, es, controller) && i <= j < |ns|
    ensures ns[i].log <= ns[j].log
  {
    if i < j {
      RunKeepsLog(ns, es, controller, i, j - 1);
      StepFrame(ns[j - 1], ns[j], controller, es[j - 1]);
    }
  }

  /** Once the node has closed a client's connection, no later line arrives on it. */
  lemma ClosedStaysSilent(ns: seq<Node>, es: seq<Event>, controller: ConnId, c: ConnId, i: nat, j: nat)
    requires Run(ns, es, controller) && i <= j < |es| && Close(c) in ns[i].log
    ensures !(es[j].Request? && es[j].client == c)
  {
    RunKeepsLog(ns, es, controller, i, j);
    assert Step(ns[j], ns[j + 1], controller, es[j]);
  }

  /**
   * A LOAD_DATA of a present blob sends the bytes the folder held at the
   * start or the bytes of an earlier STORE of that name, and nothing else.
   */
  lemma LoadServesStored(ns: seq<Node>, es: seq<Event>, controller: ConnId, m: nat)
    requires Run(ns, es, controller) && m < |es|
    requires es[m].Request? && es[m].cmd.LoadData? && es[m].cmd.name in ns[m].blobs
    ensures var data := ns[m].blobs[es[m].cmd.name];
      && ns[m + 1].log == ns[m].log + [Bytes(es[m].client, data)]
      && ns[m + 1].blobs == ns[m].blobs
      && ((es[m].cmd.name in ns[0].blobs && data == ns[0].blobs[es[m].cmd.name]) ||
          exists i :: 0 <= i < m && Writes(es[i], es[m].cmd.name, data))
  {
    assert Step(ns[m], ns[m + 1], controller, es[m]);
    RunOrigin(ns, es, controller, m);
  }

  // ---------------------------------------------------------------------
  // The node object
  // ---------------------------------------------------------------------

  class StorageNode {
    /** The port this node serves clients on, announced in JOIN. */
    const port: nat
    /** The connection to the coordinator. */
    const controller: ConnId

    var blobs: map<string, seq<byte>>
    var log: seq<Msg>

    ghost function View(): Node
      reads this
    {
      Node(blobs, log)
    }

    /** A node over `folder`, whatever it already holds, having sent nothing. */
    constructor (port: nat, controller: ConnId, folder: map<string, seq<byte>>)
      ensures this.port == port && this.controller == controller
      ensures View() == Node(folder, [])
    {
      this.port := port;
      this.controller := controller;
      blobs := folder;
      log := [];
    }

    /** The first line on the coordinator connection announces the port. */
    method Start()
      modifies this
      ensures blobs == old(blobs) && log == old(log) + [Line(controller, JoinLine(port))]
    {
      log := log + [Line(controller, JOIN + " " + NatToString(port))];
    }

    method RemoveFile(fileName: string, client: ConnId, deleted: bool)
      modifies this
      ensures View() == AfterRemove(old(View()), controller, fileName, client, deleted)
    {
      if fileName !in blobs {
        log := log + [Line(controller, ERROR_FILE_DOES_NOT_EXIST + " " + fileName)];
        return;
      }
      if deleted {
        blobs := blobs - {fileName};
        log := log + [Line(client, REMOVE_ACK + " " + fileName)];
      }
    }

    method LoadFile(fileName: string, client: ConnId)
      modifies this
      ensures View() == AfterLoad(old(View()), fileName, client)
    {
      if fileName !in blobs {
        log := log + [Close(client)];
        return;
      }
      var buffer := blobs[fileName];
      log := log + [Bytes(client, buffer)];
    }

    method StoreFile(fileName: string, fileSize: string, client: ConnId, received: Option<seq<byte>>)
      modifies this
      ensures View() == AfterStore(old(View()), controller, fileName, client, received)
    {
      log := log + [Line(client, ACK)];
      if received.None? {
        return;
      }
      var buffer := received.value;
      blobs := blobs[fileName := buffer];
      log := log + [Line(controller, STORE_ACK + " " + fileName)];
    }

    /** The coordinator connection's dispatch: REMOVE orders only. */
    method ControllerLine(cmd: Command, deleted: bool)
      requires WellFormed(cmd)
      modifies this
      ensures Step(old(View()), View(), controller, Order(cmd, deleted))
    {
      match cmd
      case Remove(name) => RemoveFile(name, controller, deleted);
      case _ =>
    }

    /** A client connection's dispatch: STORE and LOAD_DATA only. */
    method ClientLine(client: ConnId, cmd: Command, received: Option<seq<byte>>)
      requires WellFormed(cmd) && (cmd.Store? ==> ReadFits(received, cmd.size))
      requires Close(client) !in log
      modifies this
      ensures Step(old(View()), View(), controller, Request(client, cmd, received))
    {
      match cmd
      case Store(name, size) => StoreFile(name, size, client, received);
      case LoadData(name) => LoadFile(name, client);
      case _ =>
    }
  }
}
