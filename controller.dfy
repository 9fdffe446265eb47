/**
 * The coordinator that `Controller.main` runs: one object owning five maps
 * (registry, file index, waiting clients, placement records, load
 * sessions), with one handler per protocol line. The per-map locks and the
 * thread per connection are left out: each handler call is one atomic
 * step, and what it sends is appended to `log`.
 *
 * Each handler's effect on the whole state is a pure transition on
 * `Tables` (`AfterStore`, `AfterLoad`, ...). The handlers are proved to
 * perform exactly that transition, and the invariant and the protocol's
 * guarantees are proved about the transitions.
 */
module Controller {
  import opened Wire
  import opened Protocol
  import opened Records

  /** Everything a coordinator holds, as values. */
  datatype Tables = Tables(
    storeIndex: map<string, ConnId>,         // port -> the storage node's connection
    fileIndex: map<string, Status>,          // name -> status
    fileClientIndex: map<string, ConnId>,    // name -> client awaiting STORE_COMPLETE / REMOVE_COMPLETE
    fileStoreLookup: map<string, Placement>, // name -> "size p1 ... pR"
    fileLoadLookup: map<string, LoadSession>,// name -> "Loading i r"
    log: seq<Msg>,                           // every line sent, in order
    halted: set<ConnId>)                     // connections whose handler thread has died

  const Empty := Tables(map[], map[], map[], map[], map[], [], {})

  /** One `REMOVE name` order per recorded port, in record order, on that port's connection. */
  function RemoveOrders(ports: seq<string>, registry: map<string, ConnId>, name: string): (orders: seq<Msg>)
    requires forall i :: 0 <= i < |ports| ==> ports[i] in registry
    ensures |orders| == |ports|
    ensures forall i :: 0 <= i < |ports| ==> orders[i] == Line(registry[ports[i]], Render(Remove(name)))
  {
    if ports == [] then []
    else RemoveOrders(ports[..|ports| - 1], registry, name) + [Line(registry[ports[|ports| - 1]], Render(Remove(name)))]
  }

  /** The REMOVE handler's loop over the recorded ports: one order per port, in order. */
  method SendRemoveOrders(ports: seq<string>, registry: map<string, ConnId>, name: string) returns (orders: seq<Msg>)
    requires forall i :: 0 <= i < |ports| ==> ports[i] in registry
    ensures orders == RemoveOrders(ports, registry, name)
  {
    var order := REMOVE + " " + name;
    assert order == Render(Remove(name)) by {
      JoinWordsCons(REMOVE, [name]);
    }
    orders := [];
    var k := 0;
    while k < |ports|
      invariant 0 <= k <= |ports|
      invariant orders == RemoveOrders(ports[..k], registry, name)
    {
      assert ports[..k + 1][..k] == ports[..k];
      var dstore := registry[ports[k]];
      orders := orders + [Line(dstore, order)];
      k := k + 1;
    }
    assert ports[..k] == ports;
  }

  /** Dropping the last character of the LIST loop's line leaves the reply's arguments. */
  lemma ListLineTrim(names: seq<string>)
    ensures var s := " " + Spaced(names);
      LIST + s[..|s| - 1] == ReplyLine(FileList(names))
  {
    var s := " " + Spaced(names);
    StripSpaced(names);
    if names == [] {
      assert s[..|s| - 1] == "";
    } else {
      assert s[..|s| - 1] == " " + Spaced(names)[..|Spaced(names)| - 1];
    }
  }

  /**
   * The LIST handler's walk over the file index: the names of exactly the
   * files whose status starts with "Stored", each once, in the order the
   * index is enumerated, and the reply line listing them (a leading space
   * is added per name and the last character dropped).
   */
  method ListReply(index: map<string, Status>) returns (names: seq<string>, reply: string)
    ensures forall f :: f in names <==> f in index && index[f].Stored?
    ensures Distinct(names)
    ensures reply == ReplyLine(FileList(names))
  {
    var outLine := " ";
    names := [];
    var keys := index.Keys;
    while keys != {}
      invariant keys <= index.Keys
      invariant forall f :: f in names <==> f in index && f !in keys && index[f].Stored?
      invariant Distinct(names)
      invariant outLine == " " + Spaced(names)
      decreases keys
    {
      var f :| f in keys;
      var stored := StatusStartsWith(index[f], STORED);
      if stored {
        SpacedSnoc(names, f);
        outLine := outLine + f + " ";
        names := names + [f];
      }
      keys := keys - {f};
    }
    ListLineTrim(names);
    outLine := outLine[..|outLine| - 1];
    reply := LIST + outLine;
  }

  // ---------------------------------------------------------------------
  // The coordinator's invariant
  // ---------------------------------------------------------------------

  /** Every joined port is a protocol word. */
  ghost predicate RegistryOk(registry: map<string, ConnId>) {
    forall p :: p in registry ==> IsWord(p)
  }

  /** A placement record as STORE writes it: R distinct registered ports. */
  ghost predicate RecordOk(p: Placement, registry: map<string, ConnId>, r: nat) {
    && PlacementOk(p)
    && |p.ports| == r
    && Distinct(p.ports)
    && forall i :: 0 <= i < |p.ports| ==> p.ports[i] in registry
  }

  ghost predicate RecordsOk(records: map<string, Placement>, registry: map<string, ConnId>, r: nat) {
    forall f :: f in records ==> RecordOk(records[f], registry, r)
  }

  /**
   * Counting statuses count towards R and stay below it (with R = 0 they
   * never complete) and have a client waiting. This coordinator never
   * parks a load in its index.
   */
  ghost predicate StatusOk(s: Status, waiting: bool, r: nat) {
    match s
    case Storing(i, n) => n == r && (n == 0 || i < n) && waiting
    case Removing(i, n) => n == r && (n == 0 || i < n) && waiting
    case Stored => true
    case Loading(_) => false
  }

  ghost predicate IndexOk(index: map<string, Status>, clients: map<string, ConnId>,
                          records: map<string, Placement>, r: nat) {
    forall f :: f in index ==> IsWord(f) && f in records && StatusOk(index[f], f in clients, r)
  }

  /** A load session points at a recorded replica and remembers how many there are. */
  ghost predicate SessionsOk(sessions: map<string, LoadSession>, records: map<string, Placement>) {
    forall f :: f in sessions ==>
      && f in records
      && sessions[f].attempt < |records[f].ports|
      && sessions[f].replicas == |records[f].ports|
  }

  ghost predicate Inv(t: Tables, r: nat) {
    && RegistryOk(t.storeIndex)
    && RecordsOk(t.fileStoreLookup, t.storeIndex, r)
    && IndexOk(t.fileIndex, t.fileClientIndex, t.fileStoreLookup, r)
    && SessionsOk(t.fileLoadLookup, t.fileStoreLookup)
  }

  /** The invariant's facts about one file name: what a handler for that name relies on. */
  ghost predicate FileOk(t: Tables, r: nat, f: string) {
    && (f in t.fileIndex ==> f in t.fileStoreLookup && StatusOk(t.fileIndex[f], f in t.fileClientIndex, r))
    && (f in t.fileStoreLookup ==> RecordOk(t.fileStoreLookup[f], t.storeIndex, r))
    && (f in t.fileLoadLookup ==>
          && f in t.fileStoreLookup
          && t.fileLoadLookup[f].attempt < |t.fileStoreLookup[f].ports|
          && t.fileLoadLookup[f].replicas == |t.fileStoreLookup[f].ports|)
  }

  lemma InvFileOk(t: Tables, r: nat, f: string)
    requires Inv(t, r)
    ensures FileOk(t, r, f)
  {
  }

  // ---------------------------------------------------------------------
  // The handlers' transitions
  // ---------------------------------------------------------------------

  /** JOIN port, on connection `conn`: (re-)registers the port. */
  function AfterJoin(t: Tables, port: string, conn: ConnId): Tables {
    t.(storeIndex := t.storeIndex[port := conn])
  }

  /** LIST, answered with `names`. */
  function AfterList(t: Tables, client: ConnId, names: seq<string>): Tables {
    t.(log := t.log + [Send(client, FileList(names))])
  }

  /**
   * STORE file size from `client`, with `chosen` the ports STORE_TO names.
   * The index entry is new; the client and the record are put only when
   * absent (`putIfAbsent`).
   */
  function AfterStore(t: Tables, r: nat, file: string, size: string, client: ConnId, chosen: seq<string>): Tables {
    if file in t.fileIndex then t.(log := t.log + [Send(client, ErrorFileAlreadyExists)])
    else if |t.storeIndex| < r then t.(log := t.log + [Send(client, ErrorNotEnoughDstores)])
    else t.(fileIndex := t.fileIndex[file := Storing(0, r)],
            fileClientIndex := if file in t.fileClientIndex then t.fileClientIndex
                               else t.fileClientIndex[file := client],
            fileStoreLookup := if file in t.fileStoreLookup then t.fileStoreLookup
                               else t.fileStoreLookup[file := Placement(size, chosen)],
            log := t.log + [Send(client, StoreTo(chosen))])
  }

  /** STORE_ACK file. */
  ghost function AfterStoreAck(t: Tables, r: nat, file: string): Tables
    requires FileOk(t, r, file)
  {
    if file in t.fileIndex && t.fileIndex[file].Storing? then
      var next := StoreAckStep(t.fileIndex[file]);
      if next.Stored? then
        t.(fileIndex := t.fileIndex[file := next],
           fileClientIndex := t.fileClientIndex - {file},
           log := t.log + [Send(t.fileClientIndex[file], StoreComplete)])
      else t.(fileIndex := t.fileIndex[file := next])
    else t
  }

  /** The replica last offered to a loader of `file`, if a session exists. */
  function LastOffered(t: Tables, file: string): Option<nat> {
    if file in t.fileLoadLookup then Some(t.fileLoadLookup[file].attempt) else None
  }

  /** LOAD file or RELOAD file from `client`. */
  ghost function AfterLoad(t: Tables, r: nat, file: string, client: ConnId): Tables
    requires FileOk(t, r, file)
  {
    if file !in t.fileIndex then t.(log := t.log + [Send(client, ErrorFileDoesNotExist)])
    else if !t.fileIndex[file].Stored? then t
    else
      var rec := t.fileStoreLookup[file];
      var step := LoadStep(LastOffered(t, file), |rec.ports|);
      if step.0.None? then
        t.(fileLoadLookup := t.fileLoadLookup - {file},
           log := t.log + [Send(client, ErrorLoad)])
      else
        t.(fileLoadLookup := t.fileLoadLookup[file := LoadSession(step.0.value, |rec.ports|)],
           log := t.log + [Send(client, LoadFrom(rec.ports[step.0.value], NatToString(ParseNat(rec.size))))])
  }

  /** REMOVE file from `client`. */
  ghost function AfterRemove(t: Tables, r: nat, file: string, client: ConnId): Tables
    requires FileOk(t, r, file)
  {
    if file !in t.fileIndex then t.(log := t.log + [Send(client, ErrorFileDoesNotExist)])
    else
      var ports := t.fileStoreLookup[file].ports;
      t.(fileIndex := if t.fileIndex[file].Stored? then t.fileIndex[file := Removing(0, |ports|)] else t.fileIndex,
         fileClientIndex := t.fileClientIndex[file := client],
         log := t.log + RemoveOrders(ports, t.storeIndex, file))
  }

  /** REMOVE_ACK file, received on connection `from`. */
  ghost function AfterRemoveAck(t: Tables, r: nat, file: string, from: ConnId): Tables
    requires FileOk(t, r, file)
  {
    if file in t.fileIndex && t.fileIndex[file].Removing? then
      var next := RemoveAckStep(t.fileIndex[file]);
      if next.None? then
        t.(fileIndex := t.fileIndex - {file},
           log := t.log + [Send(t.fileClientIndex[file], RemoveComplete)])
      else t.(fileIndex := t.fileIndex[file := next.value])
    else t.(halted := t.halted + {from})
  }

  // ---------------------------------------------------------------------
  // Every transition keeps the invariant
  // ---------------------------------------------------------------------

  /** Nothing sent is taken back and no joined port is forgotten. */
  ghost predicate Grows(t: Tables, t': Tables) {
    t.log <= t'.log && t.storeIndex.Keys <= t'.storeIndex.Keys
  }

  lemma JoinKeepsInv(t: Tables, r: nat, port: string, conn: ConnId)
    requires Inv(t, r) && IsWord(port)
    ensures Inv(AfterJoin(t, port, conn), r) && Grows(t, AfterJoin(t, port, conn))
  {
  }

  lemma ListKeepsInv(t: Tables, r: nat, client: ConnId, names: seq<string>)
    requires Inv(t, r)
    ensures Inv(AfterList(t, client, names), r) && Grows(t, AfterList(t, client, names))
  {
  }

  lemma StoreKeepsInv(t: Tables, r: nat, file: string, size: string, client: ConnId, chosen: seq<string>)
    requires Inv(t, r) && IsWord(file) && IsNumeral(size)
    requires file !in t.fileIndex && |t.storeIndex| >= r ==> ChosenOk(chosen, t.storeIndex, r)
    ensures Inv(AfterStore(t, r, file, size, client, chosen), r) && Grows(t, AfterStore(t, r, file, size, client, chosen))
  {
    if file !in t.fileIndex && |t.storeIndex| >= r {
      var t' := AfterStore(t, r, file, size, client, chosen);
      assert AllWords(chosen) by {
        forall i | 0 <= i < |chosen| ensures IsWord(chosen[i]) {
          assert chosen[i] in t.storeIndex;
        }
      }
      assert RecordsOk(t'.fileStoreLookup, t'.storeIndex, r);
      forall f | f in t'.fileIndex
        ensures IsWord(f) && f in t'.fileStoreLookup && StatusOk(t'.fileIndex[f], f in t'.fileClientIndex, r)
      {
        if f != file {
          assert StatusOk(t.fileIndex[f], f in t.fileClientIndex, r);
        }
      }
    }
  }

  lemma StoreAckKeepsInv(t: Tables, r: nat, file: string)
    requires Inv(t, r)
    ensures Inv(AfterStoreAck(t, r, file), r) && Grows(t, AfterStoreAck(t, r, file))
  {
    if file in t.fileIndex && t.fileIndex[file].Storing? {
      var t' := AfterStoreAck(t, r, file);
      forall f | f in t'.fileIndex
        ensures StatusOk(t'.fileIndex[f], f in t'.fileClientIndex, r)
      {
        if f != file {
          assert StatusOk(t.fileIndex[f], f in t.fileClientIndex, r);
        }
      }
    }
  }

  lemma LoadKeepsInv(t: Tables, r: nat, file: string, client: ConnId)
    requires Inv(t, r)
    ensures Inv(AfterLoad(t, r, file, client), r) && Grows(t, AfterLoad(t, r, file, client))
  {
    if file in t.fileIndex && t.fileIndex[file].Stored? {
      var n := |t.fileStoreLookup[file].ports|;
      var step := LoadStep(LastOffered(t, file), n);
      var sessions' := AfterLoad(t, r, file, client).fileLoadLookup;
      assert sessions' == if step.0.None? then t.fileLoadLookup - {file}
                          else t.fileLoadLookup[file := LoadSession(step.0.value, n)];
      assert SessionsOk(sessions', t.fileStoreLookup);
    }
  }

  lemma RemoveKeepsInv(t: Tables, r: nat, file: string, client: ConnId)
    requires Inv(t, r)
    ensures Inv(AfterRemove(t, r, file, client), r) && Grows(t, AfterRemove(t, r, file, client))
  {
    if file in t.fileIndex {
      var t' := AfterRemove(t, r, file, client);
      forall f | f in t'.fileIndex
        ensures StatusOk(t'.fileIndex[f], f in t'.fileClientIndex, r)
      {
        if f != file {
          assert StatusOk(t.fileIndex[f], f in t.fileClientIndex, r);
        }
      }
    }
  }

  lemma RemoveAckKeepsInv(t: Tables, r: nat, file: string, from: ConnId)
    requires Inv(t, r)
    ensures Inv(AfterRemoveAck(t, r, file, from), r) && Grows(t, AfterRemoveAck(t, r, file, from))
  {
  }

  /**
   * A REMOVE_ACK for a name that is not being removed finds no status
   * array: its connection's thread ends and nothing else changes.
   */
  lemma StrayRemoveAckHalts(t: Tables, r: nat, file: string, from: ConnId)
    requires FileOk(t, r, file) && !(file in t.fileIndex && t.fileIndex[file].Removing?)
    ensures AfterRemoveAck(t, r, file, from) == t.(halted := t.halted + {from})
  {
  }

  // ---------------------------------------------------------------------
  // One request line
  // ---------------------------------------------------------------------

  /** The name a command is about (the port, for JOIN). */
  function Subject(c: Command): string {
    if |Args(c)| > 0 then Args(c)[0] else ""
  }

  /** What a LIST reply may carry: each Stored file exactly once. */
  ghost predicate ListedOk(t: Tables, names: seq<string>) {
    && (forall f :: f in names <==> f in t.fileIndex && t.fileIndex[f].Stored?)
    && Distinct(names)
  }

  /**
   * The transitions one well-formed request line from connection `from`
   * may cause, by its first token. LIST and STORE also depend on the order
   * in which a hash map is enumerated, which is left open.
   */
  ghost predicate Step(t: Tables, t': Tables, r: nat, from: ConnId, cmd: Command) {
    && WellFormed(cmd)
    && FileOk(t, r, Subject(cmd))
    && match cmd
       case Join(port) => t' == AfterJoin(t, port, from)
       case List => exists names :: t' == AfterList(t, from, names) && ListedOk(t, names)
       case Store(name, size) => exists chosen :: t' == AfterStore(t, r, name, size, from, chosen) &&
                                   (name !in t.fileIndex && |t.storeIndex| >= r ==> ChosenOk(chosen, t.storeIndex, r))
       case StoreAck(name) => t' == AfterStoreAck(t, r, name)
       case Load(name) => t' == AfterLoad(t, r, name, from)
       case Reload(name) => t' == AfterLoad(t, r, name, from)
       case Remove(name) => t' == AfterRemove(t, r, name, from)
       case RemoveAck(name) => t' == AfterRemoveAck(t, r, name, from)
       case LoadData(_) => t' == t
       case Other(_) => t' == t
  }

  /** Every request line keeps the invariant, only appends to the log, and never unregisters a port. */
  lemma StepKeepsInv(t: Tables, t': Tables, r: nat, from: ConnId, cmd: Command)
    requires Inv(t, r) && Step(t, t', r, from, cmd)
    ensures Inv(t', r) && Grows(t, t')
  {
    match cmd
    case Join(port) =>
      assert Args(cmd) == [port];
      JoinKeepsInv(t, r, port, from);
    case List =>
      var names :| t' == AfterList(t, from, names) && ListedOk(t, names);
      ListKeepsInv(t, r, from, names);
    case Store(name, size) =>
      assert Args(cmd) == [name, size];
      var chosen :| t' == AfterStore(t, r, name, size, from, chosen) &&
                    (name !in t.fileIndex && |t.storeIndex| >= r ==> ChosenOk(chosen, t.storeIndex, r));
      StoreKeepsInv(t, r, name, size, from, chosen);
    case StoreAck(name) => StoreAckKeepsInv(t, r, name);
    case Load(name) => LoadKeepsInv(t, r, name, from);
    case Reload(name) => LoadKeepsInv(t, r, name, from);
    case Remove(name) => RemoveKeepsInv(t, r, name, from);
    case RemoveAck(name) => RemoveAckKeepsInv(t, r, name, from);
    case LoadData(_) =>
    case Other(_) =>
  }

  // ---------------------------------------------------------------------
  // The coordinator object
  // ---------------------------------------------------------------------

  class Coordinator {
    /** R: the number of replicas per file, fixed at startup. */
    const replicFactor: nat

    var storeIndex: map<string, ConnId>
    var fileIndex: map<string, Status>
    var fileClientIndex: map<string, ConnId>
    var fileStoreLookup: map<string, Placement>
    var fileLoadLookup: map<string, LoadSession>
    var log: seq<Msg>
    var halted: set<ConnId>

    ghost function View(): Tables
      reads this
    {
      Tables(storeIndex, fileIndex, fileClientIndex, fileStoreLookup, fileLoadLookup, log, halted)
    }

    ghost predicate Valid()
      reads this
    {
      Inv(View(), replicFactor)
    }

    constructor (replicFactor: nat)
      ensures Valid() && this.replicFactor == replicFactor && View() == Empty
    {
      this.replicFactor := replicFactor;
      storeIndex := map[];
      fileIndex := map[];
      fileClientIndex := map[];
      fileStoreLookup := map[];
      fileLoadLookup := map[];
      log := [];
      halted := {};
    }

    /** JOIN port: registers (or re-registers) the storage node's connection. */
    method StoreJoin(port: string, client: ConnId)
      modifies this
      ensures View() == AfterJoin(old(View()), port, client)
    {
      storeIndex := storeIndex[port := client];
    }

    /** LIST: see `ListReply`. */
    method ListFiles(client: ConnId) returns (names: seq<string>)
      modifies this
      ensures View() == AfterList(old(View()), client, names)
      ensures ListedOk(old(View()), names)
    {
      var reply;
      names, reply := ListReply(fileIndex);
      log := log + [Line(client, reply)];
    }

    /** `checkExistedFile`: answers ERROR_FILE_ALREADY_EXISTS exactly when `present` holds. */
    method CheckExistedFile(client: ConnId, present: bool, file: string) returns (rejected: bool)
      modifies this
      ensures rejected == present
      ensures View() == if present then old(View()).(log := old(log) + [Send(client, ErrorFileAlreadyExists)])
                        else old(View())
    {
      if present {
        log := log + [Send(client, ErrorFileAlreadyExists)];
        return true;
      }
      return false;
    }

    /**
     * STORE name size. Rejected with no change but the reply when the name
     * is indexed in any state, or when fewer than R storage nodes have
     * joined. Otherwise STORE_TO lists the first R ports of an enumeration
     * of the registry, returned as `chosen`.
     */
    method ClientStore(file: string, fileSize: string, client: ConnId) returns (chosen: seq<string>)
      modifies this
      ensures View() == AfterStore(old(View()), replicFactor, file, fileSize, client, chosen)
      ensures file !in old(fileIndex) && |storeIndex| >= replicFactor ==> ChosenOk(chosen, storeIndex, replicFactor)
    {
      chosen := [];
      var rejected := CheckExistedFile(client, file in fileIndex, file);
      if rejected {
        return;
      }

      var storePoolSize := |storeIndex|;
      if storePoolSize < replicFactor {
        log := log + [Send(client, ErrorNotEnoughDstores)];
        return;
      }

      // putIfAbsent on the index, the waiting clients and (below) the records
      if file !in fileIndex {
        fileIndex := fileIndex[file := Storing(0, replicFactor)];
      }
      if file !in fileClientIndex {
        fileClientIndex := fileClientIndex[file := client];
      }

      var portsArray := Enumerate(storeIndex.Keys);
      var ports := JoinFirst(portsArray, replicFactor);
      chosen := portsArray[..replicFactor];
      log := log + [Line(client, STORE_TO + " " + ports)];

      if file !in fileStoreLookup {
        fileStoreLookup := fileStoreLookup[file := Placement(fileSize, chosen)];
      }
      assert ChosenOk(chosen, storeIndex, replicFactor) by {
        assert forall i :: 0 <= i < |chosen| ==> chosen[i] == portsArray[i] && portsArray[i] in portsArray;
      }
    }

    /**
     * STORE_ACK name: on "Storing i r" the count becomes i+1, or the file
     * turns "Stored" when i+1 = r, and only then is STORE_COMPLETE sent to
     * the waiting client and its entry dropped.
     */
    method StoreAck(fileName: string)
      requires FileOk(View(), replicFactor, fileName)
      modifies this
      ensures View() == AfterStoreAck(old(View()), replicFactor, fileName)
    {
      var stored := false;
      var storing := false;
      if fileName in fileIndex {
        storing := StatusStartsWith(fileIndex[fileName], STORING);
      }
      if storing {
        var i, r := ReadCounters(fileIndex[fileName]);
        i := i + 1;
        if i == r {
          fileIndex := fileIndex[fileName := Stored];
          stored := true;
        } else {
          fileIndex := fileIndex[fileName := Storing(i, r)];
        }
      }

      if stored {
        var clientSocket := fileClientIndex[fileName];
        log := log + [Send(clientSocket, StoreComplete)];
        fileClientIndex := fileClientIndex - {fileName};
      }
    }

    /** `numDstoresHasFile`: the fields of the file's record, less the size field. */
    method NumDstoresHasFile(fileName: string) returns (dstores: nat)
      requires fileName in fileStoreLookup && FileOk(View(), replicFactor, fileName)
      ensures dstores == |fileStoreLookup[fileName].ports| == replicFactor
    {
      var rec := fileStoreLookup[fileName];
      SplitPlacement(rec);
      dstores := |Split(EncodePlacement(rec))| - 1;
    }

    /** `dstoresHasFile`: the fields of the file's record with the first (the size) removed. */
    method DstoresHasFile(fileName: string) returns (dstorePorts: seq<string>)
      requires fileName in fileStoreLookup && FileOk(View(), replicFactor, fileName)
      ensures dstorePorts == fileStoreLookup[fileName].ports
      ensures |dstorePorts| == replicFactor && Distinct(dstorePorts)
      ensures forall i :: 0 <= i < |dstorePorts| ==> dstorePorts[i] in storeIndex
    {
      var rec := fileStoreLookup[fileName];
      SplitPlacement(rec);
      var fields := Split(EncodePlacement(rec));
      dstorePorts := fields[1..];
    }

    /** `Integer.parseInt` of the record's first field: the size the client declared. */
    method RecordedSize(fileName: string) returns (fileSize: nat)
      requires fileName in fileStoreLookup && FileOk(View(), replicFactor, fileName)
      ensures fileSize == ParseNat(fileStoreLookup[fileName].size)
    {
      var rec := fileStoreLookup[fileName];
      SplitPlacement(rec);
      fileSize := ParseNat(Split(EncodePlacement(rec))[0]);
    }

    /**
     * LOAD name and RELOAD name: see `AfterLoad`. A fresh session starts at
     * replica 0; the "Loading 0 r" entry the source first puts for it is
     * overwritten or removed within the same call.
     */
    method ClientLoad(fileName: string, client: ConnId)
      requires FileOk(View(), replicFactor, fileName)
      modifies this
      ensures View() == AfterLoad(old(View()), replicFactor, fileName, client)
    {
      if fileName !in fileIndex {
        log := log + [Send(client, ErrorFileDoesNotExist)];
        return;
      }

      var i := 0;
      var r := NumDstoresHasFile(fileName);
      var dstores := DstoresHasFile(fileName);
      var fileSize := RecordedSize(fileName);

      var stored := StatusStartsWith(fileIndex[fileName], STORED);
      if stored {
        if fileName in fileLoadLookup {
          i := ReadAttempt(fileLoadLookup[fileName]);
          i := i + 1;
        }
        assert LoadStep(LastOffered(View(), fileName), r).0 == if i == r then None else Some(i);
        if i == r {
          log := log + [Send(client, ErrorLoad)];
          fileLoadLookup := fileLoadLookup - {fileName};
        } else {
          fileLoadLookup := fileLoadLookup[fileName := LoadSession(i, r)];
          log := log + [Line(client, LOAD_FROM + " " + dstores[i] + " " + NatToString(fileSize))];
        }
      }
    }

    /** REMOVE name: see `AfterRemove`. */
    method ClientRemove(fileName: string, client: ConnId)
      requires FileOk(View(), replicFactor, fileName)
      modifies this
      ensures View() == AfterRemove(old(View()), replicFactor, fileName, client)
    {
      if fileName !in fileIndex {
        log := log + [Send(client, ErrorFileDoesNotExist)];
        return;
      }

      var dstores := NumDstoresHasFile(fileName);
      var dstorePorts := DstoresHasFile(fileName);

      var stored := StatusStartsWith(fileIndex[fileName], STORED);
      if stored {
        fileIndex := fileIndex[fileName := Removing(0, dstores)];
      }

      fileClientIndex := fileClientIndex[fileName := client];

      var orders := SendRemoveOrders(dstorePorts, storeIndex, fileName);
      log := log + orders;
    }

    /**
     * REMOVE_ACK name, received on connection `from`: see `AfterRemoveAck`.
     * On an absent name or a status other than "Removing" the source
     * dereferences a null status array: that connection's thread dies.
     */
    method DstoreRmAck(fileName: string, from: ConnId)
      requires FileOk(View(), replicFactor, fileName)
      modifies this
      ensures View() == AfterRemoveAck(old(View()), replicFactor, fileName, from)
    {
      if fileName !in fileIndex {
        halted := halted + {from};
        return;
      }
      var removing := StatusStartsWith(fileIndex[fileName], REMOVING);
      if !removing {
        halted := halted + {from};
        return;
      }
      var i, r := ReadCounters(fileIndex[fileName]);
      i := i + 1;
      if i == r {
        fileIndex := fileIndex - {fileName};
        var client := fileClientIndex[fileName];
        log := log + [Send(client, RemoveComplete)];
      } else {
        fileIndex := fileIndex[fileName := Removing(i, r)];
      }
    }

    /**
     * The dispatch on a line's first token: LOAD and RELOAD share a
     * handler, and any other token is only logged.
     */
    method Dispatch(from: ConnId, cmd: Command)
      requires WellFormed(cmd) && FileOk(View(), replicFactor, Subject(cmd))
      modifies this
      ensures Step(old(View()), View(), replicFactor, from, cmd)
    {
      match cmd
      case Join(port) =>
        StoreJoin(port, from);
      case List =>
        var names := ListFiles(from);
      case Store(name, size) =>
        assert Args(cmd) == [name, size] && IsWord(Args(cmd)[0]);
        var chosen := ClientStore(name, size, from);
      case StoreAck(name) => StoreAck(name);
      case Load(name) => ClientLoad(name, from);
      case Reload(name) => ClientLoad(name, from);
      case Remove(name) => ClientRemove(name, from);
      case RemoveAck(name) => DstoreRmAck(name, from);
      case LoadData(_) =>
      case Other(_) =>
    }

    /**
     * One line read by a live connection's thread: the dispatch, with the
     * coordinator's invariant kept.
     */
    method ServeLine(from: ConnId, cmd: Command)
      requires Valid() && WellFormed(cmd) && from !in halted
      modifies this
      ensures Valid() && Step(old(View()), View(), replicFactor, from, cmd)
      ensures Grows(old(View()), View())
    {
      ghost var t := View();
      InvFileOk(t, replicFactor, Subject(cmd));
      Dispatch(from, cmd);
      StepKeepsInv(t, View(), replicFactor, from, cmd);
    }
  }
}
