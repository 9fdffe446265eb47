/**
 * The earlier coordinator in `ControllerHandler.java`: one handler thread
 * per connection, all sharing four maps (registry, file index, waiting
 * clients, placement records). There are no load sessions: a load is
 * parked in the file index as "Loading i". The shared maps are one object
 * here, each handler call is one atomic step that names the connection it
 * serves, and a handler thread that dies on an unchecked exception adds its
 * connection to `halted`.
 *
 * As written, this variant never puts a new name into the file index (it
 * uses `replace`, which only rewrites names already there), so from the
 * empty start no STORE, LOAD or REMOVE ever completes.
 */
module ControllerHandler {
  import opened Wire
  import opened Protocol
  import opened Records

  /** Everything the handlers share, as values. */
  datatype Tables = Tables(
    storeIndex: map<string, ConnId>,         // port -> the storage node's connection
    fileIndex: map<string, Status>,          // name -> status, including "Loading i"
    fileClientIndex: map<string, ConnId>,    // name -> client awaiting completion
    fileStoreLookup: map<string, Placement>, // name -> "size p1 ... pR"
    log: seq<Msg>,                           // every line sent, in order
    halted: set<ConnId>)                     // connections whose handler thread has died

  const Empty := Tables(map[], map[], map[], map[], [], {})

  /** `HashMap.replace`: rewrites the value of a key that is present, and does nothing otherwise. */
  function Replace<K, V>(m: map<K, V>, k: K, v: V): map<K, V> {
    if k in m then m[k := v] else m
  }

  predicate AnyStored(index: map<string, Status>) {
    exists f :: f in index && index[f].Stored?
  }

  /**
   * The LIST reply: the loop builds "f1 f2 ... fn " from the Stored names,
   * then keeps only its LAST character, so the reply is "LIST " when some
   * file is Stored and "LIST" otherwise.
   */
  function ListText(index: map<string, Status>): string {
    if AnyStored(index) then LIST + " " else LIST
  }

  // ---------------------------------------------------------------------
  // The handlers' transitions
  // ---------------------------------------------------------------------

  function AfterJoin(t: Tables, port: string, conn: ConnId): Tables {
    t.(storeIndex := t.storeIndex[port := conn])
  }

  function AfterList(t: Tables, client: ConnId): Tables {
    t.(log := t.log + [Line(client, ListText(t.fileIndex))])
  }

  /**
   * STORE file size from `client`, with `chosen` the ports STORE_TO names.
   * The index is `replace`d, which does nothing for the new name; the
   * client and the record are `put`.
   */
  function AfterStore(t: Tables, r: nat, file: string, size: string, client: ConnId, chosen: seq<string>): Tables {
    if file in t.fileIndex then t.(log := t.log + [Send(client, ErrorFileAlreadyExists)])
    else if |t.storeIndex| < r then t.(log := t.log + [Send(client, ErrorNotEnoughDstores)])
    else t.(fileIndex := Replace(t.fileIndex, file, Storing(0, r)),
            fileClientIndex := t.fileClientIndex[file := client],
            fileStoreLookup := t.fileStoreLookup[file := Placement(size, chosen)],
            log := t.log + [Send(client, StoreTo(chosen))])
  }

  /**
   * STORE_ACK file, received on `from`. At the quorum the index says
   * "Stored" before the waiting client is looked up; a missing client is
   * a null dereference that ends the thread.
   */
  function AfterStoreAck(t: Tables, file: string, from: ConnId): Tables {
    if file in t.fileIndex && t.fileIndex[file].Storing? then
      var next := StoreAckStep(t.fileIndex[file]);
      var t1 := t.(fileIndex := t.fileIndex[file := next]);
      if !next.Stored? then t1
      else if file !in t.fileClientIndex then t1.(halted := t1.halted + {from})
      else t1.(fileClientIndex := t1.fileClientIndex - {file},
               log := t1.log + [Send(t.fileClientIndex[file], StoreComplete)])
    else t
  }

  /**
   * The end of LOAD: field i+1 of the record's `split(" ")` is offered with
   * field 0 as the size. A missing record (null) or a missing field ends
   * the thread.
   */
  function Offer(t: Tables, file: string, client: ConnId, i: nat): Tables {
    if file !in t.fileStoreLookup then t.(halted := t.halted + {client})
    else
      var fields := Split(EncodePlacement(t.fileStoreLookup[file]));
      if |fields| <= i + 1 then t.(halted := t.halted + {client})
      else t.(log := t.log + [Send(client, LoadFrom(fields[i + 1], fields[0]))])
  }

  /**
   * LOAD file or RELOAD file from `client`. "Stored" becomes "Loading 0"
   * and replica 0 is offered. On "Loading i" the source compares i with
   * the number of fields of "Loading i" less two, which is 0: for i = 0 it
   * answers ERROR_LOAD, otherwise it moves on to replica i+1. Any other
   * status gets no answer.
   */
  function AfterLoad(t: Tables, file: string, client: ConnId): Tables {
    if file !in t.fileIndex then t.(log := t.log + [Send(client, ErrorFileDoesNotExist)])
    else match t.fileIndex[file]
      case Stored => Offer(t.(fileIndex := t.fileIndex[file := Loading(0)]), file, client, 0)
      case Loading(i) =>
        if i == 0 then t.(log := t.log + [Send(client, ErrorLoad)])
        else Offer(t.(fileIndex := t.fileIndex[file := Loading(i + 1)]), file, client, i + 1)
      case _ => t
  }

  /**
   * REMOVE file from `client`. For an indexed name the thread dies before
   * changing anything: on a null record, or else on `remove(0)` applied to
   * the unmodifiable list `Stream.toList` returns.
   */
  function AfterRemove(t: Tables, file: string, client: ConnId): Tables {
    if file !in t.fileIndex then t.(log := t.log + [Send(client, ErrorFileDoesNotExist)])
    else t.(halted := t.halted + {client})
  }

  /**
   * REMOVE_ACK file, received on `from`. An absent name or a status other
   * than "Removing" leaves the status array null and the thread dies. At
   * the quorum the entry is deleted before the client is looked up.
   */
  function AfterRemoveAck(t: Tables, file: string, from: ConnId): Tables {
    if file !in t.fileIndex || !t.fileIndex[file].Removing? then t.(halted := t.halted + {from})
    else
      var next := RemoveAckStep(t.fileIndex[file]);
      if next.Some? then t.(fileIndex := t.fileIndex[file := next.value])
      else if file !in t.fileClientIndex then t.(fileIndex := t.fileIndex - {file}, halted := t.halted + {from})
      else t.(fileIndex := t.fileIndex - {file},
              log := t.log + [Send(t.fileClientIndex[file], RemoveComplete)])
  }

  /**
   * The transitions one well-formed request line from `from` may cause.
   * LOAD_DATA is not one of this dispatcher's tokens and is only logged.
   */
  ghost predicate Step(t: Tables, t': Tables, r: nat, from: ConnId, cmd: Command) {
    && WellFormed(cmd)
    && match cmd
       case Join(port) => t' == AfterJoin(t, port, from)
       case List => t' == AfterList(t, from)
       case Store(name, size) => exists chosen :: t' == AfterStore(t, r, name, size, from, chosen) &&
                                   (name !in t.fileIndex && |t.storeIndex| >= r ==> ChosenOk(chosen, t.storeIndex, r))
       case StoreAck(name) => t' == AfterStoreAck(t, name, from)
       case Load(name) => t' == AfterLoad(t, name, from)
       case Reload(name) => t' == AfterLoad(t, name, from)
       case Remove(name) => t' == AfterRemove(t, name, from)
       case RemoveAck(name) => t' == AfterRemoveAck(t, name, from)
       case LoadData(_) => t' == t
       case Other(_) => t' == t
  }

  // ---------------------------------------------------------------------
  // What this variant does, proved about the transitions
  // ---------------------------------------------------------------------

  /** Nothing is added to the file index and nothing sent is taken back. */
  ghost predicate Shrinks(t: Tables, t': Tables) {
    t'.fileIndex.Keys <= t.fileIndex.Keys && t.log <= t'.log
  }

  /** STORE never indexes the file: `replace` of an absent name changes nothing. */
  lemma StoreNeverIndexes(t: Tables, r: nat, file: string, size: string, client: ConnId, chosen: seq<string>)
    ensures AfterStore(t, r, file, size, client, chosen).fileIndex == t.fileIndex
    ensures Shrinks(t, AfterStore(t, r, file, size, client, chosen))
  {
    if file !in t.fileIndex && |t.storeIndex| >= r {
      assert Replace(t.fileIndex, file, Storing(0, r)) == t.fileIndex;
    }
  }

  lemma StoreAckShrinks(t: Tables, file: string, from: ConnId)
    ensures Shrinks(t, AfterStoreAck(t, file, from))
  {
  }

  lemma LoadShrinks(t: Tables, file: string, client: ConnId)
    ensures Shrinks(t, AfterLoad(t, file, client))
  {
  }

  lemma RemoveAckShrinks(t: Tables, file: string, from: ConnId)
    ensures Shrinks(t, AfterRemoveAck(t, file, from))
  {
  }

  /**
   * A LIST reply always splits to the bare token: with a Stored file the
   * reply is "LIST " and the trailing empty field is dropped, so no name
   * ever reaches the client.
   */
  lemma ListShowsNothing(index: map<string, Status>)
    ensures Split(ListText(index)) == [LIST]
    ensures AnyStored(index) <==> ListText(index) == LIST + " "
  {
    if AnyStored(index) {
      var s := LIST + " ";
      assert ' ' in s by { assert s[4] == ' '; }
      assert RawSplit(s) == [LIST, ""] by {
        RawSplitCons(LIST, "");
        assert LIST + " " + "" == s;
      }
      assert DropTrailingEmpty([LIST, ""]) == DropTrailingEmpty([LIST]);
    }
  }

  /** REMOVE of an indexed name only ends the requesting connection's thread. */
  lemma RemoveIndexedDies(t: Tables, file: string, client: ConnId)
    requires file in t.fileIndex
    ensures AfterRemove(t, file, client) == t.(halted := t.halted + {client})
    ensures AfterRemove(t, file, client).log == t.log
  {
  }

  /** No request line ever adds a name to the file index. */
  lemma StepNeverIndexes(t: Tables, t': Tables, r: nat, from: ConnId, cmd: Command)
    requires Step(t, t', r, from, cmd)
    ensures Shrinks(t, t')
  {
    match cmd
    case Store(name, size) =>
      var chosen :| t' == AfterStore(t, r, name, size, from, chosen) &&
                    (name !in t.fileIndex && |t.storeIndex| >= r ==> ChosenOk(chosen, t.storeIndex, r));
      StoreNeverIndexes(t, r, name, size, from, chosen);
    case StoreAck(name) => StoreAckShrinks(t, name, from);
    case Load(name) => LoadShrinks(t, name, from);
    case Reload(name) => LoadShrinks(t, name, from);
    case RemoveAck(name) => RemoveAckShrinks(t, name, from);
    case Join(_) =>
    case List =>
    case Remove(_) =>
    case LoadData(_) =>
    case Other(_) =>
  }

  /** A line that answers a request positively: STORE_COMPLETE, REMOVE_COMPLETE or LOAD_FROM. */
  predicate Completes(m: Msg) {
    m.Line? && (m.text == STORE_COMPLETE || m.text == REMOVE_COMPLETE || StartsWith(m.text, LOAD_FROM))
  }

  /** The lines this variant sends while nothing is indexed are none of the completions. */
  lemma RefusalsDoNotComplete(c: ConnId, chosen: seq<string>)
    ensures !Completes(Line(c, LIST))
    ensures !Completes(Send(c, ErrorNotEnoughDstores))
    ensures !Completes(Send(c, ErrorFileDoesNotExist))
    ensures !Completes(Send(c, StoreTo(chosen)))
  {
    assert ERROR_NOT_ENOUGH_DSTORES[0] == 'E';
    assert ERROR_FILE_DOES_NOT_EXIST[0] == 'E';
    var text := ReplyLine(StoreTo(chosen));
    assert text[6] == 'T' && text[0] == 'S';
  }

  /** Everything sent after the first |log| lines, none of which is a completion. */
  ghost predicate NoCompletionsAfter(log: seq<Msg>, log': seq<Msg>) {
    log <= log' && forall k :: |log| <= k < |log'| ==> !Completes(log'[k])
  }

  lemma AppendOne(log: seq<Msg>, m: Msg)
    requires !Completes(m)
    ensures NoCompletionsAfter(log, log + [m])
  {
  }

  /**
   * With nothing indexed, a request line leaves nothing indexed and sends
   * no completion: LOAD and REMOVE are refused, STORE_ACK is ignored and
   * REMOVE_ACK ends its thread.
   */
  lemma StepFromEmptyIndex(t: Tables, t': Tables, r: nat, from: ConnId, cmd: Command)
    requires t.fileIndex == map[] && Step(t, t', r, from, cmd)
    ensures t'.fileIndex == map[]
    ensures NoCompletionsAfter(t.log, t'.log)
  {
    RefusalsDoNotComplete(from, []);
    match cmd
    case List =>
      AppendOne(t.log, Line(from, LIST));
    case Store(name, size) =>
      var chosen :| t' == AfterStore(t, r, name, size, from, chosen) &&
                    (name !in t.fileIndex && |t.storeIndex| >= r ==> ChosenOk(chosen, t.storeIndex, r));
      StoreNeverIndexes(t, r, name, size, from, chosen);
      RefusalsDoNotComplete(from, chosen);
      if |t.storeIndex| < r {
        AppendOne(t.log, Send(from, ErrorNotEnoughDstores));
      } else {
        AppendOne(t.log, Send(from, StoreTo(chosen)));
      }
    case Load(name) =>
      AppendOne(t.log, Send(from, ErrorFileDoesNotExist));
    case Reload(name) =>
      AppendOne(t.log, Send(from, ErrorFileDoesNotExist));
    case Remove(name) =>
      AppendOne(t.log, Send(from, ErrorFileDoesNotExist));
    case Join(_) =>
    case StoreAck(_) =>
    case RemoveAck(_) =>
    case LoadData(_) =>
    case Other(_) =>
  }

  lemma NoCompletionsTrans(a: seq<Msg>, b: seq<Msg>, c: seq<Msg>)
    requires NoCompletionsAfter(a, b) && NoCompletionsAfter(b, c)
    ensures NoCompletionsAfter(a, c)
  {
    forall k | |a| <= k < |c| ensures !Completes(c[k]) {
      if k < |b| {
        assert c[k] == b[k];
      }
    }
  }

  /** A request line, as read by the thread serving connection `from`. */
  datatype Arrival = Arrival(from: ConnId, cmd: Command)

  /** States `ts`, each reached from the one before by the matching line of `lines`. */
  ghost predicate Run(ts: seq<Tables>, lines: seq<Arrival>, r: nat) {
    && |ts| == |lines| + 1
    && forall i :: 0 <= i < |lines| ==> Step(ts[i], ts[i + 1], r, lines[i].from, lines[i].cmd)
  }

  /**
   * From the empty start, whatever lines arrive, the file index stays
   * empty and no completion is ever sent.
   */
  lemma {:induction false} RunNeverCompletes(ts: seq<Tables>, lines: seq<Arrival>, r: nat)
    requires Run(ts, lines, r) && ts[0] == Empty
    ensures forall i :: 0 <= i < |ts| ==> ts[i].fileIndex == map[]
    ensures NoCompletionsAfter([], ts[|ts| - 1].log)
  {
    if lines != [] {
      var n := |lines| - 1;
      RunNeverCompletes(ts[..n + 1], lines[..n], r);
      StepFromEmptyIndex(ts[n], ts[n + 1], r, lines[n].from, lines[n].cmd);
      NoCompletionsTrans([], ts[n].log, ts[n + 1].log);
    }
  }

  /** Every parked load is still at its first replica. */
  ghost predicate LoadingAtZero(index: map<string, Status>) {
    forall f :: f in index && index[f].Loading? ==> index[f].attempt == 0
  }

  /**
   * The ERROR_LOAD test compares the counter of "Loading i" with the number
   * of its fields less two, which is 0: a LOAD of a file at "Loading 0" is
   * refused and changes nothing else, so the counter never moves on.
   */
  lemma LoadAtZeroRefused(t: Tables, file: string, client: ConnId)
    requires file in t.fileIndex && t.fileIndex[file] == Loading(0)
    ensures AfterLoad(t, file, client) == t.(log := t.log + [Send(client, ErrorLoad)])
  {
  }

  lemma StoreAckKeepsLoadingAtZero(t: Tables, file: string, from: ConnId)
    requires LoadingAtZero(t.fileIndex)
    ensures LoadingAtZero(AfterStoreAck(t, file, from).fileIndex)
  {
    if file in t.fileIndex && t.fileIndex[file].Storing? {
      assert !StoreAckStep(t.fileIndex[file]).Loading?;
    }
  }

  lemma LoadKeepsLoadingAtZero(t: Tables, file: string, client: ConnId)
    requires LoadingAtZero(t.fileIndex)
    ensures LoadingAtZero(AfterLoad(t, file, client).fileIndex)
  {
    if file in t.fileIndex && t.fileIndex[file].Loading? {
      LoadAtZeroRefused(t, file, client);
    }
  }

  lemma RemoveAckKeepsLoadingAtZero(t: Tables, file: string, from: ConnId)
    requires LoadingAtZero(t.fileIndex)
    ensures LoadingAtZero(AfterRemoveAck(t, file, from).fileIndex)
  {
  }

  /**
   * Whatever line arrives, a parked load stays at "Loading 0": only a Stored
   * file starts one, and only at 0. Only the first replica is ever offered.
   */
  lemma StepKeepsLoadingAtZero(t: Tables, t': Tables, r: nat, from: ConnId, cmd: Command)
    requires LoadingAtZero(t.fileIndex) && Step(t, t', r, from, cmd)
    ensures LoadingAtZero(t'.fileIndex)
  {
    match cmd
    case Store(name, size) =>
      var chosen :| t' == AfterStore(t, r, name, size, from, chosen) &&
                    (name !in t.fileIndex && |t.storeIndex| >= r ==> ChosenOk(chosen, t.storeIndex, r));
      StoreNeverIndexes(t, r, name, size, from, chosen);
    case StoreAck(name) => StoreAckKeepsLoadingAtZero(t, name, from);
    case Load(name) => LoadKeepsLoadingAtZero(t, name, from);
    case Reload(name) => LoadKeepsLoadingAtZero(t, name, from);
    case RemoveAck(name) => RemoveAckKeepsLoadingAtZero(t, name, from);
    case Join(_) =>
    case List =>
    case Remove(_) =>
    case LoadData(_) =>
    case Other(_) =>
  }

  /**
   * Over any run that starts with no load parked past its first replica
   * (the empty start included), no load ever is.
   */
  lemma {:induction false} RunKeepsLoadingAtZero(ts: seq<Tables>, lines: seq<Arrival>, r: nat)
    requires Run(ts, lines, r) && LoadingAtZero(ts[0].fileIndex)
    ensures forall i :: 0 <= i < |ts| ==> LoadingAtZero(ts[i].fileIndex)
  {
    if lines != [] {
      var n := |lines| - 1;
      RunKeepsLoadingAtZero(ts[..n + 1], lines[..n], r);
      StepKeepsLoadingAtZero(ts[n], ts[n + 1], r, lines[n].from, lines[n].cmd);
    }
  }

  // ---------------------------------------------------------------------
  // The handlers, on the shared maps
  // ---------------------------------------------------------------------

  /**
   * The LIST loop over the index: the Stored names (by `equals("Stored")`),
   * and the reply built from them as the source builds it.
   */
  method ListLine(index: map<string, Status>) returns (names: seq<string>, reply: string)
    ensures forall f :: f in names <==> f in index && index[f].Stored?
    ensures reply == LIST + (if names == [] then "" else " ")
    ensures reply == ListText(index)
  {
    var outLine := "";
    names := [];
    var keys := index.Keys;
    while keys != {}
      invariant keys <= index.Keys
      invariant forall f :: f in names <==> f in index && f !in keys && index[f].Stored?
      invariant outLine == Spaced(names)
      decreases keys
    {
      var f :| f in keys;
      var stored := StatusIsStored(index[f]);
      if stored {
        SpacedSnoc(names, f);
        outLine := outLine + f + " ";
        names := names + [f];
      }
      keys := keys - {f};
    }
    if |outLine| > 0 {
      SpacedEndsInSpace(names);
      outLine := outLine[|outLine| - 1..];
    }
    reply := LIST + outLine;
    assert AnyStored(index) <==> names != [] by {
      if names != [] {
        assert names[0] in names;
      }
    }
  }

  class Handler {
    /** R: the number of replicas per file, fixed at startup. */
    const replicFactor: nat

    var storeIndex: map<string, ConnId>
    var fileIndex: map<string, Status>
    var fileClientIndex: map<string, ConnId>
    var fileStoreLookup: map<string, Placement>
    var log: seq<Msg>
    var halted: set<ConnId>

    ghost function View(): Tables
      reads this
    {
      Tables(storeIndex, fileIndex, fileClientIndex, fileStoreLookup, log, halted)
    }

    constructor (replicFactor: nat)
      ensures this.replicFactor == replicFactor && View() == Empty
    {
      this.replicFactor := replicFactor;
      storeIndex := map[];
      fileIndex := map[];
      fileClientIndex := map[];
      fileStoreLookup := map[];
      log := [];
      halted := {};
    }

    /** JOIN port: registers (or re-registers) the storage node's connection. */
    method StoreJoin(port: string, client: ConnId)
      modifies this
      ensures View() == AfterJoin(old(View()), port, client)
    {
      storeIndex := storeIndex[port := client];
    }

    /** LIST: see `ListLine` and `ListText`. */
    method ListFiles(client: ConnId)
      modifies this
      ensures View() == AfterList(old(View()), client)
    {
      var names, reply := ListLine(fileIndex);
      log := log + [Line(client, reply)];
    }

    /** `checkExistedFile`: answers ERROR_FILE_ALREADY_EXISTS exactly when `present` holds. */
    method CheckExistedFile(client: ConnId, present: bool, file: string) returns (rejected: bool)
      modifies this
      ensures rejected == present
      ensures View() == if present then old(View()).(log := old(log) + [Send(client, ErrorFileAlreadyExists)])
                        else old(View())
    {
      if present {
        log := log + [Send(client, ErrorFileAlreadyExists)];
        return true;
      }
      return false;
    }

    /** STORE name size: see `AfterStore`; `chosen` are the ports STORE_TO names. */
    method ClientStore(file: string, fileSize: string, client: ConnId) returns (chosen: seq<string>)
      modifies this
      ensures View() == AfterStore(old(View()), replicFactor, file, fileSize, client, chosen)
      ensures file !in old(fileIndex) && |storeIndex| >= replicFactor ==> ChosenOk(chosen, storeIndex, replicFactor)
    {
      chosen := [];
      var rejected := CheckExistedFile(client, file in fileIndex, file);
      if rejected {
        return;
      }

      var storePoolSize := |storeIndex|;
      if storePoolSize < replicFactor {
        log := log + [Send(client, ErrorNotEnoughDstores)];
        return;
      }

      fileIndex := Replace(fileIndex, file, Storing(0, replicFactor));
      fileClientIndex := fileClientIndex[file := client];

      var portsArray := Enumerate(storeIndex.Keys);
      var ports := JoinFirst(portsArray, replicFactor);
      chosen := portsArray[..replicFactor];
      log := log + [Line(client, STORE_TO + " " + ports)];

      fileStoreLookup := fileStoreLookup[file := Placement(fileSize, chosen)];
      assert ChosenOk(chosen, storeIndex, replicFactor) by {
        assert forall i :: 0 <= i < |chosen| ==> chosen[i] == portsArray[i] && portsArray[i] in portsArray;
      }
    }

    /** STORE_ACK name, received on `from`: see `AfterStoreAck`. */
    method StoreAck(fileName: string, from: ConnId)
      modifies this
      ensures View() == AfterStoreAck(old(View()), fileName, from)
    {
      var stored := false;
      var storing := false;
      if fileName in fileIndex {
        storing := StatusStartsWith(fileIndex[fileName], STORING);
      }
      if storing {
        var i, r := ReadCounters(fileIndex[fileName]);
        i := i + 1;
        if i == r {
          fileIndex := fileIndex[fileName := Stored];
          stored := true;
        } else {
          fileIndex := fileIndex[fileName := Storing(i, r)];
        }
      }

      if stored {
        if fileName !in fileClientIndex {
          halted := halted + {from};
          return;
        }
        var clientSocket := fileClientIndex[fileName];
        log := log + [Send(clientSocket, StoreComplete)];
        fileClientIndex := fileClientIndex - {fileName};
      }
    }

    /** LOAD name and RELOAD name: see `AfterLoad`. */
    method ClientLoad(fileName: string, client: ConnId)
      modifies this
      ensures View() == AfterLoad(old(View()), fileName, client)
    {
      if fileName !in fileIndex {
        log := log + [Send(client, ErrorFileDoesNotExist)];
        return;
      }

      var i := 0;
      var stored := StatusStartsWith(fileIndex[fileName], STORED);
      if stored {
        fileIndex := Replace(fileIndex, fileName, Loading(0));
      } else {
        var loading := StatusStartsWith(fileIndex[fileName], LOADING);
        if !loading {
          return;
        }
        var fields;
        i, fields := ReadLoading(fileIndex[fileName]);
        if i == fields - 2 {
          log := log + [Send(client, ErrorLoad)];
          return;
        }
        i := i + 1;
        fileIndex := Replace(fileIndex, fileName, Loading(i));
      }

      if fileName !in fileStoreLookup {
        halted := halted + {client};
        return;
      }
      var record := Split(EncodePlacement(fileStoreLookup[fileName]));
      if |record| <= i + 1 {
        halted := halted + {client};
        return;
      }
      var ports := record[i + 1];
      var fileSize := record[0];
      log := log + [Line(client, LOAD_FROM + " " + ports + " " + fileSize)];
    }

    /** REMOVE name: see `AfterRemove`. */
    method ClientRemove(fileName: string, client: ConnId)
      modifies this
      ensures View() == AfterRemove(old(View()), fileName, client)
    {
      if fileName !in fileIndex {
        log := log + [Send(client, ErrorFileDoesNotExist)];
        return;
      }
      // a null record, or `remove(0)` on an unmodifiable list: either throws
      halted := halted + {client};
    }

    /** REMOVE_ACK name, received on `from`: see `AfterRemoveAck`. */
    method DstoreRmAck(fileName: string, from: ConnId)
      modifies this
      ensures View() == AfterRemoveAck(old(View()), fileName, from)
    {
      if fileName !in fileIndex {
        halted := halted + {from};
        return;
      }
      var removing := StatusStartsWith(fileIndex[fileName], REMOVING);
      if !removing {
        halted := halted + {from};
        return;
      }
      var i, r := ReadCounters(fileIndex[fileName]);
      i := i + 1;
      if i == r {
        fileIndex := fileIndex - {fileName};
        if fileName !in fileClientIndex {
          halted := halted + {from};
          return;
        }
        var client := fileClientIndex[fileName];
        log := log + [Send(client, RemoveComplete)];
      } else {
        fileIndex := fileIndex[fileName := Removing(i, r)];
      }
    }

    /**
     * One line read by the thread serving `from`, dispatched on its first
     * token. No line adds a name to the file index.
     */
    method Dispatch(from: ConnId, cmd: Command)
      requires WellFormed(cmd) && from !in halted
      modifies this
      ensures Step(old(View()), View(), replicFactor, from, cmd)
      ensures fileIndex.Keys <= old(fileIndex.Keys)
    {
      ghost var t := View();
      match cmd {
        case Join(port) =>
          StoreJoin(port, from);
        case List =>
          ListFiles(from);
        case Store(name, size) =>
          var chosen := ClientStore(name, size, from);
        case StoreAck(name) => StoreAck(name, from);
        case Load(name) => ClientLoad(name, from);
        case Reload(name) => ClientLoad(name, from);
        case Remove(name) => ClientRemove(name, from);
        case RemoveAck(name) => DstoreRmAck(name, from);
        case LoadData(_) =>
        case Other(_) =>
      }
      StepNeverIndexes(t, View(), replicFactor, from, cmd);
    }
  }
}
