# A verified model of a replicated file store's coordinator and storage node

The system stores named files on a pool of storage nodes ("Dstores"), with a
replication factor R. A coordinator (the "Controller") keeps the registry of
joined nodes, a file index of per-file statuses, the clients waiting for a
STORE or REMOVE to complete, each file's placement record (declared size and
replica ports), and, in the version its `main` runs, one load session per file.
Clients speak a line protocol to the coordinator: JOIN, LIST, STORE, STORE_ACK,
LOAD, RELOAD, REMOVE and REMOVE_ACK. They move file bytes directly to and from
the storage nodes.

The model has one Dafny module per concern:

| file | module | what it holds |
|---|---|---|
| `wire.dfy` | `Wire` | Java's `String.split(" ")`, space-joined word lists, the string-building loops, decimal numerals (`Integer.parseInt` and int-to-string) and their round trips |
| `protocol.dfy` | `Protocol` | the protocol tokens, request lines (`Command`) with `Parse`/`Render` and their round trip, reply lines (`Reply`), and what a connection observes (`Msg`) |
| `records.dfy` | `Records` | the strings the coordinator keeps in its maps ("Storing i r", "Stored", "Removing i r", "Loading i", "size p1 ... pR", "Loading i r") as datatypes with encodings, and the per-file ACK and LOAD steps with their quorum and enumeration properties |
| `controller.dfy` | `Controller` | `Controller.java`: class `Coordinator` with its five maps, one method per handler, each proved to make a pure transition on `Tables`; the invariant all transitions keep |
| `controller_runs.dfy` | `ControllerRuns` | what `Controller.java` guarantees across several requests: STORE_COMPLETE after exactly R STORE_ACKs, REMOVE_COMPLETE after exactly R REMOVE_ACKs, replicas offered in record order until ERROR_LOAD, and replies that split back into what was meant |
| `controller_handler.dfy` | `ControllerHandler` | `ControllerHandler.java`, the earlier per-connection coordinator: class `Handler` over the same maps without load sessions, and what it does as written |
| `dstore.dfy` | `Dstore` | `Dstore.java`: class `StorageNode` over a folder (name to bytes), its REMOVE, LOAD_DATA and STORE handlers and the two token dispatches, and the lines it sends to the coordinator |

The handlers change their maps in place, so each is an imperative Dafny method on
a class with `modifies this`. Each method's postcondition ties the new state to a
pure transition of the old state (`AfterStore`, `AfterLoad`, ...). The protocol's
guarantees are lemmas about those transitions: invariant preservation, quorum
counting, replica enumeration and round trips. A connection is an opaque
`ConnId`. Every line a component sends is appended to a `log`. A handler thread
that dies on an unchecked exception (a null dereference or an unsupported
operation) adds its connection to `halted`. Map writes the handler made before
the exception stay: in `ControllerHandler.java` a STORE_ACK at the quorum has
already written "Stored", a LOAD has already written "Loading 0", and a
REMOVE_ACK at the quorum has already deleted the entry.

Some outcomes are outside the handlers' code. They come in as parameters:
- the registry's key order, given as an enumeration of the key set;
- whether `File.delete` succeeds;
- which bytes `readNBytes` returns, or that the read failed.

Where the code and the protocol's intended behaviour (timeouts, rollback,
load-based placement, a fresh LOAD restarting at the first replica) disagree,
the model follows the code:
- There are no STORE or REMOVE timeouts and no rollback. The `timeout` and
  `rebalance` fields are never used by the coordinator.
- Replicas are not placed by load. STORE_TO names the first R ports in the
  registry's key order.
- LOAD and RELOAD run the same handler in `Controller.java` (`Controller.java:461`).
  A fresh LOAD therefore resumes an open session instead of restarting it.
- A LOAD of a file that is not "Stored" gets no reply at all.
- A REMOVE of a file that is still "Storing" keeps the status but still
  overwrites the waiting client and sends the REMOVE orders. A later REMOVE_ACK
  then ends the sending thread, because its status array is null.
- `Controller.java` registers the waiting client and writes the placement record
  with `putIfAbsent`. A STORE after a completed REMOVE of the same name therefore
  keeps the old client entry and the old record.
- The storage node sets its socket timeout only after the STORE read
  (`Dstore.java:149-150`). `readNBytes` may return fewer bytes than declared.

## Model

| member | source | states |
|---|---|---|
| Wire.Split | dss/src/Controller.java:222 | the pieces `split(" ")` yields contain no separator, and a line without a separator is its own single piece |
| Wire.SplitJoin | dss/src/Controller.java:185-192 | splitting a space-joined list of words gives back exactly those words |
| Wire.JoinFirst | dss/src/Controller.java:185-189 | the STORE loop that appends `port + " "` R times and drops the last character yields the first R ports joined by single spaces |
| Wire.Enumerate | dss/src/Controller.java:180-183 | `keySet().toArray()` lists every key of the registry exactly once and nothing else |
| Wire.NatToString | dss/src/Controller.java:172 | printing an int gives a non-empty string of decimal digits |
| Wire.ParseNatToString | dss/src/Controller.java:222-224 | `Integer.parseInt` of a printed number gives the number back |
| Protocol.ParseRender | dss/src/Controller.java:455-467 | every well-formed request line, written out and split on spaces, is dispatched as the command it was written from |
| Protocol.ListReplySplit | dss/src/Controller.java:137 | a client splitting a LIST reply gets the LIST token followed by exactly the listed names, also when there are none |
| Protocol.StoreToReplySplit | dss/src/Controller.java:185-192 | a client splitting a STORE_TO reply gets the token followed by exactly the chosen ports, also for R = 0, where the reply "STORE_TO " splits to the bare token |
| Records.StatusRoundTrip | dss/src/Controller.java:222-231 | every status string the index holds decodes back to the status it encodes |
| Records.StatusPrefixes | dss/src/Controller.java:128 | each `startsWith` test on an encoded status ("Stored", "Storing", "Removing", "Loading") holds exactly for its kind of status, and `equals("Stored")` picks out the same files as `startsWith("Stored")` |
| Records.StatusStartsWith | dss/src/Controller.java:221 | `status.startsWith(prefix)` on the stored string is true exactly for the status kind the prefix names |
| Records.StatusIsStored | dss/src/ControllerHandler.java:85 | `status.equals("Stored")` is true exactly for Stored files |
| Records.ReadLoading | dss/src/ControllerHandler.java:227-230 | splitting "Loading i" and parsing field 1 gives i, and the line has exactly two fields |
| Records.ReadCounters | dss/src/Controller.java:222-224 | parsing fields 1 and 2 of "Storing i r" or "Removing i r" gives i and r |
| Records.SplitPlacement | dss/src/Controller.java:363-378 | a placement record "size p1 ... pR" splits into the size followed by the ports in STORE_TO order, also when R is 0 |
| Records.ReadAttempt | dss/src/Controller.java:282 | field 1 of a "Loading i r" session parses to the replica index i last offered |
| Records.StoreQuorum | dss/src/Controller.java:218-233 | from "Storing 0 r", the status after n ACKs is "Storing n r" while n < r, and "Stored" from the r-th ACK on |
| Records.RemoveAcks | dss/src/Controller.java:389-409 | from "Removing 0 d", n < d ACKs leave "Removing n d", and the entry is deleted exactly at the d-th ACK |
| Records.LoadStep | dss/src/Controller.java:281-302 | one LOAD/RELOAD offers a replica index below r or answers ERROR_LOAD, and the session afterwards remembers exactly the index offered (none after ERROR_LOAD) |
| Records.LoadOffersInOrder | dss/src/Controller.java:278-307 | the first r LOAD/RELOAD calls with no session open offer replicas 0, 1, ..., r-1 in that order, so none twice |
| Records.LoadExhaustion | dss/src/Controller.java:288-297 | the call after the r-th offer answers ERROR_LOAD and deletes the session, and the next call offers replica 0 again |
| Controller.RemoveOrders | dss/src/Controller.java:350-360 | REMOVE sends exactly one `REMOVE name` order per recorded port, in record order, each on that port's registered connection |
| Controller.SendRemoveOrders | dss/src/Controller.java:350-360 | the loop over the recorded ports sends exactly the orders `RemoveOrders` describes |
| Controller.ListLineTrim | dss/src/Controller.java:134-137 | deleting the last character of " " followed by `name + " "` per name gives the LIST reply for those names |
| Controller.ListReply | dss/src/Controller.java:118-138 | the LIST walk returns each file whose status starts with "Stored" exactly once and no other name, and replies with exactly those names |
| Controller.JoinKeepsInv | dss/src/Controller.java:106-111 | JOIN keeps the coordinator invariant and forgets no port |
| Controller.ListKeepsInv | dss/src/Controller.java:118-142 | LIST keeps the invariant and only appends its reply |
| Controller.StoreKeepsInv | dss/src/Controller.java:149-200 | STORE keeps the invariant: a new entry is "Storing 0 R" with a waiting client, and its record names R distinct registered ports |
| Controller.StoreAckKeepsInv | dss/src/Controller.java:218-252 | STORE_ACK keeps the invariant: a counting status stays below R and keeps its waiting client until it turns Stored |
| Controller.LoadKeepsInv | dss/src/Controller.java:254-313 | LOAD/RELOAD keeps the invariant: a session always points at a recorded replica |
| Controller.RemoveKeepsInv | dss/src/Controller.java:321-361 | REMOVE keeps the invariant |
| Controller.RemoveAckKeepsInv | dss/src/Controller.java:380-410 | REMOVE_ACK keeps the invariant |
| Controller.StrayRemoveAckHalts | dss/src/Controller.java:380-389 | a REMOVE_ACK for an unindexed name (null dereference) or one that is not "Removing" (null status array) only ends its connection's thread and changes nothing else |
| Controller.StepKeepsInv | dss/src/Controller.java:456-467 | every dispatched request line keeps the invariant, never takes back a line sent, and never unregisters a port |
| Controller.Coordinator.constructor | dss/src/Controller.java:76-98 | a new coordinator has empty maps, has sent nothing, and satisfies the invariant |
| Controller.Coordinator.StoreJoin | dss/src/Controller.java:106-111 | JOIN puts the port with the connection it arrived on, and nothing else changes |
| Controller.Coordinator.ListFiles | dss/src/Controller.java:118-142 | LIST sends one reply that names every Stored file exactly once, and nothing else changes |
| Controller.Coordinator.CheckExistedFile | dss/src/Controller.java:202-216 | it answers ERROR_FILE_ALREADY_EXISTS and returns true exactly when the name is indexed, and otherwise changes nothing |
| Controller.Coordinator.ClientStore | dss/src/Controller.java:149-200 | STORE rejects an indexed name, then too few joined nodes, with no map changed; otherwise it makes the name "Storing 0 R", registers the client and record only if absent, and sends STORE_TO with R distinct registered ports |
| Controller.Coordinator.StoreAck | dss/src/Controller.java:218-252 | STORE_ACK counts a "Storing" file; exactly at the R-th it becomes Stored, STORE_COMPLETE goes to the waiting client and its entry is dropped; any other ACK changes nothing |
| Controller.Coordinator.NumDstoresHasFile | dss/src/Controller.java:363-369 | the number of fields of the record less one is R |
| Controller.Coordinator.DstoresHasFile | dss/src/Controller.java:371-378 | the record's fields after the size are exactly the STORE_TO ports, in order: R distinct registered ports |
| Controller.Coordinator.RecordedSize | dss/src/Controller.java:274-276 | field 0 of the record parses to the size the client declared |
| Controller.Coordinator.ClientLoad | dss/src/Controller.java:254-313 | LOAD/RELOAD of an unknown name answers ERROR_FILE_DOES_NOT_EXIST; on a Stored file it offers the replica after the last one offered, with the recorded size, or answers ERROR_LOAD and closes the session after the last; any other status changes nothing |
| Controller.Coordinator.ClientRemove | dss/src/Controller.java:321-361 | REMOVE of an unknown name answers ERROR_FILE_DOES_NOT_EXIST; otherwise a Stored file becomes "Removing 0 R", the client is registered, and one REMOVE order goes to each replica |
| Controller.Coordinator.DstoreRmAck | dss/src/Controller.java:380-410 | REMOVE_ACK counts a "Removing" file and at the R-th deletes its entry and sends REMOVE_COMPLETE to the waiting client; on any other status the connection's thread ends |
| Controller.Coordinator.Dispatch | dss/src/Controller.java:456-467 | a line is handled by the handler its first token names; LOAD and RELOAD share one; any other token changes nothing |
| Controller.Coordinator.ServeLine | dss/src/Controller.java:453-469 | each line a live connection reads makes one step and keeps the coordinator invariant |
| ControllerRuns.ListReplyParses | dss/src/Controller.java:118-138 | a client splitting the LIST reply gets the token followed by exactly the Stored files |
| ControllerRuns.StoreToParses | dss/src/Controller.java:180-192 | a client splitting the STORE_TO reply gets the token followed by the R chosen ports, for every R including 0 |
| ControllerRuns.StoreAckNext | dss/src/Controller.java:218-252 | one STORE_ACK on "Storing i r" gives "Storing i+1 r", or at i+1 = r "Stored" with STORE_COMPLETE to the waiting client and its entry dropped |
| ControllerRuns.StoreCompletes | dss/src/Controller.java:218-252 | from "Storing 0 R", the first n < R ACKs only count and send nothing; the R-th makes the file Stored and sends exactly one STORE_COMPLETE, to the client waiting at the start |
| ControllerRuns.StoreThenAcks | dss/src/Controller.java:149-252 | STORE of a new name with enough joined nodes followed by R STORE_ACKs leaves the file Stored with no waiting client, having sent STORE_TO with the chosen ports and then one STORE_COMPLETE; that goes to the requester, or to a client entry left behind for the name, whose record then also stays |
| ControllerRuns.RemoveAckNext | dss/src/Controller.java:380-410 | one REMOVE_ACK on "Removing i r" gives "Removing i+1 r", or at i+1 = r deletes the entry and sends REMOVE_COMPLETE |
| ControllerRuns.RemoveCompletes | dss/src/Controller.java:380-410 | from "Removing 0 R", the first n < R ACKs only count, and the R-th deletes the entry and sends exactly one REMOVE_COMPLETE to the waiting client |
| ControllerRuns.RemoveLeavesClient | dss/src/Controller.java:321-410 | a completed REMOVE unindexes the name but leaves the remover as its waiting client and keeps its placement record and the registry |
| ControllerRuns.StoreAfterRemoveGoesToRemover | dss/src/Controller.java:166-199 | after a completed REMOVE, a STORE of the same name completed by R ACKs sends its STORE_COMPLETE to the remover, not to the storing client, and keeps the old placement record |
| ControllerRuns.RemoveThenAcks | dss/src/Controller.java:321-410 | REMOVE of a Stored file followed by R acknowledgements leaves the name unindexed, having sent one order per replica and then one REMOVE_COMPLETE to the client that asked |
| ControllerRuns.Offers | dss/src/Controller.java:299-302 | the k LOAD_FROM replies name the first k recorded ports, in order, each with the recorded size |
| ControllerRuns.LoadNext | dss/src/Controller.java:278-307 | a LOAD/RELOAD whose session last offered replica i-1 offers replica i with the recorded size, or, once all r were offered, answers ERROR_LOAD and closes the session |
| ControllerRuns.LoadChain | dss/src/Controller.java:278-307 | the first k <= r requests on a Stored file with no session are answered with the recorded ports in record order, and the session then remembers replica k-1 |
| ControllerRuns.LoadExhausts | dss/src/Controller.java:288-297 | the request after the r-th offer answers ERROR_LOAD and the session table is as before the first request |
| ControllerHandler.StoreNeverIndexes | dss/src/ControllerHandler.java:124-127 | STORE leaves the file index unchanged, because `replace` of the just-checked-absent name does nothing |
| ControllerHandler.StoreAckShrinks | dss/src/ControllerHandler.java:171-204 | STORE_ACK adds no name to the index and takes back no line sent |
| ControllerHandler.LoadShrinks | dss/src/ControllerHandler.java:206-263 | LOAD/RELOAD adds no name to the index and takes back no line sent |
| ControllerHandler.RemoveAckShrinks | dss/src/ControllerHandler.java:317-347 | REMOVE_ACK adds no name to the index and takes back no line sent |
| ControllerHandler.ListShowsNothing | dss/src/ControllerHandler.java:78-95 | the LIST reply is "LIST " exactly when some file is Stored and "LIST" otherwise, and splits to the bare token: no name ever reaches the client |
| ControllerHandler.RemoveIndexedDies | dss/src/ControllerHandler.java:286-292 | REMOVE of an indexed name changes no map and sends nothing; only the requesting connection's thread ends |
| ControllerHandler.StepNeverIndexes | dss/src/ControllerHandler.java:356-368 | no request line adds a name to the file index |
| ControllerHandler.StepFromEmptyIndex | dss/src/ControllerHandler.java:356-368 | with nothing indexed, any request line leaves nothing indexed and sends no STORE_COMPLETE, REMOVE_COMPLETE or LOAD_FROM |
| ControllerHandler.RunNeverCompletes | dss/src/ControllerHandler.java:350-378 | from the empty start, whatever lines arrive, the index stays empty and no STORE, LOAD or REMOVE is ever completed |
| ControllerHandler.LoadAtZeroRefused | dss/src/ControllerHandler.java:225-238 | a LOAD of a file at "Loading 0" is answered ERROR_LOAD and changes nothing else, because the counter is compared with the field count of "Loading i" less two, which is 0 |
| ControllerHandler.StepKeepsLoadingAtZero | dss/src/ControllerHandler.java:221-241 | if every parked load is at "Loading 0", it still is after any request line |
| ControllerHandler.RunKeepsLoadingAtZero | dss/src/ControllerHandler.java:221-241 | over any run starting with every parked load at its first replica, the Loading counter never exceeds 0, so only the first replica is ever offered |
| ControllerHandler.ListLine | dss/src/ControllerHandler.java:78-91 | the LIST loop collects exactly the files whose status equals "Stored", and the reply keeps only the last character of the built line |
| ControllerHandler.Handler.constructor | dss/src/ControllerHandler.java:43-58 | a handler starts over empty shared maps, having sent nothing |
| ControllerHandler.Handler.StoreJoin | dss/src/ControllerHandler.java:66-71 | JOIN puts the port with the connection it arrived on |
| ControllerHandler.Handler.ListFiles | dss/src/ControllerHandler.java:78-95 | LIST sends "LIST " when some file is Stored and "LIST" otherwise, and changes nothing else |
| ControllerHandler.Handler.CheckExistedFile | dss/src/ControllerHandler.java:155-169 | it answers ERROR_FILE_ALREADY_EXISTS and returns true exactly when the name is indexed |
| ControllerHandler.Handler.ClientStore | dss/src/ControllerHandler.java:102-153 | STORE rejects an indexed name, then too few joined nodes; otherwise it leaves the index unchanged, overwrites the client and record with `put`, and sends STORE_TO with R distinct registered ports |
| ControllerHandler.Handler.StoreAck | dss/src/ControllerHandler.java:171-204 | STORE_ACK counts as in `Controller.java`; at the quorum a missing waiting client ends the thread after the status is already Stored |
| ControllerHandler.Handler.ClientLoad | dss/src/ControllerHandler.java:206-263 | LOAD on Stored parks "Loading 0" and offers record field 1; on "Loading 0" it answers ERROR_LOAD; on "Loading i" with i > 0 it offers field i+2; a missing record or field ends the thread |
| ControllerHandler.Handler.ClientRemove | dss/src/ControllerHandler.java:270-315 | REMOVE of an unknown name answers ERROR_FILE_DOES_NOT_EXIST; of an indexed name it ends the thread without changing anything |
| ControllerHandler.Handler.DstoreRmAck | dss/src/ControllerHandler.java:317-347 | REMOVE_ACK on "Removing" counts and at the quorum deletes the entry and sends REMOVE_COMPLETE; on anything else the thread ends |
| ControllerHandler.Handler.Dispatch | dss/src/ControllerHandler.java:356-376 | a line from a live connection is handled by the handler its token names, and the index gains no name |
| Dstore.JoinLineParses | dss/src/Dstore.java:28-29 | the coordinator reads the node's first line as JOIN with the node's own port, and that port parses back to the number |
| Dstore.StoreAckLineParses | dss/src/Dstore.java:157-158 | the coordinator reads the node's STORE_ACK line as an acknowledgement of that very name |
| Dstore.RemoveAckLineParses | dss/src/Dstore.java:110-111 | the coordinator reads the node's REMOVE_ACK line as an acknowledgement of that very name |
| Dstore.MissingReportIgnored | dss/src/Dstore.java:99-101 | the report of a missing blob carries a token the coordinator does not dispatch on, so it acknowledges nothing there |
| Dstore.RemoveMissing | dss/src/Dstore.java:96-106 | REMOVE of a missing blob leaves the folder alone and sends `ERROR_FILE_DOES_NOT_EXIST name` to the coordinator only |
| Dstore.RemovePresent | dss/src/Dstore.java:107-117 | REMOVE of a present blob acknowledges exactly when the delete succeeded, and then the blob is gone; a failed delete sends nothing and keeps the blob |
| Dstore.StoreAcksAfterWrite | dss/src/Dstore.java:145-164 | STORE sends ACK to the client first; STORE_ACK reaches the coordinator exactly when the bytes were received, after the blob holds them; a failed read sends only the ACK and keeps the folder |
| Dstore.StoreThenLoad | dss/src/Dstore.java:120-165 | after a STORE that received some bytes, LOAD_DATA of that name sends exactly those bytes |
| Dstore.RemoveThenLoad | dss/src/Dstore.java:94-141 | after a successful REMOVE, LOAD_DATA of that name closes the connection without data |
| Dstore.RemoveTwice | dss/src/Dstore.java:94-118 | a second REMOVE after a successful one reports the name missing and leaves the folder as the first left it |
| Dstore.StepFrame | dss/src/Dstore.java:38-73 | one line touches at most the blob it names, only appends to the log, and sends at most two messages |
| Dstore.StepOrigin | dss/src/Dstore.java:64-73 | after one line every blob is unchanged or holds the bytes a STORE of that name just received |
| Dstore.RunOrigin | dss/src/Dstore.java:143-165 | over any run, each blob holds what the folder held at the start or the bytes of an earlier STORE of that same name |
| Dstore.RunKeepsLog | dss/src/Dstore.java:94-165 | along a run, every earlier log is a prefix of every later one |
| Dstore.ClosedStaysSilent | dss/src/Dstore.java:64-85 | once the node has closed a client's connection, no later line from that client is handled |
| Dstore.LoadServesStored | dss/src/Dstore.java:120-141 | LOAD_DATA of a present blob sends only that blob's bytes, which are the folder's initial contents or those of an earlier STORE of that name, and changes no blob |
| Dstore.StorageNode.constructor | dss/src/Dstore.java:12-23 | a node starts over its folder as it is, having sent nothing |
| Dstore.StorageNode.Start | dss/src/Dstore.java:25-29 | the first line sent to the coordinator is `JOIN port` |
| Dstore.StorageNode.RemoveFile | dss/src/Dstore.java:94-118 | REMOVE reports a missing blob to the coordinator, deletes a present one and acknowledges to the requester when the delete succeeds, and otherwise does nothing |
| Dstore.StorageNode.LoadFile | dss/src/Dstore.java:120-141 | LOAD_DATA closes the connection for a missing blob and sends exactly the stored bytes for a present one |
| Dstore.StorageNode.StoreFile | dss/src/Dstore.java:143-165 | STORE sends ACK, then on a successful read replaces the blob with the received bytes and sends STORE_ACK to the coordinator |
| Dstore.StorageNode.ControllerLine | dss/src/Dstore.java:38-46 | the coordinator connection acts on REMOVE only; any other token changes nothing |
| Dstore.StorageNode.ClientLine | dss/src/Dstore.java:64-73 | a client connection that is still open acts on STORE and LOAD_DATA only; any other token changes nothing |

## Left out

- Sockets, server sockets, accept loops, line reading and the thread per connection. Each handler call is one atomic step on an opaque connection id, and what it sends is appended to a log.
- The locks and `synchronized` blocks, and the races they leave open. Examples are `fileIndex.remove` outside the lock (`Controller.java:393`) and the lock taken on the wrong object (`Controller.java:394`). These matter only under interleaving, which the model does not represent.
- Timeouts (`setSoTimeout`, the unused `timeout` and `rebalance` fields) and logging. None of them changes a map or a reply.
- Real file I/O is a name-to-bytes map. An I/O failure while writing a reply or a file after it was opened is not modelled. The outcome of `File.delete` and of `readNBytes` are parameters.
- Malformed request lines (a missing argument, an empty argument, a size that is not a decimal numeral) are excluded: the dispatch methods require `WellFormed`. The source's behaviour on them, whether it accepts, throws or answers, is not modelled.
- Wire.ParseNat: integers are unbounded. `Integer.parseInt` overflow on sizes above 2^31-1 is not modelled.
- Wire.Enumerate: the registry's actual `HashMap` key order is not modelled. Any enumeration is allowed, so STORE_TO is proved to name R distinct registered ports, not particular ones.
- Controller.Coordinator.ListFiles: the order of names in the LIST reply follows the index enumeration, which is left open in the same way.
- The unused socket-taking constructor and the commented-out `main` loop of `Controller.java`.
- `Protocol.java` is not part of this model. The token spellings are taken from the constant names (`JOIN_TOKEN` is "JOIN", and so on).
- `DStore.java` (a superseded storage node) and `ScreenLogger.java` (console logging) are not part of this model.

## Findings

| source | as written | input that shows it | evidently intended | confidence | as-written member | corrected member |
|---|---|---|---|---|---|---|
| dss/src/ControllerHandler.java:126 | `fileIndex.replace(file, "Storing 0 " + R)` for a name just checked to be absent, so no index entry is ever created | from the empty start, JOIN by R nodes, then STORE a 10: the reply is STORE_TO, but R STORE_ACKs leave `a` unindexed, STORE_COMPLETE never comes, and LOAD/REMOVE of `a` answer ERROR_FILE_DOES_NOT_EXIST | create the entry, as `Controller.java:172` does with `putIfAbsent` | high; not executed | ControllerHandler.RunNeverCompletes | ControllerRuns.StoreThenAcks |
| dss/src/ControllerHandler.java:90 | `outLine.substring(len - 1, len)` keeps only the trailing space of "f1 ... fn " | one file `a` with status "Stored": the reply is "LIST " instead of "LIST a" | drop the last character, as `Controller.java:134-136` does | high; not executed | ControllerHandler.ListShowsNothing | Controller.ListReply |
| dss/src/ControllerHandler.java:292 | `remove(0)` on the list `Stream.toList()` returns, which is unmodifiable, so UnsupportedOperationException ends the thread | REMOVE of any indexed name that has a placement record: no order is sent, the status is unchanged, and the client never gets an answer | copy into a modifiable list first, as `Controller.java:372-376` does | high; not executed | ControllerHandler.RemoveIndexedDies | ControllerRuns.RemoveThenAcks |
