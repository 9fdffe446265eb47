/**
 * What the coordinator guarantees over several requests for one file:
 * STORE_COMPLETE after exactly R acknowledgements, REMOVE_COMPLETE after
 * exactly R removal acknowledgements, replicas offered to a loading client
 * in record order until they run out, and replies a client can split back
 * into what was meant.
 */
module ControllerRuns {
  import opened Wire
  import opened Protocol
  import opened Records
  import opened Controller

  // ---------------------------------------------------------------------
  // Replies parse back
  // ---------------------------------------------------------------------

  /** A client splitting a LIST reply gets the LIST token followed by exactly the Stored files. */
  lemma ListReplyParses(t: Tables, r: nat, names: seq<string>)
    requires Inv(t, r) && ListedOk(t, names)
    ensures Split(ReplyLine(FileList(names))) == [LIST] + names
  {
    forall i | 0 <= i < |names| ensures IsWord(names[i]) {
      assert names[i] in t.fileIndex;
    }
    ListReplySplit(names);
  }

  /** A client splitting a STORE_TO reply gets the token followed by the R chosen ports. */
  lemma StoreToParses(t: Tables, r: nat, chosen: seq<string>)
    requires Inv(t, r) && ChosenOk(chosen, t.storeIndex, r)
    ensures Split(ReplyLine(StoreTo(chosen))) == [STORE_TO] + chosen
  {
    forall i | 0 <= i < |chosen| ensures IsWord(chosen[i]) {
      assert chosen[i] in t.storeIndex;
    }
    StoreToReplySplit(chosen);
  }

  lemma UpdateTwice<K, V>(m: map<K, V>, k: K, a: V, b: V)
    ensures m[k := a][k := b] == m[k := b]
  {
  }

  lemma UpdateThenDrop<K, V>(m: map<K, V>, k: K, a: V)
    ensures m[k := a] - {k} == m - {k}
  {
  }

  lemma DropAbsent<K, V>(m: map<K, V>, k: K)
    requires k !in m
    ensures m - {k} == m
  {
  }

  // ---------------------------------------------------------------------
  // Store quorum
  // ---------------------------------------------------------------------

  /** The state after n STORE_ACKs for `file`. */
  ghost function StoreAcksOn(t: Tables, r: nat, file: string, n: nat): (t': Tables)
    requires FileOk(t, r, file)
    ensures FileOk(t', r, file)
  {
    if n == 0 then t
    else AfterStoreAck(StoreAcksOn(t, r, file, n - 1), r, file)
  }

  /** One STORE_ACK on "Storing i r": counts, or completes at the r-th. */
  lemma StoreAckNext(t: Tables, r: nat, file: string, i: nat)
    requires FileOk(t, r, file) && file in t.fileIndex && t.fileIndex[file] == Storing(i, r) && i < r
    ensures file in t.fileClientIndex
    ensures var t' := AfterStoreAck(t, r, file);
      && (i + 1 < r ==> t' == t.(fileIndex := t.fileIndex[file := Storing(i + 1, r)]))
      && (i + 1 == r ==> t' == t.(fileIndex := t.fileIndex[file := Stored],
                                  fileClientIndex := t.fileClientIndex - {file},
                                  log := t.log + [Send(t.fileClientIndex[file], StoreComplete)]))
  {
  }

  /**
   * From "Storing 0 r", the first n < r acknowledgements only count, and
   * the r-th turns the file Stored, sends STORE_COMPLETE to the client
   * waiting at the start and drops its entry. Registry, records, load
   * sessions and halted connections are untouched throughout.
   */
  lemma {:induction false} StoreCompletes(t: Tables, r: nat, file: string, n: nat)
    requires FileOk(t, r, file) && r >= 1 && n <= r
    requires file in t.fileIndex && t.fileIndex[file] == Storing(0, r)
    ensures file in t.fileClientIndex
    ensures var t' := StoreAcksOn(t, r, file, n);
      && t'.storeIndex == t.storeIndex && t'.fileStoreLookup == t.fileStoreLookup
      && t'.fileLoadLookup == t.fileLoadLookup && t'.halted == t.halted
      && (n < r ==> && t'.fileIndex == t.fileIndex[file := Storing(n, r)]
                    && t'.fileClientIndex == t.fileClientIndex && t'.log == t.log)
      && (n == r ==> && t'.fileIndex == t.fileIndex[file := Stored]
                     && t'.fileClientIndex == t.fileClientIndex - {file}
                     && t'.log == t.log + [Send(t.fileClientIndex[file], StoreComplete)])
  {
    if n > 0 {
      StoreCompletes(t, r, file, n - 1);
      var prev := StoreAcksOn(t, r, file, n - 1);
      StoreAckNext(prev, r, file, n - 1);
      UpdateTwice(t.fileIndex, file, Storing(n - 1, r), StoreAckStep(Storing(n - 1, r)));
    }
  }

  /** What STORE needs to leave a file's entries consistent. */
  ghost predicate StoreReady(t: Tables, r: nat, file: string, size: string, chosen: seq<string>) {
    && FileOk(t, r, file) && RegistryOk(t.storeIndex) && IsNumeral(size)
    && (file !in t.fileIndex && |t.storeIndex| >= r ==> ChosenOk(chosen, t.storeIndex, r))
  }

  lemma StoreFileOk(t: Tables, r: nat, file: string, size: string, client: ConnId, chosen: seq<string>)
    requires StoreReady(t, r, file, size, chosen)
    ensures FileOk(AfterStore(t, r, file, size, client, chosen), r, file)
  {
    if file !in t.fileIndex && |t.storeIndex| >= r && file !in t.fileStoreLookup {
      assert AllWords(chosen) by {
        forall i | 0 <= i < |chosen| ensures IsWord(chosen[i]) {
          assert chosen[i] in t.storeIndex;
        }
      }
    }
  }

  /** STORE of `file` by `client`, followed by n STORE_ACKs for it. */
  ghost function StoreRun(t: Tables, r: nat, file: string, size: string, client: ConnId,
                          chosen: seq<string>, n: nat): Tables
    requires StoreReady(t, r, file, size, chosen)
  {
    StoreFileOk(t, r, file, size, client, chosen);
    StoreAcksOn(AfterStore(t, r, file, size, client, chosen), r, file, n)
  }

  /**
   * STORE of a new name with enough joined nodes, followed by the R
   * STORE_ACKs the nodes send: the file is Stored, its waiting-client entry
   * is dropped, and exactly two lines went out, STORE_TO with the chosen
   * ports and then STORE_COMPLETE. STORE_COMPLETE goes to the client that
   * asked unless a client entry was left behind for the name (`putIfAbsent`
   * keeps it, see RemoveLeavesClient); then it goes to that earlier client,
   * and the earlier placement record also stays.
   */
  lemma StoreThenAcks(t: Tables, r: nat, file: string, size: string, client: ConnId, chosen: seq<string>)
    requires StoreReady(t, r, file, size, chosen) && r >= 1
    requires file !in t.fileIndex && |t.storeIndex| >= r
    ensures var t' := StoreRun(t, r, file, size, client, chosen, r);
      && t'.fileIndex == t.fileIndex[file := Stored]
      && file !in t'.fileClientIndex
      && file in t'.fileStoreLookup
      && (file !in t.fileClientIndex ==>
            t'.log == t.log + [Send(client, StoreTo(chosen)), Send(client, StoreComplete)])
      && (file in t.fileClientIndex ==>
            t'.log == t.log + [Send(client, StoreTo(chosen)), Send(t.fileClientIndex[file], StoreComplete)])
      && (file !in t.fileStoreLookup ==> t'.fileStoreLookup[file] == Placement(size, chosen))
      && (file in t.fileStoreLookup ==> t'.fileStoreLookup[file] == t.fileStoreLookup[file])
  {
    var t1 := AfterStore(t, r, file, size, client, chosen);
    StoreFileOk(t, r, file, size, client, chosen);
    StoreCompletes(t1, r, file, r);
  }

  // ---------------------------------------------------------------------
  // Remove quorum
  // ---------------------------------------------------------------------

  /** The state after n REMOVE_ACKs for `file`, all received on connection `from`. */
  ghost function RemoveAcksOn(t: Tables, r: nat, file: string, from: ConnId, n: nat): (t': Tables)
    requires FileOk(t, r, file)
    ensures FileOk(t', r, file)
  {
    if n == 0 then t
    else AfterRemoveAck(RemoveAcksOn(t, r, file, from, n - 1), r, file, from)
  }

  /** One REMOVE_ACK on "Removing i r": counts, or deletes the entry at the r-th. */
  lemma RemoveAckNext(t: Tables, r: nat, file: string, from: ConnId, i: nat)
    requires FileOk(t, r, file) && file in t.fileIndex && t.fileIndex[file] == Removing(i, r) && i < r
    ensures file in t.fileClientIndex
    ensures var t' := AfterRemoveAck(t, r, file, from);
      && (i + 1 < r ==> t' == t.(fileIndex := t.fileIndex[file := Removing(i + 1, r)]))
      && (i + 1 == r ==> t' == t.(fileIndex := t.fileIndex - {file},
                                  log := t.log + [Send(t.fileClientIndex[file], RemoveComplete)]))
  {
  }

  /**
   * From "Removing 0 r", the first n < r acknowledgements only count, and
   * the r-th deletes the index entry and sends REMOVE_COMPLETE to the
   * waiting client. The client entry and the placement record stay.
   */
  lemma {:induction false} RemoveCompletes(t: Tables, r: nat, file: string, from: ConnId, n: nat)
    requires FileOk(t, r, file) && r >= 1 && n <= r
    requires file in t.fileIndex && t.fileIndex[file] == Removing(0, r)
    ensures file in t.fileClientIndex
    ensures var t' := RemoveAcksOn(t, r, file, from, n);
      && t'.storeIndex == t.storeIndex && t'.fileStoreLookup == t.fileStoreLookup
      && t'.fileLoadLookup == t.fileLoadLookup && t'.halted == t.halted
      && t'.fileClientIndex == t.fileClientIndex
      && (n < r ==> t'.fileIndex == t.fileIndex[file := Removing(n, r)] && t'.log == t.log)
      && (n == r ==> && t'.fileIndex == t.fileIndex - {file}
                     && t'.log == t.log + [Send(t.fileClientIndex[file], RemoveComplete)])
  {
    if n > 0 {
      RemoveCompletes(t, r, file, from, n - 1);
      var prev := RemoveAcksOn(t, r, file, from, n - 1);
      RemoveAckNext(prev, r, file, from, n - 1);
      UpdateTwice(t.fileIndex, file, Removing(n - 1, r), Removing(n, r));
      UpdateThenDrop(t.fileIndex, file, Removing(n - 1, r));
    }
  }

  /** REMOVE of `file` by `client` followed by n REMOVE_ACKs received on `from`. */
  ghost function RemoveRun(t: Tables, r: nat, file: string, client: ConnId, from: ConnId, n: nat): (t': Tables)
    requires FileOk(t, r, file)
    ensures FileOk(t', r, file)
  {
    RemoveAcksOn(AfterRemove(t, r, file, client), r, file, from, n)
  }

  /**
   * REMOVE of a Stored file followed by the R acknowledgements the orders
   * ask for: the index entry is gone and exactly one REMOVE_COMPLETE has
   * gone to the client that asked, after one REMOVE order per replica.
   */
  lemma RemoveThenAcks(t: Tables, r: nat, file: string, client: ConnId, from: ConnId)
    requires FileOk(t, r, file) && r >= 1
    requires file in t.fileIndex && t.fileIndex[file].Stored?
    ensures var t' := RemoveRun(t, r, file, client, from, r);
      && file !in t'.fileIndex
      && t'.log == t.log + RemoveOrders(t.fileStoreLookup[file].ports, t.storeIndex, file)
                         + [Send(client, RemoveComplete)]
  {
    var t1 := AfterRemove(t, r, file, client);
    assert t1.fileIndex[file] == Removing(0, r);
    RemoveCompletes(t1, r, file, from, r);
  }

  /**
   * A completed REMOVE unindexes the name but leaves its waiting-client
   * entry (the remover) and its placement record behind.
   */
  lemma RemoveLeavesClient(t: Tables, r: nat, file: string, client: ConnId, from: ConnId)
    requires FileOk(t, r, file) && r >= 1
    requires file in t.fileIndex && t.fileIndex[file].Stored?
    ensures var t' := RemoveRun(t, r, file, client, from, r);
      && file !in t'.fileIndex
      && file in t'.fileClientIndex && t'.fileClientIndex[file] == client
      && t'.fileStoreLookup == t.fileStoreLookup && t'.storeIndex == t.storeIndex
  {
    var t1 := AfterRemove(t, r, file, client);
    assert t1.fileIndex[file] == Removing(0, r);
    RemoveCompletes(t1, r, file, from, r);
  }

  /**
   * REMOVE of a Stored file by `remover` completed by R acknowledgements,
   * then STORE of the same name by `client` completed by R acknowledgements:
   * STORE_COMPLETE goes to the remover, not to the client that stored, and
   * the file is Stored with its old placement record, not with `chosen`.
   */
  lemma StoreAfterRemoveGoesToRemover(t: Tables, r: nat, file: string, remover: ConnId, from: ConnId,
                                       size: string, client: ConnId, chosen: seq<string>)
    requires FileOk(t, r, file) && RegistryOk(t.storeIndex) && IsNumeral(size) && r >= 1
    requires file in t.fileIndex && t.fileIndex[file].Stored?
    requires |t.storeIndex| >= r && ChosenOk(chosen, t.storeIndex, r)
    ensures var t1 := RemoveRun(t, r, file, remover, from, r);
      && StoreReady(t1, r, file, size, chosen)
      && var t2 := StoreRun(t1, r, file, size, client, chosen, r);
         && t2.log == t1.log + [Send(client, StoreTo(chosen)), Send(remover, StoreComplete)]
         && t2.fileIndex == t1.fileIndex[file := Stored]
         && file in t2.fileStoreLookup && t2.fileStoreLookup[file] == t.fileStoreLookup[file]
  {
    var t1 := RemoveRun(t, r, file, remover, from, r);
    RemoveLeavesClient(t, r, file, remover, from);
    StoreThenAcks(t1, r, file, size, client, chosen);
  }

  // ---------------------------------------------------------------------
  // Replica offers
  // ---------------------------------------------------------------------

  /** The state after k successive LOAD/RELOAD requests for `file` from `client`. */
  ghost function LoadsOn(t: Tables, r: nat, file: string, client: ConnId, k: nat): (t': Tables)
    requires FileOk(t, r, file)
    ensures FileOk(t', r, file)
  {
    if k == 0 then t
    else AfterLoad(LoadsOn(t, r, file, client, k - 1), r, file, client)
  }

  /** LOAD_FROM replies offering the first k ports of a record, in order. */
  function Offers(rec: Placement, client: ConnId, k: nat): (offers: seq<Msg>)
    requires k <= |rec.ports| && IsNumeral(rec.size)
    ensures |offers| == k
    ensures forall j :: 0 <= j < k ==>
      offers[j] == Send(client, LoadFrom(rec.ports[j], NatToString(ParseNat(rec.size))))
  {
    if k == 0 then [] else Offers(rec, client, k - 1) + [Send(client, LoadFrom(rec.ports[k - 1], NatToString(ParseNat(rec.size))))]
  }

  lemma OffersSnoc(log: seq<Msg>, rec: Placement, client: ConnId, k: nat)
    requires 0 < k <= |rec.ports| && IsNumeral(rec.size)
    ensures log + Offers(rec, client, k - 1)
              + [Send(client, LoadFrom(rec.ports[k - 1], NatToString(ParseNat(rec.size))))]
         == log + Offers(rec, client, k)
  {
  }

  /**
   * One LOAD/RELOAD on a Stored file whose session last offered replica
   * i - 1 (none when i = 0): replica i is offered with the recorded size,
   * or ERROR_LOAD is sent and the session closed once all r were offered.
   */
  lemma LoadNext(t: Tables, r: nat, file: string, client: ConnId, i: nat)
    requires FileOk(t, r, file) && file in t.fileIndex && t.fileIndex[file].Stored?
    requires LastOffered(t, file) == if i == 0 then None else Some(i - 1)
    requires i <= r
    ensures var t' := AfterLoad(t, r, file, client);
      var rec := t.fileStoreLookup[file];
      && (i < r ==> t' == t.(fileLoadLookup := t.fileLoadLookup[file := LoadSession(i, r)],
                             log := t.log + [Send(client, LoadFrom(rec.ports[i], NatToString(ParseNat(rec.size))))]))
      && (i == r ==> t' == t.(fileLoadLookup := t.fileLoadLookup - {file},
                              log := t.log + [Send(client, ErrorLoad)]))
  {
  }

  /**
   * With no session open on a Stored file, the first k <= r requests are
   * answered with the recorded ports in record order, each with the
   * recorded size, and the session then remembers replica k-1.
   */
  lemma {:induction false} LoadChain(t: Tables, r: nat, file: string, client: ConnId, k: nat)
    requires FileOk(t, r, file) && k <= r
    requires file in t.fileIndex && t.fileIndex[file].Stored? && file !in t.fileLoadLookup
    ensures var t' := LoadsOn(t, r, file, client, k);
      && t'.fileIndex == t.fileIndex && t'.fileStoreLookup == t.fileStoreLookup
      && t'.log == t.log + Offers(t.fileStoreLookup[file], client, k)
      && t'.fileLoadLookup == if k == 0 then t.fileLoadLookup
                              else t.fileLoadLookup[file := LoadSession(k - 1, r)]
  {
    if k > 0 {
      LoadChain(t, r, file, client, k - 1);
      var prev := LoadsOn(t, r, file, client, k - 1);
      LoadNext(prev, r, file, client, k - 1);
      if k > 1 {
        UpdateTwice(t.fileLoadLookup, file, LoadSession(k - 2, r), LoadSession(k - 1, r));
      }
      OffersSnoc(t.log, t.fileStoreLookup[file], client, k);
    }
  }

  /**
   * Exhaustion: the request after the r-th offer gets ERROR_LOAD and closes
   * the session, so the state is as before the first request except for
   * the replies, and the next request starts again at replica 0.
   */
  lemma LoadExhausts(t: Tables, r: nat, file: string, client: ConnId)
    requires FileOk(t, r, file)
    requires file in t.fileIndex && t.fileIndex[file].Stored? && file !in t.fileLoadLookup
    ensures var t' := LoadsOn(t, r, file, client, r + 1);
      && t'.fileLoadLookup == t.fileLoadLookup
      && t'.log == t.log + Offers(t.fileStoreLookup[file], client, r) + [Send(client, ErrorLoad)]
  {
    LoadChain(t, r, file, client, r);
    var prev := LoadsOn(t, r, file, client, r);
    LoadNext(prev, r, file, client, r);
    DropAbsent(t.fileLoadLookup, file);
    if r > 0 {
      UpdateThenDrop(t.fileLoadLookup, file, LoadSession(r - 1, r));
    }
  }
}
