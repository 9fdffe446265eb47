/**
 * The values the coordinator keeps in its maps, their string encodings
 * (the source stores and re-parses strings), and the per-file transitions
 * that STORE_ACK, REMOVE_ACK and LOAD/RELOAD make, as pure functions with
 * the quorum and replica-enumeration properties proved about them.
 */
module Records {
  import opened Wire

  // ---------------------------------------------------------------------
  // File status: "Storing i r", "Stored", "Removing i r", "Loading i"
  // ---------------------------------------------------------------------

  /**
   * The status of one file in the file index. `Loading` occurs only in the
   * earlier per-connection coordinator, which parks loads in the index.
   */
  datatype Status =
    | Storing(acked: nat, required: nat)
    | Stored
    | Removing(acked: nat, required: nat)
    | Loading(attempt: nat)

  const STORING := "Storing"
  const STORED := "Stored"
  const REMOVING := "Removing"
  const LOADING := "Loading"

  function EncodeStatus(s: Status): string {
    match s
    case Storing(i, r) => JoinWords([STORING, NatToString(i), NatToString(r)])
    case Stored => STORED
    case Removing(i, r) => JoinWords([REMOVING, NatToString(i), NatToString(r)])
    case Loading(i) => JoinWords([LOADING, NatToString(i)])
  }

  function DecodeStatus(t: string): Option<Status> {
    var w := Split(t);
    if w == [STORED] then Some(Stored)
    else if |w| == 3 && w[0] == STORING && IsNumeral(w[1]) && IsNumeral(w[2]) then
      Some(Storing(ParseNat(w[1]), ParseNat(w[2])))
    else if |w| == 3 && w[0] == REMOVING && IsNumeral(w[1]) && IsNumeral(w[2]) then
      Some(Removing(ParseNat(w[1]), ParseNat(w[2])))
    else if |w| == 2 && w[0] == LOADING && IsNumeral(w[1]) then
      Some(Loading(ParseNat(w[1])))
    else None
  }

  /** The words of an encoded status. */
  lemma SplitStatus(s: Status)
    ensures Split(EncodeStatus(s)) ==
      match s
      case Storing(i, r) => [STORING, NatToString(i), NatToString(r)]
      case Stored => [STORED]
      case Removing(i, r) => [REMOVING, NatToString(i), NatToString(r)]
      case Loading(i) => [LOADING, NatToString(i)]
  {
    match s
    case Storing(i, r) => SplitCounters(STORING, i, r);
    case Stored => assert ' ' !in STORED;
    case Removing(i, r) => SplitCounters(REMOVING, i, r);
    case Loading(i) =>
      NumeralIsWord(NatToString(i));
      SplitJoin([LOADING, NatToString(i)]);
  }

  lemma SplitCounters(word: string, i: nat, r: nat)
    requires IsWord(word)
    ensures Split(JoinWords([word, NatToString(i), NatToString(r)])) == [word, NatToString(i), NatToString(r)]
  {
    NumeralIsWord(NatToString(i));
    NumeralIsWord(NatToString(r));
    SplitJoin([word, NatToString(i), NatToString(r)]);
  }

  /** Every status is recovered from the string the index would hold. */
  lemma StatusRoundTrip(s: Status)
    ensures DecodeStatus(EncodeStatus(s)) == Some(s)
  {
    SplitStatus(s);
    match s
    case Storing(i, r) =>
      ParseNatToString(i);
      ParseNatToString(r);
    case Stored =>
    case Removing(i, r) =>
      ParseNatToString(i);
      ParseNatToString(r);
    case Loading(i) =>
      ParseNatToString(i);
  }

  /** `t.startsWith(p)` */
  predicate StartsWith(t: string, p: string) {
    |p| <= |t| && t[..|p|] == p
  }

  /**
   * The source tells statuses apart with `startsWith` on the stored string;
   * each prefix test picks out exactly one kind of status, and the equality
   * test against "Stored" picks out the same files as the prefix test.
   */
  lemma StatusPrefixes(s: Status)
    ensures StartsWith(EncodeStatus(s), STORED) <==> s.Stored?
    ensures StartsWith(EncodeStatus(s), STORING) <==> s.Storing?
    ensures StartsWith(EncodeStatus(s), REMOVING) <==> s.Removing?
    ensures StartsWith(EncodeStatus(s), LOADING) <==> s.Loading?
    ensures EncodeStatus(s) == STORED <==> s.Stored?
  {
    var t := EncodeStatus(s);
    match s
    case Storing(i, r) =>
      assert t == STORING + " " + JoinWords([NatToString(i), NatToString(r)]);
      assert t[..|STORING|] == STORING;
      assert t[5] == 'n';
    case Stored =>
    case Removing(i, r) =>
      assert t == REMOVING + " " + JoinWords([NatToString(i), NatToString(r)]);
      assert t[..|REMOVING|] == REMOVING;
      assert t[0] == 'R';
    case Loading(i) =>
      JoinWordsCons(LOADING, [NatToString(i)]);
      assert [LOADING] + [NatToString(i)] == [LOADING, NatToString(i)];
      assert t == LOADING + " " + NatToString(i);
      assert t[..|LOADING|] == LOADING;
      assert t[0] == 'L';
  }

  /**
   * `status.startsWith(prefix)` on the string the index holds, for the four
   * status words: each prefix test picks out exactly one kind of status.
   */
  method StatusStartsWith(s: Status, prefix: string) returns (b: bool)
    ensures prefix == STORED ==> (b <==> s.Stored?)
    ensures prefix == STORING ==> (b <==> s.Storing?)
    ensures prefix == REMOVING ==> (b <==> s.Removing?)
    ensures prefix == LOADING ==> (b <==> s.Loading?)
  {
    StatusPrefixes(s);
    b := StartsWith(EncodeStatus(s), prefix);
  }

  /** `status.equals("Stored")` on the string the index holds. */
  method StatusIsStored(s: Status) returns (b: bool)
    ensures b <==> s.Stored?
  {
    StatusPrefixes(s);
    b := EncodeStatus(s) == STORED;
  }

  /**
   * `split(" ")` of a "Loading i" status: `Integer.parseInt` of field 1,
   * and the number of fields.
   */
  method ReadLoading(s: Status) returns (i: nat, fields: nat)
    requires s.Loading?
    ensures i == s.attempt && fields == 2
  {
    SplitStatus(s);
    ParseNatToString(s.attempt);
    var status := Split(EncodeStatus(s));
    i := ParseNat(status[1]);
    fields := |status|;
  }

  /**
   * `split(" ")` of a counting status followed by `Integer.parseInt` of
   * fields 1 and 2, as the ACK handlers read "Storing i r" and
   * "Removing i r".
   */
  method ReadCounters(s: Status) returns (i: nat, r: nat)
    requires s.Storing? || s.Removing?
    ensures i == s.acked && r == s.required
  {
    SplitStatus(s);
    ParseNatToString(s.acked);
    ParseNatToString(s.required);
    var status := Split(EncodeStatus(s));
    i := ParseNat(status[1]);
    r := ParseNat(status[2]);
  }

  // ---------------------------------------------------------------------
  // Placement record: "size p1 ... pR"
  // ---------------------------------------------------------------------

  /** The declared size (as the client wrote it) and the replica ports, in STORE_TO order. */
  datatype Placement = Placement(size: string, ports: seq<string>)

  predicate PlacementOk(p: Placement) {
    IsNumeral(p.size) && AllWords(p.ports)
  }

  /** `fileSize + " " + ports`, where `ports` is the space-joined port list. */
  function EncodePlacement(p: Placement): string {
    p.size + " " + JoinWords(p.ports)
  }

  /** The record splits into the size followed by the ports, also when there are no ports. */
  lemma SplitPlacement(p: Placement)
    requires PlacementOk(p)
    ensures Split(EncodePlacement(p)) == [p.size] + p.ports
  {
    NumeralIsWord(p.size);
    var t := EncodePlacement(p);
    assert t[|p.size|] == ' ';
    if p.ports == [] {
      assert t == p.size + " " + "";
      RawSplitCons(p.size, "");
      assert RawSplit(t) == [p.size, ""];
      assert ' ' in t;
      assert [p.size, ""][..1] == [p.size];
      assert DropTrailingEmpty([p.size, ""]) == DropTrailingEmpty([p.size]);
    } else {
      JoinWordsCons(p.size, p.ports);
      SplitJoin([p.size] + p.ports);
    }
  }

  /** What STORE_TO may name: R distinct registered ports. */
  ghost predicate ChosenOk(chosen: seq<string>, registry: map<string, ConnId>, r: nat) {
    |chosen| == r && Distinct(chosen) && forall i :: 0 <= i < |chosen| ==> chosen[i] in registry
  }

  // ---------------------------------------------------------------------
  // Load session: "Loading i r"
  // ---------------------------------------------------------------------

  /** The replica last offered to a loading client, and the replica count at that time. */
  datatype LoadSession = LoadSession(attempt: nat, replicas: nat)

  function EncodeSession(s: LoadSession): string {
    JoinWords([LOADING, NatToString(s.attempt), NatToString(s.replicas)])
  }

  /** `Integer.parseInt(session.split(" ")[1])`: the index of the replica last offered. */
  method ReadAttempt(session: LoadSession) returns (i: nat)
    ensures i == session.attempt
  {
    NumeralIsWord(NatToString(session.attempt));
    NumeralIsWord(NatToString(session.replicas));
    SplitJoin([LOADING, NatToString(session.attempt), NatToString(session.replicas)]);
    ParseNatToString(session.attempt);
    i := ParseNat(Split(EncodeSession(session))[1]);
  }

  // ---------------------------------------------------------------------
  // Transitions and what they guarantee
  // ---------------------------------------------------------------------

  /** One STORE_ACK: counts on "Storing", turns "Stored" at the quorum, ignores any other status. */
  function StoreAckStep(s: Status): Status {
    match s
    case Storing(i, r) => if i + 1 == r then Stored else Storing(i + 1, r)
    case _ => s
  }

  function StoreAcks(s: Status, n: nat): Status {
    if n == 0 then s else StoreAckStep(StoreAcks(s, n - 1))
  }

  /**
   * Store quorum: starting from "Storing 0 r", the acknowledged count rises
   * by one per ACK and never reaches r while storing; the file is Stored
   * exactly from the r-th ACK on, and later ACKs change nothing.
   */
  lemma {:induction false} StoreQuorum(r: nat, n: nat)
    requires r >= 1
    ensures StoreAcks(Storing(0, r), n) == if n < r then Storing(n, r) else Stored
  {
    if n > 0 {
      StoreQuorum(r, n - 1);
    }
  }

  /** One REMOVE_ACK on "Removing i r": counts, or deletes the index entry (None) at the quorum. */
  function RemoveAckStep(s: Status): Option<Status>
    requires s.Removing?
  {
    if s.acked + 1 == s.required then None else Some(Removing(s.acked + 1, s.required))
  }

  /**
   * Remove quorum: the index entry after n of the d expected REMOVE_ACKs,
   * starting from "Removing 0 d" (None: deleted). The count rises by one per
   * ACK and the entry is deleted exactly at the d-th ACK.
   */
  function RemoveAcks(d: nat, n: nat): (e: Option<Status>)
    requires n <= d
    ensures n < d ==> e == Some(Removing(n, d))
    ensures d >= 1 ==> (e.None? <==> n == d)
  {
    if n == 0 then Some(Removing(0, d)) else RemoveAckStep(RemoveAcks(d, n - 1).value)
  }

  /**
   * One LOAD or RELOAD on a Stored file with r replicas. `session` is the
   * index last offered, if a session exists. Returns the index offered now
   * (None: ERROR_LOAD) and the session afterwards (None: deleted).
   */
  function LoadStep(session: Option<nat>, r: nat): (res: (Option<nat>, Option<nat>))
    requires session.Some? ==> session.value < r
    ensures res.0.Some? ==> res.0.value < r
    ensures res.1 == res.0
  {
    var i := if session.Some? then session.value + 1 else 0;
    if i == r then (None, None) else (Some(i), Some(i))
  }

  /** The offers made by k successive LOAD/RELOAD calls starting with no session, and the session after them. */
  function LoadRun(r: nat, k: nat): (res: (seq<Option<nat>>, Option<nat>))
    ensures |res.0| == k
    ensures res.1.Some? ==> res.1.value < r
  {
    if k == 0 then ([], None)
    else
      var prev := LoadRun(r, k - 1);
      var step := LoadStep(prev.1, r);
      (prev.0 + [step.0], step.1)
  }

  /**
   * Replica enumeration: the first r calls offer replicas 0, 1, ..., r-1 in
   * placement order, so no replica is offered twice in one chain.
   */
  lemma {:induction false} LoadOffersInOrder(r: nat, k: nat)
    requires k <= r
    ensures forall j :: 0 <= j < k ==> LoadRun(r, k).0[j] == Some(j)
    ensures LoadRun(r, k).1 == if k == 0 then None else Some(k - 1)
  {
    if k > 0 {
      LoadOffersInOrder(r, k - 1);
    }
  }

  /**
   * Exhaustion: the call after the r-th offer answers ERROR_LOAD and deletes
   * the session, so the state is the initial one and the next call offers
   * replica 0 again.
   */
  lemma LoadExhaustion(r: nat)
    ensures LoadRun(r, r + 1).0[r] == None
    ensures LoadRun(r, r + 1).1 == None
    ensures r >= 1 ==> LoadRun(r, r + 2).0[r + 1] == Some(0)
  {
    LoadOffersInOrder(r, r);
  }
}
