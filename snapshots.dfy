/** The snapshot search endpoint's derivation of the query it issues from the
    request options: the wait budget, the fixed locality and limit, the
    live-events flag, and the routing of its two error outcomes. Reading the
    options header, the network search and the result stream are foreign;
    their outcomes are inputs. */
module Snapshots {
  import opened Wrappers

  const DefaultWait := 5
  const Int32Modulus := 0x1_0000_0000
  const StatusBadRequest := 400
  const StatusInternalServerError := 500

  /** The request options, as a Go map from option name to value. */
  type Options = map<string, string>

  /** Go map indexing: a missing key reads as the empty string. */
  function Lookup(opts: Options, key: string): string {
    if key in opts then opts[key] else ""
  }

  predicate InInt32(n: int) {
    -0x8000_0000 <= n < 0x8000_0000
  }

  /** Go's int32 conversion: keep the low 32 bits, read in two's complement. */
  function ToInt32(n: int): (r: int)
    ensures InInt32(r)
    ensures (r - n) % Int32Modulus == 0
  {
    (n + 0x8000_0000) % Int32Modulus - 0x8000_0000
  }

  /** `ToInt32(n)` is the only 32-bit value congruent to `n` modulo 2^32. */
  lemma ToInt32Unique(n: int, r: int)
    requires InInt32(r) && (r - n) % Int32Modulus == 0
    ensures r == ToInt32(n)
  {
    var d := r - ToInt32(n);
    assert d % Int32Modulus == 0 by {
      var q1 := (r - n) / Int32Modulus;
      var q2 := (ToInt32(n) - n) / Int32Modulus;
      assert r - n == q1 * Int32Modulus;
      assert ToInt32(n) - n == q2 * Int32Modulus;
      assert d == (q1 - q2) * Int32Modulus;
    }
    assert -Int32Modulus < d < Int32Modulus;
  }

  /** Values already in 32-bit range pass through the conversion unchanged. */
  lemma ToInt32InRange(n: int)
    requires InInt32(n)
    ensures ToInt32(n) == n
  {
  }

  /** The wait in seconds: the integer parse of the "wait" option, or 5 when
      the parse fails. `atoi` stands for strconv.Atoi. */
  function Wait(opts: Options, atoi: string -> Option<int>): int {
    match atoi(Lookup(opts, "wait"))
    case None => DefaultWait
    case Some(n) => n
  }

  datatype ThreadSnapshotQuery = ThreadSnapshotQuery(address: string)

  /** Locality, result limit (negative: unbounded) and wait in seconds. */
  datatype QueryOptions = QueryOptions(local: bool, limit: int, wait: int)

  datatype Search = Search(query: ThreadSnapshotQuery, options: QueryOptions)

  function QueryOptionsFor(opts: Options, atoi: string -> Option<int>): QueryOptions {
    QueryOptions(false, -1, ToInt32(Wait(opts, atoi)))
  }

  /** Live-events mode is asked for by the "events" option. */
  predicate LiveEvents(opts: Options) {
    Lookup(opts, "events") == "true"
  }

  /** How the request ends: an error status with its text, or the result
      stream handed to the presenter in live or buffered mode. */
  datatype Reply =
    | ErrorText(status: int, message: string)
    | Stream(live: bool)

  /** The search issued (if any) and the reply. */
  datatype Outcome = Outcome(issued: Option<Search>, reply: Reply)

  /** The handler. `readOpts` is the parsed options header, `address` the
      account's address, `search` the network search's construction error for
      a given query (None when it starts). */
  function SearchThreadSnapshots(
    readOpts: Result<Options, string>,
    atoi: string -> Option<int>,
    address: string,
    search: Search -> Option<string>): Outcome
  {
    match readOpts
    case Failure(e) => Outcome(None, ErrorText(StatusInternalServerError, e))
    case Success(opts) =>
      var s := Search(ThreadSnapshotQuery(address), QueryOptionsFor(opts, atoi));
      match search(s)
      case Some(e) => Outcome(Some(s), ErrorText(StatusBadRequest, e))
      case None => Outcome(Some(s), Stream(LiveEvents(opts)))
  }

  /** If the options cannot be read the reply is 500 and no search is issued. */
  lemma ReadOptsFailure(readOpts: Result<Options, string>, atoi: string -> Option<int>, address: string,
                        search: Search -> Option<string>)
    requires readOpts.Failure?
    ensures SearchThreadSnapshots(readOpts, atoi, address, search) ==
              Outcome(None, ErrorText(StatusInternalServerError, readOpts.error))
  {
  }

  /** The issued query is always for the account's address, network-wide and
      unbounded, whatever the options hold; its wait is the 32-bit conversion
      of the parsed wait. */
  lemma FixedQueryOptions(opts: Options, atoi: string -> Option<int>, address: string,
                          search: Search -> Option<string>)
    ensures SearchThreadSnapshots(Success(opts), atoi, address, search).issued ==
              Some(Search(ThreadSnapshotQuery(address), QueryOptions(false, -1, ToInt32(Wait(opts, atoi)))))
  {
  }

  /** The wait defaults to 5 when the value does not parse; a missing key
      reads as "", which a parser rejecting "" also turns into 5. */
  lemma WaitDefault(opts: Options, atoi: string -> Option<int>)
    requires atoi(Lookup(opts, "wait")).None? || ("wait" !in opts && atoi("").None?)
    ensures Wait(opts, atoi) == DefaultWait
    ensures QueryOptionsFor(opts, atoi).wait == DefaultWait
  {
  }

  /** The wait is not clamped: every parsed value in 32-bit range reaches the
      query unchanged, above ten seconds or negative alike; outside that range
      it wraps around as Go's int32 conversion does. */
  lemma WaitNotClamped(opts: Options, atoi: string -> Option<int>, n: int)
    requires atoi(Lookup(opts, "wait")) == Some(n)
    ensures InInt32(n) ==> QueryOptionsFor(opts, atoi).wait == n
    ensures InInt32(QueryOptionsFor(opts, atoi).wait)
    ensures (QueryOptionsFor(opts, atoi).wait - n) % Int32Modulus == 0
  {
  }

  /** "wait=60" gives a query waiting 60 seconds, and "wait=-1" one waiting
      -1, though at most ten seconds are documented. */
  lemma WaitBeyondDocumentedMaximum(atoi: string -> Option<int>)
    requires atoi("60") == Some(60) && atoi("-1") == Some(-1)
    ensures QueryOptionsFor(map["wait" := "60"], atoi).wait == 60
    ensures QueryOptionsFor(map["wait" := "-1"], atoi).wait == -1
  {
    assert Lookup(map["wait" := "60"], "wait") == "60";
    assert Lookup(map["wait" := "-1"], "wait") == "-1";
  }

  /** A search that fails to start is a 400 with its text; no stream follows. */
  lemma SearchFailure(opts: Options, atoi: string -> Option<int>, address: string,
                      search: Search -> Option<string>)
    requires search(Search(ThreadSnapshotQuery(address), QueryOptionsFor(opts, atoi))).Some?
    ensures SearchThreadSnapshots(Success(opts), atoi, address, search).reply ==
              ErrorText(StatusBadRequest, search(Search(ThreadSnapshotQuery(address), QueryOptionsFor(opts, atoi))).value)
  {
  }

  /** A started search is streamed live exactly when "events" is the exact
      string "true". */
  lemma LiveIffEventsTrue(opts: Options, atoi: string -> Option<int>, address: string,
                          search: Search -> Option<string>)
    requires search(Search(ThreadSnapshotQuery(address), QueryOptionsFor(opts, atoi))).None?
    ensures SearchThreadSnapshots(Success(opts), atoi, address, search).reply.Stream?
    ensures SearchThreadSnapshots(Success(opts), atoi, address, search).reply.live <==>
              "events" in opts && opts["events"] == "true"
  {
  }

  /** A missing "events" key, "True" and "1" all select buffered mode. */
  lemma OnlyExactTrueIsLive()
    ensures !LiveEvents(map[])
    ensures !LiveEvents(map["events" := "True"])
    ensures !LiveEvents(map["events" := "1"])
    ensures LiveEvents(map["events" := "true"])
  {
    assert "True" != "true" by { assert "True"[0] != "true"[0]; }
    assert "1" != "true" by { assert |"1"| != |"true"|; }
  }
}
