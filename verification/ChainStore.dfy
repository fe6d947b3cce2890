/** The option-chain store (data/chain_store.py): two tables keyed by session and
    symbol, and by session and underlying.

    A session is the number YYYYMMDD. A batch of inserts and its commit succeed or
    fail together.
  */
module ChainStore {
  import opened Numbers
  import opened Options
  import opened Sequences
  import opened Sets

  // ---------------------------------------------------------------- rows

  /** Columns that a repeated insert leaves alone. */
  datatype Terms = Terms(
    putCall: string, strike: real, expiration: string, daysToExpiration: Option<int>, multiplier: real,
    isPennyPilot: bool, isMini: bool, isNonStandard: bool, optionRoot: Option<string>)

  /** Columns that a repeated insert overwrites. */
  datatype Quote = Quote(
    bid: Option<real>, ask: Option<real>, last: Option<real>, mark: Option<real>,
    bidSize: Option<int>, askSize: Option<int>,
    volume: int, openInterest: int, volatility: Option<real>, delta: Option<real>, gamma: Option<real>,
    theta: Option<real>, vega: Option<real>, rho: Option<real>,
    inTheMoney: bool, intrinsicValue: Option<real>, timeValue: Option<real>)

  datatype Fetched = Fetched(underlyingPrice: Option<real>, isDelayed: Option<bool>, atMs: int)

  datatype Contract = Contract(symbol: string, terms: Terms, quote: Quote)
  datatype Chain = Chain(underlying: string, contracts: seq<Contract>, status: Option<string>, fetched: Fetched)

  datatype Row = Row(underlying: string, terms: Terms, quote: Quote, fetched: Fetched)
  datatype Fetch = Fetch(contractCount: nat, status: Option<string>, error: Option<string>, fetched: Fetched)

  /** A session with a symbol, or with an underlying. */
  type Key = (int, string)

  datatype Tables = Tables(rows: map<Key, Row>, fetches: map<Key, Fetch>)

  const EMPTY: Tables := Tables(map[], map[])

  // ---------------------------------------------------------------- writing

  /** One row handed to the insert statement. */
  datatype Entry = Entry(session: int, underlying: string, contract: Contract, fetched: Fetched)

  function KeyOf(e: Entry): Key { (e.session, e.contract.symbol) }

  function Upsert(rows: map<Key, Row>, e: Entry): map<Key, Row> {
    var k := KeyOf(e);
    rows[k := if k in rows then rows[k].(quote := e.contract.quote, fetched := e.fetched)
              else Row(e.underlying, e.contract.terms, e.contract.quote, e.fetched)]
  }

  function UpsertAll(rows: map<Key, Row>, entries: seq<Entry>): map<Key, Row> {
    if entries == [] then rows else Upsert(UpsertAll(rows, entries[..|entries| - 1]), entries[|entries| - 1])
  }

  function Entries(session: int, chain: Chain): (entries: seq<Entry>)
    ensures |entries| == |chain.contracts|
  {
    seq(|chain.contracts|, i requires 0 <= i < |chain.contracts| =>
      Entry(session, chain.underlying, chain.contracts[i], chain.fetched))
  }

  function Written(session: int, chain: Chain, db: Tables): Tables {
    Tables(UpsertAll(db.rows, Entries(session, chain)), db.fetches[(session, chain.underlying) := FetchOf(chain)])
  }

  function FetchOf(chain: Chain): Fetch { Fetch(|chain.contracts|, chain.status, None, chain.fetched) }

  function FailureOf(error: string, atMs: int): Fetch {
    Fetch(0, Some("ERROR"), Some(error), Fetched(None, None, atMs))
  }

  /** A call on the store; a lost write is one that SQLite refused. */
  datatype Op =
    | Write(session: int, chain: Chain)
    | LostWrite(session: int, chain: Chain)
    | Failure(session: int, underlying: string, error: string, atMs: int)

  function Apply(db: Tables, op: Op): Tables {
    match op
    case Write(session, chain) => Written(session, chain, db)
    case LostWrite(_, _) => db
    case Failure(session, underlying, error, atMs) =>
      db.(fetches := db.fetches[(session, underlying) := FailureOf(error, atMs)])
  }

  function Run(ops: seq<Op>): Tables {
    if ops == [] then EMPTY else Apply(Run(ops[..|ops| - 1]), ops[|ops| - 1])
  }

  // ---------------------------------------------------------------- one row per session and symbol

  /** Everything the successful writes inserted, in order. */
  function Inserted(ops: seq<Op>): seq<Entry> {
    if ops == [] then []
    else
      var op := ops[|ops| - 1];
      Inserted(ops[..|ops| - 1]) + (if op.Write? then Entries(op.session, op.chain) else [])
  }

  predicate Occurs(entries: seq<Entry>, k: Key) { exists i :: 0 <= i < |entries| && KeyOf(entries[i]) == k }

  ghost predicate IsFirst(entries: seq<Entry>, i: int) {
    0 <= i < |entries| && forall j :: 0 <= j < i ==> KeyOf(entries[j]) != KeyOf(entries[i])
  }

  ghost predicate IsLast(entries: seq<Entry>, i: int) {
    0 <= i < |entries| && forall j :: i < j < |entries| ==> KeyOf(entries[j]) != KeyOf(entries[i])
  }

  ghost predicate QuotedBy(row: Row, e: Entry) { row.quote == e.contract.quote && row.fetched == e.fetched }

  ghost predicate ListedBy(row: Row, e: Entry) { row.terms == e.contract.terms && row.underlying == e.underlying }

  ghost predicate SameListing(a: Row, b: Row) { a.terms == b.terms && a.underlying == b.underlying }

  /** What a batch of inserts does to any table. */
  ghost predicate BatchEffect(before: map<Key, Row>, entries: seq<Entry>, after: map<Key, Row>) {
    && (forall k :: k in after <==> k in before || Occurs(entries, k))
    && (forall k :: k in before && !Occurs(entries, k) ==> after[k] == before[k])
    && (forall k :: k in before ==> SameListing(after[k], before[k]))
    && (forall i :: IsLast(entries, i) ==> QuotedBy(after[KeyOf(entries[i])], entries[i]))
    && (forall i :: IsFirst(entries, i) && KeyOf(entries[i]) !in before ==>
          ListedBy(after[KeyOf(entries[i])], entries[i]))
  }

  lemma OccursFront(entries: seq<Entry>, k: Key)
    requires entries != []
    ensures Occurs(entries, k) <==> Occurs(entries[..|entries| - 1], k) || KeyOf(entries[|entries| - 1]) == k
  {
    var n := |entries| - 1;
    if Occurs(entries, k) && KeyOf(entries[n]) != k {
      var i :| 0 <= i < |entries| && KeyOf(entries[i]) == k;
      assert KeyOf(entries[..n][i]) == k;
    }
    if Occurs(entries[..n], k) {
      var i :| 0 <= i < n && KeyOf(entries[..n][i]) == k;
      assert KeyOf(entries[i]) == k;
    }
    assert KeyOf(entries[n]) == k ==> Occurs(entries, k);
  }

  lemma {:induction false} Batch(before: map<Key, Row>, entries: seq<Entry>)
    ensures BatchEffect(before, entries, UpsertAll(before, entries))
  {
    if entries != [] {
      var n := |entries| - 1;
      var front, e := entries[..n], entries[n];
      var middle := UpsertAll(before, front);
      Batch(before, front);
      BatchGrows(before, front, middle, entries);
    }
  }

  lemma BatchGrows(before: map<Key, Row>, front: seq<Entry>, middle: map<Key, Row>, entries: seq<Entry>)
    requires entries != [] && front == entries[..|entries| - 1] && BatchEffect(before, front, middle)
    ensures BatchEffect(before, entries, Upsert(middle, entries[|entries| - 1]))
  {
    var e := entries[|entries| - 1];
    forall k ensures Occurs(entries, k) <==> Occurs(front, k) || KeyOf(e) == k { OccursFront(entries, k); }
    LastGrows(before, front, middle, entries);
    FirstGrows(before, front, middle, entries);
    hide Occurs, IsFirst, IsLast;
  }

  lemma LastGrows(before: map<Key, Row>, front: seq<Entry>, middle: map<Key, Row>, entries: seq<Entry>)
    requires entries != [] && front == entries[..|entries| - 1] && BatchEffect(before, front, middle)
    ensures var after := Upsert(middle, entries[|entries| - 1]);
      forall i :: IsLast(entries, i) ==> KeyOf(entries[i]) in after && QuotedBy(after[KeyOf(entries[i])], entries[i])
  {
    var n := |entries| - 1;
    forall i | IsLast(entries, i) && i < n
      ensures IsLast(front, i) && front[i] == entries[i] && KeyOf(entries[n]) != KeyOf(entries[i])
    {
      assert Occurs(front, KeyOf(front[i]));
    }
  }

  lemma FirstGrows(before: map<Key, Row>, front: seq<Entry>, middle: map<Key, Row>, entries: seq<Entry>)
    requires entries != [] && front == entries[..|entries| - 1] && BatchEffect(before, front, middle)
    ensures var after := Upsert(middle, entries[|entries| - 1]);
      forall i :: IsFirst(entries, i) && KeyOf(entries[i]) !in before ==>
        KeyOf(entries[i]) in after && ListedBy(after[KeyOf(entries[i])], entries[i])
  {
    var n := |entries| - 1;
    var after := Upsert(middle, entries[n]);
    forall i | IsFirst(entries, i) && KeyOf(entries[i]) !in before
      ensures KeyOf(entries[i]) in after && ListedBy(after[KeyOf(entries[i])], entries[i])
    {
      if i < n {
        assert IsFirst(front, i) && front[i] == entries[i];
        FirstListed(before, front, middle, i);
      } else {
        NotBefore(entries);
        hide Occurs;
        assert KeyOf(entries[n]) !in middle;
      }
      hide BatchEffect, IsFirst;
    }
  }

  lemma FirstListed(before: map<Key, Row>, front: seq<Entry>, middle: map<Key, Row>, i: int)
    requires BatchEffect(before, front, middle) && IsFirst(front, i) && KeyOf(front[i]) !in before
    ensures KeyOf(front[i]) in middle && ListedBy(middle[KeyOf(front[i])], front[i])
  {
    assert Occurs(front, KeyOf(front[i]));
  }

  lemma NotBefore(entries: seq<Entry>)
    requires entries != [] && IsFirst(entries, |entries| - 1)
    ensures !Occurs(entries[..|entries| - 1], KeyOf(entries[|entries| - 1]))
  {
    var n := |entries| - 1;
    forall i | 0 <= i < n ensures KeyOf(entries[..n][i]) != KeyOf(entries[n]) {
      assert entries[..n][i] == entries[i];
    }
  }

  lemma {:induction false} UpsertJoin(rows: map<Key, Row>, a: seq<Entry>, b: seq<Entry>)
    ensures UpsertAll(rows, a + b) == UpsertAll(UpsertAll(rows, a), b)
  {
    if b == [] {
      assert a + b == a;
    } else {
      var n := |b| - 1;
      assert (a + b)[..|a + b| - 1] == a + b[..n];
      UpsertJoin(rows, a, b[..n]);
    }
  }

  lemma {:induction false} RowsOfRun(ops: seq<Op>)
    ensures Run(ops).rows == UpsertAll(map[], Inserted(ops))
  {
    if ops != [] {
      var n := |ops| - 1;
      RowsOfRun(ops[..n]);
      if ops[n].Write? {
        UpsertJoin(map[], Inserted(ops[..n]), Entries(ops[n].session, ops[n].chain));
      } else {
        assert Inserted(ops) == Inserted(ops[..n]);
      }
    }
  }

  /** After any sequence of calls there is one row for each session and symbol ever
      written, with the quote of the last write and the listing of the first. */
  lemma RowsAreLatest(ops: seq<Op>)
    ensures var (rows, log) := (Run(ops).rows, Inserted(ops));
      && (forall k :: k in rows <==> Occurs(log, k))
      && (forall i :: IsLast(log, i) ==> QuotedBy(rows[KeyOf(log[i])], log[i]))
      && (forall i :: IsFirst(log, i) ==> ListedBy(rows[KeyOf(log[i])], log[i]))
  {
    RowsOfRun(ops);
    Batch(map[], Inserted(ops));
  }

  lemma {:induction false} LastOccurrence(entries: seq<Entry>, k: Key) returns (i: int)
    requires Occurs(entries, k)
    ensures IsLast(entries, i) && KeyOf(entries[i]) == k
  {
    var n := |entries| - 1;
    if KeyOf(entries[n]) == k {
      i := n;
    } else {
      OccursFront(entries, k);
      i := LastOccurrence(entries[..n], k);
    }
  }

  lemma BatchTwice(before: map<Key, Row>, entries: seq<Entry>)
    ensures UpsertAll(UpsertAll(before, entries), entries) == UpsertAll(before, entries)
  {
    var once := UpsertAll(before, entries);
    var twice := UpsertAll(once, entries);
    Batch(before, entries);
    Batch(once, entries);
    hide UpsertAll;
    forall k | k in once ensures k in twice && twice[k] == once[k] {
      if Occurs(entries, k) {
        var i := LastOccurrence(entries, k);
        assert QuotedBy(twice[k], entries[i]) && QuotedBy(once[k], entries[i]);
        assert SameListing(twice[k], once[k]);
      }
    }
    assert forall k :: k in twice ==> k in once;
  }

  /** Repeating a write changes nothing, on any tables. */
  lemma RepeatedWrite(db: Tables, session: int, chain: Chain)
    ensures Written(session, chain, Written(session, chain, db)) == Written(session, chain, db)
  {
    BatchTwice(db.rows, Entries(session, chain));
  }

  /** A write leaves every other session, and every symbol it does not list, alone. */
  lemma WriteFrame(db: Tables, session: int, chain: Chain, k: Key)
    requires k.0 != session || forall c :: c in chain.contracts ==> c.symbol != k.1
    ensures k in Written(session, chain, db).rows <==> k in db.rows
    ensures k in db.rows ==> Written(session, chain, db).rows[k] == db.rows[k]
  {
    var entries := Entries(session, chain);
    Batch(db.rows, entries);
    forall i | 0 <= i < |entries| ensures KeyOf(entries[i]) != k {
      assert chain.contracts[i] in chain.contracts;
    }
  }

  // ---------------------------------------------------------------- sessions

  /** The session and underlying a call records, and the record. */
  function Attempt(op: Op): Option<(Key, Fetch)> {
    match op
    case Write(session, chain) => Some(((session, chain.underlying), FetchOf(chain)))
    case LostWrite(_, _) => None
    case Failure(session, underlying, error, atMs) => Some(((session, underlying), FailureOf(error, atMs)))
  }

  predicate Attempts(op: Op, k: Key) { Attempt(op).Some? && Attempt(op).value.0 == k }

  ghost predicate LastAttempt(ops: seq<Op>, k: Key, i: int) {
    0 <= i < |ops| && Attempts(ops[i], k) && forall j :: i < j < |ops| ==> !Attempts(ops[j], k)
  }

  /** The fetch table holds the last recorded attempt, and nothing else. */
  lemma {:induction false} FetchesAreLatest(ops: seq<Op>, k: Key)
    ensures k in Run(ops).fetches <==> exists i :: LastAttempt(ops, k, i)
    ensures forall i :: LastAttempt(ops, k, i) ==> Run(ops).fetches[k] == Attempt(ops[i]).value.1
  {
    if ops != [] {
      var n := |ops| - 1;
      var front := ops[..n];
      FetchesAreLatest(front, k);
      if Attempts(ops[n], k) {
        assert LastAttempt(ops, k, n);
      } else {
        forall i ensures LastAttempt(ops, k, i) <==> LastAttempt(front, k, i) {
          assert 0 <= i < n ==> front[i] == ops[i];
        }
        assert k in Run(ops).fetches <==> k in Run(front).fetches;
        assert k in Run(front).fetches ==> Run(ops).fetches[k] == Run(front).fetches[k];
      }
    }
  }

  /** `sessions`: those whose fetch record counts contracts. */
  function Sessions(db: Tables, underlying: string): set<int> {
    set k | k in db.fetches && k.1 == underlying && db.fetches[k].contractCount > 0 :: k.0
  }

  /** A session counts when the last attempt recorded for it stored a chain with
      contracts; a failure recorded later hides it. */
  lemma SessionsExact(ops: seq<Op>, underlying: string, session: int)
    ensures session in Sessions(Run(ops), underlying) <==>
      exists i :: LastAttempt(ops, (session, underlying), i) && ops[i].Write? && ops[i].chain.contracts != []
  {
    var k := (session, underlying);
    FetchesAreLatest(ops, k);
    hide Run;
    if session in Sessions(Run(ops), underlying) {
      assert k in Run(ops).fetches && Run(ops).fetches[k].contractCount > 0;
      var i :| LastAttempt(ops, k, i);
      assert Attempts(ops[i], k);
    }
  }

  /** Recording a failure hides a stored session although its rows stay. */
  lemma FailureHides(db: Tables, session: int, underlying: string, error: string, atMs: int)
    ensures var after := Apply(db, Failure(session, underlying, error, atMs));
      && after.rows == db.rows
      && Sessions(after, underlying) == Sessions(db, underlying) - {session}
  {
    var after := Apply(db, Failure(session, underlying, error, atMs));
    forall s ensures s in Sessions(after, underlying) <==> s in Sessions(db, underlying) && s != session {
      var k := (s, underlying);
      assert s in Sessions(after, underlying) <==> k in after.fetches && after.fetches[k].contractCount > 0;
      assert s in Sessions(db, underlying) <==> k in db.fetches && db.fetches[k].contractCount > 0;
    }
  }

  predicate IsGreatest(s: set<int>, x: int) { x in s && forall y :: y in s ==> y <= x }

  ghost function Greatest(s: set<int>): Option<int> {
    if exists x :: IsGreatest(s, x) then
      var x :| IsGreatest(s, x);
      Some(x)
    else
      None
  }

  lemma {:induction false} GreatestExists(s: set<int>)
    requires s != {}
    ensures exists x :: IsGreatest(s, x)
    decreases |s|
  {
    var y := Member(s);
    var rest := s - {y};
    assert s == rest + {y};
    if rest == {} {
      assert IsGreatest(s, y);
    } else {
      GreatestExists(rest);
      var x :| IsGreatest(rest, x);
      var z := if x < y then y else x;
      assert IsGreatest(s, z);
    }
  }

  function Below(s: set<int>, bound: int): set<int> { set x | x in s && x < bound }

  /** `latest_session` and `prior_session`. */
  ghost function LatestSession(db: Tables, underlying: string): Option<int> { Greatest(Sessions(db, underlying)) }

  ghost function PriorSession(db: Tables, underlying: string, session: int): Option<int> {
    Greatest(Below(Sessions(db, underlying), session))
  }

  /** The prior session is the greatest stored one strictly before; `None` only if
      there is none. */
  lemma PriorIsGreatest(db: Tables, underlying: string, session: int)
    ensures var p := PriorSession(db, underlying, session);
      if p.Some? then
        && p.value < session && p.value in Sessions(db, underlying)
        && (forall s :: s in Sessions(db, underlying) && s < session ==> s <= p.value)
      else
        forall s :: s in Sessions(db, underlying) ==> s >= session
  {
    var below := Below(Sessions(db, underlying), session);
    if below != {} { GreatestExists(below); }
    assert forall s :: s in Sessions(db, underlying) && s < session ==> s in below;
  }

  /** The stored sessions of an underlying, oldest first. */
  ghost predicate SessionList(db: Tables, underlying: string, list: seq<int>) {
    && (forall i, j :: 0 <= i < j < |list| ==> list[i] < list[j])
    && (forall s :: s in list <==> s in Sessions(db, underlying))
  }

  /** Walking back by `prior_session` from the latest visits every stored session. */
  lemma PriorIsPredecessor(db: Tables, underlying: string, list: seq<int>)
    requires SessionList(db, underlying, list)
    ensures LatestSession(db, underlying) == if list == [] then None else Some(list[|list| - 1])
    ensures forall i :: 0 <= i < |list| ==>
      PriorSession(db, underlying, list[i]) == if i == 0 then None else Some(list[i - 1])
  {
    var all := Sessions(db, underlying);
    if list != [] {
      assert IsGreatest(all, list[|list| - 1]);
    } else {
      assert forall s :: s in all ==> s in list;
    }
    forall i | 0 <= i < |list|
      ensures PriorSession(db, underlying, list[i]) == if i == 0 then None else Some(list[i - 1])
    {
      PriorIsGreatest(db, underlying, list[i]);
      hide PriorSession, Sessions;
      if i > 0 { assert list[i - 1] in all; }
    }
  }

  // ---------------------------------------------------------------- every counted session has a snapshot

  /** Symbols of an underlying's snapshot. */
  function Snapshot(db: Tables, underlying: string, session: int): set<string> {
    set k | k in db.rows && k.0 == session && db.rows[k].underlying == underlying :: k.1
  }

  /** A symbol always comes with the same underlying. */
  ghost predicate OneUnderlying(ops: seq<Op>, owner: string -> string) {
    forall i, c :: 0 <= i < |ops| && ops[i].Write? && c in ops[i].chain.contracts ==>
      owner(c.symbol) == ops[i].chain.underlying
  }

  ghost predicate Owned(db: Tables, owner: string -> string) {
    && (forall k :: k in db.rows ==> db.rows[k].underlying == owner(k.1))
    && (forall k :: k in db.fetches && db.fetches[k].contractCount > 0 ==> Snapshot(db, k.1, k.0) != {})
  }

  lemma WriteOwned(db: Tables, session: int, chain: Chain, owner: string -> string)
    requires Owned(db, owner) && forall c :: c in chain.contracts ==> owner(c.symbol) == chain.underlying
    ensures Owned(Written(session, chain, db), owner)
  {
    var after := Written(session, chain, db);
    var entries := Entries(session, chain);
    Batch(db.rows, entries);
    hide UpsertAll;
    forall k | k in after.rows ensures after.rows[k].underlying == owner(k.1) {
      if k !in db.rows {
        var i := FirstOccurrence(entries, k);
        assert ListedBy(after.rows[k], entries[i]) && chain.contracts[i] in chain.contracts;
      }
    }
    forall k | k in after.fetches && after.fetches[k].contractCount > 0 ensures Snapshot(after, k.1, k.0) != {} {
      if k == (session, chain.underlying) {
        var c := chain.contracts[0];
        assert KeyOf(entries[0]) == (session, c.symbol) && Occurs(entries, (session, c.symbol));
        assert c in chain.contracts;
        assert c.symbol in Snapshot(after, k.1, k.0);
      } else {
        var symbol :| symbol in Snapshot(db, k.1, k.0);
        assert (k.0, symbol) in after.rows;
        assert symbol in Snapshot(after, k.1, k.0);
      }
    }
  }

  lemma {:induction false} FirstOccurrence(entries: seq<Entry>, k: Key) returns (i: int)
    requires Occurs(entries, k)
    ensures IsFirst(entries, i) && KeyOf(entries[i]) == k
  {
    var n := |entries| - 1;
    if Occurs(entries[..n], k) {
      i := FirstOccurrence(entries[..n], k);
    } else {
      i := n;
      OccursFront(entries, k);
      forall j | 0 <= j < n ensures KeyOf(entries[j]) != k { assert entries[..n][j] == entries[j]; }
    }
  }

  /** Every session that counts has a snapshot to compare. */
  lemma {:induction false} SessionsHaveSnapshots(ops: seq<Op>, owner: string -> string)
    requires OneUnderlying(ops, owner)
    ensures Owned(Run(ops), owner)
    ensures forall u, s :: s in Sessions(Run(ops), u) ==> Snapshot(Run(ops), u, s) != {}
  {
    if ops != [] {
      var n := |ops| - 1;
      SessionsHaveSnapshots(ops[..n], owner);
      var db := Run(ops[..n]);
      match ops[n]
      case Write(session, chain) => WriteOwned(db, session, chain, owner);
      case LostWrite(_, _) =>
      case Failure(session, underlying, error, atMs) =>
        forall u, s ensures Snapshot(Run(ops), u, s) == Snapshot(db, u, s) {}
    }
  }

  // ---------------------------------------------------------------- open-interest change

  datatype OIChange = OIChange(
    symbol: string, underlying: string, putCall: string, strike: real, expiration: string, multiplier: real,
    openInterest: int, priorOpenInterest: int, oiChange: int, volume: int, session: int, priorSession: int)

  datatype Filters = Filters(minOpenInterest: int, minAbsChange: int, minDays: int)

  function OpenInterest(db: Tables, session: int, symbol: string): int
    requires (session, symbol) in db.rows
  {
    db.rows[(session, symbol)].quote.openInterest
  }

  /** A missing days-to-expiration compares with nothing. */
  predicate Passes(cur: Row, prv: Row, f: Filters) {
    && cur.quote.openInterest >= f.minOpenInterest
    && cur.terms.daysToExpiration.Some? && cur.terms.daysToExpiration.value >= f.minDays
    && AbsInt(cur.quote.openInterest - prv.quote.openInterest) >= f.minAbsChange
  }

  function ChangeOf(db: Tables, session: int, prior: int, symbol: string): OIChange
    requires (session, symbol) in db.rows && (prior, symbol) in db.rows
  {
    var cur, prv := db.rows[(session, symbol)], db.rows[(prior, symbol)];
    OIChange(
      symbol, cur.underlying, cur.terms.putCall, cur.terms.strike, cur.terms.expiration, cur.terms.multiplier,
      cur.quote.openInterest, prv.quote.openInterest, cur.quote.openInterest - prv.quote.openInterest,
      cur.quote.volume, session, prior)
  }

  /** The joined rows, by symbol. */
  function Changes(db: Tables, underlying: string, session: int, prior: int, f: Filters): map<string, OIChange> {
    map symbol |
      && symbol in Snapshot(db, underlying, session) && (prior, symbol) in db.rows
      && Passes(db.rows[(session, symbol)], db.rows[(prior, symbol)], f)
    :: ChangeOf(db, session, prior, symbol)
  }

  lemma ChangesNamed(db: Tables, underlying: string, session: int, prior: int, f: Filters)
    ensures var changes := Changes(db, underlying, session, prior, f);
      forall symbol :: symbol in changes ==> changes[symbol].symbol == symbol
  {
  }

  function NewSymbols(db: Tables, underlying: string, session: int, prior: int): set<string> {
    set symbol | symbol in Snapshot(db, underlying, session) && (prior, symbol) !in db.rows
  }

  /** A row of the later snapshot with its symbol. */
  datatype Listing = Listing(symbol: string, row: Row)

  function NewRows(db: Tables, underlying: string, session: int, prior: int): map<string, Listing> {
    map symbol | symbol in NewSymbols(db, underlying, session, prior) :: Listing(symbol, db.rows[(session, symbol)])
  }

  ghost function Resolve(db: Tables, underlying: string, session: Option<int>): Option<int> {
    if session.Some? then session else LatestSession(db, underlying)
  }

  ghost function ResolvePrior(db: Tables, underlying: string, session: int, prior: Option<int>): Option<int> {
    if prior.Some? then prior else PriorSession(db, underlying, session)
  }

  /** `oi_change`, without the order of its rows. */
  ghost function OiChanges(db: Tables, underlying: string, session: Option<int>, prior: Option<int>, f: Filters)
    : map<string, OIChange>
  {
    var sd := Resolve(db, underlying, session);
    if sd.None? then map[]
    else
      var p := ResolvePrior(db, underlying, sd.value, prior);
      if p.None? then map[] else Changes(db, underlying, sd.value, p.value, f)
  }

  /** `new_contracts`, without the order of its rows. */
  ghost function NewContracts(db: Tables, underlying: string, session: Option<int>): map<string, Listing> {
    var sd := Resolve(db, underlying, session);
    if sd.None? then map[]
    else
      var p := PriorSession(db, underlying, sd.value);
      if p.None? then map[] else NewRows(db, underlying, sd.value, p.value)
  }

  /** A contract of both snapshots that the filters drop. */
  predicate Dropped(db: Tables, session: int, prior: int, f: Filters, symbol: string)
    requires (session, symbol) in db.rows
  {
    (prior, symbol) in db.rows && !Passes(db.rows[(session, symbol)], db.rows[(prior, symbol)], f)
  }

  /** When both queries have a session before, they never overlap and stay inside
      the later snapshot. They cover it exactly when no contract of both snapshots
      is dropped by a filter. */
  lemma ChangesAndNewPartition(db: Tables, underlying: string, session: Option<int>, f: Filters)
    requires Resolve(db, underlying, session).Some?
    requires PriorSession(db, underlying, Resolve(db, underlying, session).value).Some?
    ensures var sd := Resolve(db, underlying, session).value;
      var p := PriorSession(db, underlying, sd).value;
      var changed := OiChanges(db, underlying, session, None, f).Keys;
      var listed := NewContracts(db, underlying, session).Keys;
      && changed * listed == {} && changed + listed <= Snapshot(db, underlying, sd)
      && (changed + listed == Snapshot(db, underlying, sd) <==>
          forall symbol :: symbol in Snapshot(db, underlying, sd) ==> !Dropped(db, sd, p, f, symbol))
  {
    var sd := Resolve(db, underlying, session).value;
    var p := PriorSession(db, underlying, sd).value;
    var changed := OiChanges(db, underlying, session, None, f).Keys;
    var listed := NewContracts(db, underlying, session).Keys;
    var all := Snapshot(db, underlying, sd);
    assert changed == Changes(db, underlying, sd, p, f).Keys && listed == NewSymbols(db, underlying, sd, p);
    forall symbol | symbol in all ensures symbol in changed + listed <==> !Dropped(db, sd, p, f, symbol) {}
  }

  /** With the filters open, only a missing days-to-expiration can break the
      partition. */
  lemma OpenFiltersPartition(db: Tables, underlying: string, session: Option<int>, f: Filters)
    requires Resolve(db, underlying, session).Some?
    requires PriorSession(db, underlying, Resolve(db, underlying, session).value).Some?
    requires f.minAbsChange <= 0
    requires forall k :: k in db.rows ==> db.rows[k].quote.openInterest >= f.minOpenInterest
    requires forall k :: k in db.rows && db.rows[k].terms.daysToExpiration.Some? ==>
      db.rows[k].terms.daysToExpiration.value >= f.minDays
    ensures var sd := Resolve(db, underlying, session).value;
      var p := PriorSession(db, underlying, sd).value;
      (OiChanges(db, underlying, session, None, f).Keys + NewContracts(db, underlying, session).Keys ==
        Snapshot(db, underlying, sd)) <==>
      forall symbol :: symbol in Snapshot(db, underlying, sd) && (p, symbol) in db.rows ==>
        db.rows[(sd, symbol)].terms.daysToExpiration.Some?
  {
    ChangesAndNewPartition(db, underlying, session, f);
    hide OiChanges, NewContracts, PriorSession, Resolve;
  }

  /** A change compares what is stored for the later session with what is stored for
      the earlier one: reported exactly for contracts of the underlying in both
      that pass the filters, with the later open interest less the earlier. */
  lemma ChangesMean(db: Tables, underlying: string, session: int, prior: int, f: Filters, symbol: string)
    ensures var changes := Changes(db, underlying, session, prior, f);
      var later, earlier := (session, symbol), (prior, symbol);
      && (symbol in changes <==>
            && later in db.rows && earlier in db.rows && db.rows[later].underlying == underlying
            && db.rows[later].quote.openInterest >= f.minOpenInterest
            && db.rows[later].terms.daysToExpiration.Some?
            && db.rows[later].terms.daysToExpiration.value >= f.minDays
            && (db.rows[later].quote.openInterest - db.rows[earlier].quote.openInterest >= f.minAbsChange
                || db.rows[earlier].quote.openInterest - db.rows[later].quote.openInterest >= f.minAbsChange))
      && (symbol in changes ==>
            var x := changes[symbol];
            && x.symbol == symbol && x.underlying == underlying && x.session == session && x.priorSession == prior
            && x.openInterest == db.rows[later].quote.openInterest
            && x.priorOpenInterest == db.rows[earlier].quote.openInterest
            && x.oiChange == x.openInterest - x.priorOpenInterest && x.volume == db.rows[later].quote.volume)
  {
  }

  // ---------------------------------------------------------------- telescoping

  /** Sum of the changes reported between neighbouring sessions. */
  function TotalChange(db: Tables, underlying: string, dates: seq<int>, f: Filters, symbol: string): int {
    var n := |dates| - 1;
    if n < 1 then 0
    else
      var last := Changes(db, underlying, dates[n], dates[n - 1], f);
      TotalChange(db, underlying, dates[..n], f, symbol) + (if symbol in last then last[symbol].oiChange else 0)
  }

  ghost predicate ReportedThroughout(db: Tables, underlying: string, dates: seq<int>, f: Filters, symbol: string) {
    forall i :: 0 < i < |dates| ==> symbol in Changes(db, underlying, dates[i], dates[i - 1], f)
  }

  /** Changes telescope: over any sessions, those reported step by step add up to
      the difference between the first and the last. */
  lemma {:induction false} ChangesTelescope(db: Tables, underlying: string, dates: seq<int>, f: Filters, symbol: string)
    requires |dates| >= 2 && ReportedThroughout(db, underlying, dates, f, symbol)
    ensures (dates[0], symbol) in db.rows && (dates[|dates| - 1], symbol) in db.rows
    ensures TotalChange(db, underlying, dates, f, symbol) ==
      OpenInterest(db, dates[|dates| - 1], symbol) - OpenInterest(db, dates[0], symbol)
  {
    var n := |dates| - 1;
    var last := Changes(db, underlying, dates[n], dates[n - 1], f);
    assert symbol in last && last[symbol] == ChangeOf(db, dates[n], dates[n - 1], symbol);
    if n >= 2 {
      assert ReportedThroughout(db, underlying, dates[..n], f, symbol);
      ChangesTelescope(db, underlying, dates[..n], f, symbol);
    }
  }

  /** Three sessions: two reported steps make one reported step whose change is
      their sum. */
  lemma ThreeSessions(db: Tables, underlying: string, a: int, b: int, c: int, f: Filters, symbol: string)
    requires symbol in Changes(db, underlying, b, a, f) && symbol in Changes(db, underlying, c, b, f)
    ensures symbol in Changes(db, underlying, c, a, f.(minAbsChange := 0))
    ensures Changes(db, underlying, c, a, f.(minAbsChange := 0))[symbol].oiChange ==
      Changes(db, underlying, b, a, f)[symbol].oiChange + Changes(db, underlying, c, b, f)[symbol].oiChange
  {
  }

  /** Following the defaults back through every stored session, the reported
      changes add up to the newest open interest less the oldest. */
  lemma DefaultsTelescope(db: Tables, underlying: string, list: seq<int>, f: Filters, symbol: string)
    requires SessionList(db, underlying, list) && |list| >= 2
    requires forall i :: 0 < i < |list| ==> symbol in OiChanges(db, underlying, Some(list[i]), None, f)
    ensures (list[0], symbol) in db.rows && (list[|list| - 1], symbol) in db.rows
    ensures TotalChange(db, underlying, list, f, symbol) ==
      OpenInterest(db, list[|list| - 1], symbol) - OpenInterest(db, list[0], symbol)
  {
    PriorIsPredecessor(db, underlying, list);
    hide PriorSession, LatestSession, SessionList;
    assert ReportedThroughout(db, underlying, list, f, symbol) by {
      forall i | 0 < i < |list| ensures symbol in Changes(db, underlying, list[i], list[i - 1], f) {
        assert symbol in OiChanges(db, underlying, Some(list[i]), None, f);
      }
    }
    ChangesTelescope(db, underlying, list, f, symbol);
  }

  // ---------------------------------------------------------------- the store

  function SymbolOfChange(x: OIChange): string { x.symbol }

  function SymbolOfListing(x: Listing): string { x.symbol }

  predicate LargerChange(a: OIChange, b: OIChange) { AbsInt(a.oiChange) >= AbsInt(b.oiChange) }

  predicate MoreInterest(a: Listing, b: Listing) { a.row.quote.openInterest >= b.row.quote.openInterest }

  /** Each row once, in the given order. */
  ghost predicate Ranks<T(!new)>(rows: seq<T>, all: map<string, T>, key: T -> string, le: (T, T) -> bool) {
    && |rows| == |all|
    && (forall x :: x in rows <==> key(x) in all && all[key(x)] == x)
    && Ordered(rows, le)
  }

  /** The ranking puts the larger change, up or down, first; new contracts come by
      open interest, largest first. */
  lemma RankingMeans(rows: seq<OIChange>, changes: map<string, OIChange>, i: nat, j: nat)
    requires Ranks(rows, changes, SymbolOfChange, LargerChange) && i < j < |rows|
    ensures rows[j].oiChange <= rows[i].oiChange || rows[j].oiChange <= -rows[i].oiChange
    ensures -rows[j].oiChange <= rows[i].oiChange || -rows[j].oiChange <= -rows[i].oiChange
  {
    assert LargerChange(rows[i], rows[j]);
  }

  lemma NewRankingMeans(rows: seq<Listing>, all: map<string, Listing>, i: nat, j: nat)
    requires Ranks(rows, all, SymbolOfListing, MoreInterest) && i < j < |rows|
    ensures rows[i].row.quote.openInterest >= rows[j].row.quote.openInterest
  {
    assert MoreInterest(rows[i], rows[j]);
  }

  method FindGreatest(s: set<int>) returns (r: Option<int>)
    ensures r == Greatest(s)
  {
    if s == {} {
      return None;
    }
    var best := Pick(s);
    var rest := s - {best};
    while rest != {}
      invariant best in s && rest <= s && forall y :: y in s && y !in rest ==> y <= best
      decreases |rest|
    {
      var y := Pick(rest);
      rest := rest - {y};
      if best < y {
        best := y;
      }
    }
    assert IsGreatest(s, best);
    return Some(best);
  }

  class Store {
    var db: Tables

    constructor ()
      ensures db == EMPTY
    {
      db := EMPTY;
    }

    /** `write_chain`; `fails` when SQLite raises, which rolls back and re-raises. */
    method WriteChain(chain: Chain, session: int, fails: bool) returns (written: Option<nat>)
      modifies this
      ensures db == Apply(old(db), if fails then LostWrite(session, chain) else Write(session, chain))
      ensures written == if fails then None else Some(|chain.contracts|)
    {
      if fails {
        return None;
      }
      var entries := Entries(session, chain);
      var rows := db.rows;
      for i := 0 to |entries|
        invariant rows == UpsertAll(db.rows, entries[..i])
      {
        assert entries[..i + 1][..i] == entries[..i];
        rows := Upsert(rows, entries[i]);
      }
      assert entries[..|entries|] == entries;
      db := Tables(rows, db.fetches[(session, chain.underlying) := FetchOf(chain)]);
      return Some(|chain.contracts|);
    }

    method RecordFailure(underlying: string, error: string, session: int, atMs: int)
      modifies this
      ensures db == Apply(old(db), Failure(session, underlying, error, atMs))
    {
      db := db.(fetches := db.fetches[(session, underlying) := FailureOf(error, atMs)]);
    }

    method FindPrior(underlying: string, session: int) returns (r: Option<int>)
      ensures r == PriorSession(db, underlying, session)
    {
      r := FindGreatest(Below(Sessions(db, underlying), session));
    }

    /** `oi_change`. */
    method OiChange(underlying: string, session: Option<int>, prior: Option<int>, f: Filters)
      returns (rows: seq<OIChange>)
      ensures Ranks(rows, OiChanges(db, underlying, session, prior, f), SymbolOfChange, LargerChange)
    {
      assert Ranks([], map[], SymbolOfChange, LargerChange);
      hide Ranks, Sessions, Below, Greatest, PriorSession, LatestSession, Passes, Snapshot, IsGreatest;
      var sd := session;
      if sd.None? {
        sd := FindGreatest(Sessions(db, underlying));
      }
      if sd.None? {
        return [];
      }
      var p := prior;
      if p.None? {
        p := FindPrior(underlying, sd.value);
      }
      if p.None? {
        return [];
      }
      ChangesNamed(db, underlying, sd.value, p.value, f);
      hide Changes;
      RankingOrders();
      rows := Ranking(Changes(db, underlying, sd.value, p.value, f), SymbolOfChange, LargerChange);
    }

    /** `new_contracts`. */
    method FindNew(underlying: string, session: Option<int>) returns (rows: seq<Listing>)
      ensures Ranks(rows, NewContracts(db, underlying, session), SymbolOfListing, MoreInterest)
    {
      assert Ranks([], map[], SymbolOfListing, MoreInterest);
      hide Ranks, Sessions, Below, Greatest, PriorSession, LatestSession, Snapshot, IsGreatest;
      var sd := session;
      if sd.None? {
        sd := FindGreatest(Sessions(db, underlying));
      }
      if sd.None? {
        return [];
      }
      var p := FindPrior(underlying, sd.value);
      if p.None? {
        return [];
      }
      RankingOrders();
      rows := Ranking(NewRows(db, underlying, sd.value, p.value), SymbolOfListing, MoreInterest);
    }
  }

  lemma RankingOrders()
    ensures TotalPreorder(LargerChange) && TotalPreorder(MoreInterest)
  {
  }

  method Ranking<T(!new, ==)>(all: map<string, T>, key: T -> string, le: (T, T) -> bool) returns (rows: seq<T>)
    requires TotalPreorder(le) && forall symbol :: symbol in all ==> key(all[symbol]) == symbol
    ensures Ranks(rows, all, key, le)
  {
    rows := [];
    var rest := all.Keys;
    while rest != {}
      invariant rest <= all.Keys && |rows| + |rest| == |all|
      invariant forall x :: x in rows <==> key(x) in all && key(x) !in rest && all[key(x)] == x
      invariant Ordered(rows, le)
      decreases |rest|
    {
      var symbol := Pick(rest);
      var x := all[symbol];
      InsertPermutes(rows, x, le);
      InsertOrders(rows, x, le);
      InsertMembers(rows, x, le);
      rows := Insert(rows, x, le);
      rest := rest - {symbol};
    }
  }

  lemma InsertMembers<T(!new)>(rows: seq<T>, x: T, le: (T, T) -> bool)
    ensures |Insert(rows, x, le)| == |rows| + 1
    ensures forall y :: y in Insert(rows, x, le) <==> y in rows || y == x
  {
    InsertPermutes(rows, x, le);
    var grown := Insert(rows, x, le);
    assert |multiset(grown)| == |multiset(rows)| + 1;
    forall y ensures y in grown <==> y in rows || y == x {
      assert y in grown <==> y in multiset(grown);
    }
  }
}
