/** Option-chain analytics (analysis/option_walls.py): the open-interest table
    with its coverage basis, the spot recovered from put-call parity, the guard
    built on it and the risk reversal the guard protects. A dictionary is a list
    of its entries in insertion order.
  */
module OptionWalls {
  import opened Numbers
  import opened Options
  import opened Sequences

  datatype Side = Call | Put

  datatype ChainRow = ChainRow(
    side: Side, strike: real, expiration: string, dte: int, bid: Option<real>, ask: Option<real>,
    openInterest: Option<int>, iv: Option<real>, delta: Option<real>)

  // ---------------------------------------------------------------- the coverage table

  predicate Counts(r: ChainRow, side: Side) { r.side == side && r.openInterest.Some? }

  function OiOf(side: Side): ChainRow -> int {
    (r: ChainRow) => if Counts(r, side) then r.openInterest.value else 0
  }

  function OiTerm(side: Side, strike: real): ChainRow -> int {
    (r: ChainRow) => if Counts(r, side) && r.strike == strike then r.openInterest.value else 0
  }

  /** Open interest of one side at one strike, over all expirations. */
  function OiAt(rows: seq<ChainRow>, side: Side, strike: real): int { SumInt(rows, OiTerm(side, strike)) }

  function ExpirationsAt(rows: seq<ChainRow>, side: Side, strike: real): set<string> {
    set r | r in rows && Counts(r, side) && r.strike == strike :: r.expiration
  }

  function Expirations(rows: seq<ChainRow>): set<string> { set r | r in rows :: r.expiration }

  datatype Coverage = Coverage(strike: real, openInterest: int, covered: nat, total: nat)

  function EntryFor(rows: seq<ChainRow>, side: Side, strike: real): Coverage {
    Coverage(strike, OiAt(rows, side, strike), |ExpirationsAt(rows, side, strike)|, |Expirations(rows)|)
  }

  /** The sort key `(-open_interest, strike)`. */
  predicate Ahead(a: Coverage, b: Coverage) {
    a.openInterest > b.openInterest || (a.openInterest == b.openInterest && a.strike < b.strike)
  }

  predicate NotBehind(a: Coverage, b: Coverage) {
    a.openInterest > b.openInterest || (a.openInterest == b.openInterest && a.strike <= b.strike)
  }

  ghost predicate Quoted(rows: seq<ChainRow>, side: Side, strike: real) {
    exists r :: r in rows && Counts(r, side) && r.strike == strike
  }

  /** The table of a set of rows: strictly ordered by the key, one exact entry for
      every strike that has open interest on the side, and no other. */
  ghost predicate IsTable(table: seq<Coverage>, rows: seq<ChainRow>, side: Side) {
    && Ordered(table, Ahead)
    && (forall e :: e in table ==> Quoted(rows, side, e.strike) && e == EntryFor(rows, side, e.strike))
    && (forall strike :: Quoted(rows, side, strike) ==> EntryFor(rows, side, strike) in table)
  }

  lemma EntryPermutes(a: seq<ChainRow>, b: seq<ChainRow>, side: Side, strike: real)
    requires multiset(a) == multiset(b)
    ensures EntryFor(a, side, strike) == EntryFor(b, side, strike)
    ensures Quoted(a, side, strike) <==> Quoted(b, side, strike)
  {
    SumIntPermutes(a, b, OiTerm(side, strike));
    assert forall r :: r in a <==> r in multiset(a);
    assert forall r :: r in b <==> r in multiset(b);
    assert ExpirationsAt(a, side, strike) == ExpirationsAt(b, side, strike);
    assert Expirations(a) == Expirations(b);
  }

  /** The table does not depend on the order in which the vendor lists the rows. */
  lemma TableOrderIndependent(a: seq<ChainRow>, b: seq<ChainRow>, side: Side, ta: seq<Coverage>, tb: seq<Coverage>)
    requires multiset(a) == multiset(b)
    requires IsTable(ta, a, side) && IsTable(tb, b, side)
    ensures ta == tb
  {
    hide EntryFor, Quoted;
    forall e ensures e in ta <==> e in tb {
      EntryPermutes(a, b, side, e.strike);
    }
    StrictUnique(ta, tb, Ahead);
  }

  function StrikeOf(e: Coverage): real { e.strike }

  lemma TableStrikes(table: seq<Coverage>, rows: seq<ChainRow>, side: Side)
    requires IsTable(table, rows, side)
    ensures Distinct(table, StrikeOf)
  {
    forall i, j | 0 <= i < j < |table| ensures StrikeOf(table[i]) != StrikeOf(table[j]) {
      assert Ahead(table[i], table[j]);
      assert table[i] in table && table[j] in table;
    }
  }

  /** Every entry covers at least one of the chain's expirations and at most all. */
  lemma CoverageBounds(table: seq<Coverage>, rows: seq<ChainRow>, side: Side, e: Coverage)
    requires IsTable(table, rows, side) && e in table
    ensures 1 <= e.covered <= e.total == |Expirations(rows)|
  {
    var r :| r in rows && Counts(r, side) && r.strike == e.strike;
    var some, all := ExpirationsAt(rows, side, e.strike), Expirations(rows);
    assert r.expiration in some;
    assert some <= all;
    Subset(some, all);
  }

  lemma {:induction false} Subset<T>(a: set<T>, b: set<T>)
    requires a <= b
    ensures |a| <= |b|
  {
    assert |b - a| == |b| - |a| by { assert b == a + (b - a) && a !! (b - a); }
  }

  function TableOi(e: Coverage): int { e.openInterest }

  /** The sum over the table of what the first rows contribute. */
  function PartialOi(table: seq<Coverage>, rows: seq<ChainRow>, side: Side): int {
    if table == [] then 0
    else PartialOi(table[..|table| - 1], rows, side) + OiAt(rows, side, table[|table| - 1].strike)
  }

  lemma {:induction false} PartialStep(table: seq<Coverage>, rows: seq<ChainRow>, r: ChainRow, side: Side)
    requires Distinct(table, StrikeOf)
    ensures PartialOi(table, rows + [r], side) == PartialOi(table, rows, side) +
            (if Counts(r, side) && exists i :: 0 <= i < |table| && table[i].strike == r.strike
             then r.openInterest.value else 0)
  {
    if table != [] {
      var n := |table| - 1;
      PartialStep(table[..n], rows, r, side);
      SumIntAppend(rows, r, OiTerm(side, table[n].strike));
      assert forall i :: 0 <= i < n ==> table[..n][i] == table[i];
      if table[n].strike == r.strike {
        assert forall i :: 0 <= i < n ==> StrikeOf(table[i]) != StrikeOf(table[n]);
      } else if i :| 0 <= i < |table| && table[i].strike == r.strike {
        assert table[..n][i].strike == r.strike;
      }
    }
  }

  lemma {:induction false} PartialNone(table: seq<Coverage>, side: Side)
    ensures PartialOi(table, [], side) == 0
  {
    if table != [] { PartialNone(table[..|table| - 1], side); }
  }

  lemma {:induction false} PartialTotal(table: seq<Coverage>, rows: seq<ChainRow>, side: Side)
    requires Distinct(table, StrikeOf)
    requires forall r :: r in rows && Counts(r, side) ==> exists i :: 0 <= i < |table| && table[i].strike == r.strike
    ensures PartialOi(table, rows, side) == SumInt(rows, OiOf(side))
  {
    if rows == [] {
      PartialNone(table, side);
    } else {
      var n := |rows| - 1;
      assert rows == rows[..n] + [rows[n]];
      PartialTotal(table, rows[..n], side);
      PartialStep(table, rows[..n], rows[n], side);
    }
  }

  lemma {:induction false} PartialIsTable(table: seq<Coverage>, rows: seq<ChainRow>, side: Side)
    requires forall e :: e in table ==> e.openInterest == OiAt(rows, side, e.strike)
    ensures PartialOi(table, rows, side) == SumInt(table, TableOi)
  {
    if table != [] { PartialIsTable(table[..|table| - 1], rows, side); }
  }

  /** The whole table's open interest is exactly the side's: no contract is lost
      or counted at two strikes. */
  lemma TableConservesOi(table: seq<Coverage>, rows: seq<ChainRow>, side: Side)
    requires IsTable(table, rows, side)
    ensures SumInt(table, TableOi) == SumInt(rows, OiOf(side))
  {
    TableStrikes(table, rows, side);
    forall r | r in rows && Counts(r, side) ensures exists i :: 0 <= i < |table| && table[i].strike == r.strike {
      assert Quoted(rows, side, r.strike);
      var i :| 0 <= i < |table| && table[i] == EntryFor(rows, side, r.strike);
    }
    PartialTotal(table, rows, side);
    PartialIsTable(table, rows, side);
  }

  // ---------------------------------------------------------------- building the table

  datatype Running = Running(strike: real, openInterest: int, expirations: set<string>)

  function RunningStrike(a: Running): real { a.strike }

  /** The two dictionaries of `coverage_table` after the first rows. */
  ghost predicate Accumulated(acc: seq<Running>, rows: seq<ChainRow>, side: Side) {
    && Distinct(acc, RunningStrike)
    && (forall i :: 0 <= i < |acc| ==>
          Quoted(rows, side, acc[i].strike)
          && acc[i].openInterest == OiAt(rows, side, acc[i].strike)
          && acc[i].expirations == ExpirationsAt(rows, side, acc[i].strike))
    && (forall strike :: Quoted(rows, side, strike) ==> exists i :: 0 <= i < |acc| && acc[i].strike == strike)
  }

  method FindStrike(acc: seq<Running>, strike: real) returns (i: nat)
    ensures i <= |acc| && (i < |acc| ==> acc[i].strike == strike)
    ensures i == |acc| ==> forall j :: 0 <= j < |acc| ==> acc[j].strike != strike
  {
    i := 0;
    while i < |acc| && acc[i].strike != strike
      invariant i <= |acc| && forall j :: 0 <= j < i ==> acc[j].strike != strike
    {
      i := i + 1;
    }
  }

  lemma RowAdds(rows: seq<ChainRow>, r: ChainRow, side: Side, strike: real)
    ensures OiAt(rows + [r], side, strike) ==
            OiAt(rows, side, strike) + (if Counts(r, side) && r.strike == strike then r.openInterest.value else 0)
    ensures ExpirationsAt(rows + [r], side, strike) ==
            ExpirationsAt(rows, side, strike) + (if Counts(r, side) && r.strike == strike then {r.expiration} else {})
    ensures Quoted(rows + [r], side, strike) <==> Quoted(rows, side, strike) || (Counts(r, side) && r.strike == strike)
  {
    SumIntAppend(rows, r, OiTerm(side, strike));
    assert forall x :: x in rows + [r] <==> x in rows || x == r;
  }

  lemma NothingQuoted(rows: seq<ChainRow>, side: Side, strike: real)
    requires !Quoted(rows, side, strike)
    ensures OiAt(rows, side, strike) == 0 && ExpirationsAt(rows, side, strike) == {}
  {
    NoTerms(rows, side, strike);
  }

  lemma {:induction false} NoTerms(rows: seq<ChainRow>, side: Side, strike: real)
    requires forall r :: r in rows ==> !(Counts(r, side) && r.strike == strike)
    ensures OiAt(rows, side, strike) == 0
  {
    if rows != [] { NoTerms(rows[..|rows| - 1], side, strike); }
  }

  function AddRow(acc: seq<Running>, r: ChainRow, i: nat): seq<Running>
    requires i <= |acc| && r.openInterest.Some?
  {
    if i < |acc|
    then acc[i := acc[i].(openInterest := acc[i].openInterest + r.openInterest.value,
                          expirations := acc[i].expirations + {r.expiration})]
    else acc + [Running(r.strike, r.openInterest.value, {r.expiration})]
  }

  lemma AddRowKeeps(acc: seq<Running>, rows: seq<ChainRow>, r: ChainRow, side: Side, i: nat)
    requires Accumulated(acc, rows, side) && Counts(r, side)
    requires i <= |acc| && (i < |acc| ==> acc[i].strike == r.strike)
    requires i == |acc| ==> forall j :: 0 <= j < |acc| ==> acc[j].strike != r.strike
    ensures Accumulated(AddRow(acc, r, i), rows + [r], side)
  {
    var more := AddRow(acc, r, i);
    assert i == |acc| ==> !Quoted(rows, side, r.strike);
    if i == |acc| { NothingQuoted(rows, side, r.strike); }
    forall k | 0 <= k < |more|
      ensures Quoted(rows + [r], side, more[k].strike)
           && more[k].openInterest == OiAt(rows + [r], side, more[k].strike)
           && more[k].expirations == ExpirationsAt(rows + [r], side, more[k].strike)
    {
      RowAdds(rows, r, side, more[k].strike);
      if k < |acc| && k != i {
        assert more[k] == acc[k];
        DifferentStrike(acc, k, i, r.strike);
      }
    }
    forall strike | Quoted(rows + [r], side, strike) ensures exists k :: 0 <= k < |more| && more[k].strike == strike {
      RowAdds(rows, r, side, strike);
      if strike == r.strike {
        assert more[i].strike == strike;
      } else {
        var k :| 0 <= k < |acc| && acc[k].strike == strike;
        assert more[k].strike == strike;
      }
    }
    DistinctUpdate(acc, r, i);
  }

  lemma DifferentStrike(acc: seq<Running>, k: nat, i: nat, strike: real)
    requires Distinct(acc, RunningStrike) && k < |acc| && k != i
    requires i < |acc| ==> acc[i].strike == strike
    requires i >= |acc| ==> forall j :: 0 <= j < |acc| ==> acc[j].strike != strike
    ensures acc[k].strike != strike
  {
    assert i < |acc| ==> RunningStrike(acc[if k < i then k else i]) != RunningStrike(acc[if k < i then i else k]);
  }

  lemma DistinctUpdate(acc: seq<Running>, r: ChainRow, i: nat)
    requires Distinct(acc, RunningStrike) && r.openInterest.Some?
    requires i <= |acc| && (i < |acc| ==> acc[i].strike == r.strike)
    requires i == |acc| ==> forall j :: 0 <= j < |acc| ==> acc[j].strike != r.strike
    ensures Distinct(AddRow(acc, r, i), RunningStrike)
  {
    var more := AddRow(acc, r, i);
    forall a, b | 0 <= a < b < |more| ensures RunningStrike(more[a]) != RunningStrike(more[b]) {
      assert b < |acc| ==> RunningStrike(acc[a]) != RunningStrike(acc[b]);
    }
  }

  function Finish(a: Running, total: nat): Coverage { Coverage(a.strike, a.openInterest, |a.expirations|, total) }

  lemma {:induction false} FinishedIsTable(acc: seq<Running>, rows: seq<ChainRow>, side: Side, entries: seq<Coverage>)
    requires Accumulated(acc, rows, side)
    requires |entries| == |acc| && forall i :: 0 <= i < |acc| ==> entries[i] == Finish(acc[i], |Expirations(rows)|)
    ensures IsTable(Sort(entries, NotBehind), rows, side)
  {
    var table := Sort(entries, NotBehind);
    SortPermutes(entries, NotBehind);
    SortOrders(entries, NotBehind);
    assert Distinct(entries, StrikeOf) by {
      forall i, j | 0 <= i < j < |entries| ensures StrikeOf(entries[i]) != StrikeOf(entries[j]) {
        assert RunningStrike(acc[i]) != RunningStrike(acc[j]);
      }
    }
    SelectionDistinct(table, entries, StrikeOf);
    forall i, j | 0 <= i < j < |table| ensures Ahead(table[i], table[j]) {
      assert NotBehind(table[i], table[j]) && StrikeOf(table[i]) != StrikeOf(table[j]);
    }
    assert forall e :: e in table <==> e in entries by {
      assert forall e :: e in table <==> e in multiset(table);
      assert forall e :: e in entries <==> e in multiset(entries);
    }
    forall strike | Quoted(rows, side, strike) ensures EntryFor(rows, side, strike) in table {
      var i :| 0 <= i < |acc| && acc[i].strike == strike;
      assert entries[i] in entries;
    }
  }

  /** Python's `s[:top]`: a negative `top` counts from the end. */
  function Cut<T>(s: seq<T>, top: Option<int>): seq<T> {
    if top.None? || top.value >= |s| then s
    else if top.value >= 0 then s[..top.value]
    else if |s| + top.value >= 0 then s[..|s| + top.value]
    else []
  }

  datatype StrikeCoverage = StrikeCoverage(entry: Coverage, distancePct: Option<real>)

  function Placed(spot: Option<real>): Coverage -> StrikeCoverage {
    (e: Coverage) =>
      StrikeCoverage(e, if spot.None? || spot.value == 0.0 then None else Some((e.strike / spot.value - 1.0) * 100.0))
  }

  function PlaceAll(s: seq<Coverage>, spot: Option<real>): seq<StrikeCoverage> {
    seq(|s|, i requires 0 <= i < |s| => Placed(spot)(s[i]))
  }

  /** `coverage_table`; `top` cuts the ranking. */
  method CoverageTable(rows: seq<ChainRow>, spot: Option<real>, side: Side, top: Option<int>)
    returns (table: seq<StrikeCoverage>)
    ensures exists full :: IsTable(full, rows, side) && table == Cut(PlaceAll(full, spot), top)
  {
    var acc: seq<Running> := [];
    for n := 0 to |rows|
      invariant Accumulated(acc, rows[..n], side)
    {
      assert rows[..n + 1] == rows[..n] + [rows[n]];
      if Counts(rows[n], side) {
        var i := FindStrike(acc, rows[n].strike);
        AddRowKeeps(acc, rows[..n], rows[n], side, i);
        acc := AddRow(acc, rows[n], i);
      } else {
        SkipKeeps(acc, rows[..n], rows[n], side);
      }
    }
    assert rows[..|rows|] == rows;
    var total := |Expirations(rows)|;
    var entries := seq(|acc|, i requires 0 <= i < |acc| => Finish(acc[i], total));
    FinishedIsTable(acc, rows, side, entries);
    var full := Sort(entries, NotBehind);
    assert IsTable(full, rows, side);
    table := Cut(PlaceAll(full, spot), top);
  }

  lemma SkipKeeps(acc: seq<Running>, rows: seq<ChainRow>, r: ChainRow, side: Side)
    requires Accumulated(acc, rows, side) && !Counts(r, side)
    ensures Accumulated(acc, rows + [r], side)
  {
    forall strike
      ensures Quoted(rows + [r], side, strike) <==> Quoted(rows, side, strike)
      ensures OiAt(rows + [r], side, strike) == OiAt(rows, side, strike)
      ensures ExpirationsAt(rows + [r], side, strike) == ExpirationsAt(rows, side, strike)
    {
      RowAdds(rows, r, side, strike);
    }
  }

  // ---------------------------------------------------------------- the median

  predicate AtMost(x: real, y: real) { x <= y }

  /** `statistics.median`. */
  function Median(s: seq<real>): real
    requires s != []
  {
    SortPermutes(s, AtMost);
    var sorted, n := Sort(s, AtMost), |s|;
    if n % 2 == 1 then sorted[n / 2] else (sorted[n / 2 - 1] + sorted[n / 2]) / 2.0
  }

  function InBand(lo: real, hi: real): real -> int { (x: real) => if lo <= x <= hi then 1 else 0 }

  /** How many of the values lie in [lo, hi]. */
  function CountIn(s: seq<real>, lo: real, hi: real): int { SumInt(s, InBand(lo, hi)) }

  lemma {:induction false} CountAtMost(s: seq<real>, lo: real, hi: real)
    ensures CountIn(s, lo, hi) <= |s|
  {
    if s != [] { CountAtMost(s[..|s| - 1], lo, hi); }
  }

  lemma {:induction false} CountNone(s: seq<real>, lo: real, hi: real)
    requires forall i :: 0 <= i < |s| ==> !(lo <= s[i] <= hi)
    ensures CountIn(s, lo, hi) == 0
  {
    if s != [] { CountNone(s[..|s| - 1], lo, hi); }
  }

  /** A value below the band leaves at most the later ones inside it. */
  lemma BelowBand(sorted: seq<real>, lo: real, hi: real, k: nat)
    requires Ordered(sorted, AtMost) && k < |sorted| && sorted[k] < lo
    ensures CountIn(sorted, lo, hi) <= |sorted| - k - 1
  {
    var low, high := sorted[..k + 1], sorted[k + 1..];
    assert forall i :: 0 <= i < k ==> AtMost(sorted[i], sorted[k]);
    assert sorted == low + high;
    SumIntJoin(low, high, InBand(lo, hi));
    CountNone(low, lo, hi);
    CountAtMost(high, lo, hi);
  }

  lemma AboveBand(sorted: seq<real>, lo: real, hi: real, k: nat)
    requires Ordered(sorted, AtMost) && k < |sorted| && sorted[k] > hi
    ensures CountIn(sorted, lo, hi) <= k
  {
    var low, high := sorted[..k], sorted[k..];
    assert forall i :: k < i < |sorted| ==> AtMost(sorted[k], sorted[i]);
    assert sorted == low + high;
    SumIntJoin(low, high, InBand(lo, hi));
    CountNone(high, lo, hi);
    CountAtMost(low, lo, hi);
  }

  /** With a strict majority inside the band, the middle values are inside it. */
  lemma MiddleInBand(sorted: seq<real>, lo: real, hi: real, k: nat)
    requires Ordered(sorted, AtMost) && k < |sorted| && 2 * CountIn(sorted, lo, hi) > |sorted|
    requires 2 * (|sorted| - k - 1) <= |sorted| && 2 * k <= |sorted|
    ensures lo <= sorted[k] <= hi
  {
    hide *;
    if sorted[k] < lo { BelowBand(sorted, lo, hi, k); }
    if sorted[k] > hi { AboveBand(sorted, lo, hi, k); }
  }

  lemma AtMostOrders()
    ensures TotalPreorder(AtMost)
  {
  }

  /** A median lies wherever a strict majority of the values lies. */
  lemma MajorityMedian(s: seq<real>, lo: real, hi: real)
    requires 2 * CountIn(s, lo, hi) > |s|
    ensures s != [] && lo <= Median(s) <= hi
  {
    hide Sort, Ordered, SumInt, InBand, TotalPreorder;
    CountAtMost(s, lo, hi);
    SortPermutes(s, AtMost);
    AtMostOrders();
    SortOrders(s, AtMost);
    var sorted, n := Sort(s, AtMost), |s|;
    SumIntPermutes(s, sorted, InBand(lo, hi));
    MiddleInBand(sorted, lo, hi, n / 2);
    if n % 2 == 0 {
      MiddleInBand(sorted, lo, hi, n / 2 - 1);
    }
  }

  // ---------------------------------------------------------------- put-call parity

  /** One entry of the `pairs` dictionary. */
  datatype Pair = Pair(expiration: string, strike: real, call: Option<ChainRow>, put: Option<ChainRow>)

  function Fill(p: Pair, r: ChainRow): Pair {
    if r.side == Call then p.(call := Some(r)) else p.(put := Some(r))
  }

  function PutRow(pairs: seq<Pair>, r: ChainRow): seq<Pair> {
    if pairs == [] then [Fill(Pair(r.expiration, r.strike, None, None), r)]
    else
      var n := |pairs| - 1;
      if pairs[n].expiration == r.expiration && pairs[n].strike == r.strike then pairs[n := Fill(pairs[n], r)]
      else PutRow(pairs[..n], r) + [pairs[n]]
  }

  /** The dictionary after all rows; a later row of the same contract replaces
      the earlier one. */
  function Pairs(rows: seq<ChainRow>): seq<Pair> {
    if rows == [] then [] else PutRow(Pairs(rows[..|rows| - 1]), rows[|rows| - 1])
  }

  function LastRow(rows: seq<ChainRow>, side: Side, expiration: string, strike: real): Option<ChainRow> {
    if rows == [] then None
    else
      var r := rows[|rows| - 1];
      if r.side == side && r.expiration == expiration && r.strike == strike then Some(r)
      else LastRow(rows[..|rows| - 1], side, expiration, strike)
  }

  function KeyOf(p: Pair): (string, real) { (p.expiration, p.strike) }

  ghost predicate PairsExact(pairs: seq<Pair>, rows: seq<ChainRow>) {
    && Distinct(pairs, KeyOf)
    && (forall p :: p in pairs ==>
          p.call == LastRow(rows, Call, p.expiration, p.strike) && p.put == LastRow(rows, Put, p.expiration, p.strike))
    && (forall r :: r in rows ==> HasKey(pairs, (r.expiration, r.strike)))
  }

  ghost predicate HasKey(pairs: seq<Pair>, key: (string, real)) {
    exists i :: 0 <= i < |pairs| && KeyOf(pairs[i]) == key
  }

  lemma {:induction false} PutRowEntries(pairs: seq<Pair>, r: ChainRow)
    requires Distinct(pairs, KeyOf)
    ensures Distinct(PutRow(pairs, r), KeyOf)
    ensures forall p :: p in PutRow(pairs, r) ==>
              if KeyOf(p) != (r.expiration, r.strike) then p in pairs
              else (exists q :: q in pairs && KeyOf(q) == KeyOf(p) && p == Fill(q, r))
                   || (!HasKey(pairs, KeyOf(p)) && p == Fill(Pair(r.expiration, r.strike, None, None), r))
    ensures forall key :: HasKey(PutRow(pairs, r), key) <==> HasKey(pairs, key) || key == (r.expiration, r.strike)
  {
    if pairs == [] {
      assert KeyOf(PutRow(pairs, r)[0]) == (r.expiration, r.strike);
    } else {
      var n := |pairs| - 1;
      if KeyOf(pairs[n]) == (r.expiration, r.strike) {
        PutLast(pairs, r);
      } else {
        PutRowEntries(pairs[..n], r);
        PutFront(pairs[..n], pairs[n], r, PutRow(pairs[..n], r));
        assert pairs == pairs[..n] + [pairs[n]];
      }
    }
  }

  lemma PutLast(pairs: seq<Pair>, r: ChainRow)
    requires pairs != [] && Distinct(pairs, KeyOf) && KeyOf(pairs[|pairs| - 1]) == (r.expiration, r.strike)
    ensures var more := pairs[|pairs| - 1 := Fill(pairs[|pairs| - 1], r)];
            && Distinct(more, KeyOf)
            && (forall p :: p in more ==>
                  if KeyOf(p) != (r.expiration, r.strike) then p in pairs
                  else exists q :: q in pairs && KeyOf(q) == KeyOf(p) && p == Fill(q, r))
            && (forall key :: HasKey(more, key) <==> HasKey(pairs, key))
  {
    var n := |pairs| - 1;
    var more := pairs[n := Fill(pairs[n], r)];
    assert forall i :: 0 <= i <= n ==> KeyOf(more[i]) == KeyOf(pairs[i]);
    forall p | p in more && KeyOf(p) == (r.expiration, r.strike)
      ensures exists q :: q in pairs && KeyOf(q) == KeyOf(p) && p == Fill(q, r)
    {
      assert pairs[n] in pairs;
    }
    forall key ensures HasKey(more, key) <==> HasKey(pairs, key) {
      if i :| 0 <= i < |pairs| && KeyOf(pairs[i]) == key { assert KeyOf(more[i]) == key; }
    }
  }

  lemma PutFront(rest: seq<Pair>, last: Pair, r: ChainRow, front: seq<Pair>)
    requires Distinct(rest + [last], KeyOf) && KeyOf(last) != (r.expiration, r.strike)
    requires Distinct(front, KeyOf)
    requires forall key :: HasKey(front, key) <==> HasKey(rest, key) || key == (r.expiration, r.strike)
    ensures Distinct(front + [last], KeyOf)
    ensures forall key :: HasKey(front + [last], key) <==> HasKey(rest + [last], key) || key == (r.expiration, r.strike)
    ensures forall key :: HasKey(rest + [last], key) <==> HasKey(rest, key) || key == KeyOf(last)
  {
    HasKeyAppend(rest, last);
    HasKeyAppend(front, last);
    assert !HasKey(rest, KeyOf(last)) by {
      var all := rest + [last];
      assert forall i :: 0 <= i < |rest| ==> all[i] == rest[i] && KeyOf(all[i]) != KeyOf(all[|rest|]);
    }
    assert !HasKey(front, KeyOf(last));
  }

  lemma HasKeyAppend(pairs: seq<Pair>, p: Pair)
    ensures forall key :: HasKey(pairs + [p], key) <==> HasKey(pairs, key) || key == KeyOf(p)
  {
    forall key ensures HasKey(pairs + [p], key) <==> HasKey(pairs, key) || key == KeyOf(p) {
      assert KeyOf((pairs + [p])[|pairs|]) == KeyOf(p);
      if i :| 0 <= i < |pairs| && KeyOf(pairs[i]) == key { assert KeyOf((pairs + [p])[i]) == key; }
    }
  }

  lemma {:induction false} NoKeyNoRow(rows: seq<ChainRow>, side: Side, expiration: string, strike: real)
    requires forall r :: r in rows ==> (r.expiration, r.strike) != (expiration, strike)
    ensures LastRow(rows, side, expiration, strike) == None
  {
    if rows != [] { NoKeyNoRow(rows[..|rows| - 1], side, expiration, strike); }
  }

  /** The pairs are exactly the chain's (expiration, strike) keys, once each, with
      the last call and the last put quoted there. */
  lemma {:induction false} PairsAreExact(rows: seq<ChainRow>)
    ensures PairsExact(Pairs(rows), rows)
  {
    if rows != [] {
      var n := |rows| - 1;
      PairsAreExact(rows[..n]);
      PairsStep(Pairs(rows[..n]), rows[..n], rows[n]);
      assert rows == rows[..n] + [rows[n]];
    }
  }

  lemma PairsStep(pairs: seq<Pair>, rows: seq<ChainRow>, r: ChainRow)
    requires PairsExact(pairs, rows)
    ensures PairsExact(PutRow(pairs, r), rows + [r])
  {
    PutRowEntries(pairs, r);
    assert (rows + [r])[..|rows|] == rows;
    forall p | p in PutRow(pairs, r)
      ensures p.call == LastRow(rows + [r], Call, p.expiration, p.strike)
      ensures p.put == LastRow(rows + [r], Put, p.expiration, p.strike)
    {
      if KeyOf(p) == (r.expiration, r.strike) && !HasKey(pairs, KeyOf(p)) {
        assert forall x :: x in rows ==> HasKey(pairs, (x.expiration, x.strike));
        NoKeyNoRow(rows, Call, p.expiration, p.strike);
        NoKeyNoRow(rows, Put, p.expiration, p.strike);
      }
    }
  }

  function Mid(r: ChainRow): Option<real> {
    if r.bid.None? || r.ask.None? then None else Some((r.bid.value + r.ask.value) / 2.0)
  }

  /** A pair both sides of which can be priced. */
  predicate Priced(p: Pair) {
    p.call.Some? && p.put.Some? && Mid(p.call.value).Some? && Mid(p.put.value).Some?
  }

  /** Whether the pair is used for the estimate. */
  predicate DeepItm(p: Pair, reference: real, fraction: real) { Priced(p) && p.strike <= reference * fraction }

  /** The spot a pair implies: call minus put plus strike. */
  function Estimate(p: Pair): real
    requires Priced(p)
  {
    Mid(p.call.value).value - Mid(p.put.value).value + p.strike
  }

  function Estimates(pairs: seq<Pair>, reference: real, fraction: real): seq<real> {
    if pairs == [] then []
    else
      var front := Estimates(pairs[..|pairs| - 1], reference, fraction);
      var p := pairs[|pairs| - 1];
      if DeepItm(p, reference, fraction) then front + [Estimate(p)] else front
  }

  function DistinctStrikes(rows: seq<ChainRow>): seq<real> {
    if rows == [] then []
    else
      var front := DistinctStrikes(rows[..|rows| - 1]);
      var k := rows[|rows| - 1].strike;
      if k in front then front else front + [k]
  }

  /** The reference the deep-ITM cut is taken from; None or zero stops the estimate. */
  function Reference(rows: seq<ChainRow>, given: Option<real>): Option<real> {
    if given.Some? then given
    else if DistinctStrikes(rows) == [] then None
    else Some(Median(DistinctStrikes(rows)))
  }

  /** The spot `implied_spot_from_parity` recovers, and from how many pairs. */
  function ImpliedSpot(rows: seq<ChainRow>, fraction: real, given: Option<real>): (Option<real>, nat) {
    var reference := Reference(rows, given);
    if reference.None? || reference.value == 0.0 then (None, 0)
    else
      var estimates := Estimates(Pairs(rows), reference.value, fraction);
      if |estimates| < 3 then (None, |estimates|) else (Some(Median(estimates)), |estimates|)
  }

  function Identity(): real -> real { (x: real) => x }

  function Mean(s: seq<real>): real
    requires s != []
  {
    SumReal(s, Identity()) / |s| as real
  }

  function SquareFrom(mean: real): real -> real { (x: real) => (x - mean) * (x - mean) }

  /** The square of `statistics.pstdev`. */
  function Variance(s: seq<real>): real
    requires s != []
  {
    SumReal(s, SquareFrom(Mean(s))) / |s| as real
  }

  function ImpliedVariance(rows: seq<ChainRow>, fraction: real, given: Option<real>): Option<real> {
    if ImpliedSpot(rows, fraction, given).0.None? then None
    else Some(Variance(Estimates(Pairs(rows), Reference(rows, given).value, fraction)))
  }

  /** `variance` is the square of the standard deviation the source returns. */
  method ImpliedSpotFromParity(rows: seq<ChainRow>, fraction: real, given: Option<real>)
    returns (implied: Option<real>, n: nat, variance: Option<real>)
    ensures (implied, n) == ImpliedSpot(rows, fraction, given)
    ensures variance == ImpliedVariance(rows, fraction, given)
  {
    var pairs: seq<Pair> := [];
    for i := 0 to |rows|
      invariant pairs == Pairs(rows[..i])
    {
      assert rows[..i + 1][..i] == rows[..i];
      pairs := PutRow(pairs, rows[i]);
    }
    assert rows[..|rows|] == rows;
    var reference := Reference(rows, given);
    if reference.None? || reference.value == 0.0 {
      return None, 0, None;
    }
    var estimates: seq<real> := [];
    for i := 0 to |pairs|
      invariant estimates == Estimates(pairs[..i], reference.value, fraction)
    {
      assert pairs[..i + 1][..i] == pairs[..i];
      if DeepItm(pairs[i], reference.value, fraction) {
        estimates := estimates + [Estimate(pairs[i])];
      }
    }
    assert pairs[..|pairs|] == pairs;
    if |estimates| < 3 {
      return None, |estimates|, None;
    }
    return Some(Median(estimates)), |estimates|, Some(Variance(estimates));
  }

  lemma {:induction false} ParityEstimates(pairs: seq<Pair>, reference: real, fraction: real, spot: real)
    requires forall p :: p in pairs && DeepItm(p, reference, fraction) ==>
               Mid(p.call.value).value - Mid(p.put.value).value == spot - p.strike
    ensures CountIn(Estimates(pairs, reference, fraction), spot, spot) == |Estimates(pairs, reference, fraction)|
    ensures forall x :: x in Estimates(pairs, reference, fraction) ==> x == spot
  {
    if pairs != [] {
      var n := |pairs| - 1;
      assert pairs[n] in pairs;
      ParityEstimates(pairs[..n], reference, fraction, spot);
      if DeepItm(pairs[n], reference, fraction) {
        SumIntAppend(Estimates(pairs[..n], reference, fraction), Estimate(pairs[n]), InBand(spot, spot));
      }
    }
  }

  /** Estimates that all agree have no spread. */
  lemma NoSpread(s: seq<real>, x: real)
    requires s != [] && forall y :: y in s ==> y == x
    ensures Mean(s) == x && Variance(s) == 0.0
  {
    assert forall i :: 0 <= i < |s| ==> s[i] in s;
    var n := |s| as real;
    SumOfEqual(s, x, Identity());
    SumOfEqual(s, x, SquareFrom(x));
    assert Identity()(x) == x && SquareFrom(x)(x) == 0.0;
    assert SumReal(s, Identity()) == n * x && SumReal(s, SquareFrom(x)) == n * 0.0;
    hide SumReal, Identity, SquareFrom;
    Share(x, n);
    Share(0.0, n);
    assert Mean(s) == x;
  }

  lemma Share(x: real, n: real)
    requires n > 0.0
    ensures n * x / n == x
  {
    var q := n * x / n;
    assert q * n == n * x;
    assert (q - x) * n == 0.0;
  }

  lemma {:induction false} SumOfEqual(s: seq<real>, x: real, f: real -> real)
    requires forall i :: 0 <= i < |s| ==> s[i] == x
    ensures SumReal(s, f) == |s| as real * f(x)
  {
    if s != [] {
      var n := |s| - 1;
      SumOfEqual(s[..n], x, f);
      OneMore(n, f(x));
    }
  }

  lemma OneMore(n: nat, x: real)
    ensures (n + 1) as real * x == n as real * x + x
  {
    assert (n + 1) as real == n as real + 1.0;
  }

  /** There is a reference price and at least three usable pairs. */
  predicate Recoverable(rows: seq<ChainRow>, fraction: real, given: Option<real>) {
    && Reference(rows, given).Some? && Reference(rows, given).value != 0.0
    && |Estimates(Pairs(rows), Reference(rows, given).value, fraction)| >= 3
  }

  lemma RecoveredWhen(rows: seq<ChainRow>, fraction: real, given: Option<real>)
    ensures ImpliedSpot(rows, fraction, given).0.Some? <==> Recoverable(rows, fraction, given)
  {
    hide Estimates, Pairs, Median, Reference;
  }

  /** Where every usable pair satisfies C - P = S - K, and there are three, the
      recovered spot is exactly S. */
  lemma ExactParity(rows: seq<ChainRow>, fraction: real, given: Option<real>, spot: real)
    requires Recoverable(rows, fraction, given)
    requires forall p :: p in Pairs(rows) && DeepItm(p, Reference(rows, given).value, fraction) ==>
               Mid(p.call.value).value - Mid(p.put.value).value == spot - p.strike
    ensures ImpliedSpot(rows, fraction, given).0 == Some(spot)
    ensures ImpliedVariance(rows, fraction, given) == Some(0.0)
  {
    var reference := Reference(rows, given).value;
    ParityEstimates(Pairs(rows), reference, fraction, spot);
    MajorityMedian(Estimates(Pairs(rows), reference, fraction), spot, spot);
    NoSpread(Estimates(Pairs(rows), reference, fraction), spot);
  }

  /** Where a strict majority of the pairs lies within e of S, so does the
      recovered spot, however wrong the others are. */
  lemma RobustParity(rows: seq<ChainRow>, fraction: real, given: Option<real>, spot: real, e: real)
    requires Recoverable(rows, fraction, given)
    requires var estimates := Estimates(Pairs(rows), Reference(rows, given).value, fraction);
             2 * CountIn(estimates, spot - e, spot + e) > |estimates|
    ensures ImpliedSpot(rows, fraction, given).0.Some?
    ensures spot - e <= ImpliedSpot(rows, fraction, given).0.value <= spot + e
  {
    MajorityMedian(Estimates(Pairs(rows), Reference(rows, given).value, fraction), spot - e, spot + e);
  }

  // ---------------------------------------------------------------- the guard

  datatype SpotCheck = SpotCheck(printed: Option<real>, implied: Option<real>, pairs: nat, tolerance: real) {
    function DivergencePct(): Option<real> {
      if printed.None? || implied.None? || implied.value == 0.0 then None
      else Some((printed.value - implied.value) / implied.value)
    }

    /** False also when no estimate could be made. */
    predicate Trustworthy() {
      DivergencePct().Some? && Abs(DivergencePct().value) <= tolerance
    }
  }

  /** `check_spot_consistency`: the printed spot is also the reference. */
  function Check(rows: seq<ChainRow>, printed: Option<real>, tolerance: real, fraction: real): SpotCheck {
    var (implied, n) := ImpliedSpot(rows, fraction, printed);
    SpotCheck(printed, implied, n, tolerance)
  }

  predicate Usable(r: ChainRow) { r.dte >= 1 && r.iv.Some? && r.delta.Some? }

  function Filter(rows: seq<ChainRow>, p: ChainRow -> bool): seq<ChainRow> {
    if rows == [] then []
    else
      var front := Filter(rows[..|rows| - 1], p);
      if p(rows[|rows| - 1]) then front + [rows[|rows| - 1]] else front
  }

  lemma {:induction false} Filtered(rows: seq<ChainRow>, p: ChainRow -> bool)
    ensures forall r :: r in Filter(rows, p) <==> r in rows && p(r)
  {
    if rows != [] {
      Filtered(rows[..|rows| - 1], p);
      assert rows == rows[..|rows| - 1] + [rows[|rows| - 1]];
    }
  }

  /** `min(rows, key=...)`: the first of the least. */
  function MinBy(rows: seq<ChainRow>, key: ChainRow -> real): ChainRow
    requires rows != []
  {
    var n := |rows| - 1;
    if n == 0 then rows[0]
    else var m := MinBy(rows[..n], key); if key(rows[n]) < key(m) then rows[n] else m
  }

  lemma {:induction false} MinByLeast(rows: seq<ChainRow>, key: ChainRow -> real)
    requires rows != []
    ensures MinBy(rows, key) in rows && forall r :: r in rows ==> key(MinBy(rows, key)) <= key(r)
  {
    var n := |rows| - 1;
    assert rows == rows[..n] + [rows[n]];
    if n > 0 { MinByLeast(rows[..n], key); }
  }

  function DteKey(r: ChainRow): real { r.dte as real }

  function DeltaGap(target: real): ChainRow -> real {
    (r: ChainRow) => Abs((if r.delta.Some? then Abs(r.delta.value) else 0.0) - target)
  }

  function OtmPut(dte: int, spot: real): ChainRow -> bool {
    (r: ChainRow) => Usable(r) && r.dte == dte && r.side == Put && r.strike <= spot
  }

  function OtmCall(dte: int, spot: real): ChainRow -> bool {
    (r: ChainRow) => Usable(r) && r.dte == dte && r.side == Call && r.strike >= spot
  }

  datatype RiskReversal = RiskReversal(dte: int, put: ChainRow, call: ChainRow)

  /** `risk_reversal`: refuses unless the guard holds. */
  function Reversal(rows: seq<ChainRow>, check: SpotCheck, target: real): Option<RiskReversal> {
    if check.printed.None? || check.printed.value == 0.0 || !check.Trustworthy() then None
    else
      var usable := Filter(rows, Usable);
      if usable == [] then None
      else
        var spot, front := check.printed.value, MinBy(usable, DteKey).dte;
        var puts, calls := Filter(rows, OtmPut(front, spot)), Filter(rows, OtmCall(front, spot));
        if puts == [] || calls == [] then None
        else Some(RiskReversal(front, MinBy(puts, DeltaGap(target)), MinBy(calls, DeltaGap(target))))
  }

  /** The legs: out of the money at the nearest usable expiration, and each the
      closest to the target delta there. */
  lemma ReversalLegs(rows: seq<ChainRow>, check: SpotCheck, target: real)
    requires Reversal(rows, check, target).Some?
    ensures var rr, spot := Reversal(rows, check, target).value, check.printed.value;
            && (forall r :: r in rows && Usable(r) ==> rr.dte <= r.dte)
            && rr.put in rows && OtmPut(rr.dte, spot)(rr.put)
            && rr.call in rows && OtmCall(rr.dte, spot)(rr.call)
            && (forall r :: r in rows && OtmPut(rr.dte, spot)(r) ==> DeltaGap(target)(rr.put) <= DeltaGap(target)(r))
            && (forall r :: r in rows && OtmCall(rr.dte, spot)(r) ==> DeltaGap(target)(rr.call) <= DeltaGap(target)(r))
  {
    var spot := check.printed.value;
    Filtered(rows, Usable);
    MinByLeast(Filter(rows, Usable), DteKey);
    var front := MinBy(Filter(rows, Usable), DteKey).dte;
    Filtered(rows, OtmPut(front, spot));
    Filtered(rows, OtmCall(front, spot));
    MinByLeast(Filter(rows, OtmPut(front, spot)), DeltaGap(target));
    MinByLeast(Filter(rows, OtmCall(front, spot)), DeltaGap(target));
    forall r | r in rows && Usable(r) ensures front <= r.dte {
      assert DteKey(MinBy(Filter(rows, Usable), DteKey)) <= DteKey(r);
    }
  }

  lemma Divergence(printed: real, implied: real, tolerance: real)
    requires implied != 0.0 && Abs((printed - implied) / implied) <= tolerance
    ensures Abs(printed - implied) <= tolerance * Abs(implied)
  {
    var q := (printed - implied) / implied;
    assert q * implied == printed - implied;
    if implied > 0.0 {
      assert Abs(q) * implied <= tolerance * implied;
      assert Abs(q * implied) == Abs(q) * implied;
    } else {
      assert Abs(q) * (-implied) <= tolerance * (-implied);
      assert Abs(q * implied) == Abs(q) * (-implied);
    }
  }

  lemma ReversalTrusted(rows: seq<ChainRow>, check: SpotCheck, target: real)
    requires Reversal(rows, check, target).Some?
    ensures check.printed.Some? && check.implied.Some?
    ensures Abs(check.printed.value - check.implied.value) <= check.tolerance * Abs(check.implied.value)
  {
    hide Filter, MinBy, Abs;
    Divergence(check.printed.value, check.implied.value, check.tolerance);
  }

  lemma Triangle(printed: real, implied: real, spot: real, e: real, tolerance: real)
    requires Abs(printed - implied) <= tolerance * Abs(implied) && spot - e <= implied <= spot + e && tolerance >= 0.0
    ensures Abs(printed - spot) <= e + tolerance * (Abs(spot) + e)
  {
    assert Abs(implied) <= Abs(spot) + e;
    assert tolerance * (Abs(spot) + e - Abs(implied)) >= 0.0;
    assert tolerance * Abs(implied) <= tolerance * (Abs(spot) + e);
    assert Abs(printed - spot) <= Abs(printed - implied) + e;
  }

  /** A risk reversal is produced only if the printed spot is within tolerance of
      the recovered one; so if a strict majority of the pairs lies within e of
      the spot the options were quoted against, the printed spot is near it too. */
  lemma ReversalGuarded(rows: seq<ChainRow>, printed: Option<real>, tolerance: real, fraction: real, target: real,
                        spot: real, e: real)
    requires Reversal(rows, Check(rows, printed, tolerance, fraction), target).Some?
    ensures printed.Some? && ImpliedSpot(rows, fraction, printed).0.Some?
    ensures var implied := ImpliedSpot(rows, fraction, printed).0.value;
            Abs(printed.value - implied) <= tolerance * Abs(implied)
    ensures var estimates := Estimates(Pairs(rows), printed.value, fraction);
            2 * CountIn(estimates, spot - e, spot + e) > |estimates| && tolerance >= 0.0 ==>
            Abs(printed.value - spot) <= e + tolerance * (Abs(spot) + e)
  {
    hide Reversal, ImpliedSpot, Abs, Estimates;
    ReversalTrusted(rows, Check(rows, printed, tolerance, fraction), target);
    RecoveredWhen(rows, fraction, printed);
    var estimates := Estimates(Pairs(rows), printed.value, fraction);
    if 2 * CountIn(estimates, spot - e, spot + e) > |estimates| && tolerance >= 0.0 {
      RobustParity(rows, fraction, printed, spot, e);
      Triangle(printed.value, ImpliedSpot(rows, fraction, printed).0.value, spot, e, tolerance);
    }
  }
}
