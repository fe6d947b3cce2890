/** The OCC option symbol: its printer (scripts/option_flow.py) and its parser
    (data/alpaca_rest.py). An exception is `None`; digits and blanks are ASCII.
  */
module OccSymbols {
  import opened Decimals
  import opened Options

  datatype Side = Call | Put

  function SideName(s: Side): string { if s == Call then "CALL" else "PUT" }

  // ---------------------------------------------------------------- printing

  /** `s.split(c)`. */
  function Split(s: string, c: char): (parts: seq<string>)
    ensures |parts| >= 1
  {
    if s == [] then [""]
    else if s[0] == c then [""] + Split(s[1..], c)
    else var rest := Split(s[1..], c); [[s[0]] + rest[0]] + rest[1..]
  }

  function Upper(c: char): char {
    if 'a' <= c <= 'z' then (c as int - 'a' as int + 'A' as int) as char else c
  }

  /** Python's `round`: to the nearest integer, halves to the even one. */
  function Round(x: real): int {
    var f := x.Floor;
    var d := x - f as real;
    if d < 0.5 then f else if d > 0.5 then f + 1 else if f % 2 == 0 then f else f + 1
  }

  /** The format `08d`. */
  function Format08(n: int): string {
    if n < 0 then ['-'] + (if -n < Pow10(7) then Pad(-n, 7) else Show(-n))
    else if n < Pow10(8) then Pad(n, 8)
    else Show(n)
  }

  /** `occ`. */
  function Occ(root: string, expiration: string, putCall: string, strike: real): Option<string> {
    var parts := Split(expiration, '-');
    if |parts| != 3 || putCall == [] then None
    else
      var year := if |parts[0]| < 2 then "" else parts[0][2..];
      Some(root + year + parts[1] + parts[2] + [Upper(putCall[0])] + Format08(Round(strike * 1000.0)))
  }

  // ---------------------------------------------------------------- parsing

  predicate IsSpace(c: char) { c in {' ', '\t', '\n', '\r'} || c as int in {11, 12, 28, 29, 30, 31} }

  function StripLeft(s: string): string { if s != [] && IsSpace(s[0]) then StripLeft(s[1..]) else s }

  function StripRight(s: string): string {
    if s != [] && IsSpace(s[|s| - 1]) then StripRight(s[..|s| - 1]) else s
  }

  /** How many characters precede the first digit. */
  function RootLength(s: string): (n: nat)
    ensures n <= |s|
  {
    if s == [] || IsDigit(s[0]) then 0 else 1 + RootLength(s[1..])
  }

  datatype Contract = Contract(root: string, expiration: string, side: Side, strike: real)

  /** What the parser makes of the part that starts with the first digit. */
  function ParseRest(root: string, rest: string): Option<Contract> {
    if |rest| < 15 then None
    else
      var thousandths := PyInt(rest[7..15]);
      if thousandths.None? then None
      else
        Some(Contract(root, "20" + rest[0..2] + "-" + rest[2..4] + "-" + rest[4..6],
                      if Upper(rest[6]) == 'C' then Call else Put,
                      thousandths.value as real / 1000.0))
  }

  /** `parse_occ_symbol`. */
  function Parse(symbol: string): Option<Contract> {
    var body := StripRight(StripLeft(symbol));
    ParseRest(body[..RootLength(body)], body[RootLength(body)..])
  }

  method ParseOccSymbol(symbol: string) returns (c: Option<Contract>)
    ensures c == Parse(symbol)
  {
    var body := StripRight(StripLeft(symbol));
    var i := 0;
    while i < |body| && !IsDigit(body[i])
      invariant i <= |body| && i + RootLength(body[i..]) == RootLength(body)
    {
      assert body[i..][1..] == body[i + 1..];
      i := i + 1;
    }
    var root, rest := body[..i], body[i..];
    if |rest| < 15 {
      return None;
    }
    var yy, mm, dd := rest[0..2], rest[2..4], rest[4..6];
    var side := if Upper(rest[6]) == 'C' then Call else Put;
    var thousandths := PyInt(rest[7..15]);
    if thousandths.None? {
      return None;
    }
    return Some(Contract(root, "20" + yy + "-" + mm + "-" + dd, side, thousandths.value as real / 1000.0));
  }

  // ---------------------------------------------------------------- round trip

  /** What printer and parser agree on: a root without digits that does not start
      with a blank, a date in 20YY-MM-DD form, and a whole number of thousandths below
      one hundred thousand. */
  ghost predicate Printable(c: Contract, yy: string, mm: string, dd: string, thousandths: nat) {
    && (forall i :: 0 <= i < |c.root| ==> !IsDigit(c.root[i]))
    && (c.root != [] ==> !IsSpace(c.root[0]))
    && |yy| == |mm| == |dd| == 2 && AllDigits(yy) && AllDigits(mm) && AllDigits(dd)
    && c.expiration == "20" + yy + "-" + mm + "-" + dd
    && thousandths < 100_000_000 && c.strike == thousandths as real / 1000.0
  }

  lemma {:induction false} SplitDash(a: string, b: string)
    requires AllDigits(a)
    ensures Split(a + "-" + b, '-') == [a] + Split(b, '-')
  {
    var s := a + "-" + b;
    if a == [] {
      assert s[0] == '-' && s[1..] == b;
    } else {
      assert s[0] == a[0] && s[1..] == a[1..] + "-" + b;
      assert IsDigit(a[0]);
      SplitDash(a[1..], b);
      assert [a[0]] + a[1..] == a;
    }
  }

  lemma {:induction false} SplitNone(a: string)
    requires AllDigits(a)
    ensures Split(a, '-') == [a]
  {
    if a != [] {
      assert IsDigit(a[0]);
      SplitNone(a[1..]);
      assert [a[0]] + a[1..] == a;
    }
  }

  lemma SplitDate(yy: string, mm: string, dd: string)
    requires AllDigits(yy) && AllDigits(mm) && AllDigits(dd)
    ensures Split("20" + yy + "-" + mm + "-" + dd, '-') == ["20" + yy, mm, dd]
  {
    assert "20" + yy + "-" + mm + "-" + dd == ("20" + yy) + "-" + (mm + "-" + dd);
    SplitDash("20" + yy, mm + "-" + dd);
    SplitDash(mm, dd);
    SplitNone(dd);
  }

  lemma {:induction false} RootFound(root: string, rest: string)
    requires forall i :: 0 <= i < |root| ==> !IsDigit(root[i])
    requires rest != [] && IsDigit(rest[0])
    ensures RootLength(root + rest) == |root|
  {
    if root != [] {
      assert (root + rest)[1..] == root[1..] + rest;
      RootFound(root[1..], rest);
    } else {
      assert root + rest == rest;
    }
  }

  lemma WholeThousandths(thousandths: nat)
    ensures Round(thousandths as real / 1000.0 * 1000.0) == thousandths
  {
    assert thousandths as real / 1000.0 * 1000.0 == thousandths as real;
  }

  /** The printed strike is the nearest whole number of thousandths, an even one
      where two are equally near. */
  lemma RoundNearest(x: real)
    ensures x - 0.5 <= Round(x) as real <= x + 0.5
    ensures Round(x) as real == x - 0.5 || Round(x) as real == x + 0.5 ==> Round(x) % 2 == 0
  {
  }

  /** The symbol of a printable contract. */
  function Symbol(c: Contract, yy: string, mm: string, dd: string, thousandths: nat): string {
    c.root + Tail(c.side, yy, mm, dd, Pad(thousandths, 8))
  }

  lemma Prints(c: Contract, yy: string, mm: string, dd: string, thousandths: nat)
    requires Printable(c, yy, mm, dd, thousandths)
    ensures Occ(c.root, c.expiration, SideName(c.side), c.strike) == Some(Symbol(c, yy, mm, dd, thousandths))
  {
    SplitDate(yy, mm, dd);
    WholeThousandths(thousandths);
    var letter := if c.side == Call then 'C' else 'P';
    assert Upper(SideName(c.side)[0]) == letter;
    assert Format08(thousandths) == Pad(thousandths, 8) by { assert Pow10(8) == 100_000_000; }
    hide Split, Round, Format08, Upper, Pad, AllDigits, IsDigit, IsSpace;
    assert ("20" + yy)[2..] == yy;
    assert c.root + yy + mm + dd + [letter] + Pad(thousandths, 8) ==
           c.root + (yy + mm + dd + [letter] + Pad(thousandths, 8));
  }

  lemma Letters()
    ensures Upper('C') == 'C' && Upper('P') == 'P'
  {
  }

  /** The part of a symbol after the root. */
  function Tail(side: Side, yy: string, mm: string, dd: string, digits: string): string {
    yy + mm + dd + [if side == Call then 'C' else 'P'] + digits
  }

  lemma TailParts(side: Side, yy: string, mm: string, dd: string, digits: string)
    requires |yy| == |mm| == |dd| == 2 && |digits| == 8
    ensures var rest := Tail(side, yy, mm, dd, digits);
            && |rest| == 15
            && rest[0..2] == yy && rest[2..4] == mm && rest[4..6] == dd && rest[7..15] == digits
            && rest[0] == yy[0] && rest[14] == digits[7]
            && rest[6] == if side == Call then 'C' else 'P'
  {
    var letter := [if side == Call then 'C' else 'P'];
    var rest := Tail(side, yy, mm, dd, digits);
    assert rest == yy + (mm + dd + letter + digits);
    assert rest == (yy + mm) + (dd + letter + digits);
    assert rest == (yy + mm + dd) + (letter + digits);
    assert rest == (yy + mm + dd + letter) + digits;
    hide Tail;
    assert rest[0..2] == yy;
    assert (yy + mm)[2..4] == mm && rest[2..4] == mm;
    assert (yy + mm + dd)[4..6] == dd && rest[4..6] == dd;
    assert rest[7..15] == digits;
    assert rest[0] == yy[0] && rest[6] == letter[0] && rest[14] == digits[7];
  }

  lemma FindsRoot(root: string, rest: string)
    requires (forall i :: 0 <= i < |root| ==> !IsDigit(root[i])) && (root != [] ==> !IsSpace(root[0]))
    requires rest != [] && IsDigit(rest[0]) && IsDigit(rest[|rest| - 1])
    ensures var body := StripRight(StripLeft(root + rest));
            body[..RootLength(body)] == root && body[RootLength(body)..] == rest
  {
    var symbol := root + rest;
    assert symbol[0] == if root == [] then rest[0] else root[0];
    assert symbol[|symbol| - 1] == rest[|rest| - 1];
    assert StripRight(StripLeft(symbol)) == symbol;
    RootFound(root, rest);
  }

  lemma ParsesRest(c: Contract, yy: string, mm: string, dd: string, thousandths: nat)
    requires Printable(c, yy, mm, dd, thousandths)
    ensures ParseRest(c.root, Tail(c.side, yy, mm, dd, Pad(thousandths, 8))) == Some(c)
  {
    var digits := Pad(thousandths, 8);
    assert thousandths < Pow10(8) by { assert Pow10(8) == 100_000_000; }
    PadValue(thousandths, 8);
    PyIntDigits(digits);
    Letters();
    hide Tail, Pad, Value, Pow10, Upper, PyInt;
    TailParts(c.side, yy, mm, dd, digits);
  }

  lemma Parses(c: Contract, yy: string, mm: string, dd: string, thousandths: nat)
    requires Printable(c, yy, mm, dd, thousandths)
    ensures Parse(Symbol(c, yy, mm, dd, thousandths)) == Some(c)
  {
    assert thousandths < Pow10(8) by { assert Pow10(8) == 100_000_000; }
    PadValue(thousandths, 8);
    hide Tail, Pad, Value, Pow10, ParseRest, RootLength, StripLeft, StripRight;
    TailParts(c.side, yy, mm, dd, Pad(thousandths, 8));
    FindsRoot(c.root, Tail(c.side, yy, mm, dd, Pad(thousandths, 8)));
    ParsesRest(c, yy, mm, dd, thousandths);
  }

  /** Parsing what the printer wrote gives the contract back. */
  lemma RoundTrip(c: Contract, yy: string, mm: string, dd: string, thousandths: nat)
    requires Printable(c, yy, mm, dd, thousandths)
    ensures Occ(c.root, c.expiration, SideName(c.side), c.strike).Some?
    ensures Parse(Occ(c.root, c.expiration, SideName(c.side), c.strike).value) == Some(c)
  {
    Prints(c, yy, mm, dd, thousandths);
    Parses(c, yy, mm, dd, thousandths);
  }

  ghost predicate Valid(c: Contract) {
    exists yy, mm, dd, thousandths :: Printable(c, yy, mm, dd, thousandths)
  }

  /** Two different contracts never share a symbol. */
  lemma OccInjective(a: Contract, b: Contract)
    requires Valid(a) && Valid(b)
    requires Occ(a.root, a.expiration, SideName(a.side), a.strike) ==
             Occ(b.root, b.expiration, SideName(b.side), b.strike)
    ensures a == b
  {
    hide Occ, Parse;
    var yy, mm, dd, n :| Printable(a, yy, mm, dd, n);
    RoundTrip(a, yy, mm, dd, n);
    var yy', mm', dd', n' :| Printable(b, yy', mm', dd', n');
    RoundTrip(b, yy', mm', dd', n');
  }
}
