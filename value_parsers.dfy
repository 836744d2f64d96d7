/** The special value parsers of ConfigParameters (inpconf.py:81-164): ion lists,
    logical flags and transformation matrices. They are pure functions of the raw string;
    float() is the abstract token test floatOk, and a matrix is kept as its tokens. */
module ValueParsers {
  import opened Results
  import opened Text
  import opened Sorting

  // ---------------------------------------------------------------------------
  // parse_string_ion_list
  // ---------------------------------------------------------------------------

  /** re.match('([0-9]+)\.\.([0-9]+)', s): the two bounds of a range written at the start
      of s. Both digit runs are greedy, so each group is a maximal run of digits. */
  function RangePrefix(s: string): Option<(nat, nat)> {
    var n1 := DigitRunLength(s);
    if n1 == 0 || |s| < n1 + 2 || s[n1] != '.' || s[n1 + 1] != '.' then None
    else
      var rest := s[n1 + 2..];
      var n2 := DigitRunLength(rest);
      if n2 == 0 then None
      else Some((DecimalValue(s[..n1]), DecimalValue(rest[..n2])))
  }

  /** range(lo, hi) */
  function Range(lo: int, hi: int): seq<int> {
    if lo < hi then seq(hi - lo, k => lo + k) else []
  }

  /** np.array(xs) + d */
  function Shift(xs: seq<int>, d: int): seq<int> {
    seq(|xs|, k requires 0 <= k < |xs| => xs[k] + d)
  }

  predicate AllNonNegative(xs: seq<int>) {
    forall i | 0 <= i < |xs| :: xs[i] >= 0
  }

  predicate AllPositive(xs: seq<int>) {
    forall i | 0 <= i < |xs| :: xs[i] >= 1
  }

  /** The ion list before the final check that every index is at least 0. */
  function IonCandidates(s: string): Result<seq<int>> {
    match RangePrefix(s)
    case Some((i1, i2)) =>
      if i1 <= i2 then Ok(Range(i1 - 1, i2)) else Err(RangeOrder(i1, i2))
    case None =>
      match ParseInts(Words(s))
      case None => Err(IonListNotImplemented(s))
      case Some(xs) => Ok(Shift(SortBy(xs, Identity), -1))
  }

  /** parse_string_ion_list: zero-based ion positions, in ascending order. */
  function ParseIonList(s: string): (r: Result<seq<int>>)
    ensures r.Ok? ==> AllNonNegative(r.value) && SortedBy(r.value, Identity)
  {
    match IonCandidates(s)
    case Err(e) => Err(e)
    case Ok(ions) =>
      if AllNonNegative(ions) then
        IonCandidatesSorted(s);
        Ok(ions)
      else Err(IonIndexBelowOne(s))
  }

  lemma IonCandidatesSorted(s: string)
    requires IonCandidates(s).Ok?
    ensures SortedBy(IonCandidates(s).value, Identity)
  {
    if RangePrefix(s).None? {
      var xs := ParseInts(Words(s)).value;
      SortByCorrect(xs, Identity);
    }
  }

  lemma RangePrefixOf(lo: nat, hi: nat, tail: string)
    requires tail == [] || !IsDigit(tail[0])
    ensures RangePrefix(Decimal(lo) + ".." + Decimal(hi) + tail) == Some((lo, hi))
  {
    RangePrefixOfDigits(Decimal(lo), Decimal(hi), tail);
    DecimalRoundTrip(lo);
    DecimalRoundTrip(hi);
  }

  lemma RangePrefixOfDigits(a: string, b: string, tail: string)
    requires a != [] && AllDigits(a) && b != [] && AllDigits(b)
    requires tail == [] || !IsDigit(tail[0])
    ensures RangePrefix(a + ".." + b + tail) == Some((DecimalValue(a), DecimalValue(b)))
  {
    var rest := b + tail;
    var after := ".." + rest;
    var s := a + after;
    ConcatRegroup(a, "..", b, tail);
    DigitsThenNot(a, after);
    DotsThen(a, rest);
    DigitsThenNot(b, tail);
    RangePrefixAt(s, |a|, |b|);
  }

  lemma ConcatRegroup(a: string, b: string, c: string, d: string)
    ensures a + b + c + d == a + (b + (c + d))
  {
  }

  /** A digit run followed by a non-digit. */
  lemma DigitsThenNot(d: string, t: string)
    requires AllDigits(d)
    requires t == [] || !IsDigit(t[0])
    ensures DigitRunLength(d + t) == |d| && (d + t)[..|d|] == d
  {
    DigitRunOfDigits(d, t);
  }

  lemma DotsThen(a: string, rest: string)
    ensures var s := a + (".." + rest);
            |a| + 2 <= |s| && s[|a|] == '.' && s[|a| + 1] == '.' && s[|a| + 2..] == rest
  {
    var s := a + (".." + rest);
    assert s[|a|] == (".." + rest)[0];
    assert s[|a| + 1] == (".." + rest)[1];
  }

  /** RangePrefix once both digit runs are known. */
  lemma RangePrefixAt(s: string, n1: nat, n2: nat)
    requires 0 < n1 && n1 + 2 <= |s| && DigitRunLength(s) == n1
    requires s[n1] == '.' && s[n1 + 1] == '.'
    requires 0 < n2 && DigitRunLength(s[n1 + 2..]) == n2
    ensures RangePrefix(s) == Some((DecimalValue(s[..n1]), DecimalValue(s[n1 + 2..][..n2])))
  {
  }

  /** A range i1..i2 at the start of the string, followed by anything that does not
      continue the second number: it is rejected when i1 > i2 or i1 = 0, and otherwise
      gives the i2 - i1 + 1 consecutive positions i1 - 1, ..., i2 - 1. */
  lemma IonListRange(lo: nat, hi: nat, tail: string)
    requires tail == [] || !IsDigit(tail[0])
    ensures var r := ParseIonList(Decimal(lo) + ".." + Decimal(hi) + tail);
      && (lo > hi ==> r == Err(RangeOrder(lo, hi)))
      && (lo == 0 && lo <= hi ==> r == Err(IonIndexBelowOne(Decimal(lo) + ".." + Decimal(hi) + tail)))
      && (1 <= lo <= hi ==> r.Ok? && |r.value| == hi - lo + 1
                             && forall k | 0 <= k < |r.value| :: r.value[k] == lo - 1 + k)
  {
    RangePrefixOf(lo, hi, tail);
    IonListOfRange(Decimal(lo) + ".." + Decimal(hi) + tail, lo, hi);
  }

  lemma IonListOfRange(s: string, lo: nat, hi: nat)
    requires RangePrefix(s) == Some((lo, hi))
    ensures var r := ParseIonList(s);
      && (lo > hi ==> r == Err(RangeOrder(lo, hi)))
      && (lo == 0 && lo <= hi ==> r == Err(IonIndexBelowOne(s)))
      && (1 <= lo <= hi ==> r.Ok? && |r.value| == hi - lo + 1
                             && forall k | 0 <= k < |r.value| :: r.value[k] == lo - 1 + k)
  {
    if lo <= hi {
      var ions := Range(lo - 1, hi);
      assert IonCandidates(s) == Ok(ions);
      if lo == 0 {
        assert ions[0] == -1;
      }
    }
  }

  /** The index form: every token must be an integer (otherwise the element-name form,
      which is not implemented, is reported); the result is the integers in ascending
      order, each less one, and it is rejected when one of the integers is below 1. */
  lemma IonListIndices(s: string)
    requires RangePrefix(s).None?
    ensures ParseInts(Words(s)).None? ==> ParseIonList(s) == Err(IonListNotImplemented(s))
    ensures ParseInts(Words(s)).Some? ==>
      var xs := ParseInts(Words(s)).value;
      var r := ParseIonList(s);
      && (r.Ok? <==> AllPositive(xs))
      && (r.Err? ==> r.error == IonIndexBelowOne(s))
      && (r.Ok? ==> multiset(Shift(r.value, 1)) == multiset(xs))
  {
    match ParseInts(Words(s))
    case None =>
    case Some(xs) =>
      var ions := Shift(SortBy(xs, Identity), -1);
      assert IonCandidates(s) == Ok(ions);
      IonListOfCandidates(s, ions);
      SortedShifted(xs);
  }

  lemma IonListOfCandidates(s: string, ions: seq<int>)
    requires IonCandidates(s) == Ok(ions)
    ensures ParseIonList(s) == if AllNonNegative(ions) then Ok(ions) else Err(IonIndexBelowOne(s))
  {
  }

  lemma SortedShifted(xs: seq<int>)
    ensures var ions := Shift(SortBy(xs, Identity), -1);
      && (AllNonNegative(ions) <==> AllPositive(xs))
      && multiset(Shift(ions, 1)) == multiset(xs)
  {
    var sorted := SortBy(xs, Identity);
    SortByCorrect(xs, Identity);
    var ions := Shift(sorted, -1);
    assert Shift(ions, 1) == sorted;
    if AllPositive(xs) {
      forall i | 0 <= i < |ions| ensures ions[i] >= 0 {
        assert sorted[i] in multiset(xs);
      }
    } else {
      var i :| 0 <= i < |xs| && xs[i] < 1;
      assert xs[i] in multiset(sorted);
      var j :| 0 <= j < |sorted| && sorted[j] == xs[i];
      assert ions[j] < 0;
    }
  }

  // ---------------------------------------------------------------------------
  // parse_string_logical
  // ---------------------------------------------------------------------------

  /** parse_string_logical: only the first character counts, in either case. */
  function ParseLogical(s: string): (r: Result<bool>)
    ensures r.Ok? <==> |s| > 0 && s[0] in "tTfF"
    ensures r.Ok? ==> (r.value <==> s[0] in "tT")
    ensures |s| == 0 ==> r == Err(EmptyLogical)
    ensures |s| > 0 && r.Err? ==> r == Err(InvalidLogical(s))
  {
    if |s| == 0 then Err(EmptyLogical)
    else
      var c := LowerAscii(s[0]);
      if c == 't' || c == 'f' then Ok(c == 't') else Err(InvalidLogical(s))
  }

  // ---------------------------------------------------------------------------
  // parse_string_tmatrix
  // ---------------------------------------------------------------------------

  /** A transformation matrix by its entries' tokens: real entries, or (real, imaginary)
      token pairs. */
  datatype Matrix = RealMatrix(rows: seq<seq<string>>) | ComplexMatrix(entries: seq<seq<(string, string)>>)

  /** [s.split() for s in par_str.split('\n')] */
  function TokenRows(s: string): (rows: seq<seq<string>>)
    ensures |rows| == |Split(s, '\n')| >= 1
  {
    var lines := Split(s, '\n');
    seq(|lines|, i requires 0 <= i < |lines| => Words(lines[i]))
  }

  predicate AllNumeric(rows: seq<seq<string>>, floatOk: string -> bool) {
    forall i, j | 0 <= i < |rows| && 0 <= j < |rows[i]| :: floatOk(rows[i][j])
  }

  predicate Rectangular(rows: seq<seq<string>>)
    requires |rows| >= 1
  {
    forall i | 0 <= i < |rows| :: |rows[i]| == |rows[0]|
  }

  /** tmp[i, 0::2] + 1j * tmp[i, 1::2] on one row, by tokens. */
  function Pairs(row: seq<string>): seq<(string, string)>
    requires |row| % 2 == 0
  {
    seq(|row| / 2, j requires 0 <= j < |row| / 2 => (row[2 * j], row[2 * j + 1]))
  }

  /** Reads a row of complex entries back as real and imaginary tokens, in turn. */
  function Unpair(ps: seq<(string, string)>): seq<string> {
    if ps == [] then [] else [ps[0].0, ps[0].1] + Unpair(ps[1..])
  }

  lemma {:induction false} UnpairPairs(row: seq<string>)
    requires |row| % 2 == 0
    ensures Unpair(Pairs(row)) == row
    decreases |row|
  {
    if row != [] {
      var rest := row[2..];
      assert Pairs(row)[1..] == Pairs(rest);
      UnpairPairs(rest);
      assert row == [row[0], row[1]] + rest;
    }
  }

  /** parse_string_tmatrix: rows are the lines of the value; all rows need as many
      columns as the first; a complex matrix pairs consecutive columns. */
  function ParseTMatrix(s: string, isReal: bool, floatOk: string -> bool): (r: Result<Matrix>)
    ensures var rows := TokenRows(s);
      && (r.Ok? <==> AllNumeric(rows, floatOk) && Rectangular(rows) && (isReal || |rows[0]| % 2 == 0))
      && (!AllNumeric(rows, floatOk) ==> r == Err(MatrixNotNumeric(s)))
      && (AllNumeric(rows, floatOk) && !Rectangular(rows) ==> r == Err(RaggedMatrix(s)))
      && (AllNumeric(rows, floatOk) && Rectangular(rows) && !isReal && |rows[0]| % 2 != 0 ==>
            r == Err(OddComplexColumns(s)))
      && (r.Ok? && isReal ==> r.value == RealMatrix(rows))
      && (r.Ok? && !isReal ==>
            && r.value.ComplexMatrix?
            && |r.value.entries| == |rows|
            && forall i | 0 <= i < |rows| ::
                 && 2 * |r.value.entries[i]| == |rows[0]|
                 && Unpair(r.value.entries[i]) == rows[i])
  {
    var rows := TokenRows(s);
    var nm := |rows[0]|;
    if !AllNumeric(rows, floatOk) then Err(MatrixNotNumeric(s))
    else if !Rectangular(rows) then Err(RaggedMatrix(s))
    else if isReal then Ok(RealMatrix(rows))
    else if nm % 2 != 0 then Err(OddComplexColumns(s))
    else
      var entries := seq(|rows|, i requires 0 <= i < |rows| => Pairs(rows[i]));
      assert forall i | 0 <= i < |rows| :: Unpair(entries[i]) == rows[i] by {
        forall i | 0 <= i < |rows| ensures Unpair(entries[i]) == rows[i] {
          UnpairPairs(rows[i]);
        }
      }
      Ok(ComplexMatrix(entries))
  }
}
