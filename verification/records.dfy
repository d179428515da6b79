/** What the program does with the loaded records (Program.cs): it drops the
    rows with a negative numeric field, stops with exit code 4 when none is
    left, and picks the three records it reports, each by `MaxBy`. */
module Records {
  import opened Wrappers
  import opened Orders

  /** The row filter: quantity, unit price and discount all non-negative. */
  predicate IsValid(o: OrderRecord) {
    o.quantity >= 0 && o.unitPrice >= 0.0 && o.percentageDiscount >= 0.0
  }

  /** `Where(IsValid).ToList()`: the valid records, in their original order. */
  function FilterValid(rs: seq<OrderRecord>): (out: seq<OrderRecord>)
    ensures |out| <= |rs|
    ensures forall o :: o in out <==> o in rs && IsValid(o)
  {
    if rs == [] then []
    else (if IsValid(rs[0]) then [rs[0]] else []) + FilterValid(rs[1..])
  }

  /** The records the filter drops, in their original order. */
  function Rejected(rs: seq<OrderRecord>): (out: seq<OrderRecord>)
    ensures forall o :: o in out <==> o in rs && !IsValid(o)
  {
    if rs == [] then []
    else (if IsValid(rs[0]) then [] else [rs[0]]) + Rejected(rs[1..])
  }

  /** Filtering distributes over concatenation, so the kept records keep
      their relative order. */
  lemma {:induction false} FilterAppend(a: seq<OrderRecord>, b: seq<OrderRecord>)
    ensures FilterValid(a + b) == FilterValid(a) + FilterValid(b)
  {
    if a == [] {
      assert a + b == b;
    } else {
      assert (a + b)[0] == a[0];
      assert (a + b)[1..] == a[1..] + b;
      FilterAppend(a[1..], b);
    }
  }

  /** A list of valid records passes the filter unchanged. */
  lemma {:induction false} FilterKeepsValid(rs: seq<OrderRecord>)
    requires forall i :: 0 <= i < |rs| ==> IsValid(rs[i])
    ensures FilterValid(rs) == rs
  {
    if rs != [] {
      FilterKeepsValid(rs[1..]);
    }
  }

  /** Filtering twice is filtering once. */
  lemma FilterIdempotent(rs: seq<OrderRecord>)
    ensures FilterValid(FilterValid(rs)) == FilterValid(rs)
  {
    var out := FilterValid(rs);
    forall i | 0 <= i < |out| ensures IsValid(out[i]) {
      assert out[i] in out;
    }
    FilterKeepsValid(out);
  }

  /** The kept and the dropped records together are the input: the number
      kept is the number of rows minus the number of invalid rows. */
  lemma {:induction false} FilterPartition(rs: seq<OrderRecord>)
    ensures |FilterValid(rs)| + |Rejected(rs)| == |rs|
    ensures multiset(FilterValid(rs)) + multiset(Rejected(rs)) == multiset(rs)
  {
    if rs != [] {
      FilterPartition(rs[1..]);
      assert rs == [rs[0]] + rs[1..];
    }
  }

  /** `a` is `b` with some elements left out, the rest in the same order. */
  ghost predicate IsSubsequence(a: seq<OrderRecord>, b: seq<OrderRecord>)
    decreases |b|
  {
    a == [] ||
    (b != [] && ((a[0] == b[0] && IsSubsequence(a[1..], b[1..])) || IsSubsequence(a, b[1..])))
  }

  /** The filtered list is a subsequence of the input. */
  lemma {:induction false} FilterIsSubsequence(rs: seq<OrderRecord>)
    ensures IsSubsequence(FilterValid(rs), rs)
  {
    if rs != [] {
      FilterIsSubsequence(rs[1..]);
      if IsValid(rs[0]) {
        assert FilterValid(rs)[1..] == FilterValid(rs[1..]);
      } else {
        assert FilterValid(rs) == FilterValid(rs[1..]);
      }
    }
  }

  /** The three keys the program selects by. */
  datatype Key = ByTotalWithDiscount | ByQuantity | ByDiscountValue

  function KeyValue(k: Key, o: OrderRecord): real {
    match k
    case ByTotalWithDiscount => o.TotalWithDiscount()
    case ByQuantity => o.quantity as real
    case ByDiscountValue => o.DiscountValue()
  }

  /** Index `i` holds a maximal key, and every earlier index a strictly
      smaller one: `i` is the first maximum. */
  predicate IsFirstMax(rs: seq<OrderRecord>, k: Key, i: nat) {
    i < |rs| &&
    (forall j :: 0 <= j < |rs| ==> KeyValue(k, rs[j]) <= KeyValue(k, rs[i])) &&
    (forall j :: 0 <= j < i ==> KeyValue(k, rs[j]) < KeyValue(k, rs[i]))
  }

  /** The scan inside `Enumerable.MaxBy`: the best so far is replaced only by
      a strictly greater key. `best` is the first maximum of `rs[..next]`. */
  function MaxByScan(rs: seq<OrderRecord>, k: Key, best: nat, next: nat): (i: nat)
    requires best < next <= |rs|
    requires IsFirstMax(rs[..next], k, best)
    ensures IsFirstMax(rs, k, i)
    decreases |rs| - next
  {
    if next == |rs| then
      assert rs[..next] == rs;
      best
    else
      var best' := if KeyValue(k, rs[next]) > KeyValue(k, rs[best]) then next else best;
      assert rs[..next + 1] == rs[..next] + [rs[next]];
      MaxByScan(rs, k, best', next + 1)
  }

  /** `MaxBy` on a non-empty list: the index of the first record with the
      largest key. */
  function MaxByIndex(rs: seq<OrderRecord>, k: Key): (i: nat)
    requires rs != []
    ensures IsFirstMax(rs, k, i)
  {
    MaxByScan(rs, k, 0, 1)
  }

  /** The first maximum is unique, so the contract of `MaxByIndex` fixes
      which record is reported when keys tie. */
  lemma FirstMaxIsUnique(rs: seq<OrderRecord>, k: Key, i: nat, j: nat)
    requires IsFirstMax(rs, k, i) && IsFirstMax(rs, k, j)
    ensures i == j
  {
    assert KeyValue(k, rs[j]) <= KeyValue(k, rs[i]) && KeyValue(k, rs[i]) <= KeyValue(k, rs[j]);
  }

  /** Exit codes of the program: 0 normal end, 1 usage error, 2 no data
      file, 3 CSV conversion or unexpected error, 4 no valid record. */
  const ExitOk := 0
  const ExitUsage := 1
  const ExitNotFound := 2
  const ExitCsvError := 3
  const ExitNoData := 4

  /** The outcome of loading: no valid record (the run ends with exit code 4
      before any selection), or the valid records and the three selections. */
  datatype Loaded =
    | NoValidData
    | Ready(records: seq<OrderRecord>, maxTotal: nat, maxQuantity: nat, maxDiscount: nat)

  /** The three selections are the first maxima of the loaded records. */
  predicate Selected(l: Loaded) {
    l.Ready? &&
    IsFirstMax(l.records, ByTotalWithDiscount, l.maxTotal) &&
    IsFirstMax(l.records, ByQuantity, l.maxQuantity) &&
    IsFirstMax(l.records, ByDiscountValue, l.maxDiscount)
  }

  /** Filters the parsed rows and, when any is left, computes the three
      selections once. */
  function Load(parsed: seq<OrderRecord>): (l: Loaded)
    ensures l.NoValidData? <==> forall i :: 0 <= i < |parsed| ==> !IsValid(parsed[i])
    ensures l.Ready? ==> l.records == FilterValid(parsed) && Selected(l)
  {
    var records := FilterValid(parsed);
    if records == [] then
      assert forall i :: 0 <= i < |parsed| ==> parsed[i] in parsed;
      NoValidData
    else
      assert records[0] in parsed;
      Ready(records, MaxByIndex(records, ByTotalWithDiscount),
            MaxByIndex(records, ByQuantity), MaxByIndex(records, ByDiscountValue))
  }

  /** The exit code a load ends the run with: exit code 4 when no valid
      record is left; a `Ready` load does not end the run, it goes on to the
      main menu. */
  function LoadExitCode(l: Loaded): (code: Option<int>)
    ensures code == Some(ExitNoData) <==> l.NoValidData?
    ensures code.None? <==> l.Ready?
  {
    if l.NoValidData? then Some(ExitNoData) else None
  }

  /** Loading ends the run with exit code 4 exactly when the filter keeps no
      row. */
  lemma LoadExitsIffNothingValid(parsed: seq<OrderRecord>)
    ensures LoadExitCode(Load(parsed)) == Some(ExitNoData) <==> FilterValid(parsed) == []
  {
  }

  /** The end-to-end example: two units at 10.00 with no discount, and one
      unit at 50.00 with 50% off. The second has the larger discounted total
      (25.00 against 20.00), the first the larger quantity. */
  lemma TwoOrderExample()
    ensures var a := OrderRecord(1, "Desk", 2, 10.0, 0.0, "Ann");
            var b := OrderRecord(2, "Lamp", 1, 50.0, 50.0, "Bob");
            var l := Load([a, b]);
            a.TotalWithDiscount() == 20.0 && b.TotalWithDiscount() == 25.0 &&
            l.Ready? && l.records == [a, b] && l.maxTotal == 1 && l.maxQuantity == 0
  {
    var a := OrderRecord(1, "Desk", 2, 10.0, 0.0, "Ann");
    var b := OrderRecord(2, "Lamp", 1, 50.0, 50.0, "Bob");
    assert a.DiscountFactor() == 1.0;
    assert b.DiscountFactor() == 0.5;
    RoundKeepsCents(20.0);
    RoundKeepsCents(25.0);
    assert [a, b][1..] == [b];
    assert FilterValid([a, b]) == [a, b];
    var l := Load([a, b]);
    FirstMaxIsUnique([a, b], ByTotalWithDiscount, l.maxTotal, 1);
    FirstMaxIsUnique([a, b], ByQuantity, l.maxQuantity, 0);
  }

  /** Tied keys: of two records with the same discounted total, the one met
      first in the list is selected. */
  lemma TieGoesToFirst(a: OrderRecord, b: OrderRecord)
    requires IsValid(a) && IsValid(b)
    requires a.TotalWithDiscount() == b.TotalWithDiscount()
    ensures Load([a, b]).Ready? && Load([a, b]).maxTotal == 0
  {
    assert [a, b][1..] == [b];
    assert FilterValid([a, b]) == [a, b];
    FirstMaxIsUnique([a, b], ByTotalWithDiscount, Load([a, b]).maxTotal, 0);
  }
}
