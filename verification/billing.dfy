/** Bill generation (`generate_bill`): the client's readings dated within
    the period, both ends included, taken in date order; the bill charges the
    difference between the last and the first at a fixed rate. */
module Billing {
  import opened Dates
  import opened Sorting
  import opened Records

  /** Price of one unit (kWh). */
  const Rate: real := 5.0

  /** The status every new bill gets; no operation ever changes it. */
  const Unpaid: string := "Unpaid"

  datatype BillOutcome = NotEnoughReadings | Billed(bill: Bill)

  /** `client_id=? AND date BETWEEN ? AND ?` */
  predicate InPeriod(r: Reading, clientId: int, start: Date, end: Date) {
    r.clientId == clientId && Between(r.date, start, end)
  }

  /** The rows the `WHERE` clause selects, each as often as it is stored. */
  function Select(readings: seq<Reading>, clientId: int, start: Date, end: Date): (sel: seq<Reading>)
    ensures forall x :: multiset(sel)[x] == if InPeriod(x, clientId, start, end) then multiset(readings)[x] else 0
  {
    if |readings| == 0 then
      []
    else
      assert readings == [readings[0]] + readings[1..];
      var rest := Select(readings[1..], clientId, start, end);
      if InPeriod(readings[0], clientId, start, end) then [readings[0]] + rest else rest
  }

  /** `ORDER BY date ASC` */
  const ByDate := (a: Reading, b: Reading) => Le(a.date, b.date)

  lemma ByDateIsTotalPreorder()
    ensures TotalPreorder(ByDate)
  {
    forall a: Reading, b: Reading
      ensures ByDate(a, b) || ByDate(b, a)
    {
      LeTotal(a.date, b.date);
    }
    forall a: Reading, b: Reading, c: Reading | ByDate(a, b) && ByDate(b, c)
      ensures ByDate(a, c)
    {
      LeTransitive(a.date, b.date, c.date);
    }
  }

  /** The query's result: the selected readings in date order. SQL leaves
      the order of readings with equal dates open; the model keeps them in
      insertion order, and nothing below depends on that choice. */
  function PeriodReadings(readings: seq<Reading>, clientId: int, start: Date, end: Date): (ordered: seq<Reading>)
    ensures multiset(ordered) == multiset(Select(readings, clientId, start, end))
    ensures SortedBy(ordered, ByDate)
  {
    ByDateIsTotalPreorder();
    SortByIsSorted(Select(readings, clientId, start, end), ByDate);
    SortBy(Select(readings, clientId, start, end), ByDate)
  }

  /** `generate_bill`, with `units` and `amount` exact rather than rounded
      to two decimals. */
  function GenerateBill(s: Store, clientId: int, start: Date, end: Date): (r: Transition<BillOutcome>)
    ensures r.outcome.NotEnoughReadings? <==> |Select(s.readings, clientId, start, end)| < 2
    ensures r.outcome.NotEnoughReadings? ==> r.after == s
    ensures r.outcome.Billed? ==>
      && r.after == s.(bills := s.bills + [r.outcome.bill])
      && r.outcome.bill.clientId == clientId
      && r.outcome.bill.startDate == start
      && r.outcome.bill.endDate == end
      && r.outcome.bill.amount == r.outcome.bill.units * Rate
      && r.outcome.bill.status == Unpaid
  {
    var ordered := PeriodReadings(s.readings, clientId, start, end);
    if |ordered| < 2 then
      Transition(NotEnoughReadings, s)
    else
      var units := ordered[|ordered| - 1].value - ordered[0].value;
      var bill := Bill(clientId, start, end, units, units * Rate, Unpaid);
      Transition(Billed(bill), s.(bills := s.bills + [bill]))
  }

  /** `r` is dated no later than any reading of `rs`. */
  ghost predicate Earliest(r: Reading, rs: seq<Reading>) {
    r in rs && forall x :: x in rs ==> Le(r.date, x.date)
  }

  /** `r` is dated no earlier than any reading of `rs`. */
  ghost predicate Latest(r: Reading, rs: seq<Reading>) {
    r in rs && forall x :: x in rs ==> Le(x.date, r.date)
  }

  /** Whatever order ties are put in, a date-ordered permutation of the
      selected readings starts with an earliest one and ends with a latest
      one. */
  lemma {:induction false} OrderedEnds(sel: seq<Reading>, ordered: seq<Reading>)
    requires multiset(ordered) == multiset(sel)
    requires SortedBy(ordered, ByDate)
    requires |ordered| > 0
    ensures Earliest(ordered[0], sel)
    ensures Latest(ordered[|ordered| - 1], sel)
  {
    var n := |ordered|;
    assert ordered[0] in multiset(sel) && ordered[n - 1] in multiset(sel);
    forall x | x in sel
      ensures Le(ordered[0].date, x.date) && Le(x.date, ordered[n - 1].date)
    {
      assert x in multiset(ordered);
      var k :| 0 <= k < n && ordered[k] == x;
      if k > 0 {
        assert ByDate(ordered[0], ordered[k]);
      } else {
        LeReflexive(x.date);
      }
      if k < n - 1 {
        assert ByDate(ordered[k], ordered[n - 1]);
      } else {
        LeReflexive(x.date);
      }
    }
  }

  /** A bill charges the value of a latest reading of the period minus the
      value of an earliest one, both readings being distinct entries of the
      client's readings in the period. Units may be negative: nothing checks
      that readings grow. */
  lemma GenerateBillCharges(s: Store, clientId: int, start: Date, end: Date)
    ensures var r := GenerateBill(s, clientId, start, end);
            var sel := Select(s.readings, clientId, start, end);
            r.outcome.Billed? ==>
              exists first, last ::
                && Earliest(first, sel)
                && Latest(last, sel)
                && (first == last ==> multiset(sel)[first] >= 2)
                && r.outcome.bill.units == last.value - first.value
  {
    var r := GenerateBill(s, clientId, start, end);
    var sel := Select(s.readings, clientId, start, end);
    var ordered := PeriodReadings(s.readings, clientId, start, end);
    if r.outcome.Billed? {
      OrderedEnds(sel, ordered);
      TwoPositionsCountTwice(ordered, 0, |ordered| - 1);
      var first, last := ordered[0], ordered[|ordered| - 1];
      assert r.outcome.bill.units == last.value - first.value;
    }
  }

  /** When one reading alone is the earliest of the period and one alone is
      the latest, the bill does not depend on how ties are ordered: every
      date-ordered permutation of the selection yields the same units. */
  lemma UnitsIndependentOfTieOrder(s: Store, clientId: int, start: Date, end: Date, ordered: seq<Reading>)
    requires var sel := Select(s.readings, clientId, start, end);
             && multiset(ordered) == multiset(sel)
             && SortedBy(ordered, ByDate)
             && |ordered| >= 2
             && (forall x, y :: Earliest(x, sel) && Earliest(y, sel) ==> x == y)
             && (forall x, y :: Latest(x, sel) && Latest(y, sel) ==> x == y)
    ensures GenerateBill(s, clientId, start, end).outcome.bill.units == ordered[|ordered| - 1].value - ordered[0].value
  {
    var sel := Select(s.readings, clientId, start, end);
    var mine := PeriodReadings(s.readings, clientId, start, end);
    SameEnds(sel, ordered, mine);
  }

  /** Two date-ordered permutations of `sel` start and end with the same
      readings when the earliest and the latest reading are unique. */
  lemma SameEnds(sel: seq<Reading>, a: seq<Reading>, b: seq<Reading>)
    requires multiset(a) == multiset(sel) && multiset(b) == multiset(sel)
    requires SortedBy(a, ByDate) && SortedBy(b, ByDate)
    requires |a| > 0
    requires forall x, y :: Earliest(x, sel) && Earliest(y, sel) ==> x == y
    requires forall x, y :: Latest(x, sel) && Latest(y, sel) ==> x == y
    ensures |b| == |a| && b[0] == a[0] && b[|b| - 1] == a[|a| - 1]
  {
    assert |b| == |multiset(b)| == |multiset(a)| == |a|;
    OrderedEnds(sel, a);
    OrderedEnds(sel, b);
  }

  lemma GenerateBillKeepsValid(s: Store, clientId: int, start: Date, end: Date)
    requires Valid(s)
    ensures Valid(GenerateBill(s, clientId, start, end).after)
  {
  }

  /** Two in-period readings of one client, in date order, come back from
      the query as both readings in one order or the other; when their
      dates differ, the earlier comes first. */
  lemma TwoReadingPeriod(r0: Reading, r1: Reading, start: Date, end: Date)
    requires InPeriod(r0, r0.clientId, start, end) && InPeriod(r1, r0.clientId, start, end)
    requires Le(r0.date, r1.date)
    ensures var ordered := PeriodReadings([r0, r1], r0.clientId, start, end);
            ordered == [r0, r1] || ordered == [r1, r0]
    ensures r0.date != r1.date ==> PeriodReadings([r0, r1], r0.clientId, start, end) == [r0, r1]
  {
    var id := r0.clientId;
    assert [r0, r1][1..] == [r1] && [r1][1..] == [];
    assert Select([], id, start, end) == [];
    assert Select([r1], id, start, end) == [r1];
    assert Select([r0, r1], id, start, end) == [r0, r1];
    assert SortBy([], ByDate) == [];
    assert Insert(r1, [], ByDate) == [r1];
    assert SortBy([r1], ByDate) == [r1];
    assert ByDate(r0, r1);
    assert Insert(r0, [r1], ByDate) == [r0, r1];
    assert SortBy([r0, r1], ByDate) == [r0, r1];
  }

  /** A client with exactly two readings, both in the period and in date
      order, is billed one value minus the other: the later minus the
      earlier when the dates differ. With equal dates SQL may return either
      reading first, so either difference is possible. */
  lemma TwoReadingBillCharges(r0: Reading, r1: Reading, start: Date, end: Date)
    requires InPeriod(r0, r0.clientId, start, end) && InPeriod(r1, r0.clientId, start, end)
    requires Le(r0.date, r1.date)
    ensures var s := Store([], [r0, r1], [], 0);
            var r := GenerateBill(s, r0.clientId, start, end);
            var units := r.outcome.bill.units;
            && r.outcome.Billed?
            && r.outcome.bill == Bill(r0.clientId, start, end, units, units * Rate, Unpaid)
            && (units == r1.value - r0.value || units == r0.value - r1.value)
            && (r0.date != r1.date ==> units == r1.value - r0.value)
  {
    TwoReadingPeriod(r0, r1, start, end);
  }

  /** Two readings of one client on distinct dates, the period running from
      the first date to the second, bill the later value minus the earlier. */
  lemma TwoDatedReadingsBill(id: int, d0: Date, d1: Date, v0: real, v1: real)
    requires Le(d0, d1) && d0 != d1
    ensures var s := Store([], [Reading(id, d0, v0), Reading(id, d1, v1)], [], 0);
            GenerateBill(s, id, d0, d1).outcome == Billed(Bill(id, d0, d1, v1 - v0, (v1 - v0) * Rate, Unpaid))
  {
    var r0, r1 := Reading(id, d0, v0), Reading(id, d1, v1);
    assert InPeriod(r0, id, d0, d1) && InPeriod(r1, id, d0, d1) by {
      LeReflexive(d0);
      LeReflexive(d1);
    }
    TwoReadingPeriod(r0, r1, d0, d1);
  }

  /** Readings of 100 and then 135 units in the period give a bill of 35
      units and 175.0 at the fixed rate. */
  lemma TwoReadingBill()
    ensures var s := Store([], [Reading(1, "2024-01-01", 100.0), Reading(1, "2024-02-01", 135.0)], [], 0);
            GenerateBill(s, 1, "2024-01-01", "2024-02-01").outcome
              == Billed(Bill(1, "2024-01-01", "2024-02-01", 35.0, 175.0, Unpaid))
  {
    var d0, d1 := "2024-01-01", "2024-02-01";
    assert Le(d0, d1) && d0 != d1 by {
      assert d0[..6] == d1[..6];
      LeAtFirstDifference(d0, d1, 6);
    }
    TwoDatedReadingsBill(1, d0, d1, 100.0, 135.0);
  }

  /** A meter read lower at the end of the period yields negative units. */
  lemma DecreasingReadingsBillNegative()
    ensures var s := Store([], [Reading(7, "2024-03-01", 90.0), Reading(7, "2024-03-31", 60.0)], [], 0);
            GenerateBill(s, 7, "2024-03-01", "2024-03-31").outcome
              == Billed(Bill(7, "2024-03-01", "2024-03-31", -30.0, -150.0, Unpaid))
  {
    var d0, d1 := "2024-03-01", "2024-03-31";
    assert Le(d0, d1) && d0 != d1 by {
      assert d0[..8] == d1[..8];
      LeAtFirstDifference(d0, d1, 8);
    }
    TwoDatedReadingsBill(7, d0, d1, 90.0, 60.0);
  }
}
