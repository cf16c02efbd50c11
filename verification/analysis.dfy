/** Consumption analysis (`show_analysis`): bills joined to the clients
    that still exist, then totals, mean and maximum of the units, and the
    five names with the largest summed units. */
module Analysis {
  import opened Sorting
  import opened Records

  /** One row of `SELECT c.name, b.units, b.amount FROM bills b JOIN clients c`. */
  datatype Row = Row(name: string, units: real, amount: real)

  /** One entry of the top-consumers list: a client name and its summed units. */
  datatype NameTotal = NameTotal(name: string, total: real)

  datatype Report = Report(totalUnits: real, totalAmount: real, avgUnits: real, maxUnits: real, top: seq<NameTotal>)

  datatype Option<T> = None | Some(value: T)

  /** `head(5)` */
  const TopCount: nat := 5

  /** The ids of `clients`, in table order. */
  function IdsOf(clients: seq<Client>): seq<int> {
    seq(|clients|, i requires 0 <= i < |clients| => clients[i].id)
  }

  /** The rows one bill contributes to the join: one per client carrying
      its client id, so as many rows as that id occurs among the clients. */
  function JoinBill(b: Bill, clients: seq<Client>): (rows: seq<Row>)
    ensures forall row :: row in rows <==>
              exists c :: c in clients && c.id == b.clientId && row == Row(c.name, b.units, b.amount)
    ensures |rows| == multiset(IdsOf(clients))[b.clientId]
    ensures !HasClient(clients, b.clientId) ==> rows == []
  {
    if |clients| == 0 then
      []
    else
      assert clients == [clients[0]] + clients[1..];
      assert IdsOf(clients) == [clients[0].id] + IdsOf(clients[1..]);
      assert HasClient(clients[1..], b.clientId) ==> HasClient(clients, b.clientId) by {
        assert forall i :: 0 <= i < |clients| - 1 ==> clients[1..][i] == clients[i + 1];
      }
      var rest := JoinBill(b, clients[1..]);
      if clients[0].id == b.clientId then [Row(clients[0].name, b.units, b.amount)] + rest else rest
  }

  /** `bills b JOIN clients c ON b.client_id=c.id`, bill by bill. */
  function Join(bills: seq<Bill>, clients: seq<Client>): (rows: seq<Row>)
    ensures forall row :: row in rows <==>
              exists b, c :: b in bills && c in clients && c.id == b.clientId && row == Row(c.name, b.units, b.amount)
  {
    if |bills| == 0 then
      []
    else
      var n := |bills| - 1;
      assert bills == bills[..n] + [bills[n]];
      Join(bills[..n], clients) + JoinBill(bills[n], clients)
  }

  /** The bills whose client still exists, each as often as it is stored,
      in bill order. */
  function KnownBills(bills: seq<Bill>, clients: seq<Client>): (known: seq<Bill>)
    ensures forall b :: multiset(known)[b] == if HasClient(clients, b.clientId) then multiset(bills)[b] else 0
  {
    if |bills| == 0 then
      []
    else
      var n := |bills| - 1;
      assert bills == bills[..n] + [bills[n]];
      KnownBills(bills[..n], clients) + (if HasClient(clients, bills[n].clientId) then [bills[n]] else [])
  }

  /** `rows` are `known` bills position by position: same units, same
      amount, and the name of a client carrying the bill's client id. */
  ghost predicate RowsOfBills(rows: seq<Row>, known: seq<Bill>, clients: seq<Client>) {
    && |rows| == |known|
    && forall i :: 0 <= i < |rows| ==>
         && rows[i].units == known[i].units
         && rows[i].amount == known[i].amount
         && exists c :: c in clients && c.id == known[i].clientId && rows[i].name == c.name
  }

  /** With increasing client ids the join has one row per bill whose client
      exists: the i-th row carries the units and amount of the i-th such
      bill and the name of its client. The row order is the model's; SQL
      leaves it open, and the sums below do not depend on it. */
  lemma {:induction false} JoinOfIncreasingIds(bills: seq<Bill>, clients: seq<Client>)
    requires forall i, j :: 0 <= i < j < |clients| ==> clients[i].id < clients[j].id
    ensures RowsOfBills(Join(bills, clients), KnownBills(bills, clients), clients)
  {
    if |bills| > 0 {
      var n := |bills| - 1;
      var init, last := bills[..n], bills[n];
      assert bills == init + [last];
      JoinOfIncreasingIds(init, clients);
      var rows0, known0 := Join(init, clients), KnownBills(init, clients);
      var rows1, known1 := JoinBill(last, clients), if HasClient(clients, last.clientId) then [last] else [];
      assert Join(bills, clients) == rows0 + rows1;
      assert KnownBills(bills, clients) == known0 + known1;
      JoinBillOfIncreasingIds(last, clients);
      RowsOfBillsAppend(rows0, known0, rows1, known1, clients);
    }
  }

  /** With increasing client ids one bill joins to one row when its client
      exists and to none otherwise. */
  lemma JoinBillOfIncreasingIds(b: Bill, clients: seq<Client>)
    requires forall i, j :: 0 <= i < j < |clients| ==> clients[i].id < clients[j].id
    ensures RowsOfBills(JoinBill(b, clients), if HasClient(clients, b.clientId) then [b] else [], clients)
  {
    if HasClient(clients, b.clientId) {
      var k :| 0 <= k < |clients| && clients[k].id == b.clientId;
      JoinBillOfClient(b, clients, k);
    } else {
      assert RowsOfBills([], [], clients);
    }
  }

  lemma JoinBillOfClient(b: Bill, clients: seq<Client>, k: int)
    requires forall i, j :: 0 <= i < j < |clients| ==> clients[i].id < clients[j].id
    requires 0 <= k < |clients| && clients[k].id == b.clientId
    ensures RowsOfBills(JoinBill(b, clients), [b], clients)
  {
    JoinBillOfUniqueId(b, clients, k);
    var c := clients[k];
    assert c in clients;
    assert [Row(c.name, b.units, b.amount)][0].name == c.name && [b][0] == b;
  }

  lemma RowsOfBillsAppend(rows: seq<Row>, known: seq<Bill>, rows': seq<Row>, known': seq<Bill>, clients: seq<Client>)
    requires RowsOfBills(rows, known, clients) && RowsOfBills(rows', known', clients)
    ensures RowsOfBills(rows + rows', known + known', clients)
  {
    var r, k := rows + rows', known + known';
    forall i | 0 <= i < |r|
      ensures && r[i].units == k[i].units
              && r[i].amount == k[i].amount
              && exists c :: c in clients && c.id == k[i].clientId && r[i].name == c.name
    {
      if i < |rows| {
        assert r[i] == rows[i] && k[i] == known[i];
      } else {
        assert r[i] == rows'[i - |rows|] && k[i] == known'[i - |rows|];
      }
    }
  }

  /** The join is empty exactly when no bill has an existing client. */
  lemma JoinEmptyIff(bills: seq<Bill>, clients: seq<Client>)
    ensures |Join(bills, clients)| == 0 <==> forall b :: b in bills ==> !HasClient(clients, b.clientId)
  {
    var rows := Join(bills, clients);
    forall b | b in bills && HasClient(clients, b.clientId)
      ensures |rows| > 0
    {
      var k :| 0 <= k < |clients| && clients[k].id == b.clientId;
      var c := clients[k];
      assert c in clients;
      assert Row(c.name, b.units, b.amount) in rows;
    }
    if |rows| > 0 {
      assert rows[0] in rows;
      var b, c :| b in bills && c in clients && c.id == b.clientId && rows[0] == Row(c.name, b.units, b.amount);
      var k :| 0 <= k < |clients| && clients[k] == c;
      assert HasClient(clients, b.clientId);
    }
  }

  /** A bill whose client has been removed drops out of the analysis. */
  lemma OrphanBillIgnored(bills: seq<Bill>, b: Bill, clients: seq<Client>)
    requires !HasClient(clients, b.clientId)
    ensures Join(bills + [b], clients) == Join(bills, clients)
  {
    assert (bills + [b])[..|bills|] == bills;
  }

  /** In a valid database every bill whose client exists yields exactly one
      row, carrying that client's name. */
  lemma {:induction false} JoinBillOfValid(s: Store, b: Bill, k: int)
    requires Valid(s)
    requires 0 <= k < |s.clients| && s.clients[k].id == b.clientId
    ensures JoinBill(b, s.clients) == [Row(s.clients[k].name, b.units, b.amount)]
  {
    JoinBillOfUniqueId(b, s.clients, k);
  }

  lemma {:induction false} JoinBillOfUniqueId(b: Bill, clients: seq<Client>, k: int)
    requires 0 <= k < |clients| && clients[k].id == b.clientId
    requires forall i, j :: 0 <= i < j < |clients| ==> clients[i].id < clients[j].id
    ensures JoinBill(b, clients) == [Row(clients[k].name, b.units, b.amount)]
  {
    var tail := clients[1..];
    assert forall i :: 0 <= i < |tail| ==> tail[i] == clients[i + 1];
    if k == 0 {
      assert !HasClient(tail, b.clientId) by {
        assert forall i :: 0 <= i < |tail| ==> clients[0].id < tail[i].id;
      }
    } else {
      JoinBillOfUniqueId(b, tail, k - 1);
    }
  }

  /** The sum of `f` over `s`, added up from the front. */
  function SumOf<T>(s: seq<T>, f: T -> real): real {
    if |s| == 0 then 0.0 else SumOf(s[..|s| - 1], f) + f(s[|s| - 1])
  }

  function Units(r: Row): real {
    r.units
  }

  function Amount(r: Row): real {
    r.amount
  }

  function BillUnits(b: Bill): real {
    b.units
  }

  function BillAmount(b: Bill): real {
    b.amount
  }

  /** Sums of two sequences agree when they agree position by position. */
  lemma {:induction false} SumOfPointwise<T, U>(a: seq<T>, f: T -> real, b: seq<U>, g: U -> real)
    requires |a| == |b|
    requires forall i :: 0 <= i < |a| ==> f(a[i]) == g(b[i])
    ensures SumOf(a, f) == SumOf(b, g)
  {
    if |a| > 0 {
      var n := |a| - 1;
      assert forall i :: 0 <= i < n ==> a[..n][i] == a[i] && b[..n][i] == b[i];
      SumOfPointwise(a[..n], f, b[..n], g);
    }
  }

  lemma {:induction false} SumOfAppend<T>(a: seq<T>, b: seq<T>, f: T -> real)
    ensures SumOf(a + b, f) == SumOf(a, f) + SumOf(b, f)
    decreases |b|
  {
    if |b| > 0 {
      var n := |b| - 1;
      assert (a + b)[..|a + b| - 1] == a + b[..n];
      SumOfAppend(a, b[..n], f);
    } else {
      assert a + b == a;
    }
  }

  /** Sums do not depend on the order of the rows, which SQL leaves open. */
  lemma {:induction false} SumOfPermutation<T>(a: seq<T>, b: seq<T>, f: T -> real)
    requires multiset(a) == multiset(b)
    ensures SumOf(a, f) == SumOf(b, f)
    decreases |a|
  {
    if |a| > 0 {
      var n := |a| - 1;
      var x := a[n];
      assert x in multiset(b) by {
        assert x in multiset(a);
      }
      var k :| 0 <= k < |b| && b[k] == x;
      var b' := b[..k] + b[k + 1..];
      assert multiset(a[..n]) == multiset(a) - multiset{x} by {
        assert a == a[..n] + [x];
      }
      RemoveAtMultiset(b, k);
      SumOfPermutation(a[..n], b', f);
      SumOfRemoveAt(b, k, f);
    }
  }

  /** Cutting out position `k` removes one occurrence of its element. */
  lemma RemoveAtMultiset<T>(s: seq<T>, k: int)
    requires 0 <= k < |s|
    ensures multiset(s[..k] + s[k + 1..]) == multiset(s) - multiset{s[k]}
  {
    assert s == s[..k] + [s[k]] + s[k + 1..];
  }

  /** Cutting out position `k` takes its term out of the sum. */
  lemma SumOfRemoveAt<T>(s: seq<T>, k: int, f: T -> real)
    requires 0 <= k < |s|
    ensures SumOf(s, f) == SumOf(s[..k] + s[k + 1..], f) + f(s[k])
  {
    var x, front, back := s[k], s[..k], s[k + 1..];
    assert s == (front + [x]) + back;
    SumOfAppend(front + [x], back, f);
    assert SumOf(front + [x], f) == SumOf(front, f) + f(x) by {
      assert (front + [x])[..k] == front;
    }
    SumOfAppend(front, back, f);
  }

  /** `np.max` of the units. */
  function MaxUnits(rows: seq<Row>): (m: real)
    requires |rows| > 0
    ensures forall i :: 0 <= i < |rows| ==> rows[i].units <= m
    ensures exists i :: 0 <= i < |rows| && rows[i].units == m
  {
    if |rows| == 1 then
      rows[0].units
    else
      var rest := MaxUnits(rows[1..]);
      assert forall i :: 1 <= i < |rows| ==> rows[i] == rows[1..][i - 1];
      if rows[0].units >= rest then rows[0].units else rest
  }

  /** The units summed over all rows never exceed the maximum once per row,
      so the mean never exceeds the maximum. */
  lemma {:induction false} SumAtMostCountTimesMax(rows: seq<Row>, m: real)
    requires forall i :: 0 <= i < |rows| ==> rows[i].units <= m
    ensures SumOf(rows, Units) <= (|rows| as real) * m
  {
    if |rows| > 0 {
      var n := |rows| - 1;
      SumAtMostCountTimesMax(rows[..n], m);
    }
  }

  /** The mean of the units never exceeds any bound on them, the maximum
      included. */
  lemma MeanAtMostBound(rows: seq<Row>, m: real)
    requires |rows| > 0
    requires forall i :: 0 <= i < |rows| ==> rows[i].units <= m
    ensures SumOf(rows, Units) / (|rows| as real) <= m
  {
    SumAtMostCountTimesMax(rows, m);
    QuotientBound(SumOf(rows, Units), |rows| as real, m);
  }

  lemma QuotientBound(total: real, count: real, bound: real)
    requires count > 0.0
    requires total <= count * bound
    ensures total / count <= bound
  {
    var mean := total / count;
    assert mean * count == total;
    assert (mean - bound) * count <= 0.0;
  }

  /** The rows of one client name. */
  function RowsNamed(rows: seq<Row>, name: string): (named: seq<Row>)
    ensures forall r :: multiset(named)[r] == if r.name == name then multiset(rows)[r] else 0
    ensures forall r :: r in named <==> r in rows && r.name == name
  {
    if |rows| == 0 then
      []
    else
      var n := |rows| - 1;
      assert rows == rows[..n] + [rows[n]];
      RowsNamed(rows[..n], name) + (if rows[n].name == name then [rows[n]] else [])
  }

  /** The units a name consumed: `groupby("name")["units"].sum()` at that name. */
  function UnitsOf(rows: seq<Row>, name: string): real {
    SumOf(RowsNamed(rows, name), Units)
  }

  predicate HasName(rows: seq<Row>, name: string) {
    exists r :: r in rows && r.name == name
  }

  predicate Listed(g: seq<NameTotal>, name: string) {
    exists e :: e in g && e.name == name
  }

  predicate DistinctNames(g: seq<NameTotal>) {
    forall i, j :: 0 <= i < j < |g| ==> g[i].name != g[j].name
  }

  /** The total listed for `name`, 0 when it is not listed. */
  function Lookup(g: seq<NameTotal>, name: string): real {
    if |g| == 0 then 0.0 else if g[0].name == name then g[0].total else Lookup(g[1..], name)
  }

  lemma {:induction false} LookupAt(g: seq<NameTotal>, k: int)
    requires DistinctNames(g)
    requires 0 <= k < |g|
    ensures Lookup(g, g[k].name) == g[k].total
  {
    if k > 0 {
      assert g[0].name != g[k].name;
      assert g[1..][k - 1] == g[k];
      LookupAt(g[1..], k - 1);
    }
  }

  /** Adds `units` to the entry of `name`, appending an entry when there is
      none. */
  function AddUnits(g: seq<NameTotal>, name: string, units: real): (r: seq<NameTotal>)
    ensures forall m :: Lookup(r, m) == Lookup(g, m) + (if m == name then units else 0.0)
  {
    if |g| == 0 then
      [NameTotal(name, units)]
    else if g[0].name == name then
      [NameTotal(name, g[0].total + units)] + g[1..]
    else
      [g[0]] + AddUnits(g[1..], name, units)
  }

  lemma {:induction false} AddUnitsListed(g: seq<NameTotal>, name: string, units: real)
    ensures forall m :: Listed(AddUnits(g, name, units), m) <==> Listed(g, m) || m == name
  {
    var r := AddUnits(g, name, units);
    if |g| > 0 {
      assert g == [g[0]] + g[1..];
      var tail := if g[0].name == name then g[1..] else AddUnits(g[1..], name, units);
      assert r == [r[0]] + tail;
      if g[0].name != name {
        AddUnitsListed(g[1..], name, units);
      }
      forall m
        ensures Listed(r, m) <==> Listed(g, m) || m == name
      {
        if Listed(g, m) && g[0].name != m {
          var e :| e in g && e.name == m;
          assert e in g[1..];
        }
        if Listed(tail, m) {
          var e :| e in tail && e.name == m;
          assert e in r;
        }
      }
    } else {
      assert r[0] in r;
    }
  }

  lemma {:induction false} AddUnitsKeepsDistinct(g: seq<NameTotal>, name: string, units: real)
    requires DistinctNames(g)
    ensures DistinctNames(AddUnits(g, name, units))
  {
    if |g| > 0 && g[0].name != name {
      var tail := AddUnits(g[1..], name, units);
      var r := [g[0]] + tail;
      assert forall i :: 0 <= i < |g[1..]| ==> g[1..][i] == g[i + 1];
      AddUnitsKeepsDistinct(g[1..], name, units);
      AddUnitsListed(g[1..], name, units);
      assert !Listed(g[1..], g[0].name);
      assert !Listed(tail, g[0].name);
      forall i, j | 0 <= i < j < |r|
        ensures r[i].name != r[j].name
      {
        if i == 0 {
          assert r[j] in tail;
        } else {
          assert r[i] == tail[i - 1] && r[j] == tail[j - 1];
        }
      }
    }
  }

  /** `groupby("name")["units"].sum()`: one entry per name, in order of
      first appearance, each carrying that name's summed units. */
  function GroupTotals(rows: seq<Row>): (g: seq<NameTotal>)
    ensures DistinctNames(g)
    ensures forall n :: Listed(g, n) <==> HasName(rows, n)
    ensures forall n :: Lookup(g, n) == UnitsOf(rows, n)
  {
    if |rows| == 0 then
      []
    else
      var n := |rows| - 1;
      var init, last := rows[..n], rows[n];
      assert rows == init + [last];
      var g := AddUnits(GroupTotals(init), last.name, last.units);
      AddUnitsListed(GroupTotals(init), last.name, last.units);
      AddUnitsKeepsDistinct(GroupTotals(init), last.name, last.units);
      forall m
        ensures UnitsOf(rows, m) == UnitsOf(init, m) + (if m == last.name then last.units else 0.0)
      {
        UnitsOfAppend(init, last, m);
      }
      g
  }

  /** One more row adds its units to its own name's total only. */
  lemma UnitsOfAppend(init: seq<Row>, last: Row, name: string)
    ensures UnitsOf(init + [last], name) == UnitsOf(init, name) + (if name == last.name then last.units else 0.0)
  {
    var rows := init + [last];
    var extra := if last.name == name then [last] else [];
    assert rows[..|init|] == init && rows[|init|] == last;
    assert RowsNamed(rows, name) == RowsNamed(init, name) + extra;
    SumOfAppend(RowsNamed(init, name), extra, Units);
    assert SumOf([last], Units) == last.units by {
      assert [last][..0] == [];
    }
  }

  /** `sort_values(ascending=False)` */
  const ByTotalDescending := (a: NameTotal, b: NameTotal) => a.total >= b.total

  lemma ByTotalDescendingIsTotalPreorder()
    ensures TotalPreorder(ByTotalDescending)
  {
  }

  /** The grouped totals, largest first. pandas leaves the order of equal
      totals open; the model keeps first-appearance order. */
  function RankedTotals(rows: seq<Row>): (ranked: seq<NameTotal>)
    ensures multiset(ranked) == multiset(GroupTotals(rows))
    ensures SortedBy(ranked, ByTotalDescending)
  {
    ByTotalDescendingIsTotalPreorder();
    SortByIsSorted(GroupTotals(rows), ByTotalDescending);
    SortBy(GroupTotals(rows), ByTotalDescending)
  }

  /** `.head(5)` of the ranked totals. */
  function TopConsumers(rows: seq<Row>): (top: seq<NameTotal>)
    ensures |top| <= TopCount
    ensures forall i, j :: 0 <= i < j < |top| ==> top[i].total >= top[j].total
  {
    var ranked := RankedTotals(rows);
    ranked[..if |ranked| < TopCount then |ranked| else TopCount]
  }

  /** The top-consumers list holds at most five distinct names of the
      analysed rows, each with its summed units, largest first; a name left
      out means the list is full and every listed total is at least the
      left-out name's. */
  lemma TopConsumersAreLargest(rows: seq<Row>)
    ensures var top := TopConsumers(rows);
            && |top| <= TopCount
            && DistinctNames(top)
            && (forall i, j :: 0 <= i < j < |top| ==> top[i].total >= top[j].total)
            && (forall i :: 0 <= i < |top| ==> HasName(rows, top[i].name) && top[i].total == UnitsOf(rows, top[i].name))
            && (forall n :: HasName(rows, n) && !Listed(top, n) ==>
                  |top| == TopCount && forall i :: 0 <= i < |top| ==> top[i].total >= UnitsOf(rows, n))
  {
    var g := GroupTotals(rows);
    var ranked := RankedTotals(rows);
    var top := TopConsumers(rows);
    assert top == ranked[..|top|];
    RankedTotalsDistinct(rows);
    forall i | 0 <= i < |top|
      ensures HasName(rows, top[i].name) && top[i].total == UnitsOf(rows, top[i].name)
    {
      assert top[i] in ranked;
      EntryTotal(g, top[i]);
    }
    forall n | HasName(rows, n) && !Listed(top, n)
      ensures |top| == TopCount && forall i :: 0 <= i < |top| ==> top[i].total >= UnitsOf(rows, n)
    {
      OmittedNameRanksLower(rows, n);
    }
  }

  /** A name of the rows left off the top list is ranked after a full list
      whose totals are all at least its own. */
  lemma OmittedNameRanksLower(rows: seq<Row>, n: string)
    ensures HasName(rows, n) && !Listed(TopConsumers(rows), n) ==>
              && |TopConsumers(rows)| == TopCount
              && forall i :: 0 <= i < |TopConsumers(rows)| ==> TopConsumers(rows)[i].total >= UnitsOf(rows, n)
  {
    var g := GroupTotals(rows);
    var ranked := RankedTotals(rows);
    var top := TopConsumers(rows);
    if HasName(rows, n) && !Listed(top, n) {
      assert Listed(g, n);
      var e :| e in g && e.name == n;
      EntryTotal(g, e);
      OmittedEntryRanksLower(g, ranked, top, e);
    }
  }

  /** An entry of the groups that is not among the first `|top|` of the
      ranking comes after a full list whose totals are all at least its
      own. */
  lemma OmittedEntryRanksLower(g: seq<NameTotal>, ranked: seq<NameTotal>, top: seq<NameTotal>, e: NameTotal)
    requires multiset(ranked) == multiset(g)
    requires SortedBy(ranked, ByTotalDescending)
    requires |top| == if |ranked| < TopCount then |ranked| else TopCount
    requires top == ranked[..|top|]
    requires e in g && e !in top
    ensures |top| == TopCount
    ensures forall i :: 0 <= i < |top| ==> top[i].total >= e.total
  {
    assert e in ranked by {
      assert e in multiset(g);
    }
    var q :| 0 <= q < |ranked| && ranked[q] == e;
    assert forall i :: 0 <= i < |top| ==> ranked[i] in top by {
      forall i | 0 <= i < |top|
        ensures ranked[i] in top
      {
        assert top[i] == ranked[i];
      }
    }
    assert q >= |top|;
    PrefixDominates(ranked, |top|, q);
  }

  /** In a list ranked largest first, every entry ahead of position `len`
      has a total at least that of any entry at or after it. */
  lemma PrefixDominates(ranked: seq<NameTotal>, len: nat, q: int)
    requires SortedBy(ranked, ByTotalDescending)
    requires len <= q < |ranked|
    ensures forall i :: 0 <= i < len ==> ranked[i].total >= ranked[q].total
  {
    forall i | 0 <= i < len
      ensures ranked[i].total >= ranked[q].total
    {
      assert ByTotalDescending(ranked[i], ranked[q]);
    }
  }

  /** Ranking keeps the grouped entries and their distinct names. */
  lemma RankedTotalsDistinct(rows: seq<Row>)
    ensures DistinctNames(RankedTotals(rows))
    ensures forall e :: e in RankedTotals(rows) ==> e in GroupTotals(rows)
  {
    var g := GroupTotals(rows);
    var ranked := RankedTotals(rows);
    // ranked has no repeated entry, hence no repeated name
    assert NoDuplicates(g) by {
      forall i, j | 0 <= i < j < |g|
        ensures g[i] != g[j]
      {
        assert g[i].name != g[j].name;
      }
    }
    PermutationKeepsNoDuplicates(g, ranked);
    forall e | e in ranked
      ensures e in g
    {
      assert e in multiset(ranked);
    }
    forall i, j | 0 <= i < j < |ranked|
      ensures ranked[i].name != ranked[j].name
    {
      SameNameSameEntry(g, ranked[i], ranked[j]);
    }
  }

  /** Two entries of a distinct-name list with the same name are one entry. */
  lemma SameNameSameEntry(g: seq<NameTotal>, x: NameTotal, y: NameTotal)
    requires DistinctNames(g)
    requires x in g && y in g
    ensures x.name == y.name ==> x == y
  {
    var i :| 0 <= i < |g| && g[i] == x;
    var j :| 0 <= j < |g| && g[j] == y;
    assert x.name == y.name ==> i == j by {
      if i < j {
        assert g[i].name != g[j].name;
      } else if j < i {
        assert g[j].name != g[i].name;
      }
    }
  }

  /** Each grouped entry carries the summed units of its name. */
  lemma EntryTotal(g: seq<NameTotal>, e: NameTotal)
    requires DistinctNames(g)
    requires e in g
    ensures e.total == Lookup(g, e.name)
  {
    var k :| 0 <= k < |g| && g[k] == e;
    LookupAt(g, k);
  }

  /** The joined rows the analysis works over. */
  function AnalysedRows(s: Store): seq<Row> {
    Join(s.bills, s.clients)
  }

  /** The figures reported for rows that are not empty. */
  function Summarize(rows: seq<Row>): (report: Report)
    requires |rows| > 0
    ensures report.totalUnits == SumOf(rows, Units)
    ensures report.totalAmount == SumOf(rows, Amount)
    ensures report.avgUnits == report.totalUnits / (|rows| as real)
    ensures forall i :: 0 <= i < |rows| ==> rows[i].units <= report.maxUnits
    ensures exists i :: 0 <= i < |rows| && rows[i].units == report.maxUnits
    ensures report.avgUnits <= report.maxUnits
    ensures report.top == TopConsumers(rows)
  {
    var total, max := SumOf(rows, Units), MaxUnits(rows);
    MeanAtMostBound(rows, max);
    Report(total, SumOf(rows, Amount), total / (|rows| as real), max, TopConsumers(rows))
  }

  /** `show_analysis`, with exact arithmetic: nothing when no bill has a
      client, the summary of the joined rows otherwise. */
  function Analyze(s: Store): (r: Option<Report>)
    ensures r.None? <==> forall b :: b in s.bills ==> !HasClient(s.clients, b.clientId)
    ensures r.Some? ==> |AnalysedRows(s)| > 0 && r.value == Summarize(AnalysedRows(s))
  {
    var rows := AnalysedRows(s);
    JoinEmptyIff(s.bills, s.clients);
    if |rows| == 0 then None else Some(Summarize(rows))
  }

  /** In a valid database the reported totals are the sums of the units
      and of the amounts over the bills whose client still exists, and
      there is a report exactly when there is such a bill. */
  lemma AnalysisTotalsAreBillSums(s: Store)
    requires Valid(s)
    ensures var r, known := Analyze(s), KnownBills(s.bills, s.clients);
            && (r.None? <==> |known| == 0)
            && (r.Some? ==>
                  && r.value.totalUnits == SumOf(known, BillUnits)
                  && r.value.totalAmount == SumOf(known, BillAmount))
  {
    var rows, known := Join(s.bills, s.clients), KnownBills(s.bills, s.clients);
    JoinOfIncreasingIds(s.bills, s.clients);
    SumOfPointwise(rows, Units, known, BillUnits);
    SumOfPointwise(rows, Amount, known, BillAmount);
  }

  /** Bills of 10 and 5 units for client A and one of 20 for client B total
      35 units, peak at 20, and rank B (20) ahead of A (15). */
  lemma ThreeBillAnalysis()
    ensures var a, b := Client(1, "A", "M-1", "", "0123456789"), Client(2, "B", "M-2", "", "9876543210");
            var bills := [Bill(1, "", "", 10.0, 50.0, "Unpaid"), Bill(2, "", "", 20.0, 100.0, "Unpaid"),
                          Bill(1, "", "", 5.0, 25.0, "Unpaid")];
            Analyze(Store([a, b], [], bills, 2))
              == Some(Report(35.0, 175.0, 35.0 / 3.0, 20.0, [NameTotal("B", 20.0), NameTotal("A", 15.0)]))
  {
    var rows := [Row("A", 10.0, 50.0), Row("B", 20.0, 100.0), Row("A", 5.0, 25.0)];
    ThreeBillRows();
    ThreeBillSums(rows);
    ThreeBillTop(rows);
    ThreeBillMax(rows);
  }

  /** The three bills join to three rows. The row order shown is the
      model's bill order; SQL leaves the order of the join open. */
  lemma ThreeBillRows()
    ensures var a, b := Client(1, "A", "M-1", "", "0123456789"), Client(2, "B", "M-2", "", "9876543210");
            var bills := [Bill(1, "", "", 10.0, 50.0, "Unpaid"), Bill(2, "", "", 20.0, 100.0, "Unpaid"),
                          Bill(1, "", "", 5.0, 25.0, "Unpaid")];
            Join(bills, [a, b]) == [Row("A", 10.0, 50.0), Row("B", 20.0, 100.0), Row("A", 5.0, 25.0)]
  {
    var a, b := Client(1, "A", "M-1", "", "0123456789"), Client(2, "B", "M-2", "", "9876543210");
    var b0, b1, b2 := Bill(1, "", "", 10.0, 50.0, "Unpaid"), Bill(2, "", "", 20.0, 100.0, "Unpaid"),
                      Bill(1, "", "", 5.0, 25.0, "Unpaid");
    var bills := [b0, b1, b2];
    var clients := [a, b];
    JoinBillOfUniqueId(b0, clients, 0);
    JoinBillOfUniqueId(b1, clients, 1);
    JoinBillOfUniqueId(b2, clients, 0);
    assert bills[..2] == [b0, b1] && [b0, b1][..1] == [b0] && [b0][..0] == [];
    var r0, r1, r2 := Row("A", 10.0, 50.0), Row("B", 20.0, 100.0), Row("A", 5.0, 25.0);
    assert Join([b0], clients) == [r0];
    assert Join([b0, b1], clients) == [r0, r1];
    assert Join(bills, clients) == [r0, r1] + [r2];
  }

  lemma ThreeBillSums(rows: seq<Row>)
    requires rows == [Row("A", 10.0, 50.0), Row("B", 20.0, 100.0), Row("A", 5.0, 25.0)]
    ensures SumOf(rows, Units) == 35.0 && SumOf(rows, Amount) == 175.0
  {
    var r0, r1 := rows[0], rows[1];
    assert rows[..2] == [r0, r1] && [r0, r1][..1] == [r0] && [r0][..0] == [];
    assert Amount(r0) == 50.0 && Amount(r1) == 100.0 && Amount(rows[2]) == 25.0;
    assert SumOf([r0], Units) == 10.0;
    assert SumOf([r0], Amount) == SumOf([], Amount) + Amount(r0);
    assert SumOf([r0, r1], Units) == 30.0 && SumOf([r0, r1], Amount) == 150.0;
  }

  lemma ThreeBillTop(rows: seq<Row>)
    requires rows == [Row("A", 10.0, 50.0), Row("B", 20.0, 100.0), Row("A", 5.0, 25.0)]
    ensures TopConsumers(rows) == [NameTotal("B", 20.0), NameTotal("A", 15.0)]
  {
    ThreeBillGroups(rows);
    RankTwo(NameTotal("A", 15.0), NameTotal("B", 20.0));
  }

  /** Two entries, the second with the larger total, rank in swapped order. */
  lemma RankTwo(x: NameTotal, y: NameTotal)
    requires x.total < y.total
    ensures SortBy([x, y], ByTotalDescending) == [y, x]
  {
    assert [x, y][1..] == [y] && [y][1..] == [];
    assert SortBy([y], ByTotalDescending) == [y];
    assert !ByTotalDescending(x, y);
    assert Insert(x, [y], ByTotalDescending) == [y] + Insert(x, [], ByTotalDescending);
  }

  lemma ThreeBillGroups(rows: seq<Row>)
    requires rows == [Row("A", 10.0, 50.0), Row("B", 20.0, 100.0), Row("A", 5.0, 25.0)]
    ensures GroupTotals(rows) == [NameTotal("A", 15.0), NameTotal("B", 20.0)]
  {
    var r0, r1 := rows[0], rows[1];
    assert rows[..2] == [r0, r1] && [r0, r1][..1] == [r0] && [r0][..0] == [];
    var ga, gb := NameTotal("A", 10.0), NameTotal("B", 20.0);
    assert GroupTotals([r0]) == [ga];
    assert [ga][1..] == [] && "A" != "B";
    assert AddUnits([ga], "B", 20.0) == [ga, gb];
    assert GroupTotals([r0, r1]) == [ga, gb];
    assert [ga, gb][1..] == [gb];
  }

  lemma ThreeBillMax(rows: seq<Row>)
    requires rows == [Row("A", 10.0, 50.0), Row("B", 20.0, 100.0), Row("A", 5.0, 25.0)]
    ensures MaxUnits(rows) == 20.0
  {
    assert rows[1..] == [rows[1], rows[2]] && [rows[1], rows[2]][1..] == [rows[2]];
  }
}
