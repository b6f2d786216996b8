/** The owner's payroll summary (src/components/OwnerPayrollPage.tsx): the
    all-time total, the current week's total and the number of distinct
    employees. Amounts are whole pesos. */
module OwnerPayroll {
  import opened Seqs

  datatype PayrollEntry = PayrollEntry(
    id: string,
    employeeName: string,
    daysWorked: int,
    payRate: int,
    totalPay: int,
    period: string,
    status: string)

  /** The period the page treats as the current week. */
  const CurrentPeriod: string := "Oct 16-22, 2025"

  function PayOf(e: PayrollEntry): int
  {
    e.totalPay
  }

  function NameOf(e: PayrollEntry): string
  {
    e.employeeName
  }

  function InPeriod(period: string): PayrollEntry -> bool
  {
    (e: PayrollEntry) => e.period == period
  }

  function OutsidePeriod(period: string): PayrollEntry -> bool
  {
    (e: PayrollEntry) => e.period != period
  }

  /** Every amount on the list is non-negative. */
  predicate NonNegativePay(entries: seq<PayrollEntry>)
  {
    forall e :: e in entries ==> e.totalPay >= 0
  }

  /** `totalPayroll`: the sum of every entry's pay; the sum over a
      concatenation of two lists is the sum of their totals. */
  function TotalPayroll(entries: seq<PayrollEntry>): (total: int)
    ensures NonNegativePay(entries) ==> total >= 0
  {
    NonNegativeSum(entries);
    SumBy(entries, PayOf)
  }

  lemma {:induction false} NonNegativeSum(entries: seq<PayrollEntry>)
    ensures NonNegativePay(entries) ==> SumBy(entries, PayOf) >= 0
    decreases |entries|
  {
    if |entries| > 0 {
      assert forall e :: e in entries[1..] ==> e in entries;
      NonNegativeSum(entries[1..]);
    }
  }

  /** `currentWeekPayroll`: the sum over the entries of the current period;
      never above the total when no amount is negative. */
  function CurrentWeekPayroll(entries: seq<PayrollEntry>): (week: int)
    ensures NonNegativePay(entries) ==> 0 <= week <= TotalPayroll(entries)
    ensures (forall e :: e in entries ==> e.period == CurrentPeriod) ==> week == TotalPayroll(entries)
    ensures (forall e :: e in entries ==> e.period != CurrentPeriod) ==> week == 0
  {
    var current := Filter(entries, InPeriod(CurrentPeriod));
    assert NonNegativePay(entries) ==> SumBy(current, PayOf) <= SumBy(entries, PayOf) by {
      if NonNegativePay(entries) {
        SumFilterAtMost(entries, InPeriod(CurrentPeriod), PayOf);
      }
    }
    NonNegativeSum(current);
    assert (forall e :: e in entries ==> e.period == CurrentPeriod) ==> current == entries by {
      if forall e :: e in entries ==> e.period == CurrentPeriod {
        FilterAll(entries, InPeriod(CurrentPeriod));
      }
    }
    SumBy(current, PayOf)
  }

  /** The current week plus every other period makes up the total. */
  lemma CurrentWeekSplitsTotal(entries: seq<PayrollEntry>)
    ensures CurrentWeekPayroll(entries) + SumBy(Filter(entries, OutsidePeriod(CurrentPeriod)), PayOf)
      == TotalPayroll(entries)
  {
    SumFilterSplit(entries, InPeriod(CurrentPeriod), OutsidePeriod(CurrentPeriod), PayOf);
  }

  /** Adding a pay record raises the total by exactly its amount. */
  lemma TotalOfAppend(entries: seq<PayrollEntry>, e: PayrollEntry)
    ensures TotalPayroll(entries + [e]) == TotalPayroll(entries) + e.totalPay
  {
    SumAppend(entries, [e], PayOf);
  }

  /** `totalEmployees`: the number of distinct names; at most one per entry,
      and at least one when there is any entry. */
  function TotalEmployees(entries: seq<PayrollEntry>): (n: nat)
    ensures n <= |entries|
    ensures n == 0 <==> |entries| == 0
    ensures forall e :: e in entries ==> e.employeeName in Image(entries, NameOf)
    ensures n == |set e | e in entries :: e.employeeName|
  {
    var names := Image(entries, NameOf);
    assert |entries| > 0 ==> NameOf(entries[0]) in names;
    assert names == set e | e in entries :: e.employeeName;
    |names|
  }

  /** Adding a record raises the employee count by one exactly when its
      name is not yet listed, and leaves it alone otherwise. */
  lemma TotalEmployeesOfAppend(entries: seq<PayrollEntry>, e: PayrollEntry)
    ensures (exists d :: d in entries && d.employeeName == e.employeeName) ==>
      TotalEmployees(entries + [e]) == TotalEmployees(entries)
    ensures (forall d :: d in entries ==> d.employeeName != e.employeeName) ==>
      TotalEmployees(entries + [e]) == TotalEmployees(entries) + 1
  {
    var before := set d | d in entries :: d.employeeName;
    var after := set d | d in entries + [e] :: d.employeeName;
    forall x | x in after ensures x in before || x == e.employeeName {
      var d :| d in entries + [e] && d.employeeName == x;
      if d != e {
        assert d in entries;
      }
    }
    forall x | x in before ensures x in after {
      var d :| d in entries && d.employeeName == x;
      assert d in entries + [e];
    }
    assert e in entries + [e];
    assert after == before + {e.employeeName};
    if exists d :: d in entries && d.employeeName == e.employeeName {
      var d :| d in entries && d.employeeName == e.employeeName;
      assert e.employeeName in before;
      assert after == before;
    }
  }

  /** A record is consistent when its pay is days worked times the rate. */
  predicate PayConsistent(e: PayrollEntry)
  {
    e.totalPay == e.daysWorked * e.payRate
  }

  /** The four records of the current week. */
  function SeedCurrentWeek(): seq<PayrollEntry>
  {
    [ PayrollEntry("1", "Sarah Johnson", 6, 600, 3600, "Oct 16-22, 2025", "Full-time"),
      PayrollEntry("2", "Mike Chen", 5, 600, 3000, "Oct 16-22, 2025", "Full-time"),
      PayrollEntry("3", "Emma Davis", 4, 500, 2000, "Oct 16-22, 2025", "Part-time"),
      PayrollEntry("4", "James Wilson", 3, 500, 1500, "Oct 16-22, 2025", "Part-time") ]
  }

  /** The two records of the week before. */
  function SeedPreviousWeek(): seq<PayrollEntry>
  {
    [ PayrollEntry("5", "Sarah Johnson", 6, 600, 3600, "Oct 9-15, 2025", "Full-time"),
      PayrollEntry("6", "Mike Chen", 6, 600, 3600, "Oct 9-15, 2025", "Full-time") ]
  }

  /** The page's six records. */
  function SeedEntries(): seq<PayrollEntry>
  {
    SeedCurrentWeek() + SeedPreviousWeek()
  }

  /** Every seeded record is consistent, and the seeded totals are 17300
      overall and 10100 for the current week. */
  lemma SeedTotals()
    ensures forall e :: e in SeedEntries() ==> PayConsistent(e)
    ensures TotalPayroll(SeedEntries()) == 17300
    ensures CurrentWeekPayroll(SeedEntries()) == 10100
  {
    var cur, prev := SeedCurrentWeek(), SeedPreviousWeek();
    SeedCurrentWeekFacts();
    SeedPreviousWeekFacts();
    SumAppend(cur, prev, PayOf);
    FilterAppend(cur, prev, InPeriod(CurrentPeriod));
    assert Filter(cur, InPeriod(CurrentPeriod)) + [] == cur;
  }

  lemma SeedCurrentWeekFacts()
    ensures forall e :: e in SeedCurrentWeek() ==> PayConsistent(e)
    ensures SumBy(SeedCurrentWeek(), PayOf) == 10100
    ensures Filter(SeedCurrentWeek(), InPeriod(CurrentPeriod)) == SeedCurrentWeek()
  {
    FilterAll(SeedCurrentWeek(), InPeriod(CurrentPeriod));
  }

  lemma SeedPreviousWeekFacts()
    ensures forall e :: e in SeedPreviousWeek() ==> PayConsistent(e)
    ensures SumBy(SeedPreviousWeek(), PayOf) == 7200
    ensures Filter(SeedPreviousWeek(), InPeriod(CurrentPeriod)) == []
  {
    assert "Oct 9-15, 2025"[4] != CurrentPeriod[4];
  }

  /** Six records whose names run a, b, c, d, a, b with four distinct names
      count four employees. */
  lemma FourNamesOverSixRecords(entries: seq<PayrollEntry>, a: string, b: string, c: string, d: string)
    requires |entries| == 6
    requires a != b && a != c && a != d && b != c && b != d && c != d
    requires entries[0].employeeName == a && entries[1].employeeName == b
    requires entries[2].employeeName == c && entries[3].employeeName == d
    requires entries[4].employeeName == a && entries[5].employeeName == b
    ensures TotalEmployees(entries) == 4
  {
    var names := set e | e in entries :: e.employeeName;
    forall x | x in names ensures x == a || x == b || x == c || x == d {
      var e :| e in entries && e.employeeName == x;
      var i :| 0 <= i < 6 && entries[i] == e;
    }
    assert entries[0] in entries && entries[1] in entries && entries[2] in entries && entries[3] in entries;
    assert names == {a, b, c, d};
  }

  /** The seeded records name four employees. */
  lemma SeedEmployeeCount()
    ensures TotalEmployees(SeedEntries()) == 4
  {
    var s := SeedEntries();
    assert s[0].employeeName[0] == 'S' && s[1].employeeName[0] == 'M';
    assert s[2].employeeName[0] == 'E' && s[3].employeeName[0] == 'J';
    FourNamesOverSixRecords(s, s[0].employeeName, s[1].employeeName, s[2].employeeName, s[3].employeeName);
  }
}
