/** The owner's staff directory (src/components/OwnerEmployeesPage.tsx): the
    full-time and part-time counters and the initials shown as avatars. */
module OwnerEmployees {
  import opened Seqs
  import opened Strings

  datatype EmploymentStatus = FullTime | PartTime

  datatype Employee = Employee(
    id: string,
    name: string,
    status: EmploymentStatus,
    email: string,
    contactNumber: string,
    position: string,
    joinDate: string,
    birthday: string)

  function HasStatus(status: EmploymentStatus): Employee -> bool
  {
    (e: Employee) => e.status == status
  }

  /** `fullTimeCount` / `partTimeCount`. */
  function CountWithStatus(employees: seq<Employee>, status: EmploymentStatus): (n: nat)
    ensures n <= |employees|
    ensures n == |Filter(employees, HasStatus(status))|
    ensures n == 0 <==> forall e :: e in employees ==> e.status != status
  {
    CountIf(employees, HasStatus(status))
  }

  /** Every employee is counted on exactly one of the two counters. */
  lemma CountsCoverStaff(employees: seq<Employee>)
    ensures CountWithStatus(employees, FullTime) + CountWithStatus(employees, PartTime) == |employees|
  {
    CountComplement(employees, HasStatus(FullTime), HasStatus(PartTime));
  }

  /** The first characters of the pieces, in order; an empty piece has no
      first character (`n[0]` is `undefined`, which `join` writes as
      nothing), so it contributes nothing. */
  function FirstChars(parts: seq<string>): (r: string)
    ensures |r| <= |parts|
    ensures forall c :: c in r ==> exists k :: 0 <= k < |parts| && |parts[k]| > 0 && parts[k][0] == c
    decreases |parts|
  {
    if |parts| == 0 then ""
    else
      var head := if |parts[0]| > 0 then [parts[0][0]] else "";
      var rest := FirstChars(parts[1..]);
      assert forall c :: c in rest ==> exists k :: 0 <= k < |parts| && |parts[k]| > 0 && parts[k][0] == c by {
        forall c | c in rest ensures exists k :: 0 <= k < |parts| && |parts[k]| > 0 && parts[k][0] == c {
          var k :| 0 <= k < |parts[1..]| && |parts[1..][k]| > 0 && parts[1..][k][0] == c;
          assert parts[k + 1] == parts[1..][k];
        }
      }
      head + rest
  }

  function IsNonEmpty(s: string): bool
  {
    |s| > 0
  }

  function FirstChar(s: string): char
  {
    if |s| > 0 then s[0] else ' '
  }

  /** One initial per non-empty piece, in order. */
  lemma {:induction false} FirstCharsOfNonEmpty(parts: seq<string>)
    ensures |FirstChars(parts)| == CountIf(parts, IsNonEmpty)
    ensures FirstChars(parts) == Map(Filter(parts, IsNonEmpty), FirstChar)
    decreases |parts|
  {
    if |parts| > 0 {
      FirstCharsOfNonEmpty(parts[1..]);
      var kept := Filter(parts[1..], IsNonEmpty);
      if |parts[0]| > 0 {
        assert Filter(parts, IsNonEmpty) == [parts[0]] + kept;
        assert Map([parts[0]] + kept, FirstChar) == [FirstChar(parts[0])] + Map(kept, FirstChar);
      }
    }
  }

  /** The avatar text: the first character of each space-separated piece of
      the name. It holds no space and has at most one character more than
      the name has spaces. */
  function Initials(name: string): (r: string)
    ensures |r| <= CountChar(name, ' ') + 1
    ensures ' ' !in r
    ensures forall c :: c in r ==> c in name
  {
    var parts := Split(name, ' ');
    var r := FirstChars(parts);
    assert forall c :: c in r ==> c in name && c != ' ' by {
      forall c | c in r ensures c in name && c != ' ' {
        var k :| 0 <= k < |parts| && |parts[k]| > 0 && parts[k][0] == c;
        assert ' ' !in parts[k];
        JoinSplit(name, ' ');
        JoinMembers(parts, ' ', k);
      }
    }
    r
  }

  /** Every character of a piece appears in the joined text. */
  lemma {:induction false} JoinMembers(parts: seq<string>, sep: char, k: nat)
    requires k < |parts|
    ensures forall c :: c in parts[k] ==> c in Join(parts, sep)
    decreases |parts|
  {
    if k > 0 {
      JoinMembers(parts[1..], sep, k - 1);
      assert parts[1..][k - 1] == parts[k];
    }
  }

  /** A name of space-free, non-empty words separated by single spaces has
      one initial per word: the word's first letter. */
  lemma InitialsOfWords(words: seq<string>)
    requires |words| >= 1
    requires forall k :: 0 <= k < |words| ==> |words[k]| > 0 && ' ' !in words[k]
    ensures Initials(Join(words, ' ')) == Map(words, FirstChar)
  {
    SplitJoin(words, ' ');
    FirstCharsOfNonEmpty(words);
    FilterAll(words, IsNonEmpty);
  }

  /** The seeded staff: three full-time, three part-time. */
  function SeedEmployees(): seq<Employee>
  {
    [ Employee("1", "Sarah Johnson", FullTime, "sarah@bluemoon.com", "555-0101", "Senior Barista", "Jan 15, 2024", "Mar 15, 1995"),
      Employee("2", "Mike Chen", FullTime, "mike@bluemoon.com", "555-0102", "Kitchen Lead", "Mar 10, 2024", "Jul 22, 1998"),
      Employee("3", "Emma Davis", PartTime, "emma@bluemoon.com", "555-0103", "Barista", "Jun 20, 2024", "Nov 8, 2000"),
      Employee("4", "James Wilson", PartTime, "james@bluemoon.com", "555-0104", "Prep Cook", "Aug 5, 2024", "May 30, 1997"),
      Employee("5", "Lisa Anderson", FullTime, "lisa@bluemoon.com", "555-0105", "Shift Supervisor", "Feb 1, 2024", "Jan 12, 1993"),
      Employee("6", "Tom Martinez", PartTime, "tom@bluemoon.com", "555-0106", "Barista", "Sep 12, 2024", "Sep 5, 1999") ]
  }

  lemma SeedCounts()
    ensures CountWithStatus(SeedEmployees(), FullTime) == 3
    ensures CountWithStatus(SeedEmployees(), PartTime) == 3
  {
  }
}
