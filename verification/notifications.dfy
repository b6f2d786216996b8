/** The notifications page (src/components/NotificationsPage.tsx): relative
    timestamps, read flags, deletion, and opening the task a notification
    is about. Timestamps are milliseconds; the current time is a parameter. */
module Notifications {
  import opened Common
  import opened Seqs
  import opened Strings

  datatype NotificationKind = TaskCompleted | TaskOverdue

  datatype Notification = Notification(
    id: string,
    kind: NotificationKind,
    title: string,
    message: string,
    taskId: string,
    taskName: string,
    employeeName: Option<string>,
    timestamp: int,
    read: bool)

  datatype TimeUnit = Minutes | Hours | Days

  /** A relative time: a whole number of one unit. */
  datatype TimeAgo = TimeAgo(count: int, unit: TimeUnit)

  /** The task-detail target built on click: the task id and name, and a QR
      code id derived from the task id. */
  datatype TaskLink = TaskLink(id: string, name: string, qrCodeId: string)

  /** The list after a click, and the task-detail navigation it triggers, if any. */
  datatype ClickOutcome = ClickOutcome(notifications: seq<Notification>, navigation: Option<TaskLink>)

  const MinuteMs: int := 60000
  const HourMs: int := 3600000
  const DayMs: int := 86400000

  function UnitMs(u: TimeUnit): (ms: int)
    ensures ms > 0
  {
    match u
    case Minutes => MinuteMs
    case Hours => HourMs
    case Days => DayMs
  }

  /** The choice `formatTimeAgo` makes for a difference of `diffMs`
      milliseconds: minutes below an hour, hours below a day, days
      otherwise, each count rounded down (Dafny's `/` by a positive divisor
      rounds down, like `Math.floor`, also for negative differences). */
  function FormatTimeAgo(diffMs: int): (t: TimeAgo)
    ensures t.unit == Minutes <==> diffMs < HourMs
    ensures t.unit == Hours <==> HourMs <= diffMs < DayMs
    ensures t.unit == Days <==> DayMs <= diffMs
    ensures t.count * UnitMs(t.unit) <= diffMs < (t.count + 1) * UnitMs(t.unit)
  {
    var mins := diffMs / MinuteMs;
    var hours := diffMs / HourMs;
    var days := diffMs / DayMs;
    if mins < 60 then TimeAgo(mins, Minutes)
    else if hours < 24 then TimeAgo(hours, Hours)
    else TimeAgo(days, Days)
  }

  function UnitWord(u: TimeUnit): (w: string)
    ensures |w| > 0 && w[|w| - 1] != 's'
  {
    match u
    case Minutes => "minute"
    case Hours => "hour"
    case Days => "day"
  }

  /** The text shown, e.g. "1 hour ago" or "5 minutes ago": the count, the
      unit word, an `s` unless the count is exactly 1, and " ago". */
  function TimeAgoText(t: TimeAgo): (text: string)
    ensures |text| >= |IntToString(t.count)| + 1 + |UnitWord(t.unit)| + 4
    ensures text[..|IntToString(t.count)|] == IntToString(t.count)
    ensures text[|IntToString(t.count)|..|IntToString(t.count)| + 1 + |UnitWord(t.unit)|] == " " + UnitWord(t.unit)
    ensures text[|text| - 5..] == "s ago" <==> t.count != 1
    ensures text[|text| - 4..] == " ago"
    ensures |text| == |IntToString(t.count)| + 1 + |UnitWord(t.unit)| + (if t.count != 1 then 5 else 4)
  {
    var num := IntToString(t.count);
    var mid := " " + UnitWord(t.unit);
    var tail := if t.count != 1 then "s ago" else " ago";
    ThreeParts(num, mid, tail);
    var text := num + mid + tail;
    assert t.count == 1 ==> text[|text| - 5..] == [mid[|mid| - 1]] + tail by {
      if t.count == 1 {
        assert text[|text| - 5..] == (num + mid)[|num + mid| - 1..] + tail;
      }
    }
    text
  }

  /** Where each part of a three-part concatenation sits. */
  lemma ThreeParts(a: string, b: string, c: string)
    ensures (a + b + c)[..|a|] == a
    ensures (a + b + c)[|a|..|a| + |b|] == b
    ensures (a + b + c)[|a| + |b|..] == c
  {
  }

  /** The contract of `TimeAgoText` fixes the string: any text with the
      count, the unit word, the plural `s` exactly when the count is not 1,
      and " ago", at that length, is the text shown. */
  lemma TimeAgoTextDetermined(t: TimeAgo, x: string)
    requires |x| == |IntToString(t.count)| + 1 + |UnitWord(t.unit)| + (if t.count != 1 then 5 else 4)
    requires x[..|IntToString(t.count)|] == IntToString(t.count)
    requires x[|IntToString(t.count)|..|IntToString(t.count)| + 1 + |UnitWord(t.unit)|] == " " + UnitWord(t.unit)
    requires x[|x| - 5..] == "s ago" <==> t.count != 1
    requires x[|x| - 4..] == " ago"
    ensures x == TimeAgoText(t)
  {
    var y := TimeAgoText(t);
    var k := |IntToString(t.count)| + 1 + |UnitWord(t.unit)|;
    assert x == x[..k] + x[k..];
    assert y == y[..k] + y[k..];
    assert x[..k] == y[..k] by {
      assert x[..k] == x[..|IntToString(t.count)|] + x[|IntToString(t.count)|..k];
      assert y[..k] == y[..|IntToString(t.count)|] + y[|IntToString(t.count)|..k];
    }
    if t.count != 1 {
      assert x[k..] == x[|x| - 5..];
      assert y[k..] == y[|y| - 5..];
    } else {
      assert x[k..] == x[|x| - 4..];
      assert y[k..] == y[|y| - 4..];
    }
  }

  /** The text tells the units apart: two relative times with the same count
      read the same only when their units agree. */
  lemma TimeAgoTextShowsUnit(c: int, u: TimeUnit, v: TimeUnit)
    requires TimeAgoText(TimeAgo(c, u)) == TimeAgoText(TimeAgo(c, v))
    ensures u == v
  {
    var k := |IntToString(c)| + 1;
    var a, b := TimeAgoText(TimeAgo(c, u)), TimeAgoText(TimeAgo(c, v));
    assert a[k] == (" " + UnitWord(u))[1] == UnitWord(u)[0];
    assert b[k] == (" " + UnitWord(v))[1] == UnitWord(v)[0];
  }

  /** The QR code id shown for a task: "QR-" and the task id padded on the
      left with '0' to three characters. */
  function QrCodeId(taskId: string): (q: string)
    ensures |q| == 3 + (if |taskId| >= 3 then |taskId| else 3)
    ensures q[..3] == "QR-"
    ensures q[|q| - |taskId|..] == taskId
    ensures forall i :: 3 <= i < |q| - |taskId| ==> q[i] == '0'
    ensures |taskId| >= 3 ==> q == "QR-" + taskId
  {
    var padded := PadStart(taskId, 3, '0');
    var q := "QR-" + padded;
    assert q[3..] == padded;
    q
  }

  predicate IsUnread(n: Notification)
  {
    !n.read
  }

  /** `unreadCount`; never more than the total. */
  function UnreadCount(ns: seq<Notification>): (c: nat)
    ensures c <= |ns|
    ensures c == 0 <==> forall n :: n in ns ==> n.read
    ensures c == |Filter(ns, IsUnread)|
  {
    CountIf(ns, IsUnread)
  }

  /** `handleMarkAllRead`: same notifications, same order, all read. */
  function MarkAllRead(ns: seq<Notification>): (r: seq<Notification>)
    ensures |r| == |ns|
    ensures forall i :: 0 <= i < |r| ==> r[i] == ns[i].(read := true)
    ensures UnreadCount(r) == 0
  {
    seq(|ns|, i requires 0 <= i < |ns| => ns[i].(read := true))
  }

  function HasOtherId(id: string): Notification -> bool
  {
    (n: Notification) => n.id != id
  }

  /** `handleDeleteNotification`: exactly the notifications with the id go. */
  function DeleteNotification(ns: seq<Notification>, id: string): (r: seq<Notification>)
    ensures forall n :: n in r ==> n in ns && n.id != id
    ensures forall n :: n in ns && n.id != id ==> n in r
    ensures IsSubseq(r, ns)
    ensures |r| == CountIf(ns, HasOtherId(id))
  {
    Filter(ns, HasOtherId(id))
  }

  /** Mark the notifications with the id as read. */
  function MarkRead(ns: seq<Notification>, id: string): (r: seq<Notification>)
    ensures |r| == |ns|
    ensures forall i :: 0 <= i < |r| && ns[i].id != id ==> r[i] == ns[i]
    ensures forall i :: 0 <= i < |r| && ns[i].id == id ==> r[i] == ns[i].(read := true)
    decreases |ns|
  {
    if |ns| == 0 then []
    else
      var head := if ns[0].id == id then ns[0].(read := true) else ns[0];
      [head] + MarkRead(ns[1..], id)
  }

  /** `handleNotificationClick`: mark the clicked notification read and,
      when it names a task (a non-empty `taskId`), open that task. */
  function Click(ns: seq<Notification>, n: Notification): (o: ClickOutcome)
    ensures o.notifications == MarkRead(ns, n.id)
    ensures o.navigation.Some? <==> n.taskId != ""
    ensures o.navigation.Some? ==>
      o.navigation.value.id == n.taskId && o.navigation.value.name == n.taskName
      && o.navigation.value.qrCodeId == QrCodeId(n.taskId)
  {
    var link := if n.taskId != "" then Some(TaskLink(n.taskId, n.taskName, QrCodeId(n.taskId))) else None;
    ClickOutcome(MarkRead(ns, n.id), link)
  }

  function UnreadWithId(id: string): Notification -> bool
  {
    (n: Notification) => !n.read && n.id == id
  }

  /** Marking read lowers the unread count by exactly the number of unread
      notifications carrying the id. */
  lemma {:induction false} MarkReadUnreadCount(ns: seq<Notification>, id: string)
    ensures UnreadCount(MarkRead(ns, id)) + CountIf(ns, UnreadWithId(id)) == UnreadCount(ns)
    decreases |ns|
  {
    if |ns| > 0 {
      MarkReadUnreadCount(ns[1..], id);
      assert MarkRead(ns, id)[1..] == MarkRead(ns[1..], id);
    }
  }

  /** Deleting lowers the unread count by exactly the number of unread
      notifications carrying the id; the read ones it removes do not count. */
  lemma {:induction false} DeleteUnreadCount(ns: seq<Notification>, id: string)
    ensures UnreadCount(DeleteNotification(ns, id)) + CountIf(ns, UnreadWithId(id)) == UnreadCount(ns)
    decreases |ns|
  {
    if |ns| > 0 {
      DeleteUnreadCount(ns[1..], id);
      if ns[0].id != id {
        assert DeleteNotification(ns, id)[1..] == DeleteNotification(ns[1..], id);
      }
    }
  }

  /** No two notifications share an id. */
  predicate UniqueIds(ns: seq<Notification>)
  {
    forall i, j :: 0 <= i < j < |ns| ==> ns[i].id != ns[j].id
  }

  /** With distinct ids, at most one notification carries a given id. */
  lemma {:induction false} UniqueIdsAtMostOne(ns: seq<Notification>, id: string)
    requires UniqueIds(ns)
    ensures CountIf(ns, UnreadWithId(id)) <= 1
    decreases |ns|
  {
    if |ns| > 0 {
      assert UniqueIds(ns[1..]) by {
        forall i, j | 0 <= i < j < |ns[1..]| ensures ns[1..][i].id != ns[1..][j].id {
          assert ns[i + 1].id != ns[j + 1].id;
        }
      }
      UniqueIdsAtMostOne(ns[1..], id);
      if UnreadWithId(id)(ns[0]) {
        forall m | m in ns[1..] ensures !UnreadWithId(id)(m) {
          var k :| 0 <= k < |ns[1..]| && ns[1..][k] == m;
          assert ns[0].id != ns[k + 1].id;
        }
      }
    }
  }

  /** A click lowers the unread count by at most one when ids are distinct,
      and never raises it. */
  lemma ClickUnreadDropsByAtMostOne(ns: seq<Notification>, n: Notification)
    requires UniqueIds(ns)
    ensures UnreadCount(Click(ns, n).notifications) <= UnreadCount(ns) <= UnreadCount(Click(ns, n).notifications) + 1
  {
    MarkReadUnreadCount(ns, n.id);
    UniqueIdsAtMostOne(ns, n.id);
  }
}
