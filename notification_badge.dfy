/** The notification store and badge (NotificationBadge.tsx): a list kept in
    browser storage, newest first, and an unread counter shown on a badge. */
module NotificationBadge {
  import opened Types
  import opened Seqs

  /** One stored notification; `id` and `createdAt` are taken from the clock,
      so here they are parameters. */
  datatype Notification = Notification(id: int, text: string, read: bool, createdAt: int)

  function IsUnread(n: Notification): bool {
    !n.read
  }

  /** `notifications.filter(n => !n.read).length`. */
  function UnreadCount(ns: seq<Notification>): (n: nat)
    ensures n <= |ns|
    ensures n == 0 <==> forall i :: 0 <= i < |ns| ==> ns[i].read
  {
    Count(ns, IsUnread)
  }

  /** `notifications.map(n => ({...n, read: true}))`. */
  function AllRead(ns: seq<Notification>): (r: seq<Notification>)
    ensures |r| == |ns|
    ensures forall i :: 0 <= i < |ns| ==> r[i] == ns[i].(read := true)
  {
    seq(|ns|, i requires 0 <= i < |ns| => ns[i].(read := true))
  }

  /** After marking all read nothing is unread, and marking twice is marking
      once. */
  lemma AllReadLeavesNoneUnread(ns: seq<Notification>)
    ensures UnreadCount(AllRead(ns)) == 0
    ensures AllRead(AllRead(ns)) == AllRead(ns)
  {
  }

  /** The hook `useNotifications`: the stored list (absent until the first
      write) and the badge counter. */
  class Notifications {
    var stored: Option<seq<Notification>>
    var count: nat

    /** The counter is the number of unread stored notifications. */
    ghost predicate Valid()
      reads this
    {
      count == UnreadCount(Items())
    }

    /** `getNotifications`: the stored list, or none when nothing is stored. */
    function Items(): (r: seq<Notification>)
      reads this
      ensures stored.None? ==> r == []
      ensures stored.Some? ==> r == stored.value
    {
      stored.GetOr([])
    }

    /** Mounting the hook reads the store and counts the unread items. */
    constructor (stored: Option<seq<Notification>>)
      ensures this.stored == stored
      ensures Valid()
    {
      this.stored := stored;
      count := UnreadCount(stored.GetOr([]));
    }

    /** `addNotification`: an unread item goes to the front of the stored
        list and the counter goes up by one. */
    method AddNotification(id: int, text: string, now: int)
      modifies this
      ensures stored == Some([Notification(id, text, false, now)] + old(Items()))
      ensures count == old(count) + 1
      ensures old(Valid()) ==> Valid()
    {
      var items := Items();
      var item := Notification(id, text, false, now);
      stored := Some([item] + items);
      count := count + 1;
      CountCons([item] + items, IsUnread);
      assert ([item] + items)[1..] == items;
    }

    /** `markAllRead`: every stored item is marked read and the counter
        cleared. */
    method MarkAllRead()
      modifies this
      ensures stored == Some(AllRead(old(Items())))
      ensures count == 0
      ensures Valid()
    {
      stored := Some(AllRead(Items()));
      count := 0;
    }
  }

  /** What the badge shows: nothing at zero, "9+" above nine, else the digit. */
  function BadgeLabel(count: nat): (r: Option<string>)
    ensures r.None? <==> count == 0
    ensures count > 9 ==> r == Some("9+")
    ensures 0 < count <= 9 ==> r.Some? && |r.value| == 1 && r.value[0] as int - '0' as int == count
  {
    if count == 0 then None
    else if count > 9 then Some("9+")
    else Some([('0' as int + count) as char])
  }

  /** The label is never wider than two characters, and two characters mean
      more than nine. */
  lemma BadgeFits(count: nat)
    ensures BadgeLabel(count).Some? ==> 1 <= |BadgeLabel(count).value| <= 2
    ensures BadgeLabel(count).Some? && |BadgeLabel(count).value| == 2 <==> count > 9
  {
  }
}
