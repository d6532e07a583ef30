/**
 * The employer's conversation handlers: opening a thread (`loadConv`), sending,
 * simulating an incoming message and populating a thread from students. The
 * handlers' clock readings are all taken to be the same instant `now`.
 */
module EmployerConversation {
  import opened Options
  import opened JsText
  import opened LocalStore
  import opened EmployerUnread
  import opened EmployerSeed

  // ----- rendering decisions of loadConv -----

  /** The receipt under one of the viewer's own messages. */
  datatype Receipt = Seen | Delivered

  /** One rendered message: the viewer's own (right-aligned, with a receipt) or the other side's. */
  datatype Bubble = Mine(msg: Message, receipt: Receipt) | Theirs(msg: Message)

  /** `studentLastRead && studentLastRead >= m.at`: a NaN or zero stamp means not seen. */
  function ReceiptFor(counterpartRead: Option<int>, m: Message): (r: Receipt)
    ensures r == Seen ==> counterpartRead.Some? && m.at <= counterpartRead.value
    ensures counterpartRead.None? || counterpartRead == Some(0) ==> r == Delivered
    ensures counterpartRead.Some? && counterpartRead.value != 0 && m.at <= counterpartRead.value ==> r == Seen
  {
    if counterpartRead.Some? && counterpartRead.value != 0 && counterpartRead.value >= m.at then Seen else Delivered
  }

  /** The bubbles `loadConv` renders, in stored order. */
  function Bubbles(msgs: seq<Message>, me: string, counterpartRead: Option<int>): (r: seq<Bubble>)
    ensures |r| == |msgs|
    ensures forall i :: 0 <= i < |r| ==> r[i].msg == msgs[i] && (r[i].Mine? <==> msgs[i].from == me)
    ensures forall i :: 0 <= i < |r| && r[i].Mine? ==> r[i].receipt == ReceiptFor(counterpartRead, msgs[i])
  {
    seq(|msgs|, i requires 0 <= i < |msgs| =>
      if msgs[i].from == me then Mine(msgs[i], ReceiptFor(counterpartRead, msgs[i])) else Theirs(msgs[i]))
  }

  /** Once the student has read the thread at a non-zero time `t`, an own message shows
      `Seen` exactly when it is not newer than `t`. */
  lemma SeenAfterStudentReads(items: map<string, Value>, email: string, t: int, m: Message)
    requires t != 0
    ensures ReceiptFor(RawWatermark(items[LastReadKey(email, email) := Text(IntToString(t))], email, email), m) == Seen
        <==> t >= m.at
  {
    MarkReadRoundTrip(items, email, email, t);
  }

  /** A student who never opened the thread leaves every own message at `Delivered`. */
  lemma DeliveredUntilStudentReads(items: map<string, Value>, email: string, m: Message)
    requires LastReadKey(email, email) !in items
    ensures ReceiptFor(RawWatermark(items, email, email), m) == Delivered
  {
    ParseIntRoundTrip(0);
    assert IntToString(0) == "0";
  }

  // ----- timeAgo of the conversation view -----

  datatype TimeUnit = Seconds | Minutes | Hours | Days

  function UnitMs(u: TimeUnit): int {
    match u
    case Seconds => 1000
    case Minutes => 60 * 1000
    case Hours => 3600 * 1000
    case Days => 86400 * 1000
  }

  /** The unit letter, which is never a digit. */
  function UnitSuffix(u: TimeUnit): (r: string)
    ensures |r| == 1 && !IsDigit(r[0])
  {
    match u
    case Seconds => "s"
    case Minutes => "m"
    case Hours => "h"
    case Days => "d"
  }

  /** A rounded-down age: `amount` whole units. */
  datatype Age = Age(amount: int, unit: TimeUnit)

  /** The bucketing of `timeAgo(ts)`: whole seconds under a minute, whole minutes under
      an hour, whole hours under a day, whole days beyond. The amount is the elapsed
      time divided by the unit, rounded down. */
  function MessageAge(now: int, ts: int): (a: Age)
    ensures a.amount == (now - ts) / UnitMs(a.unit)
    ensures a.unit == Seconds <==> now - ts < 60 * 1000
    ensures a.unit == Minutes <==> 60 * 1000 <= now - ts < 3600 * 1000
    ensures a.unit == Hours <==> 3600 * 1000 <= now - ts < 86400 * 1000
    ensures a.unit == Days <==> 86400 * 1000 <= now - ts
  {
    var d := now - ts;
    var sec := d / 1000;
    if sec < 60 then Age(sec, Seconds)
    else
      var min := sec / 60;
      assert min == d / 60000;
      if min < 60 then Age(min, Minutes)
      else
        var hr := min / 60;
        assert hr == d / 3600000;
        if hr < 24 then Age(hr, Hours)
        else
          assert hr / 24 == d / 86400000;
          Age(hr / 24, Days)
  }

  /** The label shown under a bubble, e.g. `5m ago`. */
  function AgeText(a: Age): (r: string)
    ensures ParseInt(r) == Some(a.amount)
    ensures |r| >= 5 && r[|r| - 4..] == " ago" && r[|r| - 5] == UnitSuffix(a.unit)[0]
  {
    var tail := UnitSuffix(a.unit) + " ago";
    ParseIntLeading(a.amount, tail);
    IntToString(a.amount) + tail
  }

  // ----- handlers -----

  /** `loadConv`: read the selected thread, seed it if it is empty, render it, then
      mark it read for the viewer at `now` (unconditionally, with no clamp). */
  method LoadConv(store: Store, email: string, me: string, viewerEmail: string,
                  students: seq<Person>, employers: seq<Person>, now: int)
    returns (view: seq<Bubble>)
    modifies store
    ensures var seeded := SeededDemo(old(store.items), email, students, employers, now);
            && view == Bubbles(ReadOrEmpty(seeded, MessagesKey(email)), me, RawWatermark(seeded, email, email))
            && store.items == seeded[LastReadKey(email, viewerEmail) := Text(IntToString(now))]
  {
    var key := MessagesKey(email);
    var msgs := ReadOrEmpty(store.items, key);
    if msgs == [] {
      SeedDemoMessagesForStudent(store, email, students, employers, now);
      msgs := ReadOrEmpty(store.items, key);
    }
    var studentLastRead := RawWatermark(store.items, email, email);
    view := Bubbles(msgs, me, studentLastRead);
    store.SetItem(LastReadKey(email, viewerEmail), Text(IntToString(now)));
  }

  /** After `loadConv` at `now`, nothing in the thread is unread for the viewer, as long
      as no message is stamped after `now`. */
  lemma LoadConvClearsUnread(items: map<string, Value>, email: string, viewerName: string, viewerEmail: string,
                             students: seq<Person>, employers: seq<Person>, now: int)
    requires var msgs := ReadOrEmpty(SeededDemo(items, email, students, employers, now), MessagesKey(email));
             forall i :: 0 <= i < |msgs| ==> msgs[i].at <= now
    ensures var seeded := SeededDemo(items, email, students, employers, now);
            ComputeUnreadForStudent(seeded[LastReadKey(email, viewerEmail) := Text(IntToString(now))],
                                    email, viewerName, viewerEmail) == 0
  {
    var seeded := SeededDemo(items, email, students, employers, now);
    var after := seeded[LastReadKey(email, viewerEmail) := Text(IntToString(now))];
    KeysDisjoint(email, email, viewerEmail);
    assert Lookup(after, MessagesKey(email)) == Lookup(seeded, MessagesKey(email));
    MarkReadRoundTrip(seeded, email, viewerEmail, now);
    match ParseThread(Lookup(after, MessagesKey(email))) {
      case None =>
      case Some(msgs) =>
        assert msgs == ReadOrEmpty(seeded, MessagesKey(email));
        CaughtUpMeansNoUnread(msgs, viewerName, now);
        UnreadCountIsPositions(msgs, viewerName, now);
    }
  }

  /** Appending a message to a thread that parses changes its unread count by one
      exactly when the new message is unread. */
  lemma AppendCountsOnce(items: map<string, Value>, email: string, msgs: seq<Message>, m: Message,
                         viewerName: string, viewerEmail: string)
    requires ParseThread(Lookup(items, MessagesKey(email))) == Some(msgs)
    ensures ComputeUnreadForStudent(items[MessagesKey(email) := Thread(msgs + [m])], email, viewerName, viewerEmail)
         == ComputeUnreadForStudent(items, email, viewerName, viewerEmail)
            + (if IsUnread(m, viewerName, Watermark(items, email, viewerEmail)) then 1 else 0)
  {
    var after := items[MessagesKey(email) := Thread(msgs + [m])];
    KeysDisjoint(email, email, viewerEmail);
    assert Watermark(after, email, viewerEmail) == Watermark(items, email, viewerEmail);
    var w := Watermark(items, email, viewerEmail);
    UnreadAfterAppend(msgs, m, viewerName, w);
    UnreadCountIsPositions(msgs, viewerName, w);
    UnreadCountIsPositions(msgs + [m], viewerName, w);
  }

  /** The sender name of the message form: the user's name, or `Employer`. */
  function SenderName(userName: string): (r: string)
    ensures r != ""
    ensures userName != "" ==> r == userName
    ensures userName == "" ==> r == "Employer"
  {
    if userName != "" then userName else "Employer"
  }

  /** What a handler re-renders: the thread and the sidebar badge. */
  datatype Refresh = Refresh(view: seq<Bubble>, badge: Badge)

  /** The message form's submit handler as evidently intended: append the trimmed input
      to the selected thread (a malformed thread is replaced), then reload and update the
      badge. */
  method SendMessage(store: Store, email: string, userName: string, viewerEmail: string, input: string,
                     students: seq<Person>, employers: seq<Person>, now: int)
    returns (r: Option<Refresh>)
    modifies store
    ensures email == "" ==> r.None? && store.items == old(store.items)
    ensures email != "" ==>
      var msg := Message(SenderName(userName), Trim(input), now);
      var thread := ReadOrEmpty(old(store.items), MessagesKey(email)) + [msg];
      && store.items == old(store.items)[MessagesKey(email) := Thread(thread)]
                                        [LastReadKey(email, viewerEmail) := Text(IntToString(now))]
      && ReadOrEmpty(store.items, MessagesKey(email)) == thread
      && r.Some? && r.value.view == Bubbles(thread, userName, RawWatermark(old(store.items), email, email))
      && r.value.badge == BadgeFor(TotalUnread(store.items, students, userName, viewerEmail))
  {
    if email == "" {
      return None;
    }
    var key := MessagesKey(email);
    var msgs := ReadOrEmpty(store.items, key);
    msgs := msgs + [Message(SenderName(userName), Trim(input), now)];
    store.SetItem(key, Thread(msgs));
    ghost var appended := store.items;
    assert SeededDemo(appended, email, students, employers, now) == appended;
    var view := LoadConv(store, email, userName, viewerEmail, students, employers, now);
    KeysDisjoint(email, email, viewerEmail);
    var badge := UpdateEmployerBadge(store, students, userName, viewerEmail);
    r := Some(Refresh(view, badge));
  }

  /** The submit handler as written. It names the sender with `common.user`, but `common`
      is a local of the page's load handler, not in scope here, so the handler throws
      before `push`: nothing is written, reloaded or recounted. */
  method SendMessageAsWritten(store: Store, email: string, userName: string, viewerEmail: string, input: string,
                              students: seq<Person>, employers: seq<Person>, now: int)
    returns (r: Option<Refresh>)
    ensures r.None?
  {
    r := None;
  }

  /** With a student selected, the intended send adds exactly one message to the thread,
      so the store it leaves differs from the untouched store of the send as written. */
  lemma SendAsWrittenLosesMessage(items: map<string, Value>, email: string, userName: string, viewerEmail: string,
                                  input: string, now: int)
    requires email != ""
    ensures var thread := ReadOrEmpty(items, MessagesKey(email)) + [Message(SenderName(userName), Trim(input), now)];
            var sent := items[MessagesKey(email) := Thread(thread)][LastReadKey(email, viewerEmail) := Text(IntToString(now))];
            && |ReadOrEmpty(sent, MessagesKey(email))| == |ReadOrEmpty(items, MessagesKey(email))| + 1
            && sent != items
  {
    var thread := ReadOrEmpty(items, MessagesKey(email)) + [Message(SenderName(userName), Trim(input), now)];
    var appended := items[MessagesKey(email) := Thread(thread)];
    var sent := appended[LastReadKey(email, viewerEmail) := Text(IntToString(now))];
    KeysDisjoint(email, email, viewerEmail);
    assert Lookup(sent, MessagesKey(email)) == Some(Thread(thread));
    assert ReadOrEmpty(sent, MessagesKey(email)) == thread;
  }

  const SimulatedText: string := "(simulated) Hello \U{2014} this is a demo message from the student."

  /** The "Simulate incoming" button: append a message from the selected student.
      Unlike sending, a thread that does not parse makes it write nothing. */
  method SimulateIncoming(store: Store, email: string, students: seq<Person>, now: int)
    returns (posted: bool)
    modifies store
    ensures posted == (email != "" && ParseThread(Lookup(old(store.items), MessagesKey(email))).Some?)
    ensures !posted ==> store.items == old(store.items)
    ensures posted ==>
      var before := ParseThread(Lookup(old(store.items), MessagesKey(email))).value;
      store.items == old(store.items)[MessagesKey(email) :=
                       Thread(before + [Message(StudentNameFor(students, email), SimulatedText, now)])]
  {
    if email == "" {
      return false;
    }
    var key := MessagesKey(email);
    match ParseThread(Lookup(store.items, key)) {
      case None =>
        return false;  // JSON.parse throws; the catch only logs
      case Some(msgs) =>
        var studentName := StudentNameFor(students, email);
        store.SetItem(key, Thread(msgs + [Message(studentName, SimulatedText, now)]));
        return true;
    }
  }

  /** The "Populate from students" button: seed the thread from students and, when
      that wrote something, reload it and update the badge. */
  method PopulateFromStudents(store: Store, email: string, userName: string, viewerEmail: string,
                              students: seq<Person>, employers: seq<Person>, now: int)
    returns (r: Option<Refresh>)
    modifies store
    ensures r.Some? <==> email != "" && ThreadIsEmpty(old(store.items), email) && |students| > 0
    ensures r.None? ==> store.items == old(store.items)
    ensures r.Some? ==>
      && store.items == SeededPeers(old(store.items), email, students, employers, userName, now)
                          [LastReadKey(email, viewerEmail) := Text(IntToString(now))]
      && r.value.view == Bubbles(PeerThread(students, employers, userName, now), userName,
                                 RawWatermark(old(store.items), email, email))
      && r.value.badge == BadgeFor(TotalUnread(store.items, students, userName, viewerEmail))
  {
    if email == "" {
      return None;
    }
    var ok := SeedStudentsMessagesForStudent(store, email, students, employers, userName, now);
    if !ok {
      return None;
    }
    ghost var seeded := store.items;
    assert !ThreadIsEmpty(seeded, email);
    assert SeededDemo(seeded, email, students, employers, now) == seeded;
    var view := LoadConv(store, email, userName, viewerEmail, students, employers, now);
    var badge := UpdateEmployerBadge(store, students, userName, viewerEmail);
    r := Some(Refresh(view, badge));
  }
}
