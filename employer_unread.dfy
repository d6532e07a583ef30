/**
 * The employer dashboard's view of the conversation store: one thread per student
 * under `demoMessages_<studentEmail>`, one last-read watermark per (thread, viewer)
 * under `demoLastRead_<studentEmail>|<viewerEmail>`, and the unread counts and
 * badges computed from the two.
 */
module EmployerUnread {
  import opened Options
  import opened JsText
  import opened LocalStore
  import DashboardCommon

  /** A demo account of one role (student or employer), as the scripts filter them. */
  datatype Person = Person(name: string, email: string)

  const MessagesPrefix: string := "demoMessages_"
  const LastReadPrefix: string := "demoLastRead_"

  function MessagesKey(email: string): string {
    MessagesPrefix + email
  }

  function LastReadKey(convo: string, viewer: string): string {
    LastReadPrefix + convo + "|" + viewer
  }

  /** A thread key and a watermark key never coincide, so writing one leaves the other. */
  lemma KeysDisjoint(email: string, convo: string, viewer: string)
    ensures MessagesKey(email) != LastReadKey(convo, viewer)
  {
    assert MessagesKey(email)[4] == 'M';
    assert LastReadKey(convo, viewer)[4] == 'L';
  }

  /** The thread of `key` as the handlers read it: `let msgs = []; try { msgs = JSON.parse(...) } catch {}`. */
  function ReadOrEmpty(items: map<string, Value>, key: string): seq<Message> {
    match ParseThread(Lookup(items, key))
    case Some(msgs) => msgs
    case None => []
  }

  /** `parseInt(localStorage.getItem(lastReadKey(convo, viewer)) || '0', 10)`; `None` is NaN.
      The text of a message array starts with `[`, which `parseInt` rejects. */
  function RawWatermark(items: map<string, Value>, convo: string, viewer: string): (r: Option<int>)
    ensures Lookup(items, LastReadKey(convo, viewer)) in {None, Some(Text(""))} ==> r == Some(0)
    ensures (exists msgs :: Lookup(items, LastReadKey(convo, viewer)) == Some(Thread(msgs))) ==> r.None?
    ensures var v := Lookup(items, LastReadKey(convo, viewer));
            v.Some? && v.value.Text? && v.value.s != "" ==> r == ParseInt(v.value.s)
  {
    ParseIntRoundTrip(0);
    assert IntToString(0) == "0";
    match Lookup(items, LastReadKey(convo, viewer))
    case None => ParseInt("0")
    case Some(Text(s)) => ParseInt(if s == "" then "0" else s)
    case Some(Thread(_)) => None
  }

  /** The watermark as the unread count uses it: `... || 0`, so NaN reads as 0. */
  function Watermark(items: map<string, Value>, convo: string, viewer: string): (w: int)
    ensures RawWatermark(items, convo, viewer).None? ==> w == 0
    ensures RawWatermark(items, convo, viewer).Some? ==> w == RawWatermark(items, convo, viewer).value
    ensures LastReadKey(convo, viewer) !in items ==> w == 0
  {
    match RawWatermark(items, convo, viewer)
    case Some(w) => w
    case None => 0
  }

  /** A stored watermark text with no leading digits (`'abc'`, `'-'`, `'x12'`) counts as 0,
      and one with leading digits (`'12x'`) counts as their value. */
  lemma NonNumericWatermarkIsZero(items: map<string, Value>, convo: string, viewer: string, s: string)
    requires Lookup(items, LastReadKey(convo, viewer)) == Some(Text(s)) && s != ""
    ensures LeadingDigits(SignedBody(TrimStart(s))) == [] ==> Watermark(items, convo, viewer) == 0
    ensures ParseInt(s).Some? ==> Watermark(items, convo, viewer) == ParseInt(s).value
  {
  }

  /** `'abc'` as a watermark reads as 0 and `'12x'` as 12. */
  lemma MalformedWatermarkExamples(items: map<string, Value>, convo: string, viewer: string)
    ensures Watermark(items[LastReadKey(convo, viewer) := Text("abc")], convo, viewer) == 0
    ensures Watermark(items[LastReadKey(convo, viewer) := Text("12x")], convo, viewer) == 12
  {
    ParseIntLeading(12, "x");
    assert IntToString(12) + "x" == "12x";
  }

  /** `setLastRead` writes `String(ts)`; reading it back gives `ts` exactly. */
  lemma {:induction false} MarkReadRoundTrip(items: map<string, Value>, convo: string, viewer: string, ts: int)
    ensures RawWatermark(items[LastReadKey(convo, viewer) := Text(IntToString(ts))], convo, viewer) == Some(ts)
    ensures Watermark(items[LastReadKey(convo, viewer) := Text(IntToString(ts))], convo, viewer) == ts
  {
    ParseIntRoundTrip(ts);
    NatToStringDigits(if ts < 0 then -ts else ts);
    assert IntToString(ts) != "";
  }

  /** There is no clamp: marking read at an earlier time moves the watermark back. */
  lemma MarkReadRegresses(items: map<string, Value>, convo: string, viewer: string, t0: int, t1: int)
    requires t0 < t1
    ensures var k := LastReadKey(convo, viewer);
            Watermark(items[k := Text(IntToString(t1))][k := Text(IntToString(t0))], convo, viewer) == t0
  {
    var k := LastReadKey(convo, viewer);
    assert items[k := Text(IntToString(t1))][k := Text(IntToString(t0))] == items[k := Text(IntToString(t0))];
    MarkReadRoundTrip(items, convo, viewer, t0);
  }

  /** A message counts as unread for a viewer when someone else wrote it after the watermark. */
  predicate IsUnread(m: Message, viewerName: string, watermark: int) {
    m.from != viewerName && m.at > watermark
  }

  /** `msgs.filter(m => m.from !== viewerName && m.at > watermark)`. */
  function UnreadOf(msgs: seq<Message>, viewerName: string, watermark: int): (r: seq<Message>)
    ensures |r| <= |msgs|
    ensures forall i :: 0 <= i < |r| ==> IsUnread(r[i], viewerName, watermark)
  {
    if msgs == [] then []
    else
      var m := msgs[|msgs| - 1];
      UnreadOf(msgs[..|msgs| - 1], viewerName, watermark) + (if IsUnread(m, viewerName, watermark) then [m] else [])
  }

  /** The positions of the unread messages: the reference the count is checked against. */
  function UnreadPositions(msgs: seq<Message>, viewerName: string, watermark: int): set<nat> {
    set i: nat | i < |msgs| && IsUnread(msgs[i], viewerName, watermark)
  }

  /** The filtered list has one entry per unread position. */
  lemma {:induction false} UnreadCountIsPositions(msgs: seq<Message>, viewerName: string, watermark: int)
    ensures |UnreadOf(msgs, viewerName, watermark)| == |UnreadPositions(msgs, viewerName, watermark)|
  {
    if msgs == [] {
      assert UnreadPositions(msgs, viewerName, watermark) == {};
    } else {
      var n := |msgs| - 1;
      var p := msgs[..n];
      UnreadCountIsPositions(p, viewerName, watermark);
      var before := UnreadPositions(p, viewerName, watermark);
      var extra: set<nat> := if IsUnread(msgs[n], viewerName, watermark) then {n} else {};
      assert UnreadPositions(msgs, viewerName, watermark) == before + extra;
      assert n !in before;
    }
  }

  /** Appending one message raises the count by one exactly when that message is unread. */
  lemma UnreadAfterAppend(msgs: seq<Message>, m: Message, viewerName: string, watermark: int)
    ensures |UnreadOf(msgs + [m], viewerName, watermark)|
         == |UnreadOf(msgs, viewerName, watermark)| + (if IsUnread(m, viewerName, watermark) then 1 else 0)
  {
    assert (msgs + [m])[..|msgs|] == msgs;
  }

  /** Once the watermark is at or after every message, nothing is unread. */
  lemma {:induction false} CaughtUpMeansNoUnread(msgs: seq<Message>, viewerName: string, watermark: int)
    requires forall i :: 0 <= i < |msgs| ==> msgs[i].at <= watermark
    ensures UnreadOf(msgs, viewerName, watermark) == []
  {
    if msgs != [] {
      CaughtUpMeansNoUnread(msgs[..|msgs| - 1], viewerName, watermark);
    }
  }

  /** A later watermark never shows more unread messages. */
  lemma {:induction false} UnreadAntitone(msgs: seq<Message>, viewerName: string, w1: int, w2: int)
    requires w1 <= w2
    ensures |UnreadOf(msgs, viewerName, w2)| <= |UnreadOf(msgs, viewerName, w1)|
  {
    if msgs != [] {
      UnreadAntitone(msgs[..|msgs| - 1], viewerName, w1, w2);
    }
  }

  /** `computeUnreadForStudent`: the unread messages of the student's thread for the
      viewer, 0 when the stored thread does not parse. */
  function ComputeUnreadForStudent(items: map<string, Value>, studentEmail: string,
                                   viewerName: string, viewerEmail: string): (r: nat)
    ensures ParseThread(Lookup(items, MessagesKey(studentEmail))).None? ==> r == 0
    ensures ParseThread(Lookup(items, MessagesKey(studentEmail))).Some? ==>
              r == |UnreadPositions(ParseThread(Lookup(items, MessagesKey(studentEmail))).value,
                                    viewerName, Watermark(items, studentEmail, viewerEmail))|
  {
    match ParseThread(Lookup(items, MessagesKey(studentEmail)))
    case None => 0
    case Some(msgs) =>
      var w := Watermark(items, studentEmail, viewerEmail);
      UnreadCountIsPositions(msgs, viewerName, w);
      |UnreadOf(msgs, viewerName, w)|
  }

  /** The worked example: Alice, Bob, Alice at 100, 200, 300; Bob has read up to 150.
      Only Alice's message at 300 is unread for Bob, and none once he has read up to 300. */
  lemma UnreadExample()
    ensures var msgs := [Message("Alice", "", 100), Message("Bob", "", 200), Message("Alice", "", 300)];
            |UnreadOf(msgs, "Bob", 150)| == 1 && |UnreadOf(msgs, "Bob", 300)| == 0
  {
    var m0, m1, m2 := Message("Alice", "", 100), Message("Bob", "", 200), Message("Alice", "", 300);
    assert [] + [m0] == [m0];
    assert [m0] + [m1] == [m0, m1];
    assert [m0, m1] + [m2] == [m0, m1, m2];
    UnreadAfterAppend([], m0, "Bob", 150);
    UnreadAfterAppend([m0], m1, "Bob", 150);
    UnreadAfterAppend([m0, m1], m2, "Bob", 150);
    UnreadAfterAppend([], m0, "Bob", 300);
    UnreadAfterAppend([m0], m1, "Bob", 300);
    UnreadAfterAppend([m0, m1], m2, "Bob", 300);
  }

  /** The sidebar total: the sum of the per-student unread counts. */
  function TotalUnread(items: map<string, Value>, students: seq<Person>,
                       viewerName: string, viewerEmail: string): nat
  {
    if students == [] then 0
    else TotalUnread(items, students[..|students| - 1], viewerName, viewerEmail)
         + ComputeUnreadForStudent(items, students[|students| - 1].email, viewerName, viewerEmail)
  }

  /** The total is zero exactly when no student's conversation has anything unread. */
  lemma {:induction false} TotalZeroIff(items: map<string, Value>, students: seq<Person>,
                                         viewerName: string, viewerEmail: string)
    ensures TotalUnread(items, students, viewerName, viewerEmail) == 0
        <==> forall i :: 0 <= i < |students| ==>
               ComputeUnreadForStudent(items, students[i].email, viewerName, viewerEmail) == 0
  {
    if students != [] {
      var p := students[..|students| - 1];
      TotalZeroIff(items, p, viewerName, viewerEmail);
      assert forall i :: 0 <= i < |p| ==> p[i] == students[i];
    }
  }

  /** A badge element: hidden, or shown with a label. */
  datatype Badge = Hidden | Shown(text: string)

  /** The badge rule shared by the sidebar and the per-student badges: hidden at 0,
      the number itself up to 99, `99+` above. */
  function BadgeFor(n: nat): (b: Badge)
    ensures b.Hidden? <==> n == 0
    ensures n > 99 ==> b == Shown("99+")
    ensures 0 < n <= 99 ==> b.Shown? && ParseInt(b.text) == Some(n) && 1 <= |b.text| <= 2
  {
    if n > 0 then
      if n > 99 then Shown("99+")
      else
        ParseIntRoundTrip(n);
        assert n >= 10 ==> NatToString(n) == [DigitChar(n / 10)] + [DigitChar(n % 10)];
        Shown(IntToString(n))
    else Hidden
  }

  /** `updateEmployerBadge`: add up the unread count of every student's thread. */
  method UpdateEmployerBadge(store: Store, students: seq<Person>, viewerName: string, viewerEmail: string)
    returns (badge: Badge)
    ensures badge == BadgeFor(TotalUnread(store.items, students, viewerName, viewerEmail))
  {
    var total := 0;
    var i := 0;
    while i < |students|
      invariant 0 <= i <= |students|
      invariant total == TotalUnread(store.items, students[..i], viewerName, viewerEmail)
    {
      assert students[..i + 1][..i] == students[..i];
      total := total + ComputeUnreadForStudent(store.items, students[i].email, viewerName, viewerEmail);
      i := i + 1;
    }
    assert students[..i] == students;
    badge := BadgeFor(total);
  }

  /** The per-student step of `updateEmployerBadge` as written: it calls `getLastRead`,
      which is declared only inside `loadConv`, so the name does not resolve, the step
      throws before `total +=`, and its `catch` swallows the error. `None` is that throw. */
  function BadgeStepAsWritten(items: map<string, Value>, student: Person, viewerName: string): Option<nat> {
    None
  }

  /** `updateEmployerBadge` as written: no step ever adds to the total. */
  method UpdateEmployerBadgeAsWritten(store: Store, students: seq<Person>, viewerName: string, viewerEmail: string)
    returns (badge: Badge)
    ensures badge == Hidden
  {
    var total := 0;
    var i := 0;
    while i < |students|
      invariant 0 <= i <= |students|
      invariant total == 0
    {
      match BadgeStepAsWritten(store.items, students[i], viewerName) {
        case Some(n) => total := total + n;
        case None =>
      }
      i := i + 1;
    }
    badge := BadgeFor(total);
  }

  /** A store where the intended sidebar badge shows `1` and the as-written one is hidden. */
  lemma BadgeAsWrittenMissesUnread()
    ensures var s := Person("Ana Lee", "ana@uni.test");
            var items := map[MessagesKey(s.email) := Thread([Message("Ana Lee", "hi", 5)])];
            BadgeFor(TotalUnread(items, [s], "Acme HR", "hr@acme.test")) == Shown("1")
  {
    var s := Person("Ana Lee", "ana@uni.test");
    var items := map[MessagesKey(s.email) := Thread([Message("Ana Lee", "hi", 5)])];
    OneUnread(items, s.email, Message("Ana Lee", "hi", 5), "Acme HR", "hr@acme.test");
    assert [s][..0] == [];
    assert TotalUnread(items, [s], "Acme HR", "hr@acme.test") == 1;
    assert IntToString(1) == "1";
  }

  /** A lone message from someone else, with no watermark stored, is one unread message. */
  lemma OneUnread(items: map<string, Value>, email: string, m: Message, viewerName: string, viewerEmail: string)
    requires items == map[MessagesKey(email) := Thread([m])]
    requires m.from != viewerName && m.at > 0
    ensures ComputeUnreadForStudent(items, email, viewerName, viewerEmail) == 1
  {
    KeysDisjoint(email, email, viewerEmail);
    assert LastReadKey(email, viewerEmail) !in items;
    ParseIntRoundTrip(0);
    assert IntToString(0) == "0";
    assert Watermark(items, email, viewerEmail) == 0;
    UnreadAfterAppend([], m, viewerName, 0);
    assert [] + [m] == [m];
  }

  /** `students.find(s => s.email === email)`. */
  function FindStudent(students: seq<Person>, email: string): (r: Option<Person>)
    ensures r.None? <==> forall i :: 0 <= i < |students| ==> students[i].email != email
    ensures r.Some? ==> exists i :: 0 <= i < |students| && students[i] == r.value && r.value.email == email
                          && forall j :: 0 <= j < i ==> students[j].email != email
  {
    if students == [] then None
    else if students[0].email == email then
      Some(students[0])
    else
      var r := FindStudent(students[1..], email);
      if r.Some? then
        var i :| 0 <= i < |students[1..]| && students[1..][i] == r.value && r.value.email == email
                 && forall j :: 0 <= j < i ==> students[1..][j].email != email;
        assert students[i + 1] == r.value;
        r
      else r
  }

  /** `updateSelectedStudentBadge`: the badge beside the student picker. */
  function SelectedStudentBadge(items: map<string, Value>, students: seq<Person>, selected: string,
                                viewerName: string, viewerEmail: string): (b: Badge)
    ensures selected == "" ==> b == Hidden
    ensures (forall i :: 0 <= i < |students| ==> students[i].email != selected) ==> b == Hidden
    ensures b.Shown? ==> ComputeUnreadForStudent(items, selected, viewerName, viewerEmail) > 0
    ensures selected != "" && (exists i :: 0 <= i < |students| && students[i].email == selected) ==>
              b == BadgeFor(ComputeUnreadForStudent(items, selected, viewerName, viewerEmail))
  {
    if selected == "" then Hidden
    else match FindStudent(students, selected)
      case None => Hidden
      case Some(st) => BadgeFor(ComputeUnreadForStudent(items, st.email, viewerName, viewerEmail))
  }

  // ----- clearing the demo data -----

  /** Thread and watermark keys are demo keys, so "Clear demo" removes them. */
  lemma ConversationKeysAreDemo(email: string, convo: string, viewer: string)
    ensures DashboardCommon.IsDemoKey(MessagesKey(email))
    ensures DashboardCommon.IsDemoKey(LastReadKey(convo, viewer))
  {
    assert MessagesPrefix <= MessagesKey(email);
    assert LastReadPrefix <= LastReadKey(convo, viewer);
  }

  /** After "Clear demo" no conversation has anything unread, so the sidebar badge hides. */
  lemma {:induction false} ClearDemoHidesBadge(items: map<string, Value>, students: seq<Person>,
                                               viewerName: string, viewerEmail: string)
    ensures BadgeFor(TotalUnread(DashboardCommon.Cleared(items), students, viewerName, viewerEmail)) == Hidden
  {
    var cleared := DashboardCommon.Cleared(items);
    forall i | 0 <= i < |students|
      ensures ComputeUnreadForStudent(cleared, students[i].email, viewerName, viewerEmail) == 0
    {
      ConversationKeysAreDemo(students[i].email, students[i].email, viewerEmail);
      assert MessagesKey(students[i].email) !in cleared;
      assert UnreadPositions([], viewerName, Watermark(cleared, students[i].email, viewerEmail)) == {};
    }
    TotalZeroIff(cleared, students, viewerName, viewerEmail);
  }
}
