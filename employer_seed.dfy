/**
 * The two seed generators of the employer dashboard. Each writes a synthetic
 * thread in one `setItem`, and only into a conversation that is still empty, so
 * seeding again is a no-op.
 */
module EmployerSeed {
  import opened Options
  import opened JsText
  import opened LocalStore
  import opened EmployerUnread

  const DayMs: int := 86400 * 1000
  const HourMs: int := 3600 * 1000
  const HalfHourMs: int := 1800 * 1000

  function Min(a: int, b: int): int {
    if a < b then a else b
  }

  /** The stored thread of `email` parses and holds no message. */
  predicate ThreadIsEmpty(items: map<string, Value>, email: string) {
    ParseThread(Lookup(items, MessagesKey(email))) == Some([])
  }

  /** Student `i` is the first one with this email. */
  predicate FirstWithEmail(students: seq<Person>, email: string, i: int) {
    0 <= i < |students| && students[i].email == email && forall j :: 0 <= j < i ==> students[j].email != email
  }

  /** `(students.find(s => s.email === email) || { name: 'Student' }).name`. */
  function StudentNameFor(students: seq<Person>, email: string): (name: string)
    ensures (forall i :: 0 <= i < |students| ==> students[i].email != email) ==> name == "Student"
    ensures forall i :: FirstWithEmail(students, email, i) ==> name == students[i].name
  {
    match FindStudent(students, email)
    case Some(p) => p.name
    case None => "Student"
  }

  // ----- seedDemoMessagesForStudent: employers write first, the student replies -----

  function RoleName(i: nat): string {
    ["Data Analyst", "Product", "DevOps"][i % 3]
  }

  function OutreachText(studentName: string, i: nat): string {
    "Hi " + FirstWord(studentName) + ", we think you'd be a great fit for our " + RoleName(i) + " role."
  }

  const StudentThanks: string := "Thanks \U{2014} I'd love to learn more."

  /** The message the `i`-th employer sends, `i + 1` days before `now`. */
  function Outreach(employers: seq<Person>, studentName: string, now: int, i: nat): Message
    requires i < |employers|
  {
    Message(employers[i].name, OutreachText(studentName, i), now - (i + 1) * DayMs)
  }

  /** The thread `seedDemoMessagesForStudent` writes: one message from each of the
      first three employers, each a day older than the one before, then the
      student's reply an hour ago, the newest of all. */
  function EmployerOutreach(employers: seq<Person>, studentName: string, now: int): (r: seq<Message>)
    ensures |r| == Min(3, |employers|) + 1
    ensures r[|r| - 1].from == studentName && r[|r| - 1].at == now - HourMs
    ensures forall i :: 0 <= i < |r| - 1 ==> r[i].from == employers[i].name && r[i].at == now - (i + 1) * DayMs
    ensures forall i, j :: 0 <= i < j < |r| - 1 ==> r[i].at > r[j].at
    ensures forall i :: 0 <= i < |r| - 1 ==> r[i].at < r[|r| - 1].at
  {
    seq(Min(3, |employers|), i requires 0 <= i < Min(3, |employers|) => Outreach(employers, studentName, now, i))
      + [Message(studentName, StudentThanks, now - HourMs)]
  }

  /** The `for` loop that pushes the samples. */
  method BuildEmployerOutreach(employers: seq<Person>, studentName: string, now: int) returns (samples: seq<Message>)
    ensures samples == EmployerOutreach(employers, studentName, now)
  {
    samples := [];
    var i := 0;
    while i < Min(3, |employers|)
      invariant 0 <= i <= Min(3, |employers|)
      invariant |samples| == i
      invariant forall k :: 0 <= k < i ==> samples[k] == Outreach(employers, studentName, now, k)
    {
      samples := samples + [Outreach(employers, studentName, now, i)];
      i := i + 1;
    }
    samples := samples + [Message(studentName, StudentThanks, now - HourMs)];
  }

  /** The store after `seedDemoMessagesForStudent(email)`. */
  function SeededDemo(items: map<string, Value>, email: string, students: seq<Person>,
                      employers: seq<Person>, now: int): (r: map<string, Value>)
    ensures forall k :: k != MessagesKey(email) ==> Lookup(r, k) == Lookup(items, k)
    ensures !ThreadIsEmpty(items, email) || email == "" || employers == [] ==> r == items
    ensures r != items ==> ReadOrEmpty(r, MessagesKey(email)) == EmployerOutreach(employers, StudentNameFor(students, email), now)
    ensures email != "" && ThreadIsEmpty(items, email) && |employers| > 0 ==>
              && r != items
              && Lookup(r, MessagesKey(email)) == Some(Thread(EmployerOutreach(employers, StudentNameFor(students, email), now)))
  {
    if email != "" && ThreadIsEmpty(items, email) && |employers| > 0 then
      items[MessagesKey(email) := Thread(EmployerOutreach(employers, StudentNameFor(students, email), now))]
    else items
  }

  /** Seeding twice is seeding once, whatever the clock says the second time. */
  lemma SeedDemoIdempotent(items: map<string, Value>, email: string, students: seq<Person>,
                           employers: seq<Person>, now1: int, now2: int)
    ensures var once := SeededDemo(items, email, students, employers, now1);
            SeededDemo(once, email, students, employers, now2) == once
  {
    var once := SeededDemo(items, email, students, employers, now1);
    if once != items {
      assert Lookup(once, MessagesKey(email)) == Some(Thread(EmployerOutreach(employers, StudentNameFor(students, email), now1)));
      assert !ThreadIsEmpty(once, email);
    }
  }

  /** `seedDemoMessagesForStudent(email)`. */
  method SeedDemoMessagesForStudent(store: Store, email: string, students: seq<Person>,
                                    employers: seq<Person>, now: int)
    modifies store
    ensures store.items == SeededDemo(old(store.items), email, students, employers, now)
  {
    if email == "" {
      return;
    }
    var key := MessagesKey(email);
    match ParseThread(Lookup(store.items, key)) {
      case None =>
        return;  // JSON.parse throws; the catch only logs
      case Some(existing) =>
        if |existing| > 0 {
          return;
        }
    }
    if |employers| == 0 {
      return;
    }
    var studentName := StudentNameFor(students, email);
    var samples := BuildEmployerOutreach(employers, studentName, now);
    store.SetItem(key, Thread(samples));
  }

  // ----- seedStudentsMessagesForStudent: students write first, an employer replies -----

  function IntroText(name: string): string {
    "Hi \U{2014} I'm " + FirstWord(name) + " and I'm interested in opportunities at your company."
  }

  function ReplyText(firstStudentName: string): string {
    "Thanks " + FirstWord(firstStudentName) + " \U{2014} we'll review and be in touch."
  }

  /** The first demo employer's name, else the signed-in user's name, else `Employer`. */
  function ReplierName(employers: seq<Person>, userName: string): string {
    if |employers| > 0 then employers[0].name
    else if userName != "" then userName
    else "Employer"
  }

  /** The message the `i`-th student sends, `i + 1` hours before `now`. */
  function Intro(students: seq<Person>, now: int, i: nat): Message
    requires i < |students|
  {
    Message(students[i].name, IntroText(students[i].name), now - (i + 1) * HourMs)
  }

  /** The thread `seedStudentsMessagesForStudent` writes: one message from each of
      the first three students, each an hour older than the one before, then an
      employer's reply half an hour ago, the newest of all. */
  function PeerThread(students: seq<Person>, employers: seq<Person>, userName: string, now: int): (r: seq<Message>)
    requires |students| > 0
    ensures |r| == Min(3, |students|) + 1
    ensures r[|r| - 1].from == ReplierName(employers, userName) && r[|r| - 1].at == now - HalfHourMs
    ensures forall i :: 0 <= i < |r| - 1 ==> r[i].from == students[i].name && r[i].at == now - (i + 1) * HourMs
    ensures forall i, j :: 0 <= i < j < |r| - 1 ==> r[i].at > r[j].at
    ensures forall i :: 0 <= i < |r| - 1 ==> r[i].at < r[|r| - 1].at
  {
    seq(Min(3, |students|), i requires 0 <= i < Min(3, |students|) => Intro(students, now, i))
      + [Message(ReplierName(employers, userName), ReplyText(students[0].name), now - HalfHourMs)]
  }

  /** The `students.slice(0, 3).forEach` that pushes the samples, then the reply. */
  method BuildPeerThread(students: seq<Person>, employers: seq<Person>, userName: string, now: int)
    returns (samples: seq<Message>)
    requires |students| > 0
    ensures samples == PeerThread(students, employers, userName, now)
  {
    samples := [];
    var first := students[..Min(3, |students|)];
    var i := 0;
    while i < |first|
      invariant 0 <= i <= |first|
      invariant |samples| == i
      invariant forall k :: 0 <= k < i ==> samples[k] == Intro(students, now, k)
    {
      samples := samples + [Message(first[i].name, IntroText(first[i].name), now - (i + 1) * HourMs)];
      i := i + 1;
    }
    var replier := ReplierName(employers, userName);
    samples := samples + [Message(replier, ReplyText(students[0].name), now - HalfHourMs)];
  }

  /** The store after `seedStudentsMessagesForStudent(email)`. */
  function SeededPeers(items: map<string, Value>, email: string, students: seq<Person>,
                       employers: seq<Person>, userName: string, now: int): (r: map<string, Value>)
    ensures forall k :: k != MessagesKey(email) ==> Lookup(r, k) == Lookup(items, k)
    ensures !ThreadIsEmpty(items, email) || email == "" || students == [] ==> r == items
    ensures r != items ==> |students| > 0 && ReadOrEmpty(r, MessagesKey(email)) == PeerThread(students, employers, userName, now)
    ensures email != "" && ThreadIsEmpty(items, email) && |students| > 0 ==>
              && r != items
              && Lookup(r, MessagesKey(email)) == Some(Thread(PeerThread(students, employers, userName, now)))
  {
    if email != "" && ThreadIsEmpty(items, email) && |students| > 0 then
      items[MessagesKey(email) := Thread(PeerThread(students, employers, userName, now))]
    else items
  }

  /** Populating twice is populating once. */
  lemma SeedPeersIdempotent(items: map<string, Value>, email: string, students: seq<Person>,
                            employers: seq<Person>, userName: string, now1: int, now2: int)
    ensures var once := SeededPeers(items, email, students, employers, userName, now1);
            SeededPeers(once, email, students, employers, userName, now2) == once
  {
    var once := SeededPeers(items, email, students, employers, userName, now1);
    if once != items {
      assert Lookup(once, MessagesKey(email)) == Some(Thread(PeerThread(students, employers, userName, now1)));
      assert !ThreadIsEmpty(once, email);
    }
  }

  /** `seedStudentsMessagesForStudent(email)`: true when it wrote a thread. */
  method SeedStudentsMessagesForStudent(store: Store, email: string, students: seq<Person>,
                                        employers: seq<Person>, userName: string, now: int)
    returns (seeded: bool)
    modifies store
    ensures seeded == (email != "" && ThreadIsEmpty(old(store.items), email) && |students| > 0)
    ensures store.items == SeededPeers(old(store.items), email, students, employers, userName, now)
    ensures seeded ==> ReadOrEmpty(store.items, MessagesKey(email)) == PeerThread(students, employers, userName, now)
    ensures !seeded ==> store.items == old(store.items)
  {
    if email == "" {
      return false;
    }
    var key := MessagesKey(email);
    match ParseThread(Lookup(store.items, key)) {
      case None =>
        return false;  // JSON.parse throws; the catch logs and returns false
      case Some(existing) =>
        if |existing| > 0 {
          return false;
        }
    }
    if |students| == 0 {
      return false;
    }
    var samples := BuildPeerThread(students, employers, userName, now);
    store.SetItem(key, Thread(samples));
    return true;
  }
}
