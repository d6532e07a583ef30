/**
 * The applications view of the employer dashboard: padding a short list with
 * synthetic rows, grouping applications by candidate, and the chart's label
 * truncation.
 */
module EmployerApplications {
  import opened JsText
  import opened EmployerUnread
  import EmployerSeed

  /** An application row. A field the row lacks is the empty string. */
  datatype Application = Application(id: string, candidate: string, candidateEmail: string, email: string,
                                     job: string, status: string, appliedAt: int)

  /** The fields the candidate key is taken from, in order of preference. */
  function KeyFields(a: Application): seq<string> {
    [a.candidateEmail, a.candidate, a.email, a.id]
  }

  /** `a.candidateEmail || a.candidate || a.email || a.id || a.candidate`. */
  function CandidateKey(a: Application): string {
    if a.candidateEmail != "" then a.candidateEmail
    else if a.candidate != "" then a.candidate
    else if a.email != "" then a.email
    else if a.id != "" then a.id
    else a.candidate
  }

  /** The key is the first non-empty field, and empty only when all four are. */
  lemma CandidateKeyIsFirstNonEmpty(a: Application)
    ensures CandidateKey(a) == "" <==> forall j :: 0 <= j < 4 ==> KeyFields(a)[j] == ""
    ensures forall i :: 0 <= i < 4 && KeyFields(a)[i] != "" && (forall j :: 0 <= j < i ==> KeyFields(a)[j] == "") ==>
              CandidateKey(a) == KeyFields(a)[i]
  {
    var f := KeyFields(a);
    assert f[0] == a.candidateEmail && f[1] == a.candidate && f[2] == a.email && f[3] == a.id;
  }

  /** One entry of the candidates map: the first row's name and email, a count, the rows. */
  datatype Group = Group(name: string, email: string, count: nat, rows: seq<Application>)

  /** The rows of one candidate, in their original order. */
  function RowsFor(apps: seq<Application>, k: string): (r: seq<Application>)
    ensures forall i :: 0 <= i < |r| ==> CandidateKey(r[i]) == k && r[i] in apps
  {
    if apps == [] then []
    else
      var a := apps[|apps| - 1];
      RowsFor(apps[..|apps| - 1], k) + (if CandidateKey(a) == k then [a] else [])
  }

  /** The map's keys in insertion order: each key where it first appears. */
  function KeysInOrder(apps: seq<Application>): seq<string> {
    if apps == [] then []
    else
      var keys := KeysInOrder(apps[..|apps| - 1]);
      var k := CandidateKey(apps[|apps| - 1]);
      if k in keys then keys else keys + [k]
  }

  /** Map insertion order is stable: the keys seen after the first `n` rows keep their
      places, and later rows only add keys at the end. */
  lemma {:induction false} KeysOrderStable(apps: seq<Application>, n: nat)
    requires n <= |apps|
    ensures KeysInOrder(apps[..n]) <= KeysInOrder(apps)
  {
    if n < |apps| {
      KeysOrderStable(apps[..|apps| - 1], n);
      assert apps[..|apps| - 1][..n] == apps[..n];
    } else {
      assert apps[..n] == apps;
    }
  }

  /** The first row's key is the map's first key. */
  lemma {:induction false} FirstRowKeyFirst(apps: seq<Application>)
    requires apps != []
    ensures |KeysInOrder(apps)| > 0 && KeysInOrder(apps)[0] == CandidateKey(apps[0])
  {
    if |apps| > 1 {
      FirstRowKeyFirst(apps[..|apps| - 1]);
    }
  }

  /** A key is in the map exactly when some row has it. */
  lemma {:induction false} KeyPresentIff(apps: seq<Application>, k: string)
    ensures k in KeysInOrder(apps) <==> RowsFor(apps, k) != []
  {
    if apps != [] {
      KeyPresentIff(apps[..|apps| - 1], k);
    }
  }

  /** No candidate appears twice in the map. */
  lemma {:induction false} KeysDistinct(apps: seq<Application>)
    ensures forall i, j :: 0 <= i < j < |KeysInOrder(apps)| ==> KeysInOrder(apps)[i] != KeysInOrder(apps)[j]
  {
    if apps != [] {
      KeysDistinct(apps[..|apps| - 1]);
    }
  }

  /** Every application lands in the group of its own key. */
  lemma {:induction false} EveryRowGrouped(apps: seq<Application>, i: nat)
    requires i < |apps|
    ensures apps[i] in RowsFor(apps, CandidateKey(apps[i]))
    ensures CandidateKey(apps[i]) in KeysInOrder(apps)
  {
    var p := apps[..|apps| - 1];
    if i < |apps| - 1 {
      EveryRowGrouped(p, i);
      assert p[i] == apps[i];
    }
    KeyPresentIff(apps, CandidateKey(apps[i]));
  }

  /** The total of the row counts over a list of keys. */
  function SumRows(apps: seq<Application>, keys: seq<string>): nat {
    if keys == [] then 0 else SumRows(apps, keys[..|keys| - 1]) + |RowsFor(apps, keys[|keys| - 1])|
  }

  /** Adding one row adds one to the total of every key list that holds its key once. */
  lemma {:induction false} SumRowsAppend(p: seq<Application>, a: Application, keys: seq<string>)
    requires forall i, j :: 0 <= i < j < |keys| ==> keys[i] != keys[j]
    ensures SumRows(p + [a], keys) == SumRows(p, keys) + (if CandidateKey(a) in keys then 1 else 0)
  {
    assert (p + [a])[..|p|] == p;
    if keys != [] {
      var q := keys[..|keys| - 1];
      SumRowsAppend(p, a, q);
      assert CandidateKey(a) in keys <==> CandidateKey(a) in q || CandidateKey(a) == keys[|keys| - 1];
    }
  }

  /** The group counts add up to the number of applications. */
  lemma {:induction false} CountsSumToTotal(apps: seq<Application>)
    ensures SumRows(apps, KeysInOrder(apps)) == |apps|
  {
    if apps != [] {
      var p := apps[..|apps| - 1];
      var a := apps[|apps| - 1];
      assert apps == p + [a];
      CountsSumToTotal(p);
      KeysDistinct(p);
      var keys := KeysInOrder(p);
      var k := CandidateKey(a);
      SumRowsAppend(p, a, keys);
      if k !in keys {
        KeyPresentIff(p, k);
        assert keys + [k] == KeysInOrder(apps);
        assert (keys + [k])[..|keys|] == keys;
        assert RowsFor(apps, k) == [a];
      }
    }
  }

  /** The entry of key `k` after the rows `apps`: its rows, their count, and the first
      row's name and email. */
  predicate GroupMatches(apps: seq<Application>, k: string, g: Group) {
    && g.rows == RowsFor(apps, k) && g.count == |g.rows| && g.rows != []
    && g.name == g.rows[0].candidate && g.email == g.rows[0].candidateEmail
  }

  /** `order` and `groups` are the candidates map after the rows `apps`. */
  predicate Grouped(apps: seq<Application>, order: seq<string>, groups: map<string, Group>) {
    && order == KeysInOrder(apps)
    && groups.Keys == set k | k in order
    && forall k :: k in groups ==> GroupMatches(apps, k, groups[k])
  }

  /** A row whose key is already in the map joins that key's group. */
  lemma GroupStepJoin(apps: seq<Application>, i: nat, order: seq<string>, groups: map<string, Group>)
    requires i < |apps| && Grouped(apps[..i], order, groups) && CandidateKey(apps[i]) in groups
    ensures var a := apps[i]; var g := groups[CandidateKey(a)];
            Grouped(apps[..i + 1], order, groups[CandidateKey(a) := g.(count := g.count + 1, rows := g.rows + [a])])
  {
    var a := apps[i];
    var key := CandidateKey(a);
    var g := groups[key];
    var groups' := groups[key := g.(count := g.count + 1, rows := g.rows + [a])];
    var next := apps[..i + 1];
    assert next == apps[..i] + [a];
    assert next[..i] == apps[..i];
    KeyPresentIff(apps[..i], key);
    forall k | k in groups'
      ensures GroupMatches(next, k, groups'[k])
    {
      if k == key {
        assert (g.rows + [a])[0] == g.rows[0];
      }
    }
  }

  /** A row with a new key opens a group of its own at the end of the key order. */
  lemma GroupStepOpen(apps: seq<Application>, i: nat, order: seq<string>, groups: map<string, Group>)
    requires i < |apps| && Grouped(apps[..i], order, groups) && CandidateKey(apps[i]) !in groups
    ensures var a := apps[i];
            Grouped(apps[..i + 1], order + [CandidateKey(a)],
                    groups[CandidateKey(a) := Group(a.candidate, a.candidateEmail, 1, [a])])
  {
    var a := apps[i];
    var key := CandidateKey(a);
    var next := apps[..i + 1];
    assert next == apps[..i] + [a];
    assert next[..i] == apps[..i];
    KeyPresentIff(apps[..i], key);
    var groups' := groups[key := Group(a.candidate, a.candidateEmail, 1, [a])];
    forall k | k in groups'
      ensures GroupMatches(next, k, groups'[k])
    {
    }
  }

  /** The candidate grouping loop: one map entry per key, created by the key's first row,
      whose count and rows grow with each row of that key. */
  method GroupByCandidate(apps: seq<Application>) returns (order: seq<string>, groups: map<string, Group>)
    ensures Grouped(apps, order, groups)
  {
    order, groups := [], map[];
    for i := 0 to |apps|
      invariant Grouped(apps[..i], order, groups)
    {
      var a := apps[i];
      var key := CandidateKey(a);
      if key in groups {
        GroupStepJoin(apps, i, order, groups);
        var s := groups[key];
        groups := groups[key := s.(count := s.count + 1, rows := s.rows + [a])];
      } else {
        GroupStepOpen(apps, i, order, groups);
        groups := groups[key := Group(a.candidate, a.candidateEmail, 1, [a])];
        order := order + [key];
      }
    }
    assert apps[..|apps|] == apps;
  }

  // ----- padding a short list -----

  /** The demo job a synthetic row points to. */
  datatype Job = Job(title: string, id: string)

  /** One pair of random draws: `Math.floor(Math.random() * 4)` and `Math.floor(Math.random() * 20)`. */
  type StatusPick = n: nat | n < 4
  type DayPick = n: nat | n < 20
  datatype Draw = Draw(status: StatusPick, days: DayPick)

  const Statuses: seq<string> := ["New", "Under review", "Interview", "Shortlisted"]
  const MinApps: nat := 12

  /** `job.title || job.id || 'Demo role'`. */
  function JobLabel(j: Job): (r: string)
    ensures r != ""
    ensures j.title != "" ==> r == j.title
    ensures j.title == "" && j.id != "" ==> r == j.id
  {
    if j.title != "" then j.title else if j.id != "" then j.id else "Demo role"
  }

  /** The `i`-th synthetic row: students and jobs taken round robin. */
  function PaddingRow(studs: seq<Person>, jobs: seq<Job>, now: int, i: nat, d: Draw): (a: Application)
    requires |studs| > 0 && |jobs| > 0
  {
    var stud := studs[i % |studs|];
    var job := jobs[i % |jobs|];
    Application("demo_aug_" + IntToString(now) + "_" + IntToString(i), stud.name, stud.email, "",
                JobLabel(job), Statuses[d.status], now - EmployerSeed.DayMs * (1 + d.days))
  }

  /** The first `k` synthetic rows. */
  function Padding(studs: seq<Person>, jobs: seq<Job>, now: int, draw: nat -> Draw, k: nat): (r: seq<Application>)
    requires |studs| > 0 && |jobs| > 0
    ensures |r| == k
  {
    if k == 0 then [] else Padding(studs, jobs, now, draw, k - 1) + [PaddingRow(studs, jobs, now, k - 1, draw(k - 1))]
  }

  /** Synthetic row `i` is the `i`-th round-robin row with the `i`-th draw. */
  lemma {:induction false} PaddingAt(studs: seq<Person>, jobs: seq<Job>, now: int, draw: nat -> Draw, k: nat, i: nat)
    requires |studs| > 0 && |jobs| > 0 && i < k
    ensures Padding(studs, jobs, now, draw, k)[i] == PaddingRow(studs, jobs, now, i, draw(i))
  {
    var prev := Padding(studs, jobs, now, draw, k - 1);
    assert Padding(studs, jobs, now, draw, k) == prev + [PaddingRow(studs, jobs, now, k - 1, draw(k - 1))];
    if i < k - 1 {
      PaddingAt(studs, jobs, now, draw, k - 1, i);
      assert Padding(studs, jobs, now, draw, k)[i] == prev[i];
    }
  }

  /** `loadApplications`' padding: below twelve rows, when there are demo students and
      jobs, append `12 - |apps|` synthetic rows; otherwise leave the list alone. */
  method PadApplications(apps: seq<Application>, studs: seq<Person>, jobs: seq<Job>, now: int, draw: nat -> Draw)
    returns (result: seq<Application>)
    ensures |apps| >= MinApps || studs == [] || jobs == [] ==> result == apps
    ensures |apps| < MinApps && studs != [] && jobs != [] ==>
              && |result| == MinApps
              && result[..|apps|] == apps
              && forall i :: 0 <= i < MinApps - |apps| ==>
                   result[|apps| + i] == PaddingRow(studs, jobs, now, i, draw(i))
  {
    result := apps;
    if |apps| < MinApps && |studs| > 0 && |jobs| > 0 {
      var needed := MinApps - |apps|;
      for i := 0 to needed
        invariant result == apps + Padding(studs, jobs, now, draw, i)
      {
        result := result + [PaddingRow(studs, jobs, now, i, draw(i))];
      }
      assert result[..|apps|] == apps;
      forall i | 0 <= i < needed
        ensures result[|apps| + i] == PaddingRow(studs, jobs, now, i, draw(i))
      {
        PaddingAt(studs, jobs, now, draw, needed, i);
      }
    }
  }

  /** Padded rows cycle through the students: row `i` is grouped under the email of
      student `i mod |studs|`. */
  lemma PaddingIsRoundRobin(studs: seq<Person>, jobs: seq<Job>, now: int, i: nat, d: Draw)
    requires |studs| > 0 && |jobs| > 0 && studs[i % |studs|].email != ""
    ensures CandidateKey(PaddingRow(studs, jobs, now, i, d)) == studs[i % |studs|].email
  {
  }

  // ----- the overview chart -----

  /** `lab.length > 30 ? lab.slice(0, 28) + '...' : lab`. */
  function ChartLabel(lab: string): (r: string)
    ensures |lab| <= 30 ==> r == lab
    ensures |lab| > 30 ==> |r| == 31 && lab[..28] <= r && r[28..] == "..."
  {
    if |lab| > 30 then lab[..28] + "..." else lab
  }
}
