/**
 * The helpers shared by the dashboards: relative-time labels, the "Clear demo"
 * key filter, compact-mode persistence, section selection and the demo tour.
 */
module DashboardCommon {
  import opened Options
  import opened JsText
  import opened LocalStore

  // ----- timeAgo -----

  /** The unit of a relative-time label. */
  datatype AgoUnit = InSeconds | InMinutes | InHours | InDays

  function UnitSeconds(u: AgoUnit): nat {
    match u
    case InSeconds => 1
    case InMinutes => 60
    case InHours => 3600
    case InDays => 86400
  }

  /** The unit letter, which is never a digit. */
  function Suffix(u: AgoUnit): (r: string)
    ensures |r| == 1 && !IsDigit(r[0])
  {
    match u
    case InSeconds => "s"
    case InMinutes => "m"
    case InHours => "h"
    case InDays => "d"
  }

  /** A relative time: under ten seconds, a whole number of units, or the label of a
      date that does not parse (every comparison with NaN is false, so the day
      branch is taken and prints `NaNd`). */
  datatype Ago = JustNow | Elapsed(amount: int, unit: AgoUnit) | NotADate

  /** `timeAgo(date)` with `date` in epoch milliseconds (`None`: an invalid date) and
      `now` the clock. The elapsed whole seconds, rounded down, pick the bucket; the
      amount is those seconds divided by the unit, rounded down. */
  function TimeAgo(now: int, date: Option<int>): (r: Ago)
    ensures date.None? <==> r == NotADate
    ensures date.Some? ==>
              var diff := (now - date.value) / 1000;
              && (r == JustNow <==> diff < 10)
              && (r.Elapsed? ==> r.amount == diff / UnitSeconds(r.unit))
              && (r.Elapsed? && r.unit == InSeconds <==> 10 <= diff < 60)
              && (r.Elapsed? && r.unit == InMinutes <==> 60 <= diff < 3600)
              && (r.Elapsed? && r.unit == InHours <==> 3600 <= diff < 86400)
              && (r.Elapsed? && r.unit == InDays <==> 86400 <= diff)
  {
    match date
    case None => NotADate
    case Some(t) =>
      var diff := (now - t) / 1000;
      if diff < 10 then JustNow
      else if diff < 60 then Elapsed(diff, InSeconds)
      else if diff < 3600 then Elapsed(diff / 60, InMinutes)
      else if diff < 86400 then Elapsed(diff / 3600, InHours)
      else Elapsed(diff / 86400, InDays)
  }

  /** The label text: `just now`, e.g. `12s` or `3d`, or `NaNd`. */
  function AgoText(a: Ago): (r: string)
    ensures r == "just now" <==> a == JustNow
    ensures r == "NaNd" <==> a == NotADate
  {
    match a
    case JustNow => "just now"
    case Elapsed(n, u) =>
      NatToStringDigits(if n < 0 then -n else n);
      var t := IntToString(n) + Suffix(u);
      assert t[0] == IntToString(n)[0] && t[|t| - 1] == Suffix(u)[0];
      assert n >= 0 ==> IsDigit(NatToString(n)[0]);
      t
    case NotADate => "NaNd"
  }

  /** An elapsed label reads back as its amount under `parseInt`, and ends in its unit. */
  lemma AgoTextReadsBack(a: Ago)
    requires a.Elapsed?
    ensures ParseInt(AgoText(a)) == Some(a.amount)
    ensures var t := AgoText(a); |t| > 0 && t[|t| - 1] == Suffix(a.unit)[0]
  {
    var t := AgoText(a);
    var suffix := Suffix(a.unit);
    assert t == IntToString(a.amount) + suffix;
    ParseIntLeading(a.amount, suffix);
  }

  /** Different relative times never share a label. */
  lemma AgoTextInjective(a: Ago, b: Ago)
    requires AgoText(a) == AgoText(b)
    ensures a == b
  {
    if a.Elapsed? && b.Elapsed? {
      SameElapsedText(a, b);
    } else if a.Elapsed? {
      WordsAreNotNumbers(a, b);
    } else if b.Elapsed? {
      WordsAreNotNumbers(b, a);
    }
  }

  /** Two elapsed times with one label agree in amount and unit. */
  lemma SameElapsedText(a: Ago, b: Ago)
    requires a.Elapsed? && b.Elapsed? && AgoText(a) == AgoText(b)
    ensures a == b
  {
    var ua, ub := Suffix(a.unit), Suffix(b.unit);
    SplitLastChar(IntToString(a.amount), ua, IntToString(b.amount), ub);
    ParseIntRoundTrip(a.amount);
    ParseIntRoundTrip(b.amount);
    assert a.unit == b.unit by {
      match a.unit
      case InSeconds => {}
      case InMinutes => {}
      case InHours => {}
      case InDays => {}
    }
  }

  lemma SplitLastChar(x: string, u: string, y: string, v: string)
    requires |u| == 1 && |v| == 1 && x + u == y + v
    ensures x == y && u == v
  {
    var s := x + u;
    assert s[..|s| - 1] == x;
    assert s[..|s| - 1] == y;
  }

  /** An elapsed label never reads `just now` or `NaNd`. */
  lemma WordsAreNotNumbers(e: Ago, o: Ago)
    requires e.Elapsed? && !o.Elapsed?
    ensures AgoText(e) != AgoText(o)
  {
    NumberStart(e.amount, Suffix(e.unit));
    assert AgoText(e) == IntToString(e.amount) + Suffix(e.unit);
    var c := AgoText(o)[0];
    assert c == 'j' || c == 'N';
  }

  /** A written number starts with a minus sign or a digit. */
  lemma NumberStart(n: int, rest: string)
    ensures |IntToString(n) + rest| > 0
    ensures var c := (IntToString(n) + rest)[0]; c == '-' || IsDigit(c)
  {
    NatToStringDigits(if n < 0 then -n else n);
  }

  // ----- clear demo -----

  /** The keys "Clear demo" removes: the demo prefixes and the two flags. */
  predicate IsDemoKey(k: string) {
    && k != ""
    && ("demoMessages_" <= k || "demoJobs_" <= k || "demoAutoSeeded_" <= k
        || "demoApplications_" <= k || "demoLastRead_" <= k
        || k == "seenDemoTour" || k == "compactMode")
  }

  /** The store after "Clear demo": the demo keys gone, every other entry kept. */
  function Cleared(items: map<string, Value>): (r: map<string, Value>)
    ensures forall k :: k in r <==> k in items && !IsDemoKey(k)
    ensures forall k :: k in r ==> r[k] == items[k]
  {
    map k | k in items && !IsDemoKey(k) :: items[k]
  }

  /** A second "Clear demo" finds nothing to remove. */
  lemma ClearedIdempotent(items: map<string, Value>)
    ensures Cleared(Cleared(items)) == Cleared(items)
  {
    var once := Cleared(items);
    assert Cleared(once).Keys == once.Keys;
  }

  /** The "Clear demo" button: unless the dialog is declined, remove every demo key of
      the store's key list, one at a time. */
  method ClearDemo(store: Store, confirmed: bool)
    modifies store
    ensures confirmed ==> store.items == Cleared(old(store.items))
    ensures !confirmed ==> store.items == old(store.items)
  {
    if !confirmed {
      return;
    }
    var keys := store.items.Keys;
    ghost var start := store.items;
    while keys != {}
      invariant keys <= start.Keys
      invariant store.items == map k | k in start && (k in keys || !IsDemoKey(k)) :: start[k]
      decreases keys
    {
      var k :| k in keys;
      if IsDemoKey(k) {
        store.RemoveItem(k);
      }
      keys := keys - {k};
    }
  }

  // ----- compact mode -----

  const CompactKey: string := "compactMode"

  /** The compact button's label. */
  function CompactLabel(on: bool): (r: string)
    ensures r == "Compact" <==> !on
  {
    if on then "Compact ✓" else "Compact"
  }

  /** What compact mode writes: `'true'` or `'false'`. */
  function CompactValue(on: bool): Value {
    Text(if on then "true" else "false")
  }

  /** The restore rule: on exactly when the stored value is the text `true`. */
  function RestoredCompact(items: map<string, Value>): (on: bool)
    ensures on <==> Lookup(items, CompactKey) == Some(Text("true"))
  {
    CompactKey in items && items[CompactKey] == Text("true")
  }

  /** What is written is what a later page load restores. */
  lemma CompactRoundTrip(items: map<string, Value>, on: bool)
    ensures RestoredCompact(items[CompactKey := CompactValue(on)]) == on
  {
    assert "true" != "false" by {
      assert "true"[0] != "false"[0];
    }
  }

  // ----- the demo tour -----

  /** The tour's step titles. */
  const StepTitles: seq<string> :=
    ["Welcome to ChronoVize", "Messages", "Export", "Compact view", "Keyboard shortcuts"]

  /** The tour's primary button: `Done` on the last step, `Next` before it. */
  function NextLabel(idx: nat): (r: string)
    ensures r == "Done" <==> idx == |StepTitles| - 1
  {
    if idx == |StepTitles| - 1 then "Done" else "Next"
  }

  /** The tour overlay: whether it is on the page, the step shown, and what it shows. */
  class Tour {
    const store: Store
    var open: bool
    var idx: nat
    var title: string
    var buttonLabel: string

    /** While the overlay is up it shows a step that exists. */
    predicate Valid()
      reads this
    {
      open ==> idx < |StepTitles| && title == StepTitles[idx] && buttonLabel == NextLabel(idx)
    }

    constructor (store: Store)
      ensures this.store == store && !open && Valid()
    {
      this.store := store;
      open := false;
      idx := 0;
      title := "";
      buttonLabel := "";
    }

    /** `render()`: the title and the button of the current step. */
    method Render()
      requires idx < |StepTitles|
      modifies this
      ensures open == old(open) && idx == old(idx)
      ensures title == StepTitles[idx] && buttonLabel == NextLabel(idx)
    {
      title := StepTitles[idx];
      buttonLabel := if idx == |StepTitles| - 1 then "Done" else "Next";
    }

    /** `showDashboardTour()`: nothing when the overlay is already up, otherwise open it
        at the first step. */
    method Show()
      requires Valid()
      modifies this
      ensures Valid() && open
      ensures old(open) ==> idx == old(idx) && title == old(title) && buttonLabel == old(buttonLabel)
      ensures !old(open) ==> idx == 0 && title == StepTitles[0] && buttonLabel == "Next"
    {
      if open {
        return;
      }
      idx := 0;
      open := true;
      Render();
    }

    /** The Next button: advance one step; past the last step remove the overlay and
        record that the tour was seen. */
    method Next()
      requires Valid() && open
      modifies this, store
      ensures Valid() && idx == old(idx) + 1
      ensures idx == |StepTitles| ==> !open && store.items == old(store.items)["seenDemoTour" := Text("1")]
      ensures idx < |StepTitles| ==> open && store.items == old(store.items)
    {
      idx := idx + 1;
      if idx >= |StepTitles| {
        open := false;
        store.SetItem("seenDemoTour", Text("1"));
        return;
      }
      Render();
    }

    /** The Close button: remove the overlay; the tour is not marked as seen. */
    method Close()
      modifies this
      ensures !open && idx == old(idx) && Valid()
    {
      open := false;
    }
  }

  // ----- the dashboard shell -----

  /** The selection rule of `showSection`: flag `i` is set exactly for the entries whose
      id is `id`. */
  predicate SelectsOnly(ids: seq<string>, flags: seq<bool>, id: string) {
    |flags| == |ids| && forall i :: 0 <= i < |ids| ==> (flags[i] <==> ids[i] == id)
  }

  /** With distinct ids, selecting an id that is present marks exactly one entry. */
  lemma SelectsExactlyOne(ids: seq<string>, flags: seq<bool>, id: string, i: nat)
    requires forall a, b :: 0 <= a < b < |ids| ==> ids[a] != ids[b]
    requires SelectsOnly(ids, flags, id) && i < |ids| && ids[i] == id
    ensures flags[i] && forall j :: 0 <= j < |flags| && j != i ==> !flags[j]
  {
    forall j | 0 <= j < |flags| && j != i
      ensures !flags[j]
    {
      if j < i {
        assert ids[j] != ids[i];
      } else {
        assert ids[i] != ids[j];
      }
    }
  }

  /** The dashboard shell: the compact switch and its label, the sections and nav links
      (by their `data-section` / `data-nav` ids) with their active flag and
      `aria-current` value, and the current section. */
  class Dashboard {
    const store: Store
    const sectionIds: seq<string>
    const navIds: seq<string>
    var sectionActive: seq<bool>
    var navCurrent: seq<string>
    var currentSection: Option<string>
    var compact: bool
    var compactLabel: string

    predicate Valid()
      reads this
    {
      |sectionActive| == |sectionIds| && |navCurrent| == |navIds|
    }

    constructor (store: Store, sectionIds: seq<string>, navIds: seq<string>)
      ensures this.store == store && this.sectionIds == sectionIds && this.navIds == navIds
      ensures Valid() && currentSection.None? && !compact
    {
      this.store := store;
      this.sectionIds := sectionIds;
      this.navIds := navIds;
      sectionActive := seq(|sectionIds|, _ => false);
      navCurrent := seq(|navIds|, _ => "false");
      currentSection := None;
      compact := false;
      compactLabel := CompactLabel(false);
    }

    /** The start-up restore of compact mode, with the button label set to match. */
    method RestoreCompact()
      modifies this
      ensures compact == RestoredCompact(store.items) && compactLabel == CompactLabel(compact)
      ensures sectionActive == old(sectionActive) && navCurrent == old(navCurrent)
      ensures currentSection == old(currentSection)
    {
      compact := Lookup(store.items, CompactKey) == Some(Text("true"));
      compactLabel := CompactLabel(compact);
    }

    /** `toggleCompact(state)`: a given boolean sets the mode, no argument flips it; the
        new mode is persisted and the label follows it. */
    method ToggleCompact(state: Option<bool>)
      modifies this, store
      ensures compact == (if state.Some? then state.value else !old(compact))
      ensures store.items == old(store.items)[CompactKey := CompactValue(compact)]
      ensures compactLabel == CompactLabel(compact)
      ensures sectionActive == old(sectionActive) && navCurrent == old(navCurrent)
      ensures currentSection == old(currentSection)
    {
      var on := if state.Some? then state.value else !compact;
      compact := on;
      store.SetItem(CompactKey, Text(if on then "true" else "false"));
      compactLabel := CompactLabel(on);
    }

    /** `showSection(id)`: activate exactly the sections whose id is `id`, mark exactly
        the matching nav links as the current page, and remember `id`. */
    method ShowSection(id: string)
      requires Valid()
      modifies this
      ensures Valid() && SelectsOnly(sectionIds, sectionActive, id)
      ensures forall i :: 0 <= i < |navIds| ==> navCurrent[i] == (if navIds[i] == id then "page" else "false")
      ensures currentSection == Some(id)
      ensures compact == old(compact) && compactLabel == old(compactLabel)
    {
      var active := sectionActive;
      for i := 0 to |sectionIds|
        invariant |active| == |sectionIds|
        invariant forall j :: 0 <= j < i ==> (active[j] <==> sectionIds[j] == id)
      {
        active := active[i := sectionIds[i] == id];
      }
      var current := navCurrent;
      for i := 0 to |navIds|
        invariant |current| == |navIds|
        invariant forall j :: 0 <= j < i ==> current[j] == (if navIds[j] == id then "page" else "false")
      {
        current := current[i := if navIds[i] == id then "page" else "false"];
      }
      sectionActive, navCurrent := active, current;
      currentSection := Some(id);
    }

    /** The once-only tour: when `seenDemoTour` is missing or empty, show the tour and
        set the flag; otherwise do nothing. */
    method AutoTour(tour: Tour)
      requires tour.Valid() && tour.store == store
      modifies tour, store
      ensures tour.Valid()
      ensures var seen := Lookup(old(store.items), "seenDemoTour");
              if seen.None? || seen == Some(Text("")) then
                tour.open && store.items == old(store.items)["seenDemoTour" := Text("1")]
              else
                tour.open == old(tour.open) && tour.idx == old(tour.idx) && store.items == old(store.items)
    {
      var seen := Lookup(store.items, "seenDemoTour");
      if seen.None? || seen == Some(Text("")) {
        tour.Show();
        store.SetItem("seenDemoTour", Text("1"));
      }
    }
  }
}
