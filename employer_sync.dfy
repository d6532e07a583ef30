/**
 * The employer dashboard's `storage` listener: the decision it takes on the key
 * another tab changed, given the student selected in this tab.
 */
module EmployerSync {
  import opened Options
  import opened JsText
  import opened LocalStore
  import opened EmployerUnread
  import EmployerSeed
  import EmployerConversation

  /** Ignore the event, refresh the student list and badges, or also reload the open thread. */
  datatype Reaction = Ignore | RefreshBadges | RefreshAndReload

  /** A key of the conversation schema: a thread or a watermark. */
  predicate IsConversationKey(key: string) {
    MessagesPrefix <= key || LastReadPrefix <= key
  }

  /** The rule as written: a missing or empty key is ignored; any thread or watermark key
      refreshes; the open thread reloads on its own thread key, or on any key that starts
      with `demoLastRead_` followed by the selected email. */
  function OnStorageKey(key: Option<string>, selected: string): (r: Reaction)
    ensures r == Ignore <==> key.None? || !IsConversationKey(key.value)
    ensures r == RefreshAndReload <==>
              key.Some? && (key.value == MessagesKey(selected) || LastReadPrefix + selected <= key.value)
  {
    if key.None? || key.value == "" then Ignore
    else if !IsConversationKey(key.value) then Ignore
    else if key.value == MessagesKey(selected) || LastReadPrefix + selected <= key.value then RefreshAndReload
    else RefreshBadges
  }

  /** Another student's thread changing refreshes the badges but leaves the open thread alone. */
  lemma OtherThreadOnlyRefreshes(other: string, selected: string)
    requires other != selected
    ensures OnStorageKey(Some(MessagesKey(other)), selected) == RefreshBadges
  {
    assert MessagesPrefix <= MessagesKey(other);
    assert !(LastReadPrefix + selected <= MessagesKey(other)) by {
      assert MessagesKey(other)[4] == 'M';
    }
    assert MessagesKey(other) != MessagesKey(selected) by {
      assert MessagesKey(other)[|MessagesPrefix|..] == other;
      assert MessagesKey(selected)[|MessagesPrefix|..] == selected;
    }
  }

  /** The reload test is a prefix test: a watermark of any email that merely starts
      with the selected one reloads the open thread too. */
  lemma WatermarkPrefixReloads(selected: string, extra: string, viewer: string)
    ensures OnStorageKey(Some(LastReadKey(selected + extra, viewer)), selected) == RefreshAndReload
  {
    assert LastReadKey(selected + extra, viewer) == (LastReadPrefix + selected) + (extra + "|" + viewer);
  }

  /** As written, the key `loadConv` writes when it marks the thread read,
      `demoLastRead_<selected>|<viewer>`, makes another tab with the same thread open
      reload it, which writes the key again with a later clock reading: two such tabs
      keep reloading each other. */
  lemma ReloadWriteRetriggers(selected: string, viewer: string)
    ensures OnStorageKey(Some(LastReadKey(selected, viewer)), selected) == RefreshAndReload
  {
    WatermarkPrefixReloads(selected, "", viewer);
    assert selected + "" == selected;
  }

  /** The corrected rule: reload on the open thread's own key, or on the key of the one
      watermark the rendering reads (the student's, which decides Seen/Delivered). */
  function OnStorageKeyCorrected(key: Option<string>, selected: string): (r: Reaction)
    ensures r == Ignore <==> key.None? || !IsConversationKey(key.value)
    ensures r == RefreshAndReload <==>
              key.Some? && (key.value == MessagesKey(selected) || key.value == LastReadKey(selected, selected))
  {
    if key.None? || key.value == "" then Ignore
    else if !IsConversationKey(key.value) then Ignore
    else if key.value == MessagesKey(selected) || key.value == LastReadKey(selected, selected) then RefreshAndReload
    else RefreshBadges
  }

  /** Under the corrected rule the viewer's own watermark write no longer reloads the
      peer tab, while a new message in the open thread still does. */
  lemma CorrectedReloadSettles(selected: string, viewer: string)
    requires viewer != selected
    ensures OnStorageKeyCorrected(Some(LastReadKey(selected, viewer)), selected) == RefreshBadges
    ensures OnStorageKeyCorrected(Some(MessagesKey(selected)), selected) == RefreshAndReload
  {
    var k := LastReadKey(selected, viewer);
    assert LastReadPrefix <= k;
    KeysDisjoint(selected, selected, viewer);
    var p := LastReadPrefix + selected + "|";
    assert k != LastReadKey(selected, selected) by {
      assert k[|p|..] == viewer;
      assert LastReadKey(selected, selected)[|p|..] == selected;
    }
  }

  /** After a reload, the last message flashes when someone else wrote it. */
  function FlashesIncoming(items: map<string, Value>, selected: string, me: string): (flash: bool)
    ensures flash <==> var msgs := ReadOrEmpty(items, MessagesKey(selected));
                       |msgs| > 0 && msgs[|msgs| - 1].from != me
  {
    match ParseThread(Lookup(items, MessagesKey(selected)))
    case None => false
    case Some(msgs) => |msgs| > 0 && msgs[|msgs| - 1].from != me
  }

  /** A message appended to the open thread flashes exactly when someone other than the
      viewer wrote it. */
  lemma FlashAfterAppend(items: map<string, Value>, selected: string, msgs: seq<Message>, m: Message, me: string)
    ensures FlashesIncoming(items[MessagesKey(selected) := Thread(msgs + [m])], selected, me) <==> m.from != me
  {
  }

  /** The store "Simulate incoming" leaves behind when it posts flashes in the other tab
      exactly when that tab's viewer is not the student. */
  lemma SimulatedMessageFlashes(items: map<string, Value>, email: string, students: seq<Person>, now: int, me: string)
    requires ParseThread(Lookup(items, MessagesKey(email))).Some?
    ensures var before := ParseThread(Lookup(items, MessagesKey(email))).value;
            var sender := EmployerSeed.StudentNameFor(students, email);
            var after := items[MessagesKey(email) := Thread(before + [Message(sender, EmployerConversation.SimulatedText, now)])];
            FlashesIncoming(after, email, me) <==> sender != me
  {
    var before := ParseThread(Lookup(items, MessagesKey(email))).value;
    var sender := EmployerSeed.StudentNameFor(students, email);
    FlashAfterAppend(items, email, before, Message(sender, EmployerConversation.SimulatedText, now), me);
  }

  /** The store a sent message leaves behind never flashes for the name it was sent under
      (the user's name, or `Employer` when that is empty). */
  lemma SentMessageDoesNotFlash(items: map<string, Value>, email: string, userName: string, viewerEmail: string,
                                input: string, now: int)
    ensures var me := EmployerConversation.SenderName(userName);
            var thread := ReadOrEmpty(items, MessagesKey(email)) + [Message(me, Trim(input), now)];
            var after := items[MessagesKey(email) := Thread(thread)][LastReadKey(email, viewerEmail) := Text(IntToString(now))];
            !FlashesIncoming(after, email, me)
  {
    var me := EmployerConversation.SenderName(userName);
    var thread := ReadOrEmpty(items, MessagesKey(email)) + [Message(me, Trim(input), now)];
    var appended := items[MessagesKey(email) := Thread(thread)];
    KeysDisjoint(email, email, viewerEmail);
    assert Lookup(appended[LastReadKey(email, viewerEmail) := Text(IntToString(now))], MessagesKey(email))
        == Lookup(appended, MessagesKey(email));
    FlashAfterAppend(items, email, ReadOrEmpty(items, MessagesKey(email)), Message(me, Trim(input), now), me);
  }

  /** Another tab of the same employer takes `me` from the user's name with `''` as the
      default, while the sent message is from `Employer` when that name is empty: that tab
      flashes the employer's own message exactly when the name is empty. */
  lemma SentMessageFlashesOtherTabIffNameless(items: map<string, Value>, email: string, userName: string,
                                              viewerEmail: string, input: string, now: int)
    ensures var thread := ReadOrEmpty(items, MessagesKey(email))
                          + [Message(EmployerConversation.SenderName(userName), Trim(input), now)];
            var after := items[MessagesKey(email) := Thread(thread)][LastReadKey(email, viewerEmail) := Text(IntToString(now))];
            FlashesIncoming(after, email, userName) <==> userName == ""
  {
    var msg := Message(EmployerConversation.SenderName(userName), Trim(input), now);
    var thread := ReadOrEmpty(items, MessagesKey(email)) + [msg];
    var appended := items[MessagesKey(email) := Thread(thread)];
    KeysDisjoint(email, email, viewerEmail);
    assert Lookup(appended[LastReadKey(email, viewerEmail) := Text(IntToString(now))], MessagesKey(email))
        == Lookup(appended, MessagesKey(email));
    FlashAfterAppend(items, email, ReadOrEmpty(items, MessagesKey(email)), msg, userName);
  }
}
