/**
  messages_send as a transition of the abstract store. The framework's
  `save` is an oracle: each attempt carries the framework's own permission
  verdict and whether the write itself went through. The permission the
  save consults is the framework verdict passed through the plugin's hooks:
  the container hook for a create, the edit hook for an update.
 */
module Send {

  import opened Optional
  import opened Store
  import opened Permissions

  /** One call of ElggEntity::save as seen from the plugin. */
  datatype Attempt = Attempt(frameworkAllows: bool, stored: bool)

  /** The outcome of the four saves messages_send issues, in program order. */
  datatype SaveOutcomes = SaveOutcomes(toPublic: Attempt, sentPublic: Attempt, toPrivate: Attempt, sentPrivate: Attempt)

  /** An in-memory ElggObject: guid 0 until a save creates its row. */
  datatype Entity = Entity(guid: nat, attrs: Message)

  /** The arguments of messages_send; 0 stands for an omitted guid, as in the source. */
  datatype SendArgs = SendArgs(
    subject: string,
    body: string,
    recipient: nat,
    sender: nat,
    originalMsg: nat,
    notify: bool,
    addToSent: bool)

  datatype SendResult = SendResult(world: World, success: bool, toGuid: nat, sentGuid: nat)

  /** The permission the framework applies to a save, after the plugin's hooks have had their say. */
  predicate SavePermitted(flag: int, e: Entity, frameworkAllows: bool) {
    if e.guid == 0 then CanEditContainer(flag, frameworkAllows)
    else CanEdit(flag, e.attrs.subtype, frameworkAllows)
  }

  /** The entity rows of the world and the guid counter: all a save touches. */
  datatype Rows = Rows(store: map<nat, Message>, nextGuid: nat)

  predicate ValidRows(t: Rows) {
    GuidsBelow(t.store, t.nextGuid)
  }

  datatype Saved = Saved(rows: Rows, entity: Entity, ok: bool)

  /** ElggEntity::save with the send flag at `flag`: a create when the entity has no guid yet, an update otherwise. */
  function Save(t: Rows, flag: int, e: Entity, a: Attempt): (r: Saved)
    requires ValidRows(t)
    requires Tracked(t, e)
    ensures ValidRows(r.rows)
    ensures r.ok == (SavePermitted(flag, e, a.frameworkAllows) && a.stored)
    ensures r.entity.attrs == e.attrs
    ensures !r.ok ==> r.rows == t && r.entity == e
    ensures r.ok ==> r.entity.guid != 0 && r.rows.store == t.store[r.entity.guid := e.attrs]
    ensures e.guid != 0 ==> r.entity.guid == e.guid
    ensures r.ok && e.guid == 0 ==> r.entity.guid !in t.store
    ensures r.rows.store.Keys == t.store.Keys + (if r.ok then {r.entity.guid} else {})
    ensures forall g :: g in t.store && g != e.guid ==> r.rows.store[g] == t.store[g]
  {
    if !(SavePermitted(flag, e, a.frameworkAllows) && a.stored) then Saved(t, e, false)
    else if e.guid == 0 then
      var g := t.nextGuid;
      Saved(Rows(t.store[g := e.attrs], g + 1), e.(guid := g), true)
    else
      Saved(Rows(t.store[e.guid := e.attrs], t.nextGuid), e, true)
  }

  /** A guid as a set: empty for 0, the "no guid yet" value. */
  function Assigned(g: nat): set<nat> {
    if g == 0 then {} else {g}
  }

  /** An entity that has a guid has its row in the store. */
  predicate Tracked(t: Rows, e: Entity) {
    e.guid != 0 ==> e.guid in t.store
  }

  /** How a save round moves an entity's guid: kept once assigned, otherwise fresh exactly when written. */
  predicate Settled(before: Entity, written: bool, after: Entity, t: Rows) {
    && after.attrs == before.attrs
    && (before.guid != 0 ==> after.guid == before.guid)
    && (before.guid == 0 ==> (after.guid != 0 <==> written) && after.guid !in t.store)
  }

  datatype Pair = Pair(rows: Rows, to: Entity, sent: Entity, toOk: bool)

  /**
    One round of messages_send: save the recipient copy, then the sender
    copy when add_to_sent is set. The send flag is 1 for every save of the
    round, so the hooks, not the framework, decide the permission.
   */
  function SaveRound(t: Rows, to: Entity, sent: Entity, addToSent: bool, aTo: Attempt, aSent: Attempt): (p: Pair)
    requires ValidRows(t) && Tracked(t, to) && Tracked(t, sent)
    requires to.guid == 0 || to.guid != sent.guid
    requires to.attrs.subtype == MessagesSubtype && sent.attrs.subtype == MessagesSubtype
    ensures ValidRows(p.rows) && Tracked(p.rows, p.to) && Tracked(p.rows, p.sent)
    ensures p.toOk == aTo.stored
    ensures Settled(to, aTo.stored, p.to, t)
    ensures Settled(sent, addToSent && aSent.stored, p.sent, t)
    ensures p.to.guid == 0 || p.to.guid != p.sent.guid
    ensures p.rows.store.Keys == t.store.Keys + Assigned(p.to.guid) + Assigned(p.sent.guid)
    ensures forall g :: g in t.store && g != to.guid && g != sent.guid ==> p.rows.store[g] == t.store[g]
    ensures p.to.guid != 0 ==> p.rows.store[p.to.guid] == (if aTo.stored then to.attrs else t.store[to.guid])
    ensures p.sent.guid != 0 ==>
      p.rows.store[p.sent.guid] == (if addToSent && aSent.stored then sent.attrs else t.store[sent.guid])
  {
    ElevatedSaveIgnoresVerdict(t, to, aTo);
    var s1 := Save(t, 1, to, aTo);
    if addToSent then
      ElevatedSaveIgnoresVerdict(s1.rows, sent, aSent);
      var s2 := Save(s1.rows, 1, sent, aSent);
      Pair(s2.rows, s1.entity, s2.entity, s1.ok)
    else
      Pair(s1.rows, s1.entity, sent, s1.ok)
  }

  /** The same entity with private access: what messages_send sets before the second round. */
  function Privatised(e: Entity): (e': Entity)
    ensures e'.guid == e.guid && e'.attrs.access == Private
  {
    e.(attrs := e.attrs.(access := Private))
  }

  /** The row a copy ends up as: private once its private re-save went through. */
  function FinalRow(m: Message, privateSaved: bool): Message {
    if privateSaved then m.(access := Private) else m
  }

  /**
    The four saves of messages_send, in program order: a public round and a
    private round, each saving the recipient copy and then, when asked for,
    the sender copy. Both copies start without a guid.
   */
  function SaveCopies(t: Rows, to: Entity, sent: Entity, addToSent: bool, o: SaveOutcomes): (c: Pair)
    requires ValidRows(t) && to.guid == 0 && sent.guid == 0
    requires to.attrs.subtype == MessagesSubtype && sent.attrs.subtype == MessagesSubtype
    ensures ValidRows(c.rows)
    ensures c.toOk == o.toPublic.stored
    ensures c.to.guid != 0 <==> o.toPublic.stored || o.toPrivate.stored
    ensures c.sent.guid != 0 <==> addToSent && (o.sentPublic.stored || o.sentPrivate.stored)
    ensures c.to.guid !in t.store && c.sent.guid !in t.store
    ensures c.to.guid == 0 || c.to.guid != c.sent.guid
    ensures c.rows.store.Keys == t.store.Keys + Assigned(c.to.guid) + Assigned(c.sent.guid)
    ensures forall g :: g in t.store ==> c.rows.store[g] == t.store[g]
    ensures c.to.guid != 0 ==> c.rows.store[c.to.guid] == FinalRow(to.attrs, o.toPrivate.stored)
    ensures c.sent.guid != 0 ==> c.rows.store[c.sent.guid] == FinalRow(sent.attrs, o.sentPrivate.stored)
  {
    var p1 := SaveRound(t, to, sent, addToSent, o.toPublic, o.sentPublic);
    var p2 := SaveRound(p1.rows, Privatised(p1.to), Privatised(p1.sent), addToSent, o.toPrivate, o.sentPrivate);
    Pair(p2.rows, p2.to, p2.sent, p1.toOk)
  }

  /** The guid the message is sent from: an omitted sender means the logged-in user. */
  function EffectiveSender(args: SendArgs, viewer: nat): (sender: nat)
    ensures args.sender != 0 ==> sender == args.sender
    ensures args.sender == 0 ==> sender == viewer
  {
    if args.sender == 0 then viewer else args.sender
  }

  /** A fresh copy of the message for `mailbox`'s owner, before its first save. */
  function NewCopy(args: SendArgs, sender: nat, mailbox: nat): Message {
    Message(
      owner := mailbox, container := mailbox, access := Public,
      title := args.subject, description := args.body, subtype := MessagesSubtype,
      toId := args.recipient, fromId := sender,
      readYet := 0, hiddenFrom := 0, hiddenTo := 0, msg := None)
  }

  /** The fields every copy shares, whichever mailbox it is in. */
  predicate CopyOf(m: Message, args: SendArgs, sender: nat) {
    && m.subtype == MessagesSubtype
    && m.title == args.subject
    && m.description == args.body
    && m.toId == args.recipient
    && m.fromId == sender
    && m.readYet == 0 && m.hiddenFrom == 0 && m.hiddenTo == 0
    && m.msg == None
  }

  /** True when the notification branch of messages_send is taken. */
  predicate Notifies(args: SendArgs, viewer: nat) {
    args.recipient != viewer && args.notify
  }

  /** True when the reply branch of messages_send is taken. */
  predicate RecordsReply(args: SendArgs, success: bool) {
    args.originalMsg != 0 && success
  }

  /**
    messages_send. `viewer` is the logged-in guid (0 for nobody); `o` says
    how each of the four saves fared.
   */
  function SendMessage(w: World, viewer: nat, args: SendArgs, o: SaveOutcomes): (r: SendResult)
    requires Valid(w)
    ensures Valid(r.world)
    // the result is the outcome of the first recipient save, and the framework's verdict does not matter
    ensures r.success == o.toPublic.stored
    // the flag is down again on return; $messages_pm records the notify argument
    ensures r.world.sendFlag == 0
    ensures r.world.pmFlag == (if args.notify then 1 else 0)
    ensures r.world.showHidden == w.showHidden && r.world.ignoreAccess == w.ignoreAccess
    // the reply edge starts at the sender copy's guid (0 when that copy was never saved)
    ensures r.world.relationships == w.relationships +
      (if RecordsReply(args, r.success) then [Edge(r.sentGuid, "reply", args.originalMsg)] else [])
    // the notification goes to the recipient, about the recipient copy
    ensures r.world.notifications == w.notifications +
      (if Notifies(args, viewer) then [Notification(args.recipient, EffectiveSender(args, viewer), r.toGuid)] else [])
  {
    var sender := EffectiveSender(args, viewer);
    var toCopy := Entity(0, NewCopy(args, sender, args.recipient));
    var sentCopy := Entity(0, NewCopy(args, sender, sender));
    var c := SaveCopies(Rows(w.store, w.nextGuid), toCopy, sentCopy, args.addToSent, o);
    var edges := if RecordsReply(args, c.toOk) then w.relationships + [Edge(c.sent.guid, "reply", args.originalMsg)]
                 else w.relationships;
    var notes := if Notifies(args, viewer) then w.notifications + [Notification(args.recipient, sender, c.to.guid)]
                 else w.notifications;
    SendResult(
      w.(store := c.rows.store, nextGuid := c.rows.nextGuid, sendFlag := 0, pmFlag := if args.notify then 1 else 0,
         relationships := edges, notifications := notes),
      c.toOk, c.to.guid, c.sent.guid)
  }

  /** A send adds the copies it created and leaves every row that existed before exactly as it was. */
  lemma SendTouchesOnlyNewCopies(w: World, viewer: nat, args: SendArgs, o: SaveOutcomes)
    requires Valid(w)
    ensures var r := SendMessage(w, viewer, args, o);
      r.world.store.Keys == w.store.Keys + NewGuids(r)
    ensures var r := SendMessage(w, viewer, args, o);
      forall g :: g in w.store ==> r.world.store[g] == w.store[g]
  {
  }

  /** The recipient copy sits in the recipient's mailbox, unread and unhidden; it is private exactly when its private re-save went through. */
  lemma RecipientCopyFields(w: World, viewer: nat, args: SendArgs, o: SaveOutcomes)
    requires Valid(w)
    ensures var r := SendMessage(w, viewer, args, o);
      r.toGuid != 0 ==>
        var m := r.world.store[r.toGuid];
        && m.owner == args.recipient && m.container == args.recipient
        && CopyOf(m, args, EffectiveSender(args, viewer))
        && m.access == (if o.toPrivate.stored then Private else Public)
  {
  }

  /** The sender copy sits in the sender's mailbox and carries the same message as the recipient copy. */
  lemma SenderCopyFields(w: World, viewer: nat, args: SendArgs, o: SaveOutcomes)
    requires Valid(w)
    ensures var r := SendMessage(w, viewer, args, o);
      r.sentGuid != 0 ==>
        var m := r.world.store[r.sentGuid];
        && m.owner == EffectiveSender(args, viewer) && m.container == EffectiveSender(args, viewer)
        && CopyOf(m, args, EffectiveSender(args, viewer))
        && m.access == (if o.sentPrivate.stored then Private else Public)
  {
  }

  /**
    The recipient copy exists once either of its saves went through; the
    sender copy only when it was asked for and one of its saves went
    through. Each new copy has a fresh guid of its own.
   */
  lemma SendCreatesCopies(w: World, viewer: nat, args: SendArgs, o: SaveOutcomes)
    requires Valid(w)
    ensures var r := SendMessage(w, viewer, args, o);
      r.toGuid != 0 <==> o.toPublic.stored || o.toPrivate.stored
    ensures var r := SendMessage(w, viewer, args, o);
      r.sentGuid != 0 <==> args.addToSent && (o.sentPublic.stored || o.sentPrivate.stored)
    ensures var r := SendMessage(w, viewer, args, o);
      r.toGuid != 0 ==> r.toGuid !in w.store && r.toGuid in r.world.store
    ensures var r := SendMessage(w, viewer, args, o);
      r.sentGuid != 0 ==> r.sentGuid !in w.store && r.sentGuid in r.world.store
    ensures var r := SendMessage(w, viewer, args, o);
      r.toGuid != 0 ==> r.toGuid != r.sentGuid
  {
  }

  /** A reply edge is only ever recorded after the recipient copy was created, and never starts at that copy. */
  lemma ReplyEdgeNeverFromRecipientCopy(w: World, viewer: nat, args: SendArgs, o: SaveOutcomes)
    requires Valid(w)
    ensures var r := SendMessage(w, viewer, args, o);
      forall e :: e in r.world.relationships && e !in w.relationships ==>
        && e == Edge(r.sentGuid, "reply", args.originalMsg)
        && r.toGuid != 0 && e.from != r.toGuid
  {
    SendCreatesCopies(w, viewer, args, o);
  }

  /** The same outcomes with the framework's own permission verdicts all set to refuse. */
  function Refused(o: SaveOutcomes): (o': SaveOutcomes)
    ensures !o'.toPublic.frameworkAllows && !o'.sentPublic.frameworkAllows
    ensures !o'.toPrivate.frameworkAllows && !o'.sentPrivate.frameworkAllows
    ensures o'.toPublic.stored == o.toPublic.stored && o'.sentPublic.stored == o.sentPublic.stored
    ensures o'.toPrivate.stored == o.toPrivate.stored && o'.sentPrivate.stored == o.sentPrivate.stored
  {
    SaveOutcomes(
      o.toPublic.(frameworkAllows := false), o.sentPublic.(frameworkAllows := false),
      o.toPrivate.(frameworkAllows := false), o.sentPrivate.(frameworkAllows := false))
  }

  /** With the flag raised, a save of a message entity is decided by the store alone. */
  lemma {:induction false} ElevatedSaveIgnoresVerdict(t: Rows, e: Entity, a: Attempt)
    requires ValidRows(t)
    requires Tracked(t, e)
    requires e.attrs.subtype == MessagesSubtype
    ensures Save(t, 1, e, a) == Save(t, 1, e, a.(frameworkAllows := false))
    ensures Save(t, 1, e, a).ok == a.stored
  {
    assert SavePermitted(1, e, a.frameworkAllows) && SavePermitted(1, e, false);
  }

  /** With the flag down, a save the framework refuses fails even when the store would have taken it. */
  lemma LoweredSaveFollowsVerdict(t: Rows, e: Entity, a: Attempt)
    requires ValidRows(t)
    requires Tracked(t, e)
    ensures !a.frameworkAllows ==> !Save(t, 0, e, a).ok
  {
  }

  /**
    Raising the flag is what lets messages_send write into other users'
    mailboxes: the framework's own permission verdicts make no difference
    to anything a send does.
   */
  lemma {:induction false} SendIgnoresFrameworkVerdict(w: World, viewer: nat, args: SendArgs, o: SaveOutcomes)
    requires Valid(w)
    ensures SendMessage(w, viewer, args, o) == SendMessage(w, viewer, args, Refused(o))
  {
    var sender := EffectiveSender(args, viewer);
    CopiesIgnoreVerdict(Rows(w.store, w.nextGuid), Entity(0, NewCopy(args, sender, args.recipient)),
      Entity(0, NewCopy(args, sender, sender)), args.addToSent, o);
  }

  lemma {:induction false} CopiesIgnoreVerdict(t: Rows, to: Entity, sent: Entity, addToSent: bool, o: SaveOutcomes)
    requires ValidRows(t) && to.guid == 0 && sent.guid == 0
    requires to.attrs.subtype == MessagesSubtype && sent.attrs.subtype == MessagesSubtype
    ensures SaveCopies(t, to, sent, addToSent, o) == SaveCopies(t, to, sent, addToSent, Refused(o))
  {
    var o' := Refused(o);
    RoundIgnoresVerdict(t, to, sent, addToSent, o.toPublic, o.sentPublic);
    var p1 := SaveRound(t, to, sent, addToSent, o.toPublic, o.sentPublic);
    RoundIgnoresVerdict(p1.rows, Privatised(p1.to), Privatised(p1.sent), addToSent, o.toPrivate, o.sentPrivate);
  }

  lemma {:induction false} RoundIgnoresVerdict(t: Rows, to: Entity, sent: Entity, addToSent: bool, aTo: Attempt, aSent: Attempt)
    requires ValidRows(t) && Tracked(t, to) && Tracked(t, sent)
    requires to.guid == 0 || to.guid != sent.guid
    requires to.attrs.subtype == MessagesSubtype && sent.attrs.subtype == MessagesSubtype
    ensures SaveRound(t, to, sent, addToSent, aTo, aSent)
         == SaveRound(t, to, sent, addToSent, aTo.(frameworkAllows := false), aSent.(frameworkAllows := false))
  {
    ElevatedSaveIgnoresVerdict(t, to, aTo);
    var s1 := Save(t, 1, to, aTo);
    ElevatedSaveIgnoresVerdict(s1.rows, sent, aSent);
  }

  /** After a send the flag is down, so the hooks hand every later permission check back to the framework. */
  lemma SendLeavesNoElevation(w: World, viewer: nat, args: SendArgs, o: SaveOutcomes)
    requires Valid(w)
    ensures var flag := SendMessage(w, viewer, args, o).world.sendFlag;
      && (forall st: string, v: bool :: CanEdit(flag, st, v) == v && CanEditMetadata(flag, st, v) == v)
      && (forall v: bool :: CanEditContainer(flag, v) == v)
  {
    LoweredHooksAreTransparent(SendMessage(w, viewer, args, o).world.sendFlag);
  }

  /**
    The notify argument changes only the notification log and $messages_pm:
    the rest of the world and the result are the same with notify on or off.
   */
  lemma NotifyChangesOnlyNotifications(w: World, viewer: nat, args: SendArgs, o: SaveOutcomes)
    requires Valid(w)
    ensures var on := SendMessage(w, viewer, args.(notify := true), o);
      var off := SendMessage(w, viewer, args.(notify := false), o);
      && on.world.(notifications := off.world.notifications, pmFlag := off.world.pmFlag) == off.world
      && on.success == off.success && on.toGuid == off.toGuid && on.sentGuid == off.sentGuid
      && on.world.pmFlag == 1 && off.world.pmFlag == 0
      && off.world.notifications == w.notifications
  {
    assert NewCopy(args.(notify := true), EffectiveSender(args, viewer), args.recipient)
        == NewCopy(args.(notify := false), EffectiveSender(args, viewer), args.recipient);
    assert NewCopy(args.(notify := true), EffectiveSender(args, viewer), EffectiveSender(args, viewer))
        == NewCopy(args.(notify := false), EffectiveSender(args, viewer), EffectiveSender(args, viewer));
  }

  /** Messaging oneself while logged in never notifies, even with notify set. */
  lemma NoNotificationToViewer(w: World, viewer: nat, args: SendArgs, o: SaveOutcomes)
    requires Valid(w)
    requires args.recipient == viewer
    ensures SendMessage(w, viewer, args, o).world.notifications == w.notifications
  {
  }

  /** The empty store: no rows, nothing logged, both toggles off, the flag down. */
  function EmptyWorld(): (w: World)
    ensures Valid(w) && w.store == map[]
  {
    World(map[], 1, 0, 0, false, false, [], [])
  }

  /**
    The guard compares the recipient with the logged-in user, not with the
    sender: a message sent on behalf of user 7 to user 7 by logged-in user 5
    still notifies user 7.
   */
  lemma SelfAddressedOnBehalfStillNotifies()
    ensures var args := SendArgs("s", "b", 7, 7, 0, true, true);
      var r := SendMessage(EmptyWorld(), 5, args, SaveOutcomes(Attempt(true, true), Attempt(true, true), Attempt(true, true), Attempt(true, true)));
      r.world.notifications == [Notification(7, 7, r.toGuid)]
  {
  }

  /**
    The general form of the quirk above: whenever a user other than the
    logged-in one sends to themselves with notify set, they are notified of
    their own message.
   */
  lemma SelfAddressedOnBehalfNotifies(w: World, viewer: nat, args: SendArgs, o: SaveOutcomes)
    requires Valid(w)
    requires args.sender == args.recipient != 0 && args.recipient != viewer && args.notify
    ensures var r := SendMessage(w, viewer, args, o);
      r.world.notifications == w.notifications + [Notification(args.recipient, args.recipient, r.toGuid)]
  {
  }

  /**
    The notification guard does not look at the result of the saves: when
    neither recipient save went through, the recipient is still notified,
    about an object whose guid is 0.
   */
  lemma NotifiesEvenWhenNothingSaved(w: World, viewer: nat, args: SendArgs, o: SaveOutcomes)
    requires Valid(w)
    requires !o.toPublic.stored && !o.toPrivate.stored && Notifies(args, viewer)
    ensures var r := SendMessage(w, viewer, args, o);
      && !r.success
      && r.world.notifications == w.notifications + [Notification(args.recipient, EffectiveSender(args, viewer), 0)]
  {
    SendCreatesCopies(w, viewer, args, o);
  }

  /**
    With add_to_sent off the sender copy is never saved, yet a successful
    reply still records an edge, starting from guid 0.
   */
  lemma ReplyWithoutSentCopyStartsAtZero(w: World, viewer: nat, args: SendArgs, o: SaveOutcomes)
    requires Valid(w)
    requires !args.addToSent && args.originalMsg != 0 && o.toPublic.stored
    ensures SendMessage(w, viewer, args, o).world.relationships == w.relationships + [Edge(0, "reply", args.originalMsg)]
  {
  }

  /** Every save going through. */
  function AllStored(): (o: SaveOutcomes)
    ensures o.toPublic.stored && o.sentPublic.stored && o.toPrivate.stored && o.sentPrivate.stored
  {
    SaveOutcomes(Attempt(true, true), Attempt(true, true), Attempt(true, true), Attempt(true, true))
  }

  /**
    When every save goes through, a send adds exactly two private rows with
    add_to_sent and exactly one without it.
   */
  lemma {:induction false} HealthySendRowCount(w: World, viewer: nat, args: SendArgs)
    requires Valid(w)
    ensures var r := SendMessage(w, viewer, args, AllStored());
      && |r.world.store| == |w.store| + (if args.addToSent then 2 else 1)
      && r.world.store[r.toGuid].access == Private
      && (args.addToSent ==> r.world.store[r.sentGuid].access == Private)
  {
    var r := SendMessage(w, viewer, args, AllStored());
    SendCreatesCopies(w, viewer, args, AllStored());
    SendTouchesOnlyNewCopies(w, viewer, args, AllStored());
    RecipientCopyFields(w, viewer, args, AllStored());
    SenderCopyFields(w, viewer, args, AllStored());
    if args.addToSent {
      assert r.world.store.Keys == w.store.Keys + {r.toGuid} + {r.sentGuid};
      assert |r.world.store.Keys| == |w.store.Keys| + 2;
    } else {
      assert r.world.store.Keys == w.store.Keys + {r.toGuid};
    }
  }

  /** The guids of the copies a send created. */
  function NewGuids(r: SendResult): set<nat> {
    Assigned(r.toGuid) + Assigned(r.sentGuid)
  }

  /** What a send does to the rows, stated of an arbitrary result so that later proofs need not unfold the send. */
  predicate AddsOnlyCopies(w: World, viewer: nat, args: SendArgs, r: SendResult) {
    && r.world.store.Keys == w.store.Keys + NewGuids(r)
    && (forall g :: g in w.store ==> r.world.store[g] == w.store[g])
    && (r.toGuid != 0 ==> r.toGuid !in w.store && CopyOf(r.world.store[r.toGuid], args, EffectiveSender(args, viewer)))
    && (r.sentGuid != 0 ==> r.sentGuid !in w.store && CopyOf(r.world.store[r.sentGuid], args, EffectiveSender(args, viewer)))
  }

  lemma SendAddsOnlyCopies(w: World, viewer: nat, args: SendArgs, o: SaveOutcomes)
    requires Valid(w)
    ensures AddsOnlyCopies(w, viewer, args, SendMessage(w, viewer, args, o))
  {
    var r := SendMessage(w, viewer, args, o);
    SendCreatesCopies(w, viewer, args, o);
    SendTouchesOnlyNewCopies(w, viewer, args, o);
    RecipientCopyFields(w, viewer, args, o);
    SenderCopyFields(w, viewer, args, o);
  }
}
