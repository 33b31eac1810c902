/**
  messages_purge: when a user is deleted, every message-subtype entity whose
  fromId is that user is deleted, with the show-hidden and ignore-access
  toggles switched on for the duration and put back afterwards.
 */
module Purge {

  import opened Store
  import Send

  /** The rows that survive deleting everything `user` sent: the reference the purge is checked against. */
  function WithoutSentBy(store: map<nat, Message>, user: nat): (kept: map<nat, Message>)
    ensures forall g :: g in kept <==> g in store && !SentBy(store[g], user)
    ensures forall g :: g in kept ==> kept[g] == store[g]
  {
    map g | g in store && !SentBy(store[g], user) :: store[g]
  }

  /** The guids the purge's batch query yields: message entities whose fromId is `user`. */
  function SentByGuids(store: map<nat, Message>, user: nat): (gs: set<nat>)
    ensures forall g :: g in gs <==> g in store && SentBy(store[g], user)
  {
    set g | g in store && SentBy(store[g], user)
  }

  /** The world apart from its rows and the two toggles. */
  predicate SameExceptRowsAndToggles(w: World, w': World) {
    && w'.nextGuid == w.nextGuid
    && w'.sendFlag == w.sendFlag
    && w'.pmFlag == w.pmFlag
    && w'.relationships == w.relationships
    && w'.notifications == w.notifications
  }

  /** messages_purge for the user with guid `user`; the batch is consumed one entity at a time. */
  method PurgeUser(w: World, user: nat) returns (w': World)
    requires Valid(w)
    ensures Valid(w')
    ensures w'.showHidden == w.showHidden && w'.ignoreAccess == w.ignoreAccess
    ensures SameExceptRowsAndToggles(w, w')
    ensures user == 0 ==> w'.store == w.store
    ensures user != 0 ==> w'.store == WithoutSentBy(w.store, user)
  {
    if user == 0 {
      return w;
    }
    var hiddenBefore := w.showHidden;
    w' := w.(showHidden := true);
    var ignoreBefore := w'.ignoreAccess;
    w' := w'.(ignoreAccess := true);
    var batch := SentByGuids(w'.store, user);
    while batch != {}
      invariant batch <= SentByGuids(w.store, user)
      invariant forall g :: g in w'.store <==> g in w.store && (!SentBy(w.store[g], user) || g in batch)
      invariant forall g :: g in w'.store ==> w'.store[g] == w.store[g]
      invariant SameExceptRowsAndToggles(w, w') && w'.showHidden && w'.ignoreAccess
      decreases batch
    {
      var g :| g in batch;
      w' := w'.(store := w'.store - {g});
      batch := batch - {g};
    }
    PurgeMatchesReference(w, w', user);
    w' := w'.(ignoreAccess := ignoreBefore);
    w' := w'.(showHidden := hiddenBefore);
  }

  /** The purge removes exactly the rows of the reference filter. */
  lemma {:induction false} PurgeMatchesReference(w: World, w': World, user: nat)
    requires Valid(w) && user != 0
    requires forall g :: g in w'.store <==> g in w.store && !SentBy(w.store[g], user)
    requires forall g :: g in w'.store ==> w'.store[g] == w.store[g]
    ensures w'.store == WithoutSentBy(w.store, user)
  {
    var kept := WithoutSentBy(w.store, user);
    assert w'.store.Keys == kept.Keys;
  }

  /**
    Purging the sender undoes a send: both copies carry the sender as
    fromId, so the rows left are those the purge would have left before the
    message was sent.
   */
  lemma {:induction false} PurgeSenderUndoesSend(w: World, viewer: nat, args: Send.SendArgs, o: Send.SaveOutcomes)
    requires Valid(w)
    ensures var r := Send.SendMessage(w, viewer, args, o);
      var sender := Send.EffectiveSender(args, viewer);
      WithoutSentBy(r.world.store, sender) == WithoutSentBy(w.store, sender)
  {
    Send.SendAddsOnlyCopies(w, viewer, args, o);
    SentCopiesArePurged(w, viewer, args, Send.SendMessage(w, viewer, args, o));
  }

  lemma {:induction false} SentCopiesArePurged(w: World, viewer: nat, args: Send.SendArgs, r: Send.SendResult)
    requires Send.AddsOnlyCopies(w, viewer, args, r)
    ensures WithoutSentBy(r.world.store, Send.EffectiveSender(args, viewer)) == WithoutSentBy(w.store, Send.EffectiveSender(args, viewer))
  {
    AddedSentRowsArePurged(w.store, r.world.store, Send.NewGuids(r), Send.EffectiveSender(args, viewer));
  }

  /** Rows added on top of a store, all sent by `user`, are exactly what purging `user` takes away again. */
  lemma {:induction false} AddedSentRowsArePurged(before: map<nat, Message>, after: map<nat, Message>, added: set<nat>, user: nat)
    requires after.Keys == before.Keys + added
    requires forall g :: g in before ==> after[g] == before[g]
    requires forall g :: g in added && g !in before ==> SentBy(after[g], user)
    ensures WithoutSentBy(after, user) == WithoutSentBy(before, user)
  {
    var a := WithoutSentBy(after, user);
    var b := WithoutSentBy(before, user);
    assert a.Keys == b.Keys;
  }

  /** A message the user received from someone else is never lost to that user's purge. */
  lemma ReceivedMessagesSurvive(store: map<nat, Message>, user: nat, g: nat)
    requires g in store && store[g].fromId != user
    ensures g in WithoutSentBy(store, user) && WithoutSentBy(store, user)[g] == store[g]
  {
  }
}
