/**
  messages_get_unread / messages_count_unread: the metadata query the
  plugin builds, and the records that query selects. Paging (limit, offset)
  and counting are carried out by the framework's query engine; the model
  records the options handed to it and defines the selection itself.
 */
module Unread {

  import opened Optional
  import opened Store
  import Send
  import Purge

  /** The options passed to elgg_get_entities_from_metadata. */
  datatype UnreadQuery = UnreadQuery(
    owner: nat,     // owner_guid
    toId: nat,      // metadata toId
    readYet: int,   // metadata readYet
    msg: int,       // metadata msg
    limit: nat,
    offset: nat,
    count: bool)

  /** The user a query is about: 0 means the logged-in user. */
  function ResolveUser(userGuid: nat, viewer: nat): (u: nat)
    ensures userGuid != 0 ==> u == userGuid
    ensures userGuid == 0 ==> u == viewer
  {
    if userGuid == 0 then viewer else userGuid
  }

  /** messages_get_unread; a missing `limit` takes the site's default limit. */
  function GetUnreadQuery(userGuid: nat, limit: Option<nat>, offset: nat, count: bool, viewer: nat, defaultLimit: nat): (q: UnreadQuery)
    ensures q.owner == ResolveUser(userGuid, viewer) && q.toId == q.owner
    ensures q.readYet == 0 && q.msg == 1
    ensures q.limit == (if limit.Some? then limit.value else defaultLimit)
    ensures q.offset == offset && q.count == count
  {
    var user := ResolveUser(userGuid, viewer);
    UnreadQuery(user, user, 0, 1, if limit.Some? then limit.value else defaultLimit, offset, count)
  }

  /** messages_count_unread: count mode, limit 10, offset 0. */
  function CountUnreadQuery(userGuid: nat, viewer: nat): (q: UnreadQuery)
    ensures q.count && q.limit == 10 && q.offset == 0
    ensures q.owner == ResolveUser(userGuid, viewer) && q.toId == q.owner
    ensures q.readYet == 0 && q.msg == 1
  {
    GetUnreadQuery(userGuid, Some(10), 0, true, viewer, 10)
  }

  /** The metadata filter: every pair must match, and the owner too. No subtype is asked for. */
  predicate Selects(q: UnreadQuery, m: Message) {
    && m.owner == q.owner
    && m.toId == q.toId
    && m.readYet == q.readYet
    && m.msg == Some(q.msg)
  }

  /** An unread message in `user`'s inbox: owned by and addressed to the user, not yet read, carrying msg = 1. */
  predicate IsUnread(m: Message, user: nat) {
    m.owner == user && m.toId == user && m.readYet == 0 && m.msg == Some(1)
  }

  /** The rows the unread query selects, before any paging. */
  function UnreadGuids(store: map<nat, Message>, user: nat): (gs: set<nat>)
    ensures forall g :: g in gs <==> g in store && IsUnread(store[g], user)
  {
    set g | g in store && IsUnread(store[g], user)
  }

  /** The query messages_get_unread builds selects exactly the unread messages of the resolved user. */
  lemma QuerySelectsUnread(userGuid: nat, limit: Option<nat>, offset: nat, count: bool, viewer: nat, defaultLimit: nat, m: Message)
    ensures Selects(GetUnreadQuery(userGuid, limit, offset, count, viewer, defaultLimit), m)
        <==> IsUnread(m, ResolveUser(userGuid, viewer))
  {
  }

  /**
    A sender's own copy of a message to someone else is never unread for
    anybody, whatever its metadata: it is owned by the sender but addressed
    to the recipient, and the query asks for both to be the same user.
   */
  lemma SentCopyNeverUnread(m: Message, sender: nat, recipient: nat, user: nat)
    requires m.owner == sender && m.toId == recipient && sender != recipient
    ensures !IsUnread(m, user)
  {
  }

  /**
    As written, the copies messages_send creates carry no msg metadata, so a
    send changes nobody's unread set.
   */
  lemma {:induction false} SendLeavesUnreadUnchanged(w: World, viewer: nat, args: Send.SendArgs, o: Send.SaveOutcomes, user: nat)
    requires Valid(w)
    ensures UnreadGuids(Send.SendMessage(w, viewer, args, o).world.store, user) == UnreadGuids(w.store, user)
  {
    Send.SendAddsOnlyCopies(w, viewer, args, o);
    CopiesAreNotUnread(w, viewer, args, Send.SendMessage(w, viewer, args, o), user);
  }

  lemma {:induction false} CopiesAreNotUnread(w: World, viewer: nat, args: Send.SendArgs, r: Send.SendResult, user: nat)
    requires Send.AddsOnlyCopies(w, viewer, args, r)
    ensures UnreadGuids(r.world.store, user) == UnreadGuids(w.store, user)
  {
    var after := UnreadGuids(r.world.store, user);
    var before := UnreadGuids(w.store, user);
    forall g | g in Send.NewGuids(r)
      ensures g !in after
    {
      assert r.world.store[g].msg == None;
    }
  }

  /**
    Purging a user removes from everybody's unread set exactly the messages
    that user sent, and nothing else.
   */
  lemma {:induction false} PurgeKeepsOtherUnread(store: map<nat, Message>, purged: nat, user: nat)
    ensures UnreadGuids(Purge.WithoutSentBy(store, purged), user)
         == (set g | g in UnreadGuids(store, user) && !SentBy(store[g], purged))
  {
    var kept := Purge.WithoutSentBy(store, purged);
    var lhs := UnreadGuids(kept, user);
    var rhs := set g | g in UnreadGuids(store, user) && !SentBy(store[g], purged);
    forall g | g in rhs
      ensures g in lhs
    {
      assert g in kept && kept[g] == store[g];
    }
  }
}
