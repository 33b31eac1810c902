/**
  The abstract entity store the plugin works against. Every message copy is
  an object entity whose metadata (toId, fromId, readYet, hiddenFrom,
  hiddenTo, msg) and attributes (owner, container, access, title,
  description, subtype) are gathered in one `Message` record. The `World`
  also holds the request-wide globals the plugin reads and writes, and logs
  of the relationship edges and notifications it asked the framework for.
 */
module Store {

  import opened Optional

  /** The subtype name every copy created by a send carries. */
  const MessagesSubtype: string := "messages"

  /** The two access levels the plugin uses: ACCESS_PRIVATE and ACCESS_PUBLIC. */
  datatype Access = Private | Public

  datatype Message = Message(
    owner: nat,
    container: nat,
    access: Access,
    title: string,
    description: string,
    subtype: string,
    toId: nat,
    fromId: nat,
    readYet: int,
    hiddenFrom: int,
    hiddenTo: int,
    msg: Option<int>)   // the `msg` metadata the unread query filters on; None when never set

  /** One call to add_entity_relationship(from, name, to). */
  datatype Edge = Edge(from: nat, name: string, to: nat)

  /** One call to notify_user(to, from, ...) about the entity with guid `object`. */
  datatype Notification = Notification(to: nat, from: nat, object: nat)

  datatype World = World(
    store: map<nat, Message>,   // persisted entities by guid; guid 0 is never used
    nextGuid: nat,              // the guid the next successful create receives
    sendFlag: int,              // the global $messagesendflag
    pmFlag: int,                // the global $messages_pm
    showHidden: bool,           // the framework's show-hidden-entities toggle
    ignoreAccess: bool,         // the framework's ignore-access toggle
    relationships: seq<Edge>,
    notifications: seq<Notification>)

  /** Guids are positive and every persisted guid lies below the next one to be handed out. */
  predicate GuidsBelow(store: map<nat, Message>, nextGuid: nat) {
    && nextGuid >= 1
    && forall g :: g in store ==> 1 <= g < nextGuid
  }

  predicate Valid(w: World) {
    GuidsBelow(w.store, w.nextGuid)
  }

  /** A message-subtype entity whose sender is `user`: what the purge deletes. */
  predicate SentBy(m: Message, user: nat) {
    m.subtype == MessagesSubtype && m.fromId == user
  }
}
