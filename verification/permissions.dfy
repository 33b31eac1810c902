/**
  The three permission hooks the plugin registers (metadata edit, entity
  edit, container write). Each receives the framework's own verdict
  `incoming` and may override it; the override is keyed on the global send
  flag, which `messages_send` raises to 1 for the duration of a send.
 */
module Permissions {

  import opened Store

  /** The flag value that switches the overrides on (the source compares with `== 1`). */
  predicate Elevated(flag: int) {
    flag == 1
  }

  /** messages_can_edit_metadata */
  function CanEditMetadata(flag: int, subtype: string, incoming: bool): (allowed: bool)
    ensures Elevated(flag) && subtype == MessagesSubtype ==> allowed
    ensures !(Elevated(flag) && subtype == MessagesSubtype) ==> allowed == incoming
  {
    if Elevated(flag) && subtype == MessagesSubtype then true else incoming
  }

  /** messages_can_edit */
  function CanEdit(flag: int, subtype: string, incoming: bool): (allowed: bool)
    ensures Elevated(flag) && subtype == MessagesSubtype ==> allowed
    ensures !(Elevated(flag) && subtype == MessagesSubtype) ==> allowed == incoming
  {
    if Elevated(flag) && subtype == MessagesSubtype then true else incoming
  }

  /** messages_can_edit_container: no subtype test, the flag alone decides. */
  function CanEditContainer(flag: int, incoming: bool): (allowed: bool)
    ensures Elevated(flag) ==> allowed
    ensures !Elevated(flag) ==> allowed == incoming
  {
    if Elevated(flag) then true else incoming
  }

  /** With the flag down the three hooks hand back the framework's verdict untouched. */
  lemma LoweredHooksAreTransparent(flag: int)
    requires !Elevated(flag)
    ensures forall st: string, v: bool :: CanEdit(flag, st, v) == v && CanEditMetadata(flag, st, v) == v
    ensures forall v: bool :: CanEditContainer(flag, v) == v
  {
  }
}
