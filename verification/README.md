# Elgg internal messages plugin: a Dafny model

This project models the logic of the Elgg `messages` plugin (`mod/messages/start.php`). The plugin lets users send private messages to each other. Each message is stored as two entity copies: one in the recipient's inbox and, optionally, one in the sender's sent tray. The model covers four parts of the plugin:

- **Routing** (`Routes`). `messages_page_handler` is a pure function from the path segments under `messages/` and the logged-in user to a route (`Inbox`, `Sent`, `Read`, `Compose`), to not-found, or to the anonymous-visitor redirect. It is checked against `RoutePath`, the canonical path of each route. The module also holds the URL override `messages_set_url` and the hover-menu entry `messages_user_hover_menu`.
- **Sending** (`Send`). `messages_send` is a transition of an abstract store (`Store.World`). The store is a map from guid to a `Message` record. It also holds the global send flag, the global `$messages_pm`, the two access toggles, and logs of the reply edges and notifications requested.
  - Each of the four saves the function issues is an oracle `Attempt`. It carries the framework's own permission verdict and whether the write went through.
  - The permission a save actually gets is that verdict passed through the plugin's hooks. A create goes through the container hook and an update through the edit hook; these hooks are registered at start.php:54-56.
  - A create assigns the next free guid. A create that fails leaves the entity without a guid; an update that fails leaves the row as it was.
- **Permission hooks** (`Permissions`). These are the three override hooks, as decisions over (flag, subtype, incoming verdict).
- **Purge and unread** (`Purge`, `Unread`). `messages_purge` is a loop over the batch of matching guids, checked against the reference filter `WithoutSentBy`. `messages_get_unread` and `messages_count_unread` are modelled as the query options they build, together with the selection those options describe.

Three behaviours of the code are modelled as written, because they differ from the natural reading:

- The notification guard compares the recipient with the logged-in user, not with the sender (start.php:310). A message sent on behalf of user 7 to user 7 therefore still notifies user 7 (`Send.SelfAddressedOnBehalfNotifies`, with `Send.SelfAddressedOnBehalfStillNotifies` as a concrete instance). One might expect the guard to compare the recipient with the sender; the code compares it with the logged-in user, and so does the model.
- The reply edge starts at `$message_sent->guid` even when the sender copy was never saved. In that case its guid is still 0 (`Send.ReplyWithoutSentCopyStartsAtZero`).
- The notification guard does not test `$success`. When neither recipient save went through, the recipient is still notified, about an object whose guid is 0 (`Send.NotifiesEvenWhenNothingSaved`).

Nothing in `start.php` sets the `msg` metadata that the unread query filters on. As a result, copies created by `messages_send` never match that query (`Unread.SendLeavesUnreadUnchanged`). Code outside this file may set `msg`; that code is not part of this model.

Other details of the code that the model keeps:
- The unread query also filters on `toId`.
- The unread query has no subtype filter.
- The toggles are restored only on normal completion of the purge, because the source has no `finally`.
- `messages_set_url` returns nothing for other objects. A plugin hook that returns null keeps the value it was given, so the model returns the proposed URL unchanged.

## Model

| member | source | states |
|---|---|---|
| Routes.Dispatch | mod/messages/start.php:97-120 | A request is served exactly when its keyword is one of inbox/sent/read/compose/add. inbox, sent and read pass the second segment to their view; compose and add open the same form. |
| Routes.PageHandler | mod/messages/start.php:69-121 | An anonymous visitor is always redirected and nobody else ever is. A logged-in visitor is served exactly when the defaulted first segment is a keyword or the visitor's own username. |
| Routes.LegacyInboxFold | mod/messages/start.php:86-91 | messages/<own username>/<anything> opens the visitor's own inbox. Any second segment is overwritten. |
| Routes.LegacyEqualsInbox | mod/messages/start.php:86-91 | messages/<own username> and messages/inbox/<own username> resolve to the same route. |
| Routes.NoFoldForOtherNames | mod/messages/start.php:86-97 | A first segment other than the visitor's own username is never folded. It goes to the keyword table unchanged, with the second segment defaulting to the visitor's username. |
| Routes.Defaults | mod/messages/start.php:82-95 | An empty path opens the visitor's inbox. A lone keyword that is not the visitor's username takes that username as its argument, so `read` alone reads the guid "<username>". |
| Routes.ComposeAndAddAgree | mod/messages/start.php:113-116 | For a visitor not named compose or add, compose and add reach the same compose view, whatever follows them. |
| Routes.RoutePathRoundTrip | mod/messages/start.php:82-120 | Every route is produced by its canonical path, for any visitor whose username is not itself a keyword. |
| Routes.KeywordUsernameShadowsRoute | mod/messages/start.php:86-91 | A user whose username is one of the keywords is sent to their own inbox by every two-segment path starting with that keyword. Unless the keyword is inbox, that is not the route the keyword would otherwise give. |
| Routes.SetUrl | mod/messages/start.php:346-351 | A messages entity gets a URL of three segments: messages, read and its decimal guid. Other objects keep the URL the framework proposed. |
| Routes.MessageUrlRoundTrip | mod/messages/start.php:346-351 | The URL given to a message routes back to the read view of that same guid, for any visitor not named `read`. |
| Routes.HoverMenu | mod/messages/start.php:401-412 | The "send message" action, linking to compose?send_to=<guid>, is appended for a logged-in viewer looking at someone else. Otherwise the menu is returned unchanged. |
| Routes.HoverMenuNeverSelf | mod/messages/start.php:404 | Nobody is offered to message themselves, and anonymous visitors are offered nothing. |
| Permissions.CanEditMetadata | mod/messages/start.php:164-176 | With the flag at 1, metadata edits on message entities are allowed. In every other case the framework's verdict is returned unchanged. |
| Permissions.CanEdit | mod/messages/start.php:182-194 | With the flag at 1, edits to message entities are allowed. In every other case the framework's verdict is returned unchanged. |
| Permissions.CanEditContainer | mod/messages/start.php:212-221 | With the flag at 1, container writes are allowed for any subtype. Otherwise the framework's verdict is returned unchanged. |
| Permissions.LoweredHooksAreTransparent | mod/messages/start.php:164-221 | With the flag at any value other than 1, all three hooks are the identity on the framework's verdict. |
| Send.Save | mod/messages/start.php:54-56 | A save succeeds exactly when the hook-adjusted permission and the store both agree. A successful create gets a fresh positive guid. An update keeps the guid. Only the saved entity's row changes. |
| Send.SaveRound | mod/messages/start.php:287-301 | In one round the recipient save's outcome is decided by the store alone. The sender copy is saved only with add_to_sent. Rows other than the two copies are untouched. |
| Send.SaveCopies | mod/messages/start.php:287-301 | After both rounds, the recipient copy exists iff one of its saves went through, and the sender copy iff add_to_sent is set and one of its saves went through. Both are fresh, distinct rows. Each is private exactly when its private re-save went through. |
| Send.EffectiveSender | mod/messages/start.php:249-252 | A sender guid of 0 is replaced by the logged-in user's guid. Any other value is kept. |
| Send.SendMessage | mod/messages/start.php:235-335 | The result is the outcome of the first recipient save. The flag is 0 on return. `$messages_pm` records notify. A reply edge is appended iff original_msg_guid is nonzero and that save succeeded. A notification to the recipient about the recipient copy is appended iff notify is set and the recipient is not the logged-in user. |
| Send.SendCreatesCopies | mod/messages/start.php:287-301 | A send creates the recipient copy iff one of its saves went through, and the sender copy only on request. The new guids are fresh and distinct. |
| Send.SendTouchesOnlyNewCopies | mod/messages/start.php:287-301 | After a send the store is the old store plus the new copies. Every earlier row is unchanged. |
| Send.RecipientCopyFields | mod/messages/start.php:254-285 | The recipient copy is owned and contained by the recipient. It carries the subject and body, toId = recipient, fromId = sender, and zero readYet/hiddenFrom/hiddenTo. It is private exactly when its private re-save went through. |
| Send.SenderCopyFields | mod/messages/start.php:254-285 | The sender copy is owned and contained by the effective sender, with the same shared fields as the recipient copy. |
| Send.ReplyEdgeNeverFromRecipientCopy | mod/messages/start.php:303-307 | Any edge a send adds is a `reply` edge from the sender copy's guid to the original message. It is added only after the recipient copy was created, and never starts at that copy. |
| Send.ReplyWithoutSentCopyStartsAtZero | mod/messages/start.php:305-306 | Without add_to_sent, a successful reply still records an edge, and that edge starts at guid 0. |
| Send.ElevatedSaveIgnoresVerdict | mod/messages/start.php:164-221 | With the flag at 1, a save of a message entity does not depend on the framework's permission verdict. |
| Send.LoweredSaveFollowsVerdict | mod/messages/start.php:212-221 | With the flag at 0, a save the framework refuses fails even when the store would accept it. |
| Send.SendIgnoresFrameworkVerdict | mod/messages/start.php:238-239 | Because the flag is raised for the whole send, every outcome of messages_send is the same as when the framework refuses every permission. |
| Send.SendLeavesNoElevation | mod/messages/start.php:333 | After a send returns, every hook hands the framework's verdict back unchanged. |
| Send.NotifyChangesOnlyNotifications | mod/messages/start.php:242-331 | The notify argument changes only the notification log and `$messages_pm` (1 with notify, 0 without). The rest of the world, the guids and the result are identical either way, and with notify off nothing is sent. |
| Send.NoNotificationToViewer | mod/messages/start.php:310 | A message whose recipient is the logged-in user never triggers a notification. |
| Send.SelfAddressedOnBehalfStillNotifies | mod/messages/start.php:310 | The guard tests the logged-in user, not the sender. A message from 7 to 7, sent while user 5 is logged in, notifies 7. |
| Send.SelfAddressedOnBehalfNotifies | mod/messages/start.php:249-331 | Whenever the sender is the recipient and is not the logged-in user, a send with notify set notifies the recipient of their own message, about the recipient copy. |
| Send.NotifiesEvenWhenNothingSaved | mod/messages/start.php:287-331 | When neither recipient save went through, the send reports failure and still notifies the recipient, about guid 0. |
| Send.HealthySendRowCount | mod/messages/start.php:287-301 | When every save goes through, a send adds exactly two rows with add_to_sent and one without. Every new row is private. |
| Send.SendAddsOnlyCopies | mod/messages/start.php:254-301 | A send adds only fresh rows, each a copy of the message from the effective sender, and changes no other row. |
| Purge.WithoutSentBy | mod/messages/start.php:432-442 | The rows kept are exactly those that are not message entities sent by the user. They keep their values. |
| Purge.SentByGuids | mod/messages/start.php:432-438 | The batch holds exactly the message-subtype rows whose fromId is the user. |
| Purge.PurgeUser | mod/messages/start.php:421-446 | A user guid of 0 changes nothing. Otherwise the rows left are those of the reference filter. Both toggles end with their earlier values, and nothing else in the world changes. |
| Purge.PurgeSenderUndoesSend | mod/messages/start.php:421-446 | Purging the sender leaves the same rows whether or not the send happened, since both copies have the sender as fromId. |
| Purge.ReceivedMessagesSurvive | mod/messages/start.php:432-437 | A row whose fromId is someone else survives the purge unchanged, even if the purged user owns it or received it. |
| Unread.ResolveUser | mod/messages/start.php:365-367 | A user guid of 0 stands for the logged-in user. |
| Unread.GetUnreadQuery | mod/messages/start.php:364-385 | The query is about the resolved user as both owner and toId, with readYet = 0 and msg = 1. The limit falls back to the site default, and offset and count mode are passed through. |
| Unread.CountUnreadQuery | mod/messages/start.php:394-396 | The badge count asks for count mode with limit 10 and offset 0 on the same filter. |
| Unread.UnreadGuids | mod/messages/start.php:373-384 | A row is selected exactly when it is owned by and addressed to the user, has readYet = 0 and carries msg = 1. |
| Unread.QuerySelectsUnread | mod/messages/start.php:373-384 | The options built by messages_get_unread select a record iff it is an unread inbox message of the resolved user. |
| Unread.SentCopyNeverUnread | mod/messages/start.php:373-384 | A row owned by one user and addressed to another is unread for nobody, whatever its readYet and msg, because the query asks for owner and toId to be the same user. |
| Unread.SendLeavesUnreadUnchanged | mod/messages/start.php:254-285 | As written, a send changes nobody's unread set, because its copies carry no msg metadata. |
| Unread.PurgeKeepsOtherUnread | mod/messages/start.php:421-446 | Purging a user removes from each unread set exactly the messages that user sent. |

## Left out

- Send.SendMessage: the intermediate public save is modelled, but `strip_tags` and the e-mail subject and body are not. The language-dependent `elgg_echo` calls, the user loads by `get_user`, the URL built by `getURL` and the delivery done by `notify_user` are not modelled either. An exception raised by `save()`, `add_entity_relationship()` or `notify_user()` is not modelled; in the source it would leave `$messagesendflag` at 1, because there is no `finally`, and the hooks would then grant edits on every messages entity for the rest of the request. A notification is recorded only as (recipient, sender, guid of the recipient copy).
- Send.Save: the framework's persistence internals are an oracle. A failed update is modelled as leaving the row as it was. A failed create is modelled as leaving the entity without a guid.
- Unread.CountUnreadQuery: the model states the options passed to the framework, not the number it returns. Whether count mode honours `limit => 10` is decided by the framework's query engine, which is not part of this model. Paging (limit, offset) of the listing is also left to that engine.
- Purge.PurgeUser: `ElggBatch` paging is not modelled. The batch is the whole matching set, taken before the first delete. The toggles are restored on normal completion only, as in the source. Every `delete()` is assumed to succeed: the source ignores its boolean result, and a refused delete would leave its row in place. An exception raised inside `delete()` is not modelled.
- The framework's cascade on entity deletion (metadata, relationships) is not modelled, because it is framework code.
- Menu and view glue: `messages_init` (registrations and page menu), `messages_register_topbar` (badge text), `messages_ecml_views_hook`, the `elgg_view_resource` calls, breadcrumbs and `elgg_echo` strings. These are UI registration and string assembly.
- `messages_notification_msg` (start.php:199-206): the file defines it but never registers it.
- The redirect for anonymous visitors (`register_error`, the session's `last_forward_from`, `forward`) is modelled only as the `NotLoggedIn` outcome.
- Concurrency around the global `$messagesendflag` is out of scope. The plugin runs one request at a time, and the flag is modelled as sequential state.
- Integer widths: guids are unbounded naturals. The framework's guid column width is not modelled.
