/**
  Request routing under the `messages/` prefix (messages_page_handler), the
  canonical URL of a message entity (messages_set_url) and the "send
  message" entry of the user hover menu (messages_user_hover_menu).
 */
module Routes {

  import opened Optional
  import opened Text

  datatype User = User(guid: nat, username: string)

  /** The view a request resolves to. `Read` carries the raw segment the view will use as a guid. */
  datatype Route = Inbox(username: string) | Sent(username: string) | Read(guid: string) | Compose

  /** What the handler does: render a view (returns true), report not-found (returns false) or forward an anonymous visitor away. */
  datatype Handled = Dispatched(route: Route) | NotFound | NotLoggedIn

  /** The keywords the dispatch table recognises. */
  predicate IsKeyword(s: string) {
    s == "inbox" || s == "sent" || s == "read" || s == "compose" || s == "add"
  }

  /** The switch over the first segment, with the second segment as argument. */
  function Dispatch(keyword: string, arg: string): (h: Handled)
    ensures h.Dispatched? <==> IsKeyword(keyword)
    ensures !h.NotLoggedIn?
    ensures keyword == "inbox" ==> h == Dispatched(Inbox(arg))
    ensures keyword == "sent" ==> h == Dispatched(Sent(arg))
    ensures keyword == "read" ==> h == Dispatched(Read(arg))
    ensures keyword == "compose" || keyword == "add" ==> h == Dispatched(Compose)
  {
    if keyword == "inbox" then Dispatched(Inbox(arg))
    else if keyword == "sent" then Dispatched(Sent(arg))
    else if keyword == "read" then Dispatched(Read(arg))
    else if keyword == "compose" || keyword == "add" then Dispatched(Compose)
    else NotFound
  }

  /** The first segment after the `inbox` default is applied. */
  function FirstSegment(page: seq<string>): string {
    if |page| >= 1 then page[0] else "inbox"
  }

  /** messages_page_handler: `page` holds the path segments after `messages/`. */
  function PageHandler(page: seq<string>, current: Option<User>): (h: Handled)
    ensures h.NotLoggedIn? <==> current.None?
    ensures current.Some? ==>
      (h.Dispatched? <==> IsKeyword(FirstSegment(page)) || FirstSegment(page) == current.value.username)
  {
    match current
    case None => NotLoggedIn
    case Some(u) =>
      var first := FirstSegment(page);
      if first == u.username then
        // legacy messages/<username>: the keyword becomes inbox and the second segment is overwritten
        Dispatch("inbox", first)
      else
        Dispatch(first, if |page| >= 2 then page[1] else u.username)
  }

  /** The canonical path of a route: the inverse the handler is checked against. */
  function RoutePath(r: Route): seq<string> {
    match r
    case Inbox(name) => ["inbox", name]
    case Sent(name) => ["sent", name]
    case Read(g) => ["read", g]
    case Compose => ["compose"]
  }

  /** The legacy URL messages/<own username> opens one's own inbox, whatever follows it. */
  lemma LegacyInboxFold(u: User, rest: seq<string>)
    ensures PageHandler([u.username] + rest, Some(u)) == Dispatched(Inbox(u.username))
  {
    assert FirstSegment([u.username] + rest) == u.username;
  }

  /** messages/<own username> and messages/inbox/<own username> are the same request. */
  lemma LegacyEqualsInbox(u: User)
    ensures PageHandler([u.username], Some(u)) == PageHandler(["inbox", u.username], Some(u))
  {
  }

  /** A first segment that is not the visitor's own name is never folded: it goes straight to the keyword table. */
  lemma NoFoldForOtherNames(u: User, page: seq<string>)
    requires |page| >= 1 && page[0] != u.username
    ensures PageHandler(page, Some(u)) == Dispatch(page[0], if |page| >= 2 then page[1] else u.username)
  {
  }

  /** Missing segments default to the visitor's inbox, and a lone keyword takes the visitor's name as argument. */
  lemma Defaults(u: User, keyword: string)
    requires keyword != u.username
    ensures PageHandler([], Some(u)) == Dispatched(Inbox(u.username))
    ensures PageHandler([keyword], Some(u)) == Dispatch(keyword, u.username)
  {
  }

  /** `compose` and `add` are two names for the same view. */
  lemma ComposeAndAddAgree(u: User, rest: seq<string>)
    requires u.username != "compose" && u.username != "add"
    ensures PageHandler(["compose"] + rest, Some(u)) == Dispatched(Compose)
    ensures PageHandler(["add"] + rest, Some(u)) == Dispatched(Compose)
  {
    assert FirstSegment(["compose"] + rest) == "compose";
    assert FirstSegment(["add"] + rest) == "add";
  }

  /**
    Every route is reached from its canonical path, for any visitor whose
    name is not itself one of the keywords (such a name would be folded
    into that visitor's inbox first).
   */
  lemma RoutePathRoundTrip(u: User, r: Route)
    requires !IsKeyword(u.username)
    ensures PageHandler(RoutePath(r), Some(u)) == Dispatched(r)
  {
  }

  /** A user named like a keyword is sent to their own inbox by that keyword's paths. */
  lemma KeywordUsernameShadowsRoute(u: User, other: string)
    requires IsKeyword(u.username)
    ensures PageHandler([u.username, other], Some(u)) == Dispatched(Inbox(u.username))
    ensures u.username != "inbox" ==> PageHandler([u.username, other], Some(u)) != Dispatch(u.username, other)
  {
    LegacyInboxFold(u, [other]);
  }

  /** messages_set_url: message entities get messages/read/<guid>; other objects keep the incoming URL. */
  function SetUrl(guid: nat, subtype: string, incoming: string): (url: string)
    ensures subtype != "messages" ==> url == incoming
    ensures subtype == "messages" ==> Split(url, '/') == ["messages", "read", NatToString(guid)]
  {
    if subtype == "messages" then
      var digits := NatToString(guid);
      var url := "messages/read/" + digits;
      assert Join([digits], '/') == digits;
      assert Join(["read", digits], '/') == "read/" + digits by {
        assert ["read", digits][1..] == [digits];
      }
      assert url == Join(["messages", "read", digits], '/') by {
        assert ["messages", "read", digits][1..] == ["read", digits];
      }
      SplitJoin(["messages", "read", digits], '/');
      url
    else incoming
  }

  /**
    The URL a message entity receives routes back to the read view of that
    very entity, for any visitor not named `read`.
   */
  lemma MessageUrlRoundTrip(u: User, guid: nat, incoming: string)
    requires u.username != "read"
    ensures var segs := Split(SetUrl(guid, "messages", incoming), '/');
      && |segs| == 3 && segs[0] == "messages"
      && PageHandler(segs[1..], Some(u)) == Dispatched(Read(NatToString(guid)))
      && ParseNat(NatToString(guid)) == guid
  {
    var segs := Split(SetUrl(guid, "messages", incoming), '/');
    assert segs[1..] == ["read", NatToString(guid)];
    ParseNatToString(guid);
  }

  datatype MenuItem = MenuItem(name: string, href: string, section: string)

  /** The "send message" action offered for `target`. */
  function SendMessageItem(target: nat): MenuItem {
    MenuItem("send", "messages/compose?send_to=" + NatToString(target), "action")
  }

  /**
    messages_user_hover_menu: `viewer` is the logged-in guid (0 when nobody
    is logged in); the action is appended for anyone but the viewer.
   */
  function HoverMenu(viewer: nat, target: nat, items: seq<MenuItem>): (r: seq<MenuItem>)
    ensures viewer != 0 && viewer != target ==> r == items + [SendMessageItem(target)]
    ensures viewer == 0 || viewer == target ==> r == items
  {
    if viewer != 0 && viewer != target then items + [SendMessageItem(target)] else items
  }

  /** Nobody is ever offered to message themselves, and anonymous visitors are offered nothing. */
  lemma HoverMenuNeverSelf(viewer: nat, items: seq<MenuItem>, target: nat)
    requires viewer == target || viewer == 0
    ensures SendMessageItem(target) !in HoverMenu(viewer, target, items)[|items|..]
  {
  }
}
