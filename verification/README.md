# UserPictures, modelled in Dafny

The UserPictures plugin for Trac puts small avatar images next to author,
reporter and owner names in rendered pages. It registers a template stream
filter. For ticket, timeline, repository browser/changeset and revision log
pages, the filter picks avatar insertions from the request path and the
page's view data, queues them on the page's Genshi markup stream (on
timeline pages it instead wraps each event's renderer in place), and adds
the plugin's stylesheet. Two avatar providers turn a user identifier into an
image URL:

- the Gravatar provider resolves an e-mail address and builds a
  `gravatar.com` URL from its MD5 digest;
- the UserManager provider returns the picture stored by the user-manager
  plugin, or a default portrait.

The project has six modules:

- `Common` (`common.dfy`): option and outcome types, the Python exceptions
  that can escape (`KeyError`, `IndexError`, `StopIteration`), string
  prefix/suffix/substring predicates, and the Gravatar URL layout that both
  URL builders share.
- `LongAuthor` (`long_author.dfy`): the author pattern
  `.*<([^@]+)@([^@]+)>\s*|([^@]+)@([^@]+)` under Python `re.match`. Matching
  is anchored at the start, `.*` is greedy and stops at a newline, and the
  alternatives are tried in order with backtracking.
- `Gravatar` (`gravatar.dfy`): the lazily cached username-to-e-mail map, as a
  class with a cache field, and `get_src`.
- `UserManager` (`usermanager.dfy`): `get_src` and the stand-in `get_user`
  used when the user-manager plugin is not installed.
- `Genshi` (`genshi.dfy`): stream events, rendered markup, a stream together
  with its queued filters, and the "insert after the first event" splice.
- `UserPictures` (`userpictures.dfy`): `filter_stream` and every rule
  builder, plus `_generate_avatar`. It also has the ticket-comment
  `find_change` closure, modelled as a class that owns the `apply_authors`
  list, and `_render_event`, modelled as a class.

Parameters stand in for the host:

- the MD5 hex digest is a function parameter `md5hex`;
- the known-users enumeration is a sequence of `KnownUser` triples;
- the user manager's lookup is a function parameter `getUser`;
- `req.href.chrome` is a function parameter `chrome`;
- the fragments that an XPath selector matches are given as input.

## Model

| member | source | states |
|---|---|---|
| Common.GravatarHref | userpictures/providers/gravatar.py:38-43 | The URL starts with `https://gravatar.com/avatar/` exactly when the base URL starts with `https://`, and with `http://www.gravatar.com/avatar/` exactly when it does not. The hash follows the host unchanged. The URL ends in `?size=<size>`. |
| Common.ContainsAt | userpictures/__init__.py:82 | Python's `in` on strings: a query string that holds `action=comment-diff` at any offset contains it. |
| Common.ContainsIff | userpictures/__init__.py:82 | Both directions of Python's `in`: the query string contains the marker exactly when the marker occurs at some offset. So a query string without it at any offset is not a comment-diff request. |
| LongAuthor.NextAt | userpictures/providers/gravatar.py:13 | A greedy `[^@]+` starting at `from` stops at the first `@` at or after `from`, or at the end. |
| LongAuthor.LastGt | userpictures/providers/gravatar.py:13 | Backtracking from the end of a greedy run finds the last `>` in the range, or none. |
| LongAuthor.BracketAt | userpictures/providers/gravatar.py:13 | Any groups found for the first alternative, with `.*` covering `s[..i]`, form a valid reading: `<`, group 1, `@`, group 2, `>`, each group a non-empty run without `@`. |
| LongAuthor.AtEndsRun | userpictures/providers/gravatar.py:13 | A run without `@` that is followed by `@` ends where the next `@` is. |
| LongAuthor.BracketAtGreedy | userpictures/providers/gravatar.py:13 | Every valid reading at `i` is found. Group 1 is the only possible one, and group 2 is at least as long as any valid one (the greedy choice). |
| LongAuthor.SearchBracket | userpictures/providers/gravatar.py:13 | Backtracking of `.*` from `i` down to 0 finds the largest index at which the first alternative can be read, or reports that there is none. |
| LongAuthor.FirstNewline | userpictures/providers/gravatar.py:13 | Returns the first newline, or the length; no newline comes before it. |
| LongAuthor.BareMatch | userpictures/providers/gravatar.py:13 | The second alternative read from the start: groups 3 and 4 form a valid reading, and group 4 ends at an `@` or at the end of the string. |
| LongAuthor.BareGreedy | userpictures/providers/gravatar.py:13 | Every valid reading of the second alternative is found, with the longest group 4. |
| LongAuthor.FirstLineBounds | userpictures/providers/gravatar.py:13 | `.*` can cover `s[..q]` exactly when `q` is at most the first newline. |
| LongAuthor.MatchAuthor | userpictures/providers/gravatar.py:13 | On a bracketed match, the `<` is on the first line, the groups are a valid reading, and no later index on that line can be read. A bare match, or no match, means no index on the first line can be read. In that case the result is the second alternative read greedily from the start. |
| LongAuthor.MatchAtLastOpen | userpictures/providers/gravatar.py:13 | If the first alternative can be read at a first-line `<` and at no later index of that line, the match is there, with that group 1 and the longest group 2; readings on later lines do not matter. |
| LongAuthor.MatchedEmail | userpictures/providers/gravatar.py:33-36 | The address is group 1 `@` group 2 for the first alternative, and group 3 `@` group 4 for the second. |
| LongAuthor.AddressShape | userpictures/providers/gravatar.py:33-36 | Two matched groups joined by `@` form an address: a non-empty run before the only `@`, and a non-empty run after it. |
| Gravatar.EmailMapKeys | userpictures/providers/gravatar.py:19-21 | The map has exactly one key per registered username. |
| Gravatar.EmailMapOf | userpictures/providers/gravatar.py:19-21 | Every registered username is a key, and the last entry's username maps to the last entry's e-mail. |
| Gravatar.EmailMapLastWins | userpictures/providers/gravatar.py:20-21 | A repeated username keeps the e-mail of its last registry entry. |
| Gravatar.Lookup | userpictures/providers/gravatar.py:29 | `email_map.get(username) or ''`: an absent or falsy entry gives `''`, otherwise the stored address. |
| Gravatar.ResolveEmail | userpictures/providers/gravatar.py:26-36 | For an identifier holding `@`, the derived address is either `''` (no match) or of the form `local@domain` with one `@` and non-empty parts. The other routes are stated by the lemmas below. |
| Gravatar.GravatarProvider.EmailMap | userpictures/providers/gravatar.py:15-23 | The first read builds the map from the registry entries in order and caches it. Every later read returns the cached map without looking at the registry. |
| Gravatar.EmailMapTwice | userpictures/providers/gravatar.py:15-23 | Two reads give the same map, even if the registry has changed in between. |
| Gravatar.GravatarProvider.GetSrc | userpictures/providers/gravatar.py:25-44 | The URL is built from the hash of the resolved address. Only a plain username other than `anonymous` reads the map, and so may fill the cache. |
| Gravatar.AnonymousHasNoEmail | userpictures/providers/gravatar.py:26-28 | `anonymous` resolves to `''`, whatever the map holds. |
| Gravatar.UnknownUserHasNoEmail | userpictures/providers/gravatar.py:29 | A plain username that is not in the map, or maps to a falsy value, resolves to `''`. |
| Gravatar.KnownUserEmail | userpictures/providers/gravatar.py:29 | A plain, non-anonymous username resolves to its registered e-mail. |
| Gravatar.BracketedEmail | userpictures/providers/gravatar.py:31-34 | `Name <local@domain>` resolves to `local@domain` when the display name is on one line, the local part is non-empty and holds no `@` or `<`, and the domain is non-empty and holds no `@`. |
| Gravatar.BareEmail | userpictures/providers/gravatar.py:31-36 | A bare `local@domain` resolves to itself when the local part is non-empty and holds no `@` or `<`, and the domain is non-empty and holds no `@`. |
| Gravatar.SameUrlWithDisplayName | userpictures/providers/gravatar.py:31-43 | `Name <local@domain>` and `local@domain` give the same URL when the display name is on one line, the local part is non-empty and holds no `@` or `<`, and the domain is non-empty and holds no `@`. |
| Gravatar.LeadingAtHasNoEmail | userpictures/providers/gravatar.py:30-36 | An identifier that starts with `@` and has no `<` does not match, and resolves to `''`. |
| Gravatar.DoubledAtHasNoEmail | userpictures/providers/gravatar.py:30-36 | `local@@rest` without `<` does not match, and resolves to `''`. |
| Gravatar.BareAddressHashedAsWritten | userpictures/providers/gravatar.py:36-43 | The URL for a bare `local@domain` is built from the digest of that very string: no case folding or trimming. |
| UserManager.FallbackGetUser | userpictures/providers/usermanager.py:7-12 | The stand-in user manager knows no user. |
| UserManager.GetSrc | userpictures/providers/usermanager.py:19-24 | No user, or a user with a falsy picture, gives the default portrait. Otherwise the stored picture is returned unchanged. |
| UserManager.SizeIgnored | userpictures/providers/usermanager.py:19-24 | The size has no effect on the result. |
| UserManager.FallbackAlwaysDefault | userpictures/providers/usermanager.py:4-12 | Without the user-manager plugin, every user gets the default portrait. |
| UserManager.SrcIsPictureOrDefault | userpictures/providers/usermanager.py:22-24 | The result is the default portrait or the user's own non-empty picture. |
| Genshi.InsertAfterFirst | userpictures/__init__.py:134 | The fragment's first event comes first, then the inserted events, then the rest of the fragment in order. |
| Genshi.InsertThenRemove | userpictures/__init__.py:194 | Removing the inserted events gives back the original fragment: the splice loses and reorders nothing. |
| UserPictures.GenerateAvatar | userpictures/__init__.py:70-78 | One `img` element, as a start event and an end event. Its `src` is the Gravatar URL of `md5hex` of the fixed address `ethan.jucovy@gmail.com`. It uses the https host exactly when the base URL is https, and ends in `?size=<size>`. Its class is `userpictures_avatar <class_>`, and its width and height are the size. |
| UserPictures.DefaultComponent | userpictures/__init__.py:33-40 | The default sizes: 40 for comment diffs, 60 for the reporter, 30 for the owner, 40 for comments, 30 for the timeline, 30 for changesets, 40 for file sources, 20 for line items. |
| UserPictures.AvatarIgnoresAuthor | userpictures/__init__.py:70-78 | The avatar does not depend on the author, because the hash is of a fixed address. |
| UserPictures.Route | userpictures/__init__.py:54-61 | A path that starts with none of `/ticket`, `/timeline`, `/browser`, `/changeset` and `/log` gets no category, so no filter. |
| UserPictures.RouteIsByPrefix | userpictures/__init__.py:54-61 | No path starts with two of the prefixes. So each page category is chosen exactly when the path starts with one of its own prefixes, and any other path gets no category. |
| UserPictures.TicketCommentDiffFilter | userpictures/__init__.py:90-97 | Without `change` in the view data, `KeyError('change')` is raised. Otherwise it gives one filter that prepends the avatar to `dd.author`. |
| UserPictures.TicketReporterFilter | userpictures/__init__.py:99-108 | Gives `[]` exactly when `ticket` is absent. Otherwise it gives one filter that prepends the reporter avatar to `div#ticket`. |
| UserPictures.TicketOwnerFilter | userpictures/__init__.py:109-118 | Gives `[]` exactly when `ticket` is absent. Otherwise it gives one filter that prepends the owner avatar to `td[headers=h_owner]`. |
| UserPictures.AuthorsOf | userpictures/__init__.py:125-126 | The k-th author is the author of the k-th change. |
| UserPictures.Stacked | userpictures/__init__.py:124-127 | The list that `insert(0, author)` builds has one entry per author. |
| UserPictures.StackedTop | userpictures/__init__.py:127-131 | `pop()` takes the first author. What remains is the list built from the other authors. |
| UserPictures.StackedReverses | userpictures/__init__.py:124-127 | The list holds the authors in reverse order. |
| UserPictures.CommentFinder.constructor | userpictures/__init__.py:124-129 | The closure captures the list built from the changes' authors, with no author handed out yet. |
| UserPictures.AuthorsOfPush | userpictures/__init__.py:125-127 | Each later change puts its author at the front of the list. |
| UserPictures.PopOrderIsDocumentOrder | userpictures/__init__.py:124-131 | After k pops, the last element of the list is the author of change k. |
| UserPictures.CommentFinder.FindChange | userpictures/__init__.py:129-134 | Each call pops the next author in document order. When all authors have been used, it raises `IndexError`. An empty fragment raises `StopIteration` after the pop. Otherwise the avatar is inserted after the fragment's first event. |
| UserPictures.FilterChangeHeadings | userpictures/__init__.py:129-137 | Over the matched change headings, heading k gets the k-th unused author, in document order. The run succeeds exactly when there are enough authors and no empty heading; the finder has then handed out one author per heading. It raises `IndexError` exactly when the authors run out first, leaving none. Otherwise it raises `StopIteration` at the first empty heading, whose author has been popped. |
| UserPictures.TicketCommentFilter | userpictures/__init__.py:120-137 | Gives `[]` when `changes` is absent. Otherwise it gives one filter on the change headings whose new finder holds the changes' authors, with none used yet. |
| UserPictures.TicketFilter | userpictures/__init__.py:80-88 | On a comment-diff query, it gives only the comment-diff filter. Otherwise it gives the reporter, owner and comment filters, in that order. |
| UserPictures.RenderEvent.constructor | userpictures/__init__.py:14-17 | Records the event, its former renderer and the avatar builder. |
| UserPictures.RenderEvent.Call | userpictures/__init__.py:19-27 | Any field other than `description`, or an event without a truthy author, renders as before. Otherwise the result is a `div` of the author's avatar and the original rendering. |
| UserPictures.TimelineFilter | userpictures/__init__.py:139-155 | Returns `[]`. Each event's renderer is replaced in place by a wrapper around the renderer it had. |
| UserPictures.BrowserChangesetFilter | userpictures/__init__.py:163-182 | The file's changeset author comes before the page's changeset author. With no author it gives `[]`. Otherwise it gives two filters: the `th` of the info table, then `dd.author`. |
| UserPictures.BrowserLineItemFilter | userpictures/__init__.py:184-187 | Gives `[]` exactly when `dir` is empty or missing, or lacks `changes`. Otherwise it gives the line-item filter. |
| UserPictures.BrowserFilter | userpictures/__init__.py:157-161 | An empty or missing `dir` selects the changeset rules; any other `dir` selects the line-item rules. |
| UserPictures.BrowserFilterShapes | userpictures/__init__.py:157-182 | A browser page gets nothing, the line-item filter, or the two changeset filters. The file's changeset author is the one shown when there is one. |
| UserPictures.ChangesetAuthor | userpictures/__init__.py:164-168 | The author of the file's changeset when there is one; otherwise the author of the page's changeset; otherwise None. |
| UserPictures.LogFilter | userpictures/__init__.py:198-202 | Gives `[]` exactly when `changes` is absent. Otherwise it gives the line-item filter. |
| UserPictures.LineItemRenderFilter | userpictures/__init__.py:189-196 | One filter on the `td.author` cells whose transform splices line-item avatars for this component and base URL. |
| UserPictures.LineItemFindChange | userpictures/__init__.py:190-194 | A fragment of fewer than two events raises `IndexError`. Otherwise the avatar (for the data of event 1) is inserted after the first event. |
| UserPictures.LineItemKeepsFragment | userpictures/__init__.py:190-194 | The line-item splice keeps the whole fragment, in order, around the two avatar events. |
| UserPictures.PresentKeeps | userpictures/__init__.py:63-65 | None entries are dropped and every other entry is kept. A list with no None loses nothing. |
| UserPictures.Present | userpictures/__init__.py:63-64 | The filters that are not None never outnumber the list they come from. |
| UserPictures.PresentOfEntries | userpictures/__init__.py:63-65 | The filters that builders return are never None, so all of them are kept, in order. |
| UserPictures.ApplyFilters | userpictures/__init__.py:63-65 | The loop queues the non-None filters after the stream's own filters, in order, and leaves the source events alone. |
| UserPictures.QueueAll | userpictures/__init__.py:63-65 | Every filter a builder returned is queued after the stream's own filters. |
| UserPictures.PageFilters | userpictures/__init__.py:53-61 | The filters for each page category, as the matching builder gives them. Only a timeline page changes any event. |
| UserPictures.FilterStream | userpictures/__init__.py:52-68 | Lists the page's filters by category, then queues them in order; any other path returns the stream unchanged. Timeline events change only on a timeline page. The stylesheet is added once on every call that does not raise, and not at all when the comment-diff builder raises. |

## Left out

- XPath selection, Genshi's `Transformer`, the `prepend` operation and HTML serialisation. A filter records its selector and what it inserts. The fragments a selector matches are inputs to the `find_change` models.
- MD5 is a function parameter, not an implementation of the hash.
- Gravatar.GravatarProvider.GetSrc: `md5hex` is total, while the source's `hashlib.md5` raises `UnicodeEncodeError` on a unicode address with a non-ASCII character (for example the identifier `müller@example.de`). So the model's "always returns a URL" holds for the source only for ASCII addresses.
- The configuration system. Sizes are the component's strings, with the defaults of `userpictures/__init__.py:33-40` in `DefaultComponent`.
- The template and static-directory registration (`get_htdocs_dirs`, `get_templates_dirs`).
- `add_stylesheet` beyond recording the stylesheet on the request.
- The log warning that the fallback `get_user` writes.
- Thread safety of the lazy `email_map` cache.
- Wiring between the providers and the stream filter. `_generate_avatar` consults no provider, and `IUserPicturesProvider` is not part of this model.
- UserPictures.TimelineFilter: requires the events to be distinct objects. It treats an event's `author` as fixed, while the source reads `event.get('author')` each time the wrapper is called.
- UserPictures.PageFilters: carries the same distinct-events requirement on timeline pages.
- UserPictures.FilterStream: carries the same distinct-events requirement on timeline pages.
- UserPictures.GenerateAvatar: the `img` attributes are in a fixed order (src, class, width, height). The source passes them as keyword arguments and does not fix their order.
- View-data keys that are present but hold None are not modelled; for example, `data['changeset']` set to None raises `AttributeError` in the source. Python attribute errors are not modelled either. An absent key is None in `ViewData`.
- UserPictures.CommentFinder.FindChange: the Python closure returns a lazy `itertools.chain`, which the model builds at once. `StopIteration` stands for `next()` on an empty fragment.
- `_browser_lineitem_render_filter` takes the author from the raw event data of event 1. The avatar ignores it, so the model passes it through unchanged.

What the plugin's code does not do, and so the model does not either:

- It has no rule sets for search, report/query, wiki, attachment or attachment-list pages.
- It does not lower-case or trim the address before hashing it.
- It does not trim the text it reads at a line-item anchor (`stream[1][1]`), and `_generate_avatar` ignores that author.
- A display name that contains a newline does not reduce to the bracketed address: `.` does not match a newline, so such an identifier matches a `<…@…>` reading that starts on its first line, takes the bare route, or does not match.
- The empty identifier is not special-cased. It is looked up in the e-mail map like any other plain username, so it resolves to `''` only when the map does not give it a truthy address.
- A comment-diff page without `change` in its view data raises `KeyError`. It is not a silent no-op.
