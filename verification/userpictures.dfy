/** The stream filter of the UserPictures plugin: for ticket, timeline,
    browser/changeset and log pages it decides, from the request path and the
    page's view data, which avatar insertions to queue on the page's markup
    stream, and it attaches the plugin's stylesheet. */
module UserPictures {
  import opened Common
  import opened Genshi

  // ---------------------------------------------------------------- settings

  /** The component: the `[userpictures]` size options (strings, as the
      configuration gives them) and the MD5 hex digest it calls. */
  datatype Component = Component(
    ticketCommentDiffSize: string,
    ticketReporterSize: string,
    ticketOwnerSize: string,
    ticketCommentSize: string,
    timelineSize: string,
    browserChangesetSize: string,
    browserFilesourceSize: string,
    browserLineitemSize: string,
    md5hex: string -> string)

  /** The component with every option at its default. */
  function DefaultComponent(md5hex: string -> string): (c: Component)
    ensures c.ticketCommentDiffSize == "40" && c.ticketReporterSize == "60"
    ensures c.ticketOwnerSize == "30" && c.ticketCommentSize == "40"
    ensures c.timelineSize == "30" && c.browserChangesetSize == "30"
    ensures c.browserFilesourceSize == "40" && c.browserLineitemSize == "20"
    ensures c.md5hex == md5hex
  {
    Component("40", "60", "30", "40", "30", "30", "40", "20", md5hex)
  }

  const Stylesheet := "userpictures/userpictures.css"

  /** The request as the filter sees it; `add_stylesheet` records on it. */
  class Request {
    const pathInfo: string
    const queryString: string
    const baseUrl: string
    var stylesheets: seq<string>

    constructor (pathInfo: string, queryString: string, baseUrl: string)
      ensures this.pathInfo == pathInfo && this.queryString == queryString
      ensures this.baseUrl == baseUrl && stylesheets == []
    {
      this.pathInfo := pathInfo;
      this.queryString := queryString;
      this.baseUrl := baseUrl;
      stylesheets := [];
    }
  }

  // --------------------------------------------------------------- view data

  /** `ticket.values`, of which the filter reads two fields. */
  datatype Ticket = Ticket(reporter: string, owner: string)
  /** A ticket change (also the comment-diff page's `change`). */
  datatype Change = Change(author: string)
  /** A repository changeset; its author may be None. */
  datatype Changeset = Changeset(author: Option<string>)
  /** The browser's `file` entry. */
  datatype FileInfo = FileInfo(changeset: Option<Changeset>)

  /** The argument a timeline renderer gets besides the field name. */
  datatype RenderContext = RenderContext(resource: string)

  /** An event's `render` callable: (field, context) to markup. */
  type Renderer = (string, RenderContext) -> Markup

  /** A timeline event of the view data: its author and its renderer, which
      the timeline filter replaces in place. */
  class TimelineEvent {
    const author: Option<string>
    var render: Renderer

    constructor (author: Option<string>, render: Renderer)
      ensures this.author == author && this.render == render
    {
      this.author := author;
      this.render := render;
    }
  }

  /** The view-data keys the filter consults; None for an absent key. `dir`
      is given by the set of its own keys. */
  datatype ViewData = ViewData(
    ticket: Option<Ticket>,
    change: Option<Change>,
    changes: Option<seq<Change>>,
    events: Option<seq<TimelineEvent>>,
    dir: Option<set<string>>,
    file: Option<FileInfo>,
    changeset: Option<Changeset>)

  /** `data.get('dir')` is truthy: present and not an empty dictionary. */
  predicate DirTruthy(data: ViewData)
  {
    data.dir.Some? && data.dir.value != {}
  }

  // ------------------------------------------------------------------ avatar

  /** The address `_generate_avatar` hashes, whoever the author is. */
  const AvatarEmail := "ethan.jucovy@gmail.com"

  /** `_generate_avatar`: the events of one sized `img` element. The author
      parameter is accepted and ignored, so it may be of any type. */
  function GenerateAvatar<A>(c: Component, baseUrl: string, author: A, class_: string, size: string): (img: seq<Event>)
    ensures |img| == 2 && img[0].kind == Start && img[1] == Event(End, Tag("img", []))
    ensures img[0].data.Tag? && img[0].data.name == "img" && |img[0].data.attrs| == 4
    ensures var attrs := img[0].data.attrs;
            var src := attrs[0].1;
            && attrs[0] == ("src", GravatarHref(baseUrl, c.md5hex(AvatarEmail), size))
            && (StartsWith(src, SecureGravatar) <==> StartsWith(baseUrl, "https://"))
            && (StartsWith(src, PlainGravatar) <==> !StartsWith(baseUrl, "https://"))
            && EndsWith(src, "?size=" + size)
            && attrs[1] == ("class", "userpictures_avatar " + class_)
            && attrs[2] == ("width", size) && attrs[3] == ("height", size)
  {
    var href := GravatarHref(baseUrl, c.md5hex(AvatarEmail), size);
    [ Event(Start, Tag("img", [("src", href), ("class", "userpictures_avatar " + class_),
                               ("width", size), ("height", size)])),
      Event(End, Tag("img", [])) ]
  }

  /** The avatar does not depend on the author at all. */
  lemma AvatarIgnoresAuthor<A, B>(c: Component, baseUrl: string, a: A, b: B, class_: string, size: string)
    ensures GenerateAvatar(c, baseUrl, a, class_, size) == GenerateAvatar(c, baseUrl, b, class_, size)
  {
  }

  // ----------------------------------------------------------------- filters

  const DiffAuthorSelector := "//dd[@class=\"author\"]"
  const TicketBoxSelector := "//div[@id=\"ticket\"]"
  const OwnerCellSelector := "//td[@headers=\"h_owner\"]"
  const ChangeHeadingSelector := "//div[@id=\"changelog\"]/div[@class=\"change\"]/h3[@class=\"change\"]"
  const InfoHeaderSelector := "//table[@id=\"info\"]//th"
  const AuthorCellSelector := "//td[@class=\"author\"]"

  /** What a queued filter does to each fragment its selector matches.
      `CommentAvatars(finder)` stands for `fragment => finder.FindChange(fragment)`,
      and `LineItemAvatars(c, baseUrl)` for
      `fragment => LineItemFindChange(c, baseUrl, fragment)`. */
  datatype Transform =
    | Prepend(content: seq<Event>)                  // `Transformer(...).prepend(content)`
    | CommentAvatars(finder: CommentFinder)         // `.filter(find_change)` of the ticket comments
    | LineItemAvatars(c: Component, baseUrl: string) // `.filter(find_change)` of the line items

  datatype Filter = Filter(selector: string, transform: Transform)

  // ---------------------------------------------------------- path dispatch

  datatype Category = TicketPage | TimelinePage | BrowserPage | LogPage

  /** The `if`/`elif` chain of `filter_stream`: the first prefix that matches. */
  function Route(path: string): (r: Option<Category>)
    ensures r.None? <==>
              !StartsWith(path, "/ticket") && !StartsWith(path, "/timeline") && !StartsWith(path, "/browser")
              && !StartsWith(path, "/changeset") && !StartsWith(path, "/log")
  {
    if StartsWith(path, "/ticket") then Some(TicketPage)
    else if StartsWith(path, "/timeline") then Some(TimelinePage)
    else if StartsWith(path, "/browser") || StartsWith(path, "/changeset") then Some(BrowserPage)
    else if StartsWith(path, "/log") then Some(LogPage)
    else None
  }

  lemma PrefixesDiffer(path: string, p: string, q: string, k: nat)
    requires k < |p| && k < |q| && p[k] != q[k]
    ensures !(StartsWith(path, p) && StartsWith(path, q))
  {
  }

  /** No path starts with two of the prefixes, so each category is chosen
      exactly when the path starts with one of its own prefixes: the order of
      the tests does not matter. */
  lemma RouteIsByPrefix(path: string)
    ensures Route(path) == Some(TicketPage) <==> StartsWith(path, "/ticket")
    ensures Route(path) == Some(TimelinePage) <==> StartsWith(path, "/timeline")
    ensures Route(path) == Some(BrowserPage) <==> StartsWith(path, "/browser") || StartsWith(path, "/changeset")
    ensures Route(path) == Some(LogPage) <==> StartsWith(path, "/log")
    ensures Route(path) == None <==>
              !StartsWith(path, "/ticket") && !StartsWith(path, "/timeline") && !StartsWith(path, "/browser")
              && !StartsWith(path, "/changeset") && !StartsWith(path, "/log")
  {
    PrefixesDiffer(path, "/ticket", "/timeline", 3);
    PrefixesDiffer(path, "/ticket", "/browser", 1);
    PrefixesDiffer(path, "/ticket", "/changeset", 1);
    PrefixesDiffer(path, "/ticket", "/log", 1);
    PrefixesDiffer(path, "/timeline", "/browser", 1);
    PrefixesDiffer(path, "/timeline", "/changeset", 1);
    PrefixesDiffer(path, "/timeline", "/log", 1);
    PrefixesDiffer(path, "/browser", "/log", 1);
    PrefixesDiffer(path, "/changeset", "/log", 1);
  }

  // ----------------------------------------------------------- ticket pages

  /** `"action=comment-diff" in req.query_string` */
  predicate IsCommentDiff(queryString: string)
  {
    Contains(queryString, "action=comment-diff")
  }

  /** `_ticket_comment_diff_filter`: `data['change']` must be present. */
  function TicketCommentDiffFilter(c: Component, baseUrl: string, data: ViewData): (r: Outcome<seq<Filter>>)
    ensures data.change.None? <==> r == Raise(KeyError("change"))
    ensures data.change.Some? ==>
              r == Ok([Filter(DiffAuthorSelector, Prepend(GenerateAvatar(c, baseUrl, data.change.value.author,
                                                                         "ticket-comment-diff", c.ticketCommentDiffSize)))])
  {
    if data.change.None? then Raise(KeyError("change"))
    else
      var author := data.change.value.author;
      Ok([Filter(DiffAuthorSelector, Prepend(GenerateAvatar(c, baseUrl, author, "ticket-comment-diff", c.ticketCommentDiffSize)))])
  }

  /** `_ticket_reporter_filter` */
  function TicketReporterFilter(c: Component, baseUrl: string, data: ViewData): (fs: seq<Filter>)
    ensures data.ticket.None? <==> fs == []
    ensures data.ticket.Some? ==>
              fs == [Filter(TicketBoxSelector, Prepend(GenerateAvatar(c, baseUrl, data.ticket.value.reporter,
                                                                      "ticket-reporter", c.ticketReporterSize)))]
  {
    if data.ticket.None? then []
    else
      var author := data.ticket.value.reporter;
      [Filter(TicketBoxSelector, Prepend(GenerateAvatar(c, baseUrl, author, "ticket-reporter", c.ticketReporterSize)))]
  }

  /** `_ticket_owner_filter` */
  function TicketOwnerFilter(c: Component, baseUrl: string, data: ViewData): (fs: seq<Filter>)
    ensures data.ticket.None? <==> fs == []
    ensures data.ticket.Some? ==>
              fs == [Filter(OwnerCellSelector, Prepend(GenerateAvatar(c, baseUrl, data.ticket.value.owner,
                                                                      "ticket-owner", c.ticketOwnerSize)))]
  {
    if data.ticket.None? then []
    else
      var author := data.ticket.value.owner;
      [Filter(OwnerCellSelector, Prepend(GenerateAvatar(c, baseUrl, author, "ticket-owner", c.ticketOwnerSize)))]
  }

  /** The authors of the changes, in the order the view data lists them. */
  function AuthorsOf(changes: seq<Change>): (authors: seq<string>)
    ensures |authors| == |changes|
    ensures forall k :: 0 <= k < |changes| ==> authors[k] == changes[k].author
    decreases |changes|
  {
    if changes == [] then []
    else AuthorsOf(changes[..|changes| - 1]) + [changes[|changes| - 1].author]
  }

  /** The list `apply_authors.insert(0, author)` builds over `s`, one
      author at a time: the last one first. */
  function Stacked(s: seq<string>): (r: seq<string>)
    ensures |r| == |s|
    decreases |s|
  {
    if s == [] then [] else [s[|s| - 1]] + Stacked(s[..|s| - 1])
  }

  /** The top of the stack (`pop()` takes the last element) is the first
      author, and what remains is the stack of the others. */
  lemma {:induction false} StackedTop(s: seq<string>)
    requires s != []
    ensures |Stacked(s)| == |s|
    ensures Stacked(s)[|s| - 1] == s[0]
    ensures Stacked(s)[..|s| - 1] == Stacked(s[1..])
    decreases |s|
  {
    var init := s[..|s| - 1];
    if |s| > 1 {
      StackedTop(init);
      assert init[1..] == s[1..][..|s| - 2];
    }
  }

  /** The stack is the reversed list of authors. */
  lemma {:induction false} StackedReverses(s: seq<string>)
    ensures |Stacked(s)| == |s|
    ensures forall k :: 0 <= k < |s| ==> Stacked(s)[k] == s[|s| - 1 - k]
    decreases |s|
  {
    if s != [] {
      StackedReverses(s[..|s| - 1]);
    }
  }

  /** The `find_change` closure of `_ticket_comment_filter` together with the
      `apply_authors` list it pops. */
  class CommentFinder {
    const c: Component
    const baseUrl: string
    /** `apply_authors`; its last element is the next author handed out. */
    var applyAuthors: seq<string>
    /** The changes' authors in document order. */
    ghost const authors: seq<string>
    /** How many authors `find_change` has popped so far. */
    ghost var calls: nat

    ghost predicate Valid()
      reads this
    {
      calls <= |authors| && applyAuthors == Stacked(authors[calls..])
    }

    constructor (c: Component, baseUrl: string, applyAuthors: seq<string>, ghost authors: seq<string>)
      requires applyAuthors == Stacked(authors)
      ensures Valid() && calls == 0
      ensures this.c == c && this.baseUrl == baseUrl && this.authors == authors
      ensures this.applyAuthors == applyAuthors
    {
      this.c := c;
      this.baseUrl := baseUrl;
      this.applyAuthors := applyAuthors;
      this.authors := authors;
      calls := 0;
      assert authors[0..] == authors;
    }

    /** `find_change(stream)`: pops the next author, then emits the
        fragment's first event, the avatar, and the rest of the fragment. */
    method FindChange(fragment: seq<Event>) returns (r: Outcome<seq<Event>>, author: string)
      requires Valid()
      modifies this
      ensures Valid()
      ensures old(calls) == |authors| ==> r == Raise(IndexError) && calls == old(calls)
      ensures old(calls) < |authors| ==> calls == old(calls) + 1 && author == authors[old(calls)]
      ensures old(calls) < |authors| && fragment == [] ==> r == Raise(StopIteration)
      ensures old(calls) < |authors| && fragment != [] ==>
                r == Ok(InsertAfterFirst(fragment, GenerateAvatar(c, baseUrl, author, "ticket-comment", c.ticketCommentSize)))
    {
      if applyAuthors == [] {
        return Raise(IndexError), "";
      }
      StackedTop(authors[calls..]);
      assert authors[calls..][1..] == authors[calls + 1..];
      author := applyAuthors[|applyAuthors| - 1];
      applyAuthors := applyAuthors[..|applyAuthors| - 1];
      calls := calls + 1;
      var img := GenerateAvatar(c, baseUrl, author, "ticket-comment", c.ticketCommentSize);
      if fragment == [] {
        r := Raise(StopIteration);
      } else {
        r := Ok(InsertAfterFirst(fragment, img));
      }
    }
  }

  /** The comment filter applied to the change headings it matches, in
      document order: the k-th heading gets the author of the k-th change
      still unserved, and a heading beyond the last change raises. */
  method FilterChangeHeadings(finder: CommentFinder, fragments: seq<seq<Event>>)
    returns (r: Outcome<seq<seq<Event>>>, used: seq<string>)
    requires finder.Valid()
    modifies finder
    ensures finder.Valid()
    ensures var first := old(finder.calls);
            r.Ok? <==> first + |fragments| <= |finder.authors| && forall k :: 0 <= k < |fragments| ==> fragments[k] != []
    ensures var first := old(finder.calls);
            r.Ok? ==> && used == finder.authors[first..first + |fragments|]
                      && |r.value| == |fragments|
                      && forall k :: 0 <= k < |fragments| ==>
                           r.value[k] == InsertAfterFirst(fragments[k], GenerateAvatar(finder.c, finder.baseUrl, used[k],
                                                                                        "ticket-comment", finder.c.ticketCommentSize))
    ensures var first := old(finder.calls);
            r == Raise(IndexError) <==>
              && |finder.authors| - first < |fragments|
              && forall k :: 0 <= k < |finder.authors| - first ==> fragments[k] != []
    ensures r.Ok? || r == Raise(IndexError) || r == Raise(StopIteration)
    ensures r.Ok? ==> finder.calls == old(finder.calls) + |fragments|
    ensures r == Raise(IndexError) ==> finder.calls == |finder.authors|
    ensures r == Raise(StopIteration) ==>
              var failed := finder.calls - old(finder.calls) - 1;
              && old(finder.calls) < finder.calls <= |finder.authors|
              && 0 <= failed < |fragments| && fragments[failed] == []
              && forall k :: 0 <= k < failed ==> fragments[k] != []
  {
    ghost var first := finder.calls;
    var out: seq<seq<Event>> := [];
    used := [];
    var i := 0;
    while i < |fragments|
      invariant 0 <= i <= |fragments|
      invariant finder.Valid() && finder.calls == first + i
      invariant forall k :: 0 <= k < i ==> fragments[k] != []
      invariant used == finder.authors[first..first + i] && |out| == i
      invariant forall k :: 0 <= k < i ==>
                  out[k] == InsertAfterFirst(fragments[k], GenerateAvatar(finder.c, finder.baseUrl, used[k],
                                                                          "ticket-comment", finder.c.ticketCommentSize))
    {
      var piece, author := finder.FindChange(fragments[i]);
      if piece.Raise? {
        if first + i == |finder.authors| {
          assert piece == Raise(IndexError);
        } else {
          assert piece == Raise(StopIteration) && fragments[i] == [] && i < |finder.authors| - first;
        }
        return Raise(piece.error), used;
      }
      out := out + [piece.value];
      used := used + [author];
      i := i + 1;
    }
    r := Ok(out);
  }

  /** The authors handed out over a whole page follow the order of the
      changes: the list is filled from the front and popped from the back. */
  lemma {:induction false} PopOrderIsDocumentOrder(authors: seq<string>, k: nat)
    requires k < |authors|
    ensures |Stacked(authors[k..])| == |authors| - k
    ensures Stacked(authors[k..])[|authors| - k - 1] == authors[k]
  {
    StackedTop(authors[k..]);
  }

  /** One more change puts its author on top of the stack. */
  lemma AuthorsOfPush(changes: seq<Change>, i: nat)
    requires i < |changes|
    ensures Stacked(AuthorsOf(changes[..i + 1])) == [changes[i].author] + Stacked(AuthorsOf(changes[..i]))
  {
    assert changes[..i + 1][..i] == changes[..i];
    var s := AuthorsOf(changes[..i + 1]);
    assert s[..|s| - 1] == AuthorsOf(changes[..i]);
  }

  /** The filters queued by a comment filter for `data`. */
  ghost predicate IsCommentFilter(fs: seq<Filter>, c: Component, baseUrl: string, data: ViewData)
    reads Finders(fs)
  {
    if data.changes.None? then fs == []
    else
      && |fs| == 1 && fs[0].selector == ChangeHeadingSelector && fs[0].transform.CommentAvatars?
      && var f := fs[0].transform.finder;
         f.c == c && f.baseUrl == baseUrl && f.Valid() && f.calls == 0
         && f.authors == AuthorsOf(data.changes.value)
  }

  /** The closure objects held by a list of filters. */
  function Finders(fs: seq<Filter>): set<object>
  {
    set k | 0 <= k < |fs| && fs[k].transform.CommentAvatars? :: fs[k].transform.finder
  }

  /** `_ticket_comment_filter` */
  method TicketCommentFilter(c: Component, baseUrl: string, data: ViewData) returns (fs: seq<Filter>)
    ensures IsCommentFilter(fs, c, baseUrl, data)
    ensures fresh(Finders(fs))
  {
    if data.changes.None? {
      return [];
    }
    var changes := data.changes.value;
    var applyAuthors: seq<string> := [];
    for i := 0 to |changes|
      invariant applyAuthors == Stacked(AuthorsOf(changes[..i]))
    {
      AuthorsOfPush(changes, i);
      applyAuthors := [changes[i].author] + applyAuthors;
    }
    assert changes[..|changes|] == changes;
    var finder := new CommentFinder(c, baseUrl, applyAuthors, AuthorsOf(changes));
    fs := [Filter(ChangeHeadingSelector, CommentAvatars(finder))];
    assert Finders(fs) == {finder} by {
      assert fs[0].transform.CommentAvatars? && fs[0].transform.finder == finder;
    }
  }

  /** The filters of a ticket page: reporter, owner, then the comments. */
  ghost predicate IsTicketFilters(fs: seq<Filter>, c: Component, baseUrl: string, data: ViewData)
    reads Finders(fs)
  {
    var head := TicketReporterFilter(c, baseUrl, data) + TicketOwnerFilter(c, baseUrl, data);
    && |head| <= |fs| && fs[..|head|] == head
    && IsCommentFilter(fs[|head|..], c, baseUrl, data)
  }

  /** `_ticket_filter` */
  method TicketFilter(c: Component, req: Request, data: ViewData) returns (r: Outcome<seq<Filter>>)
    ensures IsCommentDiff(req.queryString) ==> r == TicketCommentDiffFilter(c, req.baseUrl, data)
    ensures !IsCommentDiff(req.queryString) ==> r.Ok? && IsTicketFilters(r.value, c, req.baseUrl, data)
    ensures r.Ok? ==> fresh(Finders(r.value))
  {
    if IsCommentDiff(req.queryString) {
      r := TicketCommentDiffFilter(c, req.baseUrl, data);
      if r.Ok? {
        assert Finders(r.value) == {};
      }
      return;
    }
    var head := TicketReporterFilter(c, req.baseUrl, data) + TicketOwnerFilter(c, req.baseUrl, data);
    var comments := TicketCommentFilter(c, req.baseUrl, data);
    var all := head + comments;
    assert all[..|head|] == head && all[|head|..] == comments;
    assert Finders(all) == Finders(comments) by {
      forall k | 0 <= k < |head| ensures !head[k].transform.CommentAvatars? { }
    }
    r := Ok(all);
  }

  // --------------------------------------------------------------- timeline

  /** `now` renders like `_render_event` around `before`: the avatar goes in
      front of the description of an event with an author, every other field
      is rendered as before. */
  ghost predicate WrapsWith(now: Renderer, before: Renderer, author: Option<string>, avatar: string -> seq<Event>)
  {
    forall field, context :: now(field, context) ==
      if field == "description" && Truthy(author) then Div([Events(avatar(author.value)), before(field, context)])
      else before(field, context)
  }

  /** The class `_render_event`: it remembers the event, the event's former
      renderer and the avatar builder. */
  class RenderEvent {
    const event: TimelineEvent
    const baseRender: Renderer
    const generateAvatar: string -> seq<Event>

    constructor (event: TimelineEvent, baseRender: Renderer, generateAvatar: string -> seq<Event>)
      ensures this.event == event && this.baseRender == baseRender && this.generateAvatar == generateAvatar
    {
      this.event := event;
      this.baseRender := baseRender;
      this.generateAvatar := generateAvatar;
    }

    /** `__call__(field, context)` */
    function Call(field: string, context: RenderContext): (r: Markup)
      ensures field != "description" ==> r == baseRender(field, context)
      ensures !Truthy(event.author) ==> r == baseRender(field, context)
      ensures field == "description" && Truthy(event.author) ==>
                r == Div([Events(generateAvatar(event.author.value)), baseRender(field, context)])
    {
      var orig := baseRender(field, context);
      if field != "description" then orig
      else if !Truthy(event.author) then orig
      else Div([Events(generateAvatar(event.author.value)), orig])
    }
  }

  /** The timeline events of the view data, as a set of objects. */
  function EventObjects(data: ViewData): set<TimelineEvent>
  {
    if data.events.Some? then set e | e in data.events.value else {}
  }

  /** The renderers the events hold now. */
  function Renders(evs: seq<TimelineEvent>): (rs: seq<Renderer>)
    reads set e | e in evs
    ensures |rs| == |evs|
    ensures forall k :: 0 <= k < |evs| ==> rs[k] == evs[k].render
    decreases |evs|
  {
    if evs == [] then [] else Renders(evs[..|evs| - 1]) + [evs[|evs| - 1].render]
  }

  /** Each event's renderer wraps the one it had before. */
  ghost predicate AllWrapped(evs: seq<TimelineEvent>, before: seq<Renderer>, avatar: string -> seq<Event>)
    reads set e | e in evs
  {
    |before| == |evs| &&
    forall k :: 0 <= k < |evs| ==> WrapsWith(evs[k].render, before[k], evs[k].author, avatar)
  }

  predicate Distinct(evs: seq<TimelineEvent>)
  {
    forall i, j :: 0 <= i < j < |evs| ==> evs[i] != evs[j]
  }

  /** The avatar builder handed to each timeline wrapper: the lambda at
      userpictures/__init__.py:151-153. */
  function TimelineAvatar(c: Component, baseUrl: string): string -> seq<Event>
  {
    (author: string) => GenerateAvatar(c, baseUrl, author, "timeline", c.timelineSize)
  }

  /** `_timeline_filter`: queues nothing, and replaces the renderer of every
      event in place with a `_render_event` wrapper around it. */
  method TimelineFilter(c: Component, baseUrl: string, data: ViewData) returns (fs: seq<Filter>)
    requires data.events.Some? ==> Distinct(data.events.value)
    modifies EventObjects(data)
    ensures fs == []
    ensures data.events.Some? ==>
              AllWrapped(data.events.value, old(Renders(data.events.value)), TimelineAvatar(c, baseUrl))
  {
    if data.events.None? {
      return [];
    }
    var evs := data.events.value;
    var avatar := TimelineAvatar(c, baseUrl);
    ghost var before := Renders(evs);
    for i := 0 to |evs|
      invariant forall k :: 0 <= k < i ==> WrapsWith(evs[k].render, before[k], evs[k].author, avatar)
      invariant forall k :: i <= k < |evs| ==> evs[k].render == before[k]
    {
      var ev := evs[i];
      var w := new RenderEvent(ev, ev.render, avatar);
      ev.render := (field: string, context: RenderContext) => w.Call(field, context);
    }
    fs := [];
  }

  // ---------------------------------------------------- browser and log pages

  /** The changeset author `_browser_changeset_filter` uses: the file's
      changeset first, then the page's changeset. */
  function ChangesetAuthor(data: ViewData): (author: Option<string>)
    ensures data.file.Some? && data.file.value.changeset.Some? ==>
              author == data.file.value.changeset.value.author
    ensures !(data.file.Some? && data.file.value.changeset.Some?) && data.changeset.Some? ==>
              author == data.changeset.value.author
    ensures !(data.file.Some? && data.file.value.changeset.Some?) && data.changeset.None? ==> author.None?
  {
    if data.file.Some? && data.file.value.changeset.Some? then data.file.value.changeset.value.author
    else if data.changeset.Some? then data.changeset.value.author
    else None
  }

  /** `_browser_changeset_filter` */
  function BrowserChangesetFilter(c: Component, baseUrl: string, data: ViewData): (fs: seq<Filter>)
    ensures ChangesetAuthor(data).None? <==> fs == []
    ensures ChangesetAuthor(data).Some? ==>
              var author := ChangesetAuthor(data).value;
              fs == [ Filter(InfoHeaderSelector, Prepend(GenerateAvatar(c, baseUrl, author, "browser-filesource", c.browserFilesourceSize))),
                      Filter(DiffAuthorSelector, Prepend(GenerateAvatar(c, baseUrl, author, "browser-changeset", c.browserChangesetSize))) ]
  {
    var author := ChangesetAuthor(data);
    if author.None? then []
    else
      [ Filter(InfoHeaderSelector, Prepend(GenerateAvatar(c, baseUrl, author.value, "browser-filesource", c.browserFilesourceSize))),
        Filter(DiffAuthorSelector, Prepend(GenerateAvatar(c, baseUrl, author.value, "browser-changeset", c.browserChangesetSize))) ]
  }

  /** `_browser_lineitem_render_filter` */
  function LineItemRenderFilter(c: Component, baseUrl: string): (fs: seq<Filter>)
    ensures |fs| == 1 && fs[0].selector == AuthorCellSelector
    ensures fs[0].transform == LineItemAvatars(c, baseUrl)
  {
    [Filter(AuthorCellSelector, LineItemAvatars(c, baseUrl))]
  }

  /** `_browser_lineitem_filter` */
  function BrowserLineItemFilter(c: Component, baseUrl: string, data: ViewData): (fs: seq<Filter>)
    ensures fs == [] <==> !DirTruthy(data) || "changes" !in data.dir.value
    ensures fs != [] ==> fs == LineItemRenderFilter(c, baseUrl)
  {
    if !DirTruthy(data) || "changes" !in data.dir.value then [] else LineItemRenderFilter(c, baseUrl)
  }

  /** `_browser_filter`: a page without a (non-empty) `dir` is a changeset or
      file page. */
  function BrowserFilter(c: Component, baseUrl: string, data: ViewData): (fs: seq<Filter>)
    ensures !DirTruthy(data) ==> fs == BrowserChangesetFilter(c, baseUrl, data)
    ensures DirTruthy(data) ==> fs == BrowserLineItemFilter(c, baseUrl, data)
  {
    if !DirTruthy(data) then BrowserChangesetFilter(c, baseUrl, data)
    else BrowserLineItemFilter(c, baseUrl, data)
  }

  /** `_log_filter` */
  function LogFilter(c: Component, baseUrl: string, data: ViewData): (fs: seq<Filter>)
    ensures data.changes.None? <==> fs == []
    ensures data.changes.Some? ==> fs == LineItemRenderFilter(c, baseUrl)
  {
    if data.changes.None? then [] else LineItemRenderFilter(c, baseUrl)
  }

  /** A browser page yields no filter, the line-item filter, or the two
      changeset filters, the file's changeset author taking precedence. */
  lemma BrowserFilterShapes(c: Component, baseUrl: string, data: ViewData)
    ensures var fs := BrowserFilter(c, baseUrl, data);
            || fs == []
            || (DirTruthy(data) && fs == LineItemRenderFilter(c, baseUrl))
            || (!DirTruthy(data) && |fs| == 2 && fs[0].selector == InfoHeaderSelector && fs[1].selector == DiffAuthorSelector)
    ensures data.file.Some? && data.file.value.changeset.Some? && !DirTruthy(data) &&
            data.file.value.changeset.value.author.Some? ==>
              BrowserFilter(c, baseUrl, data)[0].transform ==
                Prepend(GenerateAvatar(c, baseUrl, data.file.value.changeset.value.author.value,
                                       "browser-filesource", c.browserFilesourceSize))
  {
  }

  /** The line-item `find_change`: the author is the data of the fragment's
      second event; the avatar follows the first event. */
  function LineItemFindChange(c: Component, baseUrl: string, fragment: seq<Event>): (r: Outcome<seq<Event>>)
    ensures |fragment| < 2 <==> r == Raise(IndexError)
    ensures r.Ok? ==>
              && |fragment| >= 2
              && r.value == InsertAfterFirst(fragment, GenerateAvatar(c, baseUrl, fragment[1].data,
                                                                      "browser-lineitem", c.browserLineitemSize))
  {
    if |fragment| < 2 then Raise(IndexError)
    else
      var author := fragment[1].data;
      var img := GenerateAvatar(c, baseUrl, author, "browser-lineitem", c.browserLineitemSize);
      Ok(InsertAfterFirst(fragment, img))
  }

  /** The line-item splice keeps the whole fragment, in order, around the
      two avatar events. */
  lemma LineItemKeepsFragment(c: Component, baseUrl: string, fragment: seq<Event>)
    requires |fragment| >= 2
    ensures LineItemFindChange(c, baseUrl, fragment).Ok?
    ensures RemoveAfterFirst(LineItemFindChange(c, baseUrl, fragment).value, 2) == fragment
  {
    var img := GenerateAvatar(c, baseUrl, fragment[1].data, "browser-lineitem", c.browserLineitemSize);
    InsertThenRemove(fragment, img);
  }

  // ------------------------------------------------------------ the filter

  /** The entries of `fs` that are not None, in order. */
  function Present<T>(fs: seq<Option<T>>): (r: seq<T>)
    ensures |r| <= |fs|
    decreases |fs|
  {
    if fs == [] then []
    else
      var last := fs[|fs| - 1];
      Present(fs[..|fs| - 1]) + (if last.Some? then [last.value] else [])
  }

  /** Every entry that is not None is kept, nothing else is, and a list with
      no None loses nothing. */
  lemma {:induction false} PresentKeeps<T>(fs: seq<Option<T>>)
    ensures None !in fs ==> |Present(fs)| == |fs|
    ensures forall k :: 0 <= k < |fs| && fs[k].Some? ==> fs[k].value in Present(fs)
    ensures forall k :: 0 <= k < |Present(fs)| ==> Some(Present(fs)[k]) in fs
    decreases |fs|
  {
    if fs != [] {
      var init := fs[..|fs| - 1];
      var last := fs[|fs| - 1];
      PresentKeeps(init);
      assert fs == init + [last];
      var tail := if last.Some? then [last.value] else [];
      assert Present(fs) == Present(init) + tail;
      forall k | 0 <= k < |Present(fs)|
        ensures Some(Present(fs)[k]) in fs
      {
        if k < |Present(init)| {
          assert Present(fs)[k] == Present(init)[k];
        } else {
          assert Some(Present(fs)[k]) == last;
        }
      }
    }
  }

  /** A list of filters as the `filter_` list holds them. */
  function AsEntries(fs: seq<Filter>): (r: seq<Option<Filter>>)
    ensures |r| == |fs| && forall k :: 0 <= k < |fs| ==> r[k] == Some(fs[k])
  {
    seq(|fs|, k requires 0 <= k < |fs| => Some(fs[k]))
  }

  /** With no None entry, every filter is kept. */
  lemma {:induction false} PresentOfEntries(fs: seq<Filter>)
    ensures Present(AsEntries(fs)) == fs
    decreases |fs|
  {
    if fs != [] {
      var init := fs[..|fs| - 1];
      PresentOfEntries(init);
      var entries := AsEntries(fs);
      assert entries[..|fs| - 1] == AsEntries(init);
      assert entries[|fs| - 1] == Some(fs[|fs| - 1]);
      assert Present(entries) == Present(entries[..|fs| - 1]) + [fs[|fs| - 1]];
      assert init + [fs[|fs| - 1]] == fs;
    }
  }

  /** The loop `for f in filter_: if f is not None: stream |= f`. */
  method ApplyFilters(stream: Stream<Filter>, entries: seq<Option<Filter>>) returns (r: Stream<Filter>)
    ensures r.source == stream.source
    ensures r.pipeline == stream.pipeline + Present(entries)
  {
    r := stream;
    for i := 0 to |entries|
      invariant r.source == stream.source
      invariant r.pipeline == stream.pipeline + Present(entries[..i])
    {
      assert entries[..i + 1][..i] == entries[..i];
      if entries[i].Some? {
        r := Stream(r.source, r.pipeline + [entries[i].value]);
      }
    }
    assert entries[..|entries|] == entries;
  }

  /** `stream` with `fs` queued after its own filters. */
  function Queued(stream: Stream<Filter>, fs: seq<Filter>): Stream<Filter>
  {
    Stream(stream.source, stream.pipeline + fs)
  }

  /** The filters `filter_stream` collects for the page, before queueing. */
  method PageFilters(c: Component, req: Request, data: ViewData) returns (r: Outcome<seq<Filter>>)
    requires Route(req.pathInfo) == Some(TimelinePage) && data.events.Some? ==> Distinct(data.events.value)
    modifies EventObjects(data)
    ensures Route(req.pathInfo) != Some(TimelinePage) ==> unchanged(EventObjects(data))
    ensures Route(req.pathInfo).None? ==> r == Ok([])
    ensures Route(req.pathInfo) == Some(TicketPage) && IsCommentDiff(req.queryString) ==>
              r == TicketCommentDiffFilter(c, req.baseUrl, data)
    ensures Route(req.pathInfo) == Some(TicketPage) && !IsCommentDiff(req.queryString) ==>
              r.Ok? && IsTicketFilters(r.value, c, req.baseUrl, data)
    ensures r.Ok? ==> fresh(Finders(r.value))
    ensures Route(req.pathInfo) == Some(TimelinePage) ==>
              && r == Ok([])
              && (data.events.Some? ==>
                    AllWrapped(data.events.value, old(Renders(data.events.value)), TimelineAvatar(c, req.baseUrl)))
    ensures Route(req.pathInfo) == Some(BrowserPage) ==> r == Ok(BrowserFilter(c, req.baseUrl, data))
    ensures Route(req.pathInfo) == Some(LogPage) ==> r == Ok(LogFilter(c, req.baseUrl, data))
  {
    match Route(req.pathInfo) {
      case Some(TicketPage) =>
        r := TicketFilter(c, req, data);
      case Some(TimelinePage) =>
        var fs := TimelineFilter(c, req.baseUrl, data);
        r := Ok(fs);
      case Some(BrowserPage) =>
        r := Ok(BrowserFilter(c, req.baseUrl, data));
      case Some(LogPage) =>
        r := Ok(LogFilter(c, req.baseUrl, data));
      case None =>
        r := Ok([]);
    }
    if r.Ok? && Route(req.pathInfo) != Some(TicketPage) {
      assert Finders(r.value) == {};
    }
  }

  /** The filters a builder returns are never None, so every one is queued. */
  method QueueAll(stream: Stream<Filter>, fs: seq<Filter>) returns (r: Stream<Filter>)
    ensures r == Queued(stream, fs)
  {
    PresentOfEntries(fs);
    r := ApplyFilters(stream, AsEntries(fs));
  }

  /** `filter_stream(req, method, filename, stream, data)`: the page's filters
      are queued after the stream's own, and the stylesheet is added unless
      building them raised. */
  method FilterStream(c: Component, req: Request, stream: Stream<Filter>, data: ViewData)
    returns (r: Outcome<Stream<Filter>>)
    requires Route(req.pathInfo) == Some(TimelinePage) && data.events.Some? ==> Distinct(data.events.value)
    modifies req, EventObjects(data)
    ensures r.Ok? ==> req.stylesheets == old(req.stylesheets) + [Stylesheet]
    ensures r.Raise? ==> req.stylesheets == old(req.stylesheets)
    ensures Route(req.pathInfo) != Some(TimelinePage) ==> unchanged(EventObjects(data))
    ensures Route(req.pathInfo).None? ==> r == Ok(stream)
    ensures Route(req.pathInfo) == Some(TicketPage) && IsCommentDiff(req.queryString) ==>
              match TicketCommentDiffFilter(c, req.baseUrl, data)
              case Ok(fs) => r == Ok(Queued(stream, fs))
              case Raise(e) => r == Raise(e)
    ensures Route(req.pathInfo) == Some(TicketPage) && !IsCommentDiff(req.queryString) ==>
              && r.Ok? && r.value.source == stream.source
              && |stream.pipeline| <= |r.value.pipeline| && r.value.pipeline[..|stream.pipeline|] == stream.pipeline
              && IsTicketFilters(r.value.pipeline[|stream.pipeline|..], c, req.baseUrl, data)
              && fresh(Finders(r.value.pipeline[|stream.pipeline|..]))
    ensures Route(req.pathInfo) == Some(TimelinePage) ==>
              && r == Ok(stream)
              && (data.events.Some? ==>
                    AllWrapped(data.events.value, old(Renders(data.events.value)), TimelineAvatar(c, req.baseUrl)))
    ensures Route(req.pathInfo) == Some(BrowserPage) ==> r == Ok(Queued(stream, BrowserFilter(c, req.baseUrl, data)))
    ensures Route(req.pathInfo) == Some(LogPage) ==> r == Ok(Queued(stream, LogFilter(c, req.baseUrl, data)))
  {
    var filters := PageFilters(c, req, data);
    if filters.Raise? {
      return Raise(filters.error);
    }
    var filtered := QueueAll(stream, filters.value);
    assert filtered.pipeline[..|stream.pipeline|] == stream.pipeline;
    assert filtered.pipeline[|stream.pipeline|..] == filters.value;
    assert stream.pipeline + [] == stream.pipeline;
    req.stylesheets := req.stylesheets + [Stylesheet];
    r := Ok(filtered);
  }
}
