/** The Gravatar avatar provider: it turns a user identifier into an e-mail
    address, through the registry of known users for plain usernames and
    through the author pattern for identifiers holding an `@`, and builds the
    Gravatar URL from the MD5 hex digest of that address. */
module Gravatar {
  import opened Common
  import opened LongAuthor

  /** One entry of the host's registry of known users: (username, name, email). */
  datatype KnownUser = KnownUser(username: string, name: Option<string>, email: Option<string>)

  /** The `email_map` dictionary: username to the e-mail the registry gives
      (which may be None). */
  type EmailMap = map<string, Option<string>>

  /** The dictionary obtained by storing each registry entry in turn. */
  function EmailMapOf(users: seq<KnownUser>): (m: EmailMap)
    ensures forall k :: 0 <= k < |users| ==> users[k].username in m
    ensures users != [] ==> m[users[|users| - 1].username] == users[|users| - 1].email
    decreases |users|
  {
    if users == [] then map[]
    else
      var last := users[|users| - 1];
      EmailMapOf(users[..|users| - 1])[last.username := last.email]
  }

  /** The map has one key per registered username and no other. */
  lemma {:induction false} EmailMapKeys(users: seq<KnownUser>)
    ensures EmailMapOf(users).Keys == set u | u in users :: u.username
    decreases |users|
  {
    if users != [] {
      var init := users[..|users| - 1];
      EmailMapKeys(init);
      assert users == init + [users[|users| - 1]];
    }
  }

  /** A repeated username keeps the e-mail of its last entry. */
  lemma {:induction false} EmailMapLastWins(users: seq<KnownUser>, i: nat)
    requires i < |users|
    requires forall k :: i < k < |users| ==> users[k].username != users[i].username
    ensures users[i].username in EmailMapOf(users)
    ensures EmailMapOf(users)[users[i].username] == users[i].email
    decreases |users|
  {
    if i < |users| - 1 {
      var init := users[..|users| - 1];
      EmailMapLastWins(init, i);
    }
  }

  /** `self.email_map.get(username) or ''` */
  function Lookup(m: EmailMap, username: string): (email: string)
    ensures username !in m ==> email == ""
    ensures username in m && !Truthy(m[username]) ==> email == ""
    ensures username in m && Truthy(m[username]) ==> email == m[username].value
  {
    if username in m && m[username].Some? then m[username].value else ""
  }

  /** The e-mail address `get_src` hashes for `username`. */
  function ResolveEmail(username: string, m: EmailMap): (email: string)
    ensures '@' in username ==> email == "" || IsAddress(email)
  {
    if '@' !in username then
      if username == "anonymous" then "" else Lookup(m, username)
    else
      match MatchAuthor(username)
      case None => ""
      case Some(found) =>
        AddressShape(found.local, found.domain);
        MatchedEmail(found)
  }

  /** The URL `get_src` returns, given the e-mail map it consults
      (userpictures/providers/gravatar.py:25-44). */
  function Src(md5hex: string -> string, baseUrl: string, username: string, size: string, m: EmailMap): string
  {
    GravatarHref(baseUrl, md5hex(ResolveEmail(username, m)), size)
  }

  /** The map `email_map` yields: the cached one, or the one built now. */
  function MapSeen(cache: Option<EmailMap>, knownUsers: seq<KnownUser>): EmailMap
  {
    if cache.Some? then cache.value else EmailMapOf(knownUsers)
  }

  /** The provider component; its only state is the lazily built map. */
  class GravatarProvider {
    /** `_email_map`: absent until `email_map` is first read. */
    var cache: Option<EmailMap>

    constructor ()
      ensures cache == None
    {
      cache := None;
    }

    /** The `email_map` property. `knownUsers` is what the host registry
        would enumerate now; it is not consulted once the map is cached. */
    method EmailMap(knownUsers: seq<KnownUser>) returns (m: EmailMap)
      modifies this
      ensures old(cache).Some? ==> m == old(cache).value
      ensures old(cache).None? ==> m == EmailMapOf(knownUsers)
      ensures cache == Some(m)
    {
      if cache.Some? {
        return cache.value;
      }
      var built: EmailMap := map[];
      for i := 0 to |knownUsers|
        invariant built == EmailMapOf(knownUsers[..i])
      {
        assert knownUsers[..i + 1][..i] == knownUsers[..i];
        built := built[knownUsers[i].username := knownUsers[i].email];
      }
      assert knownUsers[..|knownUsers|] == knownUsers;
      cache := Some(built);
      m := built;
    }

    /** `get_src`: only a plain username other than `anonymous` reads (and
        so may build) the e-mail map. */
    method GetSrc(knownUsers: seq<KnownUser>, md5hex: string -> string, baseUrl: string,
                  username: string, size: string) returns (href: string)
      modifies this
      ensures href == Src(md5hex, baseUrl, username, size, MapSeen(old(cache), knownUsers))
      ensures cache == if '@' !in username && username != "anonymous"
                       then Some(MapSeen(old(cache), knownUsers)) else old(cache)
    {
      var email := "";
      if '@' !in username {
        if username != "anonymous" {
          var m := EmailMap(knownUsers);
          email := Lookup(m, username);
        }
      } else {
        var found := MatchAuthor(username);
        if found.Some? {
          email := MatchedEmail(found.value);
        }
      }
      href := GravatarHref(baseUrl, md5hex(email), size);
    }
  }

  /** Reading the map twice from an unchanged registry gives the same map,
      and the second read does not look at the registry at all. */
  method EmailMapTwice(p: GravatarProvider, knownUsers: seq<KnownUser>, later: seq<KnownUser>)
    returns (first: EmailMap, second: EmailMap)
    modifies p
    ensures first == second == MapSeen(old(p.cache), knownUsers)
  {
    first := p.EmailMap(knownUsers);
    second := p.EmailMap(later);
  }

  /** The anonymous sentinel has no address, whatever the registry says. */
  lemma AnonymousHasNoEmail(m: EmailMap)
    ensures ResolveEmail("anonymous", m) == ""
  {
  }

  /** A username the registry does not know, or knows without an e-mail,
      has no address. */
  lemma UnknownUserHasNoEmail(username: string, m: EmailMap)
    requires '@' !in username
    requires username !in m || !Truthy(m[username])
    ensures ResolveEmail(username, m) == ""
  {
  }

  /** A known username resolves to its registered e-mail. */
  lemma KnownUserEmail(username: string, m: EmailMap)
    requires '@' !in username && username != "anonymous"
    requires username in m && Truthy(m[username])
    ensures ResolveEmail(username, m) == m[username].value
  {
  }

  /** `Display Name <local@domain>` yields `local@domain`. The display name
      must stay on one line (`.` does not match a newline); a `<` inside the
      local part would move the match, and the domain may hold any character
      but `@`. */
  lemma {:induction false} BracketedEmail(name: string, local: string, domain: string, m: EmailMap)
    requires '\n' !in name
    requires local != [] && NoAt(local) && '<' !in local
    requires domain != [] && NoAt(domain)
    ensures ResolveEmail(name + "<" + local + "@" + domain + ">", m) == local + "@" + domain
  {
    var s := name + "<" + local + "@" + domain + ">";
    var i := |name|;
    var j := i + 1 + |local|;
    assert s[..i] == name;
    assert s[i + 1..j] == local;
    assert s[j + 1..|s| - 1] == domain;
    assert IsBracketAt(s, i, local, domain);
    forall q: nat | i < q < |s| ensures BracketAt(s, q).None? {
      if BracketAt(s, q).Some? {
        assert false;
      }
    }
    MatchAtLastOpen(s, i, local, domain);
    var r := MatchAuthor(s).value;
    assert r.domain == s[j + 1..j + 1 + |r.domain|];
  }

  /** A bare `local@domain` yields itself. */
  lemma {:induction false} BareEmail(local: string, domain: string, m: EmailMap)
    requires local != [] && NoAt(local) && '<' !in local
    requires domain != [] && NoAt(domain)
    ensures ResolveEmail(local + "@" + domain, m) == local + "@" + domain
  {
    var s := local + "@" + domain;
    var j := |local|;
    assert s[..j] == local;
    assert s[j + 1..] == domain;
    forall q: nat | q < |s| ensures BracketAt(s, q).None? {
      if BracketAt(s, q).Some? {
        assert false;
      }
    }
    assert IsBare(s, local, domain);
    BareGreedy(s, local, domain);
    var r := MatchAuthor(s).value;
    assert r.local == local;
    assert r.domain == domain;
  }

  /** `Display Name <local@domain>` and `local@domain` give the same URL. */
  lemma SameUrlWithDisplayName(md5hex: string -> string, baseUrl: string, size: string,
                               name: string, local: string, domain: string, m: EmailMap)
    requires '\n' !in name
    requires local != [] && NoAt(local) && '<' !in local
    requires domain != [] && NoAt(domain)
    ensures Src(md5hex, baseUrl, name + "<" + local + "@" + domain + ">", size, m)
         == Src(md5hex, baseUrl, local + "@" + domain, size, m)
  {
    BracketedEmail(name, local, domain, m);
    BareEmail(local, domain, m);
  }

  /** When the pattern does not match, the address stays empty: a leading
      `@` with no bracketed form, for one. */
  lemma {:induction false} LeadingAtHasNoEmail(s: string, m: EmailMap)
    requires s != [] && s[0] == '@' && '<' !in s
    ensures ResolveEmail(s, m) == ""
  {
    forall q: nat | q < |s| ensures BracketAt(s, q).None? {
      if BracketAt(s, q).Some? {
        assert false;
      }
    }
    assert NextAt(s, 0) == 0;
    assert BareMatch(s).None?;
  }

  /** Two `@` in a row after the first run also defeat the pattern. */
  lemma {:induction false} DoubledAtHasNoEmail(local: string, rest: string, m: EmailMap)
    requires local != [] && NoAt(local) && '<' !in local + rest
    ensures ResolveEmail(local + "@@" + rest, m) == ""
  {
    var s := local + "@@" + rest;
    var j := |local|;
    forall q: nat | q < |s| ensures BracketAt(s, q).None? {
      if BracketAt(s, q).Some? {
        assert false;
      }
    }
    assert s[..j] == local && s[j] == '@' && s[j + 1] == '@';
    AtEndsRun(s, 0, local);
    assert NextAt(s, j + 1) == j + 1;
    assert BareMatch(s).None?;
  }

  /** The address is hashed exactly as it is written in the identifier: the
      URL of a bare `local@domain` is the one for that very string, with no
      case folding or trimming. */
  lemma BareAddressHashedAsWritten(md5hex: string -> string, baseUrl: string, size: string,
                                   local: string, domain: string, m: EmailMap)
    requires local != [] && NoAt(local) && '<' !in local
    requires domain != [] && NoAt(domain)
    ensures Src(md5hex, baseUrl, local + "@" + domain, size, m)
         == GravatarHref(baseUrl, md5hex(local + "@" + domain), size)
  {
    BareEmail(local, domain, m);
  }
}
