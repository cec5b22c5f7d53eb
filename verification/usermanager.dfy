/** The UserManager avatar provider: the picture a user-manager plugin stores
    for a user, or the plugin's default portrait. */
module UserManager {
  import opened Common

  /** What the user manager keeps about a user; only `picture_href` is read. */
  datatype User = User(pictureHref: Option<string>)

  /** Static path of the default picture, resolved through `req.href.chrome`. */
  const DefaultPortrait := "userpictures/default-portrait.gif"

  /** The stand-in `UserManager.get_user` defined when the user-manager plugin
      cannot be imported: it knows no user. (Its log warning is not modelled.) */
  function FallbackGetUser(username: string): (user: Option<User>)
    ensures user.None?
  {
    None
  }

  /** `get_src`: the stored picture when there is one, the default portrait
      otherwise. `getUser` is the user manager's lookup and `chrome` the
      request's `href.chrome` URL builder. */
  function GetSrc(getUser: string -> Option<User>, chrome: string -> string,
                  username: string, size: string): (src: string)
    ensures getUser(username).None? ==> src == chrome(DefaultPortrait)
    ensures getUser(username).Some? && !Truthy(getUser(username).value.pictureHref) ==>
              src == chrome(DefaultPortrait)
    ensures getUser(username).Some? && Truthy(getUser(username).value.pictureHref) ==>
              src == getUser(username).value.pictureHref.value
  {
    var user := getUser(username);
    if user.None? || !Truthy(user.value.pictureHref) then chrome(DefaultPortrait)
    else user.value.pictureHref.value
  }

  /** The requested size plays no part in the result. */
  lemma SizeIgnored(getUser: string -> Option<User>, chrome: string -> string,
                    username: string, size1: string, size2: string)
    ensures GetSrc(getUser, chrome, username, size1) == GetSrc(getUser, chrome, username, size2)
  {
  }

  /** Without the user-manager plugin every user gets the default portrait. */
  lemma FallbackAlwaysDefault(chrome: string -> string, username: string, size: string)
    ensures GetSrc(FallbackGetUser, chrome, username, size) == chrome(DefaultPortrait)
  {
  }

  /** The result is either the user's own picture or the default one. */
  lemma SrcIsPictureOrDefault(getUser: string -> Option<User>, chrome: string -> string,
                              username: string, size: string)
    ensures var src := GetSrc(getUser, chrome, username, size);
            src == chrome(DefaultPortrait) ||
            (getUser(username).Some? && getUser(username).value.pictureHref == Some(src) && src != "")
  {
  }
}
