/** Values shared by the plugin's modules: Python's None, the exceptions the
    plugin can raise, string prefix tests, and the Gravatar URL layout that
    both `_generate_avatar` and the Gravatar provider assemble. */
module Common {

  datatype Option<+T> = None | Some(value: T)

  /** The Python exceptions the modelled code can let escape. */
  datatype PyError =
    | KeyError(key: string)   // `data['change']` on a mapping without that key
    | IndexError              // `pop()` on an empty list, `stream[1]` on a short list
    | StopIteration           // `next()` on an exhausted iterator

  /** A Python call that either returns a value or raises. */
  datatype Outcome<+T> = Ok(value: T) | Raise(error: PyError)

  /** Python truthiness of an optional string: None and '' are false. */
  predicate Truthy(s: Option<string>)
  {
    s.Some? && s.value != ""
  }

  /** `s.startswith(p)` */
  predicate StartsWith(s: string, p: string)
  {
    |p| <= |s| && s[..|p|] == p
  }

  /** `s.endswith(p)` */
  predicate EndsWith(s: string, p: string)
  {
    |p| <= |s| && s[|s| - |p|..] == p
  }

  /** `sub in s` for strings: some position of `s` starts with `sub`. */
  predicate Contains(s: string, sub: string)
    decreases |s|
  {
    StartsWith(s, sub) || (s != [] && Contains(s[1..], sub))
  }

  /** `sub` occurs in `s` at offset `i`. */
  predicate OccursAt(s: string, sub: string, i: nat)
  {
    i + |sub| <= |s| && s[i..i + |sub|] == sub
  }

  lemma {:induction false} ContainsAt(s: string, sub: string, i: nat)
    requires i + |sub| <= |s| && s[i..i + |sub|] == sub
    ensures Contains(s, sub)
    decreases i
  {
    if i > 0 {
      assert s[1..][i - 1..i - 1 + |sub|] == s[i..i + |sub|];
      ContainsAt(s[1..], sub, i - 1);
    }
  }

  /** Python's `sub in s` holds exactly when `sub` occurs at some offset. */
  lemma {:induction false} ContainsIff(s: string, sub: string)
    ensures Contains(s, sub) <==> exists i: nat :: OccursAt(s, sub, i)
    decreases |s|
  {
    if exists i: nat :: OccursAt(s, sub, i) {
      var i: nat :| OccursAt(s, sub, i);
      ContainsAt(s, sub, i);
    }
    if Contains(s, sub) {
      if StartsWith(s, sub) {
        assert OccursAt(s, sub, 0);
      } else {
        ContainsIff(s[1..], sub);
        var i: nat :| OccursAt(s[1..], sub, i);
        assert s[1..][i..i + |sub|] == s[i + 1..i + 1 + |sub|];
        assert OccursAt(s, sub, i + 1);
      }
    }
  }

  const SecureGravatar := "https://gravatar.com/avatar/"
  const PlainGravatar := "http://www.gravatar.com/avatar/"

  /** The avatar address: a host chosen by the request's scheme, the hex digest,
      then `?size=` and the size exactly as configured. */
  function GravatarHref(baseUrl: string, hash: string, size: string): (href: string)
    ensures StartsWith(href, SecureGravatar) <==> StartsWith(baseUrl, "https://")
    ensures StartsWith(href, PlainGravatar) <==> !StartsWith(baseUrl, "https://")
    ensures var host := if StartsWith(baseUrl, "https://") then SecureGravatar else PlainGravatar;
            |href| == |host| + |hash| + 6 + |size| &&
            href[|host|..|host| + |hash|] == hash
    ensures EndsWith(href, "?size=" + size)
  {
    var host := if StartsWith(baseUrl, "https://") then SecureGravatar else PlainGravatar;
    var tail := "?size=" + size;
    var href := host + (hash + tail);
    assert href[..|host|] == host;
    assert href[|host|..] == hash + tail;
    assert href[|host|..][..|hash|] == hash;
    assert href[|host|..|host| + |hash|] == href[|host|..][..|hash|];
    assert href[|href| - |tail|..] == tail;
    assert href[4] == host[4] && SecureGravatar[4] != PlainGravatar[4];
    href
  }
}
