/** The Gravatar provider's author pattern
      .*<([^@]+)@([^@]+)>\s*|([^@]+)@([^@]+)
    applied with Python's `re.match`: anchored at the start of the string, not
    at its end, alternatives tried left to right, quantifiers greedy with
    backtracking, and `.` matching every character except a newline. */
module LongAuthor {
  import opened Common

  /** A successful match and the groups it binds. */
  datatype Match =
    | Bracketed(open: nat, local: string, domain: string)  // first alternative: groups 1 and 2; `open` indexes the '<'
    | Bare(local: string, domain: string)                  // second alternative: groups 3 and 4

  predicate NoAt(t: string)
  {
    '@' !in t
  }

  /** `.*` can cover `s[..i]`: it holds no newline. */
  predicate OnFirstLine(s: string, i: nat)
  {
    i <= |s| && '\n' !in s[..i]
  }

  /** Reading `<`, group 1, `@`, group 2, `>` from index `i` on, each group a
      non-empty run of characters other than `@`. */
  predicate IsBracketAt(s: string, i: nat, g1: string, g2: string)
  {
    var j := i + 1 + |g1|;
    var m := j + 1 + |g2|;
    && m < |s|
    && s[i] == '<' && s[i + 1..j] == g1 && s[j] == '@' && s[j + 1..m] == g2 && s[m] == '>'
    && g1 != [] && g2 != [] && NoAt(g1) && NoAt(g2)
  }

  /** Reading group 3, `@`, group 4 from the start of `s`. */
  predicate IsBare(s: string, g3: string, g4: string)
  {
    var j := |g3|;
    && j + 1 + |g4| <= |s|
    && s[..j] == g3 && s[j] == '@' && s[j + 1..j + 1 + |g4|] == g4
    && g3 != [] && g4 != [] && NoAt(g3) && NoAt(g4)
  }

  /** The first `@` at or after `from`, or `|s|` when there is none: where a
      greedy `[^@]+` starting at `from` stops. */
  function NextAt(s: string, from: nat): (k: nat)
    requires from <= |s|
    ensures from <= k <= |s|
    ensures k < |s| ==> s[k] == '@'
    ensures forall p :: from <= p < k ==> s[p] != '@'
    decreases |s| - from
  {
    if from == |s| || s[from] == '@' then from else NextAt(s, from + 1)
  }

  /** The last `>` in `s[lo..hi]`: where backtracking from a greedy run
      ending at `hi` first finds the closing `>`. */
  function LastGt(s: string, lo: nat, hi: nat): (m: Option<nat>)
    requires hi <= |s|
    ensures m.Some? ==> lo <= m.value < hi && s[m.value] == '>'
    ensures m.Some? ==> forall p :: m.value < p < hi ==> s[p] != '>'
    ensures m.None? ==> forall p :: lo <= p < hi ==> s[p] != '>'
    decreases hi
  {
    if hi <= lo then None
    else if s[hi - 1] == '>' then Some(hi - 1)
    else LastGt(s, lo, hi - 1)
  }

  /** The first alternative with `.*` fixed to cover `s[..i]`. */
  function BracketAt(s: string, i: nat): (r: Option<(string, string)>)
    requires i < |s|
    ensures r.Some? ==> IsBracketAt(s, i, r.value.0, r.value.1)
  {
    if s[i] != '<' then None
    else
      var j := NextAt(s, i + 1);
      if j == |s| || j == i + 1 then None
      else
        var k := NextAt(s, j + 1);
        match LastGt(s, j + 2, k)
        case None => None
        case Some(m) =>
          Some((s[i + 1..j], s[j + 1..m]))
  }

  /** The first `@` after the `<` ends group 1, whatever else follows. */
  lemma AtEndsRun(s: string, from: nat, g: string)
    requires from + |g| < |s| && s[from..from + |g|] == g && NoAt(g) && s[from + |g|] == '@'
    ensures NextAt(s, from) == from + |g|
  {
    var k := NextAt(s, from);
    if k < from + |g| {
      assert false;
    }
  }

  /** `BracketAt` finds every reading of the first alternative at `i`: group 1
      is the only one possible, and group 2 is the longest one (greedy). */
  lemma BracketAtGreedy(s: string, i: nat, g1: string, g2: string)
    requires i < |s| && IsBracketAt(s, i, g1, g2)
    ensures BracketAt(s, i).Some?
    ensures BracketAt(s, i).value.0 == g1 && |g2| <= |BracketAt(s, i).value.1|
  {
    var j := i + 1 + |g1|;
    var m := j + 1 + |g2|;
    AtEndsRun(s, i + 1, g1);
    var k := NextAt(s, j + 1);
    if k <= m {
      assert false;
    }
    var found := LastGt(s, j + 2, k);
    assert found.Some? && found.value >= m;
  }

  /** Backtracking of `.*`: the first alternative is tried with `.*` covering
      `s[..i]`, then `s[..i - 1]`, down to the empty prefix. */
  function SearchBracket(s: string, i: nat): (r: Option<Match>)
    requires i < |s|
    ensures r.Some? ==> r.value.Bracketed? && r.value.open <= i
    ensures r.Some? ==> BracketAt(s, r.value.open) == Some((r.value.local, r.value.domain))
    ensures r.Some? ==> forall q: nat :: r.value.open < q <= i ==> BracketAt(s, q).None?
    ensures r.None? ==> forall q: nat :: q <= i ==> BracketAt(s, q).None?
    decreases i
  {
    match BracketAt(s, i)
    case Some(g) => Some(Bracketed(i, g.0, g.1))
    case None => if i == 0 then None else SearchBracket(s, i - 1)
  }

  /** The first newline in `s`, or `|s|`: how far `.*` can reach. */
  function FirstNewline(s: string): (n: nat)
    ensures n <= |s| && OnFirstLine(s, n)
    ensures n < |s| ==> s[n] == '\n'
  {
    if s == [] || s[0] == '\n' then 0
    else
      var n := 1 + FirstNewline(s[1..]);
      assert s[..n] == [s[0]] + s[1..][..n - 1];
      n
  }

  /** The second alternative, read greedily from the start of `s`: group 4
      runs up to the next `@` or the end. */
  function BareMatch(s: string): (r: Option<Match>)
    ensures r.Some? ==> r.value.Bare? && IsBare(s, r.value.local, r.value.domain)
    ensures r.Some? ==> var end := |r.value.local| + 1 + |r.value.domain|;
                        end == |s| || s[end] == '@'
  {
    var j := NextAt(s, 0);
    if j == 0 || j == |s| then None
    else
      var k := NextAt(s, j + 1);
      if k == j + 1 then None
      else
        Some(Bare(s[..j], s[j + 1..k]))
  }

  /** `BareMatch` finds every reading of the second alternative: group 3 is
      the only one possible and group 4 is the longest one. */
  lemma BareGreedy(s: string, g3: string, g4: string)
    requires IsBare(s, g3, g4)
    ensures BareMatch(s).Some?
    ensures BareMatch(s).value.local == g3 && |g4| <= |BareMatch(s).value.domain|
  {
    var j := |g3|;
    AtEndsRun(s, 0, g3);
    var k := NextAt(s, j + 1);
    if k < j + 1 + |g4| {
      assert false;
    }
  }

  /** `.*` reaches exactly the indices up to the first newline. */
  lemma FirstLineBounds(s: string)
    ensures forall q: nat :: OnFirstLine(s, q) <==> q <= FirstNewline(s)
  {
    var n := FirstNewline(s);
    forall q: nat ensures OnFirstLine(s, q) <==> q <= n {
      if q <= n {
        assert s[..q] == s[..n][..q];
      } else if q <= |s| {
        assert s[..q][n] == '\n';
      }
    }
  }

  /** `_long_author_re.match(s)`. */
  function MatchAuthor(s: string): (r: Option<Match>)
    ensures r.Some? && r.value.Bracketed? ==>
              && r.value.open < |s| && OnFirstLine(s, r.value.open)
              && IsBracketAt(s, r.value.open, r.value.local, r.value.domain)
              && BracketAt(s, r.value.open) == Some((r.value.local, r.value.domain))
              && forall q: nat :: r.value.open < q < |s| && OnFirstLine(s, q) ==> BracketAt(s, q).None?
    ensures (r.None? || r.value.Bare?) ==>
              forall q: nat :: q < |s| && OnFirstLine(s, q) ==> BracketAt(s, q).None?
    ensures r.Some? && r.value.Bare? ==> IsBare(s, r.value.local, r.value.domain)
    ensures r.Some? && r.value.Bare? ==> var end := |r.value.local| + 1 + |r.value.domain|;
                                         end == |s| || s[end] == '@'
    ensures (r.None? || r.value.Bare?) ==> r == BareMatch(s)
  {
    if s == [] then BareMatch(s)
    else
      var n := FirstNewline(s);
      var first := SearchBracket(s, if n < |s| then n else |s| - 1);
      FirstLineBounds(s);
      if first.Some? then first else BareMatch(s)
  }

  /** When the first alternative can be read at a `<` on the first line and
      at no later index of that line, the match is there, with group 1 as
      read and the longest group 2. Readings on later lines do not matter. */
  lemma MatchAtLastOpen(s: string, i: nat, g1: string, g2: string)
    requires i < |s| && OnFirstLine(s, i) && IsBracketAt(s, i, g1, g2)
    requires forall q: nat :: i < q < |s| && OnFirstLine(s, q) ==> BracketAt(s, q).None?
    ensures MatchAuthor(s).Some? && MatchAuthor(s).value.Bracketed?
    ensures MatchAuthor(s).value.open == i && MatchAuthor(s).value.local == g1
    ensures |g2| <= |MatchAuthor(s).value.domain|
  {
    BracketAtGreedy(s, i, g1, g2);
  }

  /** One `@` with a non-empty run on each side: the shape of every address
      the pattern yields. */
  predicate IsAddress(email: string)
  {
    var j := NextAt(email, 0);
    0 < j && j + 1 < |email| && NoAt(email[j + 1..])
  }

  /** Joining two matched groups with `@` gives an address. */
  lemma AddressShape(local: string, domain: string)
    requires local != [] && NoAt(local) && domain != [] && NoAt(domain)
    ensures IsAddress(local + "@" + domain)
  {
    var email := local + "@" + domain;
    assert email[0..|local|] == local;
    AtEndsRun(email, 0, local);
    assert email[|local| + 1..] == domain;
  }

  /** The e-mail address the provider reads from a matched author. */
  function MatchedEmail(m: Match): (email: string)
    ensures email == m.local + "@" + m.domain
  {
    // group 1 (resp. 3) is never empty when its alternative matched, so
    // the provider's `if group(1)` / `elif group(3)` reduce to this choice
    match m
    case Bracketed(_, local, domain) => local + "@" + domain
    case Bare(local, domain) => local + "@" + domain
  }
}
