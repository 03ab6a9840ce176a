/**
 * The read side of the schema: `Query.resolve_links` and `Query.resolve_votes`.
 * Both are pure functions of the store, so neither can change it.
 */
module Query {
  import opened Wrappers
  import opened Text
  import opened Models

  /** Python truthiness of the optional `search` argument: `None` and `""` are falsy. */
  predicate SearchGiven(search: Option<string>) {
    search.Some? && search.value != ""
  }

  /** Python truthiness of the optional `first`/`skip` arguments: `None` and `0` are falsy. */
  predicate CountGiven(n: Option<nat>) {
    n.Some? && n.value != 0
  }

  /** The number of leading links `skip` drops; a falsy `skip` drops none. */
  function Offset(skip: Option<nat>): nat {
    if CountGiven(skip) then skip.value else 0
  }

  /** How many of `n` links remain once `skip` has dropped its share. */
  function Remaining(n: nat, skip: Option<nat>): nat {
    if Offset(skip) <= n then n - Offset(skip) else 0
  }

  /** How many links a page holds: the remainder, cut to `first` when `first` is truthy. */
  function PageLength(n: nat, first: Option<nat>, skip: Option<nat>): nat {
    if CountGiven(first) && first.value < Remaining(n, skip) then first.value else Remaining(n, skip)
  }

  /** `Q(url__icontains=search) | Q(description__icontains=search)`. */
  predicate Matches(l: Link, search: string) {
    IContains(l.url, search) || IContains(l.description, search)
  }

  /** `a` can be obtained from `b` by deleting elements, keeping the order of the rest. */
  predicate IsSubsequence<T(==)>(a: seq<T>, b: seq<T>)
    decreases |b|
  {
    if |a| == 0 then true
    else if |b| == 0 then false
    else if a[0] == b[0] then IsSubsequence(a[1..], b[1..])
    else IsSubsequence(a, b[1..])
  }

  /** `Link.objects.filter(filter)`: the matching links, in store order. */
  function Filter(links: seq<Link>, search: string): (r: seq<Link>)
    ensures forall l :: l in r <==> l in links && Matches(l, search)
    ensures forall l :: multiset(r)[l] == if Matches(l, search) then multiset(links)[l] else 0
    ensures IsSubsequence(r, links)
  {
    if |links| == 0 then []
    else
      var rest := Filter(links[1..], search);
      assert links == [links[0]] + links[1..];
      if Matches(links[0], search) then
        assert ([links[0]] + rest)[1..] == rest;
        [links[0]] + rest
      else
        assert |rest| > 0 ==> rest[0] != links[0] by {
          if |rest| > 0 { assert rest[0] in rest; }
        }
        rest
  }

  /**
   * `qs[skip:]` when `skip` is truthy, then `[:first]` when `first` is
   * truthy, with Python's clamping slice bounds.
   */
  function Paginate(links: seq<Link>, first: Option<nat>, skip: Option<nat>): (r: seq<Link>)
    ensures |r| == PageLength(|links|, first, skip)
    ensures forall i :: 0 <= i < |r| ==> r[i] == links[Offset(skip) + i]
  {
    var rest := if !CountGiven(skip) then links
                else if skip.value <= |links| then links[skip.value..]
                else [];
    if CountGiven(first) && first.value < |rest| then rest[..first.value] else rest
  }

  /** `Query.resolve_links`. A truthy `search` filters and ignores pagination. */
  function ResolveLinks(st: Store, search: Option<string>, first: Option<nat>, skip: Option<nat>): (r: seq<Link>)
    ensures SearchGiven(search) ==>
              && (forall l :: l in r <==> l in st.links && Matches(l, search.value))
              && IsSubsequence(r, st.links)
    ensures !SearchGiven(search) ==>
              && |r| == PageLength(|st.links|, first, skip)
              && forall i :: 0 <= i < |r| ==> r[i] == st.links[Offset(skip) + i]
  {
    if SearchGiven(search) then Filter(st.links, search.value)
    else Paginate(st.links, first, skip)
  }

  /** `Query.resolve_votes`: every vote, unfiltered and unpaginated. */
  function ResolveVotes(st: Store): seq<Vote> {
    st.votes
  }

  /** A truthy `search` makes `first` and `skip` irrelevant. */
  lemma SearchIgnoresPagination(st: Store, search: Option<string>,
                                first: Option<nat>, skip: Option<nat>,
                                first': Option<nat>, skip': Option<nat>)
    requires SearchGiven(search)
    ensures ResolveLinks(st, search, first, skip) == ResolveLinks(st, search, first', skip')
  {
  }

  /** A stored link that matches a truthy search is in its result. */
  lemma MatchingLinkIsFound(st: Store, l: Link, s: string, first: Option<nat>, skip: Option<nat>)
    requires l in st.links && s != "" && Matches(l, s)
    ensures l in ResolveLinks(st, Some(s), first, skip)
  {
  }

  /** Falsy arguments behave exactly like absent ones. */
  lemma FalsyArgumentsAreAbsent(st: Store, search: Option<string>, first: Option<nat>, skip: Option<nat>)
    ensures ResolveLinks(st, Some(""), first, skip) == ResolveLinks(st, None, first, skip)
    ensures ResolveLinks(st, search, Some(0), skip) == ResolveLinks(st, search, None, skip)
    ensures ResolveLinks(st, search, first, Some(0)) == ResolveLinks(st, search, first, None)
  {
  }

  /** Without search, a page is the contiguous window `links[skip : skip + first]`. */
  lemma PageIsWindow(st: Store, first: nat, skip: nat)
    requires 0 < first
    ensures ResolveLinks(st, None, Some(first), Some(skip))
            == if skip >= |st.links| then []
               else if skip + first >= |st.links| then st.links[skip..]
               else st.links[skip..skip + first]
  {
  }

  /** Without search or pagination the listing is the whole store, in order. */
  lemma ListAllIsStore(st: Store)
    ensures ResolveLinks(st, None, None, None) == st.links
  {
  }

  /** Consecutive pages of the same size tile the listing without gaps or overlap. */
  lemma ConsecutivePagesTile(st: Store, first: nat, skip: nat)
    requires 0 < first
    ensures ResolveLinks(st, None, Some(first), Some(skip))
            + ResolveLinks(st, None, Some(first), Some(skip + first))
            == ResolveLinks(st, None, Some(2 * first), Some(skip))
  {
  }

  /** `Filter` sees the search text only through its lower-case form. */
  lemma {:induction false} FilterIgnoresCase(links: seq<Link>, s: string, t: string)
    requires Lower(s) == Lower(t)
    ensures Filter(links, s) == Filter(links, t)
  {
    if |links| > 0 {
      FilterIgnoresCase(links[1..], s, t);
    }
  }

  /** Searches that differ only in letter case return the same links. */
  lemma SearchIgnoresCase(st: Store, s: string, first: Option<nat>, skip: Option<nat>)
    requires s != ""
    ensures ResolveLinks(st, Some(Upper(s)), first, skip) == ResolveLinks(st, Some(s), first, skip)
    ensures ResolveLinks(st, Some(Lower(s)), first, skip) == ResolveLinks(st, Some(s), first, skip)
  {
    LowerOfUpper(s);
    LowerIdempotent(s);
    assert |Upper(s)| == |s| && |Lower(s)| == |s|;
    FilterIgnoresCase(st.links, Upper(s), s);
    FilterIgnoresCase(st.links, Lower(s), s);
  }
}
