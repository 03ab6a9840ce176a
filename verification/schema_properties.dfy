/**
 * Properties that relate the queries to the mutations: what a client reads
 * back after a write, and the worked search example.
 */
module SchemaProperties {
  import opened Wrappers
  import opened Text
  import opened Models
  import opened Query
  import opened Mutation

  /** The link `CreateLink` appends, as it is stored. */
  function CreatedLink(st: Store, identity: Option<User>, url: string, description: string): Link {
    var out := CreateLink(st, identity, url, description);
    Link(out.result.id, url, description, identity)
  }

  lemma CreatedLinkIsLast(st: Store, identity: Option<User>, url: string, description: string)
    ensures ResolveLinks(CreateLink(st, identity, url, description).store, None, None, None)
            == st.links + [CreatedLink(st, identity, url, description)]
  {
    ListAllIsStore(CreateLink(st, identity, url, description).store);
  }

  /**
   * Any non-empty search text that equals the created link's url or its
   * description up to letter case finds the link.
   */
  lemma CreatedLinkIsFoundBy(st: Store, identity: Option<User>, url: string, description: string,
                             t: string, first: Option<nat>, skip: Option<nat>)
    requires t != ""
    requires Lower(t) == Lower(url) || Lower(t) == Lower(description)
    ensures CreatedLink(st, identity, url, description)
            in ResolveLinks(CreateLink(st, identity, url, description).store, Some(t), first, skip)
  {
    var st' := CreateLink(st, identity, url, description).store;
    var link := CreatedLink(st, identity, url, description);
    assert link in st'.links;
    IContainsSelf(url);
    IContainsSelf(description);
    assert Matches(link, t);
    MatchingLinkIsFound(st', link, t, first, skip);
  }

  /**
   * A created link is listed last by the unpaginated query, and a search for
   * its url or its description, in any letter case, finds it whatever
   * `first` and `skip` say.
   */
  lemma CreatedLinkIsListed(st: Store, identity: Option<User>, url: string, description: string,
                            first: Option<nat>, skip: Option<nat>)
    ensures var st' := CreateLink(st, identity, url, description).store;
            var link := CreatedLink(st, identity, url, description);
            && ResolveLinks(st', None, None, None) == st.links + [link]
            && (forall t :: t != "" && Lower(t) == Lower(url) ==> link in ResolveLinks(st', Some(t), first, skip))
            && (forall t :: t != "" && Lower(t) == Lower(description) ==> link in ResolveLinks(st', Some(t), first, skip))
  {
    CreatedLinkIsLast(st, identity, url, description);
    forall t | t != "" && (Lower(t) == Lower(url) || Lower(t) == Lower(description))
      ensures CreatedLink(st, identity, url, description)
              in ResolveLinks(CreateLink(st, identity, url, description).store, Some(t), first, skip)
    {
      CreatedLinkIsFoundBy(st, identity, url, description, t, first, skip);
    }
  }

  /**
   * A successful vote is listed last by `ResolveVotes`; a refused vote
   * leaves both listings exactly as they were.
   */
  lemma CastVoteIsListed(st: Store, identity: Option<User>, linkId: int,
                         search: Option<string>, first: Option<nat>, skip: Option<nat>)
    ensures var out := CreateVote(st, identity, linkId);
            && (out.result.Ok? ==>
                  && |ResolveVotes(out.store)| == |ResolveVotes(st)| + 1
                  && ResolveVotes(out.store)[..|st.votes|] == ResolveVotes(st)
                  && ResolveVotes(out.store)[|st.votes|].user == out.result.value.user
                  && ResolveVotes(out.store)[|st.votes|].link == out.result.value.link.id)
            && (out.result.Err? ==>
                  && ResolveVotes(out.store) == ResolveVotes(st)
                  && ResolveLinks(out.store, search, first, skip) == ResolveLinks(st, search, first, skip))
  {
  }

  /** The two links of the worked search example. */
  function ExampleStore(): Store {
    Store([Link(1, "http://a.com", "foo", None), Link(2, "http://b.com", "bar foo", None)], [])
  }

  /** The example texts hold no upper-case letters, so folding leaves them alone. */
  lemma ExampleTextsAreLowerCase()
    ensures Lower("foo") == "foo" && Lower("bar") == "bar" && Lower("bar foo") == "bar foo"
    ensures Lower("http://a.com") == "http://a.com" && Lower("http://b.com") == "http://b.com"
  {
  }

  lemma BarNotInFirstLink()
    ensures !Contains("http://a.com", "bar")
    ensures !Contains("foo", "bar")
  {
    forall i | 0 <= i <= |"http://a.com"| - 3
      ensures !OccursAt("http://a.com", "bar", i)
    {
      assert "http://a.com"[i..i + 3][0] == "http://a.com"[i];
    }
    forall i | 0 <= i <= |"foo"| - 3
      ensures !OccursAt("foo", "bar", i)
    {
      assert "foo"[i..i + 3][0] == "foo"[i];
    }
  }

  lemma ExampleMatchesFoo()
    ensures Matches(ExampleStore().links[0], "foo")
    ensures Matches(ExampleStore().links[1], "foo")
  {
    ExampleTextsAreLowerCase();
    assert OccursAt("foo", "foo", 0);
    assert IContains("foo", "foo");
    assert OccursAt("bar foo", "foo", 4);
    assert IContains("bar foo", "foo");
  }

  lemma SecondLinkMatchesBar()
    ensures Matches(ExampleStore().links[1], "bar")
  {
    ExampleTextsAreLowerCase();
    assert OccursAt("bar foo", "bar", 0);
    assert IContains("bar foo", "bar");
  }

  lemma FirstLinkMissesBar()
    ensures !Matches(ExampleStore().links[0], "bar")
  {
    ExampleTextsAreLowerCase();
    BarNotInFirstLink();
    assert !IContains("http://a.com", "bar");
    assert !IContains("foo", "bar");
  }

  /** Searching "foo" returns both example links. */
  lemma SearchExampleFoo(first: Option<nat>, skip: Option<nat>)
    ensures ResolveLinks(ExampleStore(), Some("foo"), first, skip) == ExampleStore().links
  {
    var links := ExampleStore().links;
    ExampleMatchesFoo();
    assert Filter(links[1..][1..], "foo") == [];
    assert Filter(links[1..], "foo") == [links[1]];
    assert Filter(links, "foo") == [links[0], links[1]];
  }

  /** Searching "bar" returns only the second example link. */
  lemma SearchExampleBar(first: Option<nat>, skip: Option<nat>)
    ensures ResolveLinks(ExampleStore(), Some("bar"), first, skip) == [ExampleStore().links[1]]
  {
    var links := ExampleStore().links;
    SecondLinkMatchesBar();
    FirstLinkMissesBar();
    assert Filter(links[1..][1..], "bar") == [];
    assert Filter(links[1..], "bar") == [links[1]];
    assert Filter(links, "bar") == [links[1]];
  }

  /** Searching "foo" returns both example links; searching "bar" only the second. */
  lemma SearchExample(first: Option<nat>, skip: Option<nat>)
    ensures ResolveLinks(ExampleStore(), Some("foo"), first, skip) == ExampleStore().links
    ensures ResolveLinks(ExampleStore(), Some("bar"), first, skip) == [ExampleStore().links[1]]
  {
    SearchExampleFoo(first, skip);
    SearchExampleBar(first, skip);
  }
}
