/**
 * The write side of the schema: `CreateLink.mutate` and `CreateVote.mutate`.
 * Each resolver takes the requester's identity explicitly (`None` is the
 * anonymous user) and returns its result together with the new store.
 */
module Mutation {
  import opened Wrappers
  import opened Models

  /** What a resolver hands back, paired with the store after it ran. */
  datatype Response<T> = Response(result: T, store: Store)

  /** The output fields of `CreateLink`. */
  datatype CreateLinkPayload = CreateLinkPayload(id: nat, url: string, description: string, postedBy: Option<User>)

  /** The output fields of `CreateVote`. */
  datatype CreateVotePayload = CreateVotePayload(user: User, link: Link)

  /** The two `GraphQLError`s `CreateVote` raises. */
  datatype VoteError = LoginRequired | InvalidLink

  /** The message each error carries to the client. */
  function Message(e: VoteError): string {
    match e
    case LoginRequired => "Please log in to vote!"
    case InvalidLink => "Invalid Link!"
  }

  /**
   * `CreateLink.mutate`: saves one new link posted by the requester (or by
   * nobody, for an anonymous request) and echoes its fields. No field is
   * validated and no login is needed.
   */
  function CreateLink(st: Store, identity: Option<User>, url: string, description: string): (out: Response<CreateLinkPayload>)
    ensures out.store.links == st.links + [Link(out.result.id, url, description, identity)]
    ensures out.store.votes == st.votes
    ensures out.result.url == url
    ensures out.result.description == description
    ensures out.result.postedBy == identity
    ensures !HasLink(st.links, out.result.id)
  {
    var id := NextId(LinkIds(st.links));
    assert forall l :: l in st.links ==> l.id in LinkIds(st.links) by {
      forall l | l in st.links ensures l.id in LinkIds(st.links) {
        var i :| 0 <= i < |st.links| && st.links[i] == l;
        assert LinkIds(st.links)[i] == l.id;
      }
    }
    var link := Link(id, url, description, identity);
    Response(CreateLinkPayload(link.id, link.url, link.description, link.postedBy),
             Store(st.links + [link], st.votes))
  }

  /**
   * `CreateVote.mutate`: an anonymous requester is refused before the link is
   * looked up; an unknown link id is refused next; otherwise one vote for
   * (requester, link) is saved. Votes are not deduplicated.
   */
  function CreateVote(st: Store, identity: Option<User>, linkId: int): (out: Response<Result<CreateVotePayload, VoteError>>)
    ensures identity.None? ==> out == Response(Err(LoginRequired), st)
    ensures identity.Some? && !HasLink(st.links, linkId) ==> out == Response(Err(InvalidLink), st)
    ensures identity.Some? && HasLink(st.links, linkId) ==>
              && out.result.Ok?
              && out.result.value.user == identity.value
              && out.result.value.link in st.links
              && out.result.value.link.id == linkId
              && out.store.links == st.links
              && |out.store.votes| == |st.votes| + 1
              && out.store.votes[..|st.votes|] == st.votes
              && out.store.votes[|st.votes|].user == identity.value
              && out.store.votes[|st.votes|].link == linkId
              && out.store.votes[|st.votes|].id !in VoteIds(st.votes)
  {
    match identity
    case None => Response(Err(LoginRequired), st)
    case Some(user) =>
      match FindLink(st.links, linkId)
      case None => Response(Err(InvalidLink), st)
      case Some(link) =>
        var vote := Vote(NextId(VoteIds(st.votes)), user, link.id);
        Response(Ok(CreateVotePayload(user, link)), Store(st.links, st.votes + [vote]))
  }

  /** Creating a link keeps the store well formed. */
  lemma CreateLinkPreservesWellFormed(st: Store, identity: Option<User>, url: string, description: string)
    requires WellFormed(st)
    ensures WellFormed(CreateLink(st, identity, url, description).store)
  {
    var out := CreateLink(st, identity, url, description);
    var ids := LinkIds(out.store.links);
    assert ids == LinkIds(st.links) + [out.result.id];
    forall v | v in out.store.votes ensures HasLink(out.store.links, v.link) {
      var l :| l in st.links && l.id == v.link;
      assert l in out.store.links;
    }
  }

  /** Casting a vote, successful or not, keeps the store well formed. */
  lemma CreateVotePreservesWellFormed(st: Store, identity: Option<User>, linkId: int)
    requires WellFormed(st)
    ensures WellFormed(CreateVote(st, identity, linkId).store)
  {
    var out := CreateVote(st, identity, linkId);
    if identity.Some? && HasLink(st.links, linkId) {
      var votes := out.store.votes;
      assert votes == st.votes + [votes[|st.votes|]];
      assert VoteIds(votes) == VoteIds(st.votes) + [votes[|st.votes|].id];
    }
  }

  /** How many votes `user` has cast for the link with id `link`. */
  function VoteCount(votes: seq<Vote>, user: User, link: nat): nat {
    if |votes| == 0 then 0
    else VoteCount(votes[..|votes| - 1], user, link)
         + (if votes[|votes| - 1].user == user && votes[|votes| - 1].link == link then 1 else 0)
  }

  /**
   * There is no duplicate check: the same requester voting twice for the
   * same link succeeds both times and leaves two more matching votes.
   */
  lemma RepeatedVoteIsNotDeduplicated(st: Store, user: User, linkId: nat)
    requires HasLink(st.links, linkId)
    ensures var first := CreateVote(st, Some(user), linkId);
            var second := CreateVote(first.store, Some(user), linkId);
            && first.result.Ok? && second.result.Ok?
            && |second.store.votes| == |st.votes| + 2
            && VoteCount(second.store.votes, user, linkId) == VoteCount(st.votes, user, linkId) + 2
  {
    var first := CreateVote(st, Some(user), linkId);
    var second := CreateVote(first.store, Some(user), linkId);
    var v1 := first.store.votes;
    var v2 := second.store.votes;
    assert v1[..|v1| - 1] == st.votes;
    assert v2[..|v2| - 1] == v1;
  }
}
