/**
 * The records the resolvers read and write, and the store that holds them.
 * The store keeps links and votes in insertion order. The queries request no
 * ordering, so the database's real row order is unspecified; this model
 * assumes it is insertion order.
 */
module Models {
  import opened Wrappers

  /** An authenticated account; only its identity matters here. */
  datatype User = User(id: nat)

  /** A shared link. `postedBy` is `None` when it was created anonymously. */
  datatype Link = Link(id: nat, url: string, description: string, postedBy: Option<User>)

  /** One vote of `user` for the link whose id is `link`. */
  datatype Vote = Vote(id: nat, user: User, link: nat)

  datatype Store = Store(links: seq<Link>, votes: seq<Vote>)

  function LinkIds(links: seq<Link>): seq<nat> {
    seq(|links|, i requires 0 <= i < |links| => links[i].id)
  }

  function VoteIds(votes: seq<Vote>): seq<nat> {
    seq(|votes|, i requires 0 <= i < |votes| => votes[i].id)
  }

  /** The largest id in use, or 0 in an empty table. */
  function MaxId(ids: seq<nat>): (m: nat)
    ensures forall i :: 0 <= i < |ids| ==> ids[i] <= m
    ensures |ids| == 0 ==> m == 0
    ensures |ids| > 0 ==> m in ids
  {
    if |ids| == 0 then 0
    else
      var rest := MaxId(ids[1..]);
      if ids[0] >= rest then ids[0] else rest
  }

  /**
   * The primary key the database assigns to the next row: one more than
   * every key in the table, so never a key already in use.
   */
  function NextId(ids: seq<nat>): (r: nat)
    ensures r !in ids
    ensures forall i :: 0 <= i < |ids| ==> ids[i] < r
    ensures 1 <= r
  {
    MaxId(ids) + 1
  }

  predicate UniqueIds(ids: seq<nat>) {
    forall i, j :: 0 <= i < j < |ids| ==> ids[i] != ids[j]
  }

  predicate HasLink(links: seq<Link>, id: int) {
    exists l :: l in links && l.id == id
  }

  /**
   * What the tables guarantee: primary keys are unique, and every vote
   * refers to a link that exists.
   */
  predicate WellFormed(st: Store) {
    && UniqueIds(LinkIds(st.links))
    && UniqueIds(VoteIds(st.votes))
    && forall v :: v in st.votes ==> HasLink(st.links, v.link)
  }

  /** `Link.objects.filter(pk=id).first()`: the link with primary key `id`, if any. */
  function FindLink(links: seq<Link>, id: int): (r: Option<Link>)
    ensures r.Some? ==> r.value in links && r.value.id == id
    ensures r.None? <==> !HasLink(links, id)
  {
    if |links| == 0 then None
    else if links[0].id == id then Some(links[0])
    else
      assert forall l :: l in links ==> l == links[0] || l in links[1..];
      FindLink(links[1..], id)
  }

  /** With unique primary keys the lookup finds exactly the link that carries the key. */
  lemma FindLinkUnique(st: Store, l: Link)
    requires WellFormed(st)
    requires l in st.links
    ensures FindLink(st.links, l.id) == Some(l)
  {
    var r := FindLink(st.links, l.id);
    var i :| 0 <= i < |st.links| && st.links[i] == l;
    var j :| 0 <= j < |st.links| && st.links[j] == r.value;
    assert LinkIds(st.links)[i] == LinkIds(st.links)[j];
  }
}
