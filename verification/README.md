# Link sharing and voting: the GraphQL resolvers, modelled in Dafny

This project models the query and mutation logic of a small GraphQL API for a link-sharing site
(`links/schema.py`). Clients can list links, with an optional case-insensitive search and
`first`/`skip` pagination. They can list votes, create links, and vote for links. Voting requires a login.

The ORM tables become an abstract `Store`: a sequence of links and a sequence of votes. The queries request
no ordering, so the model assumes the database returns rows in insertion order. Each resolver is a pure function. It takes the arguments, the requester's identity
(`None` for the anonymous user) and the store. It returns its result, or a user-facing error, together
with the new store. Because the query resolvers return no store, they cannot change it.

Modules:

- `Wrappers`: `Option` and `Result`.
- `Text`: the `icontains` lookup. This is a literal substring test after ASCII lower-casing.
- `Models`: `User`, `Link`, `Vote`, `Store`; primary-key generation; the lookup by key; the
  well-formedness invariant (unique keys, every vote refers to an existing link).
- `Query`: `resolve_links` and `resolve_votes`.
- `Mutation`: `CreateLink.mutate` and `CreateVote.mutate`.
- `SchemaProperties`: what a client reads back after a write, and the worked search example.

Python truthiness is modelled explicitly. `search` is "given" only when it is present and non-empty.
`first` and `skip` are "given" only when they are present and non-zero. Absent, `""` and `0` all
mean "not supplied".

## Model

| member | source | states |
|---|---|---|
| Text.Contains | links/schema.py:39-40 | the substring test holds exactly when the pattern occurs at some index of the text |
| Text.IContainsIgnoresCase | links/schema.py:39-40 | `icontains` gives the same answer when either argument is upper- or lower-cased |
| Text.IContainsOfContains | links/schema.py:39-40 | a literal occurrence is also a case-insensitive one |
| Text.IContainsSelf | links/schema.py:39-40 | every string case-insensitively contains itself |
| Models.NextId | links/schema.py:88 | the key assigned to a new row is larger than every key in the table, so it is unused |
| Models.FindLink | links/schema.py:111-113 | the lookup by primary key returns a stored link with that key, and returns nothing exactly when no stored link has it |
| Models.FindLinkUnique | links/schema.py:111 | in a well-formed store the lookup returns the one link carrying the key |
| Query.Filter | links/schema.py:38-42 | a link is in the search result iff it is stored and its url or description contains the search text, ignoring case; each match keeps its multiplicity; the result is a subsequence of the store |
| Query.Paginate | links/schema.py:43-47 | the page holds the remaining links after `skip`, cut to `first` when `first` is truthy; its i-th element is the stored link at `skip + i` |
| Query.ResolveLinks | links/schema.py:32-47 | a truthy search returns exactly the matching links, as a subsequence of the store; otherwise the result is the page window of the store |
| Query.SearchIgnoresPagination | links/schema.py:37-43 | with a truthy search, `first` and `skip` do not affect the result |
| Query.MatchingLinkIsFound | links/schema.py:37-42 | a stored link that matches a non-empty search is in the search result, whatever `first` and `skip` are |
| Query.FalsyArgumentsAreAbsent | links/schema.py:37-45 | `search = ""`, `first = 0` and `skip = 0` behave exactly like absent arguments |
| Query.PageIsWindow | links/schema.py:43-47 | without search, the page is `links[skip : skip + first]` with Python's clamping; a skip at or past the end gives an empty page |
| Query.ListAllIsStore | links/schema.py:33-47 | with no arguments the listing is the whole store, in order |
| Query.ConsecutivePagesTile | links/schema.py:43-47 | two consecutive pages of size n together equal one page of size 2n |
| Query.FilterIgnoresCase | links/schema.py:38-42 | the search filter depends on the search text only through its lower-case form |
| Query.SearchIgnoresCase | links/schema.py:37-42 | searching for the upper- or lower-cased text returns the same links |
| Mutation.CreateLink | links/schema.py:79-95 | exactly one link is appended. It has the given url and description, is posted by the requester (or nobody when anonymous), and gets a key no stored link has. Votes are unchanged. The payload echoes those fields |
| Mutation.CreateVote | links/schema.py:106-120 | an anonymous requester gets "log in" with the store unchanged, even for an unknown link. A logged-in requester naming no stored link gets "invalid link" with the store unchanged. Otherwise exactly one vote (requester, link) with a fresh key is appended, links are unchanged, and the requester and the stored link are returned |
| Mutation.CreateLinkPreservesWellFormed | links/schema.py:83-88 | creating a link keeps keys unique and every vote pointing at a stored link |
| Mutation.CreateVotePreservesWellFormed | links/schema.py:107-118 | casting a vote, accepted or refused, keeps the store well formed |
| Mutation.RepeatedVoteIsNotDeduplicated | links/schema.py:115-118 | voting twice for the same link succeeds twice and adds two matching votes |
| SchemaProperties.CreatedLinkIsListed | links/schema.py:79-95 | a new link is listed last by the unpaginated query. Any non-empty search text equal to its url or to its description up to letter case finds it, whatever `first` and `skip` are |
| SchemaProperties.CastVoteIsListed | links/schema.py:106-120 | after an accepted vote `resolve_votes` lists the old votes followed by the new one. After a refused vote both listings are unchanged |
| SchemaProperties.SearchExample | links/schema.py:37-42 | with links ("http://a.com", "foo") and ("http://b.com", "bar foo"), searching "foo" returns both and searching "bar" returns only the second |

## Left out

- `links/schema_relay.py` (the Relay node and django-filter connection) is not modelled. Its behaviour lives entirely in graphene and django-filter.
- The GraphQL type bindings (`LinkType`, `VoteType`, the `Mutation` field registration) and the construction of graphene output objects are not modelled. They are framework reflection; the payloads are plain datatypes.
- Query.ResolveVotes carries no contract of its own. It is the identity on the vote table. What it lists after a write is stated by `SchemaProperties.CastVoteIsListed`.
- Text.IContains folds ASCII letters only. The database collation decides the real case folding, and full Unicode folding is not modelled.
- Query.Paginate takes `first` and `skip` as naturals. The code hands them to queryset slicing, which rejects negative indices inside the ORM. A negative `first` or `skip` is therefore an error in the source. The model takes naturals and leaves that error path out.
- Mutation.CreateLink maps an anonymous requester to `postedBy = None`. It does not model how Django's anonymous-user object interacts with `or None` at links/schema.py:81.
- Models.NextId models key generation as one more than the largest key in the table. That is what an auto-increment key gives when no rows are deleted. Deletion is not part of this model.
- Query.ResolveLinks assumes the database returns links in insertion order. The queries call `all()` and `filter()` without `order_by`, and the `Link` model's own ordering is not part of this model, so the real row order is unspecified. The subsequence and index clauses of `Query.ResolveLinks`, `Query.Paginate`, `Query.Filter`, `Query.PageIsWindow`, `Query.ConsecutivePagesTile` and `Query.ListAllIsStore` hold only under this assumption. The same goes for the vote order that `Query.ResolveVotes` returns.
- Models.FindLink scans the store in order. The ORM's `.first()` orders by primary key; with unique keys both find the same link.
- Mutation.CreateVote takes the link id as an unbounded integer. The 32-bit range of GraphQL's `Int` is not modelled.
- Mutation.CreateVote takes a present integer link id. `link_id` is an optional GraphQL argument with no default in `mutate`. A request that omits it fails with a Python `TypeError` before the login check, so an anonymous caller then does not get "Please log in to vote!". An explicit null reaches the lookup and gets "Invalid Link!" (after the login check). Neither case is modelled.
- Missing `url`/`description` arguments, queryset laziness, persistence failures, concurrency between the link lookup and the vote insert, HTTP handling and session authentication are not modelled.
