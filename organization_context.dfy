/** The organization store of contexts/OrganizationContext.tsx: a list of
    organizations, each owning an ordered list of postings. Ids and timestamps
    are supplied by the caller; dates are integer timestamps. */
module OrganizationContext {
  import opened Seqs

  datatype PostingType = Online | InPerson

  datatype OrganizationPosting = OrganizationPosting(
    id: string,
    organizationId: string,
    title: string,
    description: string,
    location: string,
    kind: PostingType,
    category: string,
    duration: string,
    dates: Option<string>,
    startTime: Option<string>,
    website: Option<string>,
    images: Option<seq<string>>,
    organizerName: string,
    companyName: string,
    postedDate: int)

  /** The fields a caller of `addPosting` supplies (all but `id`, `postedDate`
      and `organizationId`). */
  datatype PostingDraft = PostingDraft(
    title: string,
    description: string,
    location: string,
    kind: PostingType,
    category: string,
    duration: string,
    dates: Option<string>,
    startTime: Option<string>,
    website: Option<string>,
    images: Option<seq<string>>,
    organizerName: string,
    companyName: string)

  /** A `Partial<OrganizationPosting>`: `None` is an absent key, `Some(None)` an
      optional field set to `undefined`. */
  datatype PostingUpdate = PostingUpdate(
    id: Option<string>,
    organizationId: Option<string>,
    title: Option<string>,
    description: Option<string>,
    location: Option<string>,
    kind: Option<PostingType>,
    category: Option<string>,
    duration: Option<string>,
    dates: Option<Option<string>>,
    startTime: Option<Option<string>>,
    website: Option<Option<string>>,
    images: Option<Option<seq<string>>>,
    organizerName: Option<string>,
    companyName: Option<string>,
    postedDate: Option<int>)

  datatype Organization = Organization(
    id: string,
    name: string,
    logo: Option<string>,
    description: string,
    ownerId: string,
    createdDate: int,
    postings: seq<OrganizationPosting>)

  /** A `Partial<Organization>`. */
  datatype OrganizationUpdate = OrganizationUpdate(
    id: Option<string>,
    name: Option<string>,
    logo: Option<Option<string>>,
    description: Option<string>,
    ownerId: Option<string>,
    createdDate: Option<int>,
    postings: Option<seq<OrganizationPosting>>)

  /** An element of `getAllPostings`: a posting with its parent organization. */
  datatype AnnotatedPosting = AnnotatedPosting(posting: OrganizationPosting, organization: Organization)

  /** `{ ...org, ...updates }`. */
  function MergeOrganization(o: Organization, u: OrganizationUpdate): (r: Organization)
    ensures Overlaid(r.id, o.id, u.id) && Overlaid(r.name, o.name, u.name) && Overlaid(r.logo, o.logo, u.logo)
    ensures Overlaid(r.description, o.description, u.description) && Overlaid(r.ownerId, o.ownerId, u.ownerId)
    ensures Overlaid(r.createdDate, o.createdDate, u.createdDate) && Overlaid(r.postings, o.postings, u.postings)
  {
    Organization(
      u.id.GetOr(o.id),
      u.name.GetOr(o.name),
      u.logo.GetOr(o.logo),
      u.description.GetOr(o.description),
      u.ownerId.GetOr(o.ownerId),
      u.createdDate.GetOr(o.createdDate),
      u.postings.GetOr(o.postings))
  }

  /** `{ ...p, ...updates }`. */
  function MergePosting(p: OrganizationPosting, u: PostingUpdate): (r: OrganizationPosting)
    ensures Overlaid(r.id, p.id, u.id) && Overlaid(r.organizationId, p.organizationId, u.organizationId)
    ensures Overlaid(r.title, p.title, u.title) && Overlaid(r.description, p.description, u.description)
    ensures Overlaid(r.location, p.location, u.location) && Overlaid(r.kind, p.kind, u.kind)
    ensures Overlaid(r.category, p.category, u.category) && Overlaid(r.duration, p.duration, u.duration)
    ensures Overlaid(r.dates, p.dates, u.dates) && Overlaid(r.startTime, p.startTime, u.startTime)
    ensures Overlaid(r.website, p.website, u.website) && Overlaid(r.images, p.images, u.images)
    ensures Overlaid(r.organizerName, p.organizerName, u.organizerName)
    ensures Overlaid(r.companyName, p.companyName, u.companyName)
    ensures Overlaid(r.postedDate, p.postedDate, u.postedDate)
  {
    OrganizationPosting(
      u.id.GetOr(p.id),
      u.organizationId.GetOr(p.organizationId),
      u.title.GetOr(p.title),
      u.description.GetOr(p.description),
      u.location.GetOr(p.location),
      u.kind.GetOr(p.kind),
      u.category.GetOr(p.category),
      u.duration.GetOr(p.duration),
      u.dates.GetOr(p.dates),
      u.startTime.GetOr(p.startTime),
      u.website.GetOr(p.website),
      u.images.GetOr(p.images),
      u.organizerName.GetOr(p.organizerName),
      u.companyName.GetOr(p.companyName),
      u.postedDate.GetOr(p.postedDate))
  }

  /** The organization `createOrganization` builds: no postings yet. */
  function NewOrganization(id: string, name: string, logo: Option<string>, description: string,
                           ownerId: string, createdDate: int): (o: Organization)
    ensures o.id == id && o.name == name && o.logo == logo && o.description == description
    ensures o.ownerId == ownerId && o.createdDate == createdDate && o.postings == []
  {
    Organization(id, name, logo, description, ownerId, createdDate, [])
  }

  /** The posting `addPosting` builds: the caller's fields, the new id and date,
      and the target organization's id. */
  function NewPosting(draft: PostingDraft, id: string, organizationId: string, postedDate: int): (p: OrganizationPosting)
    ensures p.id == id && p.organizationId == organizationId && p.postedDate == postedDate
    ensures PostingDraft(p.title, p.description, p.location, p.kind, p.category, p.duration, p.dates,
                         p.startTime, p.website, p.images, p.organizerName, p.companyName) == draft
  {
    OrganizationPosting(id, organizationId, draft.title, draft.description, draft.location, draft.kind,
                        draft.category, draft.duration, draft.dates, draft.startTime, draft.website,
                        draft.images, draft.organizerName, draft.companyName, postedDate)
  }

  // The callbacks handed to `map` and `filter`, named so that every use is the same value.

  function UpdateIfId(orgId: string, u: OrganizationUpdate): Organization -> Organization {
    (o: Organization) => if o.id == orgId then MergeOrganization(o, u) else o
  }

  function OtherOrganization(orgId: string): Organization -> bool {
    (o: Organization) => o.id != orgId
  }

  function OwnedBy(userId: string): Organization -> bool {
    (o: Organization) => o.ownerId == userId
  }

  function AppendIfId(orgId: string, p: OrganizationPosting): Organization -> Organization {
    (o: Organization) => if o.id == orgId then o.(postings := o.postings + [p]) else o
  }

  function UpdatePostingIfId(postingId: string, u: PostingUpdate): OrganizationPosting -> OrganizationPosting {
    (p: OrganizationPosting) => if p.id == postingId then MergePosting(p, u) else p
  }

  function UpdatePostingsIfId(orgId: string, postingId: string, u: PostingUpdate): Organization -> Organization {
    (o: Organization) => if o.id == orgId then o.(postings := Map(o.postings, UpdatePostingIfId(postingId, u))) else o
  }

  function OtherPosting(postingId: string): OrganizationPosting -> bool {
    (p: OrganizationPosting) => p.id != postingId
  }

  function RemovePostingIfId(orgId: string, postingId: string): Organization -> Organization {
    (o: Organization) => if o.id == orgId then o.(postings := Filter(o.postings, OtherPosting(postingId))) else o
  }

  /** The list after `updateOrganization(orgId, u)`: same length, the matching
      organizations merged with the update, the others untouched. */
  function OrganizationsUpdated(orgs: seq<Organization>, orgId: string, u: OrganizationUpdate): (r: seq<Organization>)
    ensures |r| == |orgs|
    ensures forall i :: 0 <= i < |orgs| && orgs[i].id != orgId ==> r[i] == orgs[i]
    ensures forall i :: 0 <= i < |orgs| && orgs[i].id == orgId ==> r[i] == MergeOrganization(orgs[i], u)
  {
    Map(orgs, UpdateIfId(orgId, u))
  }

  /** The list after `deleteOrganization(orgId)`. */
  function OrganizationsWithout(orgs: seq<Organization>, orgId: string): (r: seq<Organization>)
    ensures forall i :: 0 <= i < |r| ==> r[i].id != orgId && r[i] in orgs
    ensures forall i :: 0 <= i < |orgs| && orgs[i].id != orgId ==> orgs[i] in r
  {
    Filter(orgs, OtherOrganization(orgId))
  }

  /** `getUserOrganizations(userId)`. */
  function OrganizationsOwnedBy(orgs: seq<Organization>, userId: string): (r: seq<Organization>)
    ensures forall i :: 0 <= i < |r| ==> r[i].ownerId == userId && r[i] in orgs
    ensures forall i :: 0 <= i < |orgs| && orgs[i].ownerId == userId ==> orgs[i] in r
  {
    Filter(orgs, OwnedBy(userId))
  }

  /** The list after `addPosting(orgId, …)` with the posting `p` it built. */
  function OrganizationsWithPosting(orgs: seq<Organization>, orgId: string, p: OrganizationPosting): (r: seq<Organization>)
    ensures |r| == |orgs|
    ensures forall i :: 0 <= i < |orgs| && orgs[i].id != orgId ==> r[i] == orgs[i]
    ensures forall i :: 0 <= i < |orgs| && orgs[i].id == orgId ==>
      r[i] == orgs[i].(postings := orgs[i].postings + [p])
  {
    Map(orgs, AppendIfId(orgId, p))
  }

  /** The list after `updatePosting(orgId, postingId, u)`. */
  function OrganizationsWithPostingUpdated(orgs: seq<Organization>, orgId: string, postingId: string, u: PostingUpdate): (r: seq<Organization>)
    ensures |r| == |orgs|
    ensures forall i :: 0 <= i < |orgs| ==> |r[i].postings| == |orgs[i].postings|
    ensures forall i :: 0 <= i < |orgs| && orgs[i].id != orgId ==> r[i] == orgs[i]
    ensures forall i :: 0 <= i < |orgs| ==> r[i].(postings := orgs[i].postings) == orgs[i]
    ensures forall i, j :: 0 <= i < |orgs| && 0 <= j < |orgs[i].postings| ==>
      r[i].postings[j] == if orgs[i].id == orgId && orgs[i].postings[j].id == postingId
                          then MergePosting(orgs[i].postings[j], u) else orgs[i].postings[j]
  {
    Map(orgs, UpdatePostingsIfId(orgId, postingId, u))
  }

  /** The list after `deletePosting(orgId, postingId)`. */
  function OrganizationsWithoutPosting(orgs: seq<Organization>, orgId: string, postingId: string): (r: seq<Organization>)
    ensures |r| == |orgs|
    ensures forall i :: 0 <= i < |orgs| && orgs[i].id != orgId ==> r[i] == orgs[i]
    ensures forall i :: 0 <= i < |orgs| ==> r[i].(postings := orgs[i].postings) == orgs[i]
    ensures forall i :: 0 <= i < |orgs| && orgs[i].id == orgId ==>
      r[i].postings == Filter(orgs[i].postings, OtherPosting(postingId))
  {
    Map(orgs, RemovePostingIfId(orgId, postingId))
  }

  /** One organization's postings, each paired with the organization. */
  function Annotated(o: Organization, ps: seq<OrganizationPosting>): (r: seq<AnnotatedPosting>)
    ensures |r| == |ps|
    ensures forall j :: 0 <= j < |ps| ==> r[j] == AnnotatedPosting(ps[j], o)
  {
    seq(|ps|, j requires 0 <= j < |ps| => AnnotatedPosting(ps[j], o))
  }

  /** What the nested `forEach` loops of `getAllPostings` push, in push order. */
  function Flatten(orgs: seq<Organization>): (r: seq<AnnotatedPosting>)
    ensures |r| == TotalPostings(orgs)
    ensures orgs != [] ==> forall j :: 0 <= j < |orgs[0].postings| ==> r[j] == AnnotatedPosting(orgs[0].postings[j], orgs[0])
  {
    if orgs == [] then [] else Annotated(orgs[0], orgs[0].postings) + Flatten(orgs[1..])
  }

  /** The number of postings over all organizations. */
  function TotalPostings(orgs: seq<Organization>): nat {
    if orgs == [] then 0 else |orgs[0].postings| + TotalPostings(orgs[1..])
  }

  /** Flattening a concatenation concatenates the flattenings. */
  lemma {:induction false} FlattenConcat(a: seq<Organization>, b: seq<Organization>)
    ensures Flatten(a + b) == Flatten(a) + Flatten(b)
  {
    if a == [] {
      assert a + b == b;
    } else {
      assert (a + b)[1..] == a[1..] + b;
      FlattenConcat(a[1..], b);
    }
  }

  /** An element of the flattening is a posting of some organization of the
      list, paired with that organization, and every such pair is there. */
  lemma {:induction false} FlattenMembers(orgs: seq<Organization>, x: AnnotatedPosting)
    ensures x in Flatten(orgs) <==>
      exists i, j :: 0 <= i < |orgs| && 0 <= j < |orgs[i].postings| && x == AnnotatedPosting(orgs[i].postings[j], orgs[i])
  {
    if orgs != [] {
      FlattenMembers(orgs[1..], x);
      if x in Annotated(orgs[0], orgs[0].postings) {
        var j :| 0 <= j < |orgs[0].postings| && Annotated(orgs[0], orgs[0].postings)[j] == x;
        assert x == AnnotatedPosting(orgs[0].postings[j], orgs[0]);
      }
      if exists i, j :: 0 <= i < |orgs| && 0 <= j < |orgs[i].postings| && x == AnnotatedPosting(orgs[i].postings[j], orgs[i]) {
        var i, j :| 0 <= i < |orgs| && 0 <= j < |orgs[i].postings| && x == AnnotatedPosting(orgs[i].postings[j], orgs[i]);
        if i == 0 {
          assert Annotated(orgs[0], orgs[0].postings)[j] == x;
        } else {
          assert orgs[1..][i - 1] == orgs[i];
        }
      }
    }
  }

  /** Every element's organization is one of the list. */
  lemma FlattenParents(orgs: seq<Organization>, x: AnnotatedPosting)
    requires x in Flatten(orgs)
    ensures x.organization in orgs && x.posting in x.organization.postings
  {
    FlattenMembers(orgs, x);
  }

  /** After `deleteOrganization(orgId)`, `getAllPostings` holds nothing of that organization. */
  lemma DeletedOrganizationHasNoPostings(orgs: seq<Organization>, orgId: string, x: AnnotatedPosting)
    requires x in Flatten(OrganizationsWithout(orgs, orgId))
    ensures x.organization.id != orgId
  {
    FlattenParents(OrganizationsWithout(orgs, orgId), x);
  }

  /** Every posting names its parent: the invariant the store's creators keep. */
  ghost predicate LinksConsistent(orgs: seq<Organization>) {
    forall i, j :: 0 <= i < |orgs| && 0 <= j < |orgs[i].postings| ==> orgs[i].postings[j].organizationId == orgs[i].id
  }

  /** With consistent links, no posting left after `deleteOrganization(orgId)`
      refers to `orgId`. */
  lemma DeletedOrganizationIdGone(orgs: seq<Organization>, orgId: string, x: AnnotatedPosting)
    requires LinksConsistent(orgs)
    requires x in Flatten(OrganizationsWithout(orgs, orgId))
    ensures x.posting.organizationId != orgId
  {
    var r := OrganizationsWithout(orgs, orgId);
    FlattenMembers(r, x);
    var i, j :| 0 <= i < |r| && 0 <= j < |r[i].postings| && x == AnnotatedPosting(r[i].postings[j], r[i]);
    var k :| 0 <= k < |orgs| && orgs[k] == r[i];
  }

  /** `createOrganization` keeps the links consistent. */
  lemma CreateKeepsLinks(orgs: seq<Organization>, o: Organization)
    requires LinksConsistent(orgs) && o.postings == []
    ensures LinksConsistent(orgs + [o])
  {
  }

  /** `deleteOrganization` keeps the links consistent. */
  lemma DeleteKeepsLinks(orgs: seq<Organization>, orgId: string)
    requires LinksConsistent(orgs)
    ensures LinksConsistent(OrganizationsWithout(orgs, orgId))
  {
    var r := OrganizationsWithout(orgs, orgId);
    forall i, j | 0 <= i < |r| && 0 <= j < |r[i].postings|
      ensures r[i].postings[j].organizationId == r[i].id
    {
      var k :| 0 <= k < |orgs| && orgs[k] == r[i];
    }
  }

  /** `addPosting` keeps the links consistent, since it stamps the target's id. */
  lemma AddPostingKeepsLinks(orgs: seq<Organization>, orgId: string, draft: PostingDraft, id: string, postedDate: int)
    requires LinksConsistent(orgs)
    ensures LinksConsistent(OrganizationsWithPosting(orgs, orgId, NewPosting(draft, id, orgId, postedDate)))
  {
  }

  /** `updateOrganization` keeps the links consistent unless the update
      replaces the id or the postings. */
  lemma UpdateOrganizationKeepsLinks(orgs: seq<Organization>, orgId: string, u: OrganizationUpdate)
    requires LinksConsistent(orgs) && u.id.None? && u.postings.None?
    ensures LinksConsistent(OrganizationsUpdated(orgs, orgId, u))
  {
  }

  /** `updatePosting` keeps the links consistent unless the update replaces the
      posting's organizationId. */
  lemma UpdatePostingKeepsLinks(orgs: seq<Organization>, orgId: string, postingId: string, u: PostingUpdate)
    requires LinksConsistent(orgs) && u.organizationId.None?
    ensures LinksConsistent(OrganizationsWithPostingUpdated(orgs, orgId, postingId, u))
  {
  }

  /** `deletePosting` keeps the links consistent. */
  lemma DeletePostingKeepsLinks(orgs: seq<Organization>, orgId: string, postingId: string)
    requires LinksConsistent(orgs)
    ensures LinksConsistent(OrganizationsWithoutPosting(orgs, orgId, postingId))
  {
    var r := OrganizationsWithoutPosting(orgs, orgId, postingId);
    forall i, j | 0 <= i < |r| && 0 <= j < |r[i].postings|
      ensures r[i].postings[j].organizationId == r[i].id
    {
      if orgs[i].id == orgId {
        assert r[i].postings[j] in orgs[i].postings;
      }
    }
  }

  /** `deleteOrganization` undoes `createOrganization` when the new id is fresh. */
  lemma DeleteUndoesCreate(orgs: seq<Organization>, o: Organization)
    requires forall i :: 0 <= i < |orgs| ==> orgs[i].id != o.id
    ensures OrganizationsWithout(orgs + [o], o.id) == orgs
  {
    FilterConcat(orgs, [o], OtherOrganization(o.id));
    FilterKeepsAll(orgs, OtherOrganization(o.id));
  }

  /** `deleteOrganization` keeps the survivors in order: deleting from a list
      split in two deletes from each half. */
  lemma DeleteKeepsOrder(front: seq<Organization>, back: seq<Organization>, orgId: string)
    ensures OrganizationsWithout(front + back, orgId) == OrganizationsWithout(front, orgId) + OrganizationsWithout(back, orgId)
  {
    FilterConcat(front, back, OtherOrganization(orgId));
  }

  /** `getUserOrganizations` keeps the store's order. */
  lemma OwnedByKeepsOrder(front: seq<Organization>, back: seq<Organization>, userId: string)
    ensures OrganizationsOwnedBy(front + back, userId) == OrganizationsOwnedBy(front, userId) + OrganizationsOwnedBy(back, userId)
  {
    FilterConcat(front, back, OwnedBy(userId));
  }

  /** `deletePosting` undoes `addPosting` when the new posting id is fresh in
      the organizations it went to. */
  lemma DeletePostingUndoesAdd(orgs: seq<Organization>, orgId: string, p: OrganizationPosting)
    requires forall i, j :: 0 <= i < |orgs| && orgs[i].id == orgId && 0 <= j < |orgs[i].postings| ==> orgs[i].postings[j].id != p.id
    ensures OrganizationsWithoutPosting(OrganizationsWithPosting(orgs, orgId, p), orgId, p.id) == orgs
  {
    var r := OrganizationsWithoutPosting(OrganizationsWithPosting(orgs, orgId, p), orgId, p.id);
    forall i | 0 <= i < |orgs| ensures r[i] == orgs[i] {
      if orgs[i].id == orgId {
        FilterConcat(orgs[i].postings, [p], OtherPosting(p.id));
        FilterKeepsAll(orgs[i].postings, OtherPosting(p.id));
      }
    }
  }

  /** Newest first: `postedDate` never increases along the list. */
  predicate NewestFirst(s: seq<AnnotatedPosting>) {
    forall i, j :: 0 <= i < j < |s| ==> s[i].posting.postedDate >= s[j].posting.postedDate
  }

  function Date(x: AnnotatedPosting): int {
    x.posting.postedDate
  }

  /** `s[lo..hi]` is newest first. */
  ghost predicate NewestFirstBetween(s: seq<AnnotatedPosting>, lo: int, hi: int) {
    0 <= lo && hi <= |s| && forall k, m :: lo <= k < m < hi ==> Date(s[k]) >= Date(s[m])
  }

  /** Everything before position `j` is at least as new as everything in `(j, hi)`. */
  ghost predicate NewerBefore(s: seq<AnnotatedPosting>, j: int, hi: int) {
    hi <= |s| && forall k, m :: 0 <= k < j < m < hi ==> Date(s[k]) >= Date(s[m])
  }

  /** The state of one insertion: `s[..j]` and `s[j..hi]` are newest first, and
      `s[..j]` is newer than `s[j + 1..hi]`. */
  ghost predicate Inserting(s: seq<AnnotatedPosting>, j: int, hi: int) {
    0 <= j < hi <= |s| && NewestFirstBetween(s, 0, j) && NewestFirstBetween(s, j, hi) && NewerBefore(s, j, hi)
  }

  /** Swapping the moving element past a strictly older one keeps the insertion state. */
  lemma InsertingStep(s: seq<AnnotatedPosting>, j: int, hi: int)
    requires Inserting(s, j, hi) && 0 < j && Date(s[j - 1]) < Date(s[j])
    ensures Inserting(s[j - 1 := s[j]][j := s[j - 1]], j - 1, hi)
  {
  }

  /** The insertion is finished once the moving element meets a newer or equal one. */
  lemma InsertingDone(s: seq<AnnotatedPosting>, j: int, hi: int)
    requires Inserting(s, j, hi) && (j == 0 || Date(s[j - 1]) >= Date(s[j]))
    ensures NewestFirstBetween(s, 0, hi)
  {
  }

  /** Exchange two neighbours. */
  method SwapWithPrevious(a: array<AnnotatedPosting>, j: int)
    requires 0 < j < a.Length
    modifies a
    ensures a[..] == old(a[..])[j - 1 := old(a[j])][j := old(a[j - 1])]
    ensures multiset(a[..]) == multiset(old(a[..]))
  {
    a[j - 1], a[j] := a[j], a[j - 1];
  }

  /** `Array.prototype.sort` with the comparator `b.postedDate - a.postedDate`,
      in place, as an insertion sort that moves an element only past strictly
      older ones. */
  method SortNewestFirst(a: array<AnnotatedPosting>)
    modifies a
    ensures NewestFirst(a[..])
    ensures multiset(a[..]) == multiset(old(a[..]))
  {
    var i := 0;
    while i < a.Length
      invariant 0 <= i <= a.Length
      invariant NewestFirstBetween(a[..], 0, i)
      invariant multiset(a[..]) == multiset(old(a[..]))
    {
      var j := i;
      while 0 < j && Date(a[j - 1]) < Date(a[j])
        invariant Inserting(a[..], j, i + 1)
        invariant multiset(a[..]) == multiset(old(a[..]))
      {
        InsertingStep(a[..], j, i + 1);
        SwapWithPrevious(a, j);
        j := j - 1;
      }
      InsertingDone(a[..], j, i + 1);
      i := i + 1;
    }
  }

  /** The organization store: the in-memory list that each operation replaces. */
  class OrganizationStore {
    var organizations: seq<Organization>

    /** The state once `loadOrganizations` has read the persisted list. */
    constructor (persisted: seq<Organization>)
      ensures organizations == persisted
    {
      organizations := persisted;
    }

    /** `createOrganization`: append one organization with no postings and return it. */
    method CreateOrganization(id: string, name: string, logo: Option<string>, description: string,
                              ownerId: string, createdDate: int) returns (o: Organization)
      modifies this
      ensures o == NewOrganization(id, name, logo, description, ownerId, createdDate)
      ensures organizations == old(organizations) + [o]
    {
      o := NewOrganization(id, name, logo, description, ownerId, createdDate);
      organizations := organizations + [o];
    }

    /** `updateOrganization`. */
    method UpdateOrganization(orgId: string, u: OrganizationUpdate)
      modifies this
      ensures organizations == OrganizationsUpdated(old(organizations), orgId, u)
    {
      organizations := Map(organizations, UpdateIfId(orgId, u));
    }

    /** `deleteOrganization`: its postings go with it. */
    method DeleteOrganization(orgId: string)
      modifies this
      ensures organizations == OrganizationsWithout(old(organizations), orgId)
    {
      organizations := Filter(organizations, OtherOrganization(orgId));
    }

    /** `addPosting`: the posting is built and returned whether or not an
        organization has the id; only matching organizations receive it. */
    method AddPosting(orgId: string, draft: PostingDraft, id: string, postedDate: int) returns (p: OrganizationPosting)
      modifies this
      ensures p == NewPosting(draft, id, orgId, postedDate)
      ensures organizations == OrganizationsWithPosting(old(organizations), orgId, p)
    {
      p := NewPosting(draft, id, orgId, postedDate);
      organizations := Map(organizations, AppendIfId(orgId, p));
    }

    /** `updatePosting`. */
    method UpdatePosting(orgId: string, postingId: string, u: PostingUpdate)
      modifies this
      ensures organizations == OrganizationsWithPostingUpdated(old(organizations), orgId, postingId, u)
    {
      organizations := Map(organizations, UpdatePostingsIfId(orgId, postingId, u));
    }

    /** `deletePosting`. */
    method DeletePosting(orgId: string, postingId: string)
      modifies this
      ensures organizations == OrganizationsWithoutPosting(old(organizations), orgId, postingId)
    {
      organizations := Map(organizations, RemovePostingIfId(orgId, postingId));
    }

    /** `getUserOrganizations`. */
    function GetUserOrganizations(userId: string): (r: seq<Organization>)
      reads this
      ensures forall i :: 0 <= i < |r| ==> r[i].ownerId == userId && r[i] in organizations
      ensures forall i :: 0 <= i < |organizations| && organizations[i].ownerId == userId ==> organizations[i] in r
    {
      OrganizationsOwnedBy(organizations, userId)
    }

    /** `getAllPostings`: every posting of every organization, with its
        organization, newest first. */
    method GetAllPostings() returns (r: seq<AnnotatedPosting>)
      ensures NewestFirst(r)
      ensures multiset(r) == multiset(Flatten(organizations))
      ensures |r| == TotalPostings(organizations)
    {
      var all: seq<AnnotatedPosting> := [];
      var i := 0;
      while i < |organizations|
        invariant 0 <= i <= |organizations|
        invariant all == Flatten(organizations[..i])
      {
        var org := organizations[i];
        var j := 0;
        while j < |org.postings|
          invariant 0 <= j <= |org.postings|
          invariant all == Flatten(organizations[..i]) + Annotated(org, org.postings[..j])
        {
          assert Annotated(org, org.postings[..j + 1]) == Annotated(org, org.postings[..j]) + [AnnotatedPosting(org.postings[j], org)];
          all := all + [AnnotatedPosting(org.postings[j], org)];
          j := j + 1;
        }
        assert org.postings[..j] == org.postings;
        assert organizations[..i + 1] == organizations[..i] + [org];
        FlattenConcat(organizations[..i], [org]);
        assert Flatten([org]) == Annotated(org, org.postings) by {
          assert [org][1..] == [];
        }
        i := i + 1;
      }
      assert organizations[..i] == organizations;
      var a := new AnnotatedPosting[|all|](k requires 0 <= k < |all| => all[k]);
      assert a[..] == all;
      SortNewestFirst(a);
      r := a[..];
    }

    /** `clearAllData`. */
    method ClearAllData()
      modifies this
      ensures organizations == []
    {
      organizations := [];
    }
  }
}
