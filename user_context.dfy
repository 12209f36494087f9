/** The account directory and the session slot of contexts/UserContext.tsx.
    The persisted blobs are in-memory values: `accounts` is the directory blob,
    `storedUser` the persisted session blob and `user` the session the app
    shows. */
module UserContext {
  import opened Seqs
  import opened Strings

  datatype AccountType = Volunteer | OrganizationAccount

  /** A directory entry. */
  datatype UserAccount = UserAccount(
    email: string,
    password: string,
    fullName: string,
    interests: seq<string>,
    accountType: AccountType,
    organizationName: Option<string>,
    profileImage: Option<string>,
    bio: Option<string>)

  datatype VolunteerPostingType = Remote | InPerson | Hybrid

  /** A posting a volunteer creates from the profile screen; it lives only in the session. */
  datatype VolunteerPosting = VolunteerPosting(
    id: string,
    title: string,
    description: string,
    location: string,
    kind: VolunteerPostingType,
    category: string,
    requirements: seq<string>,
    duration: string,
    postedDate: int)

  /** The fields a caller of `addPosting` supplies (all but `id` and `postedDate`). */
  datatype VolunteerPostingDraft = VolunteerPostingDraft(
    title: string,
    description: string,
    location: string,
    kind: VolunteerPostingType,
    category: string,
    requirements: seq<string>,
    duration: string)

  /** The session user: an account without its password, plus optional postings. */
  datatype User = User(
    email: string,
    fullName: string,
    interests: seq<string>,
    profileImage: Option<string>,
    bio: Option<string>,
    accountType: AccountType,
    organizationName: Option<string>,
    postings: Option<seq<VolunteerPosting>>)

  /** A `Partial<User>`: `None` is an absent key. For a field that is itself
      optional, `Some(None)` is a key present with the value `undefined`, which
      the spread copies (it clears the field). */
  datatype UserUpdate = UserUpdate(
    email: Option<string>,
    fullName: Option<string>,
    interests: Option<seq<string>>,
    profileImage: Option<Option<string>>,
    bio: Option<Option<string>>,
    accountType: Option<AccountType>,
    organizationName: Option<Option<string>>,
    postings: Option<Option<seq<VolunteerPosting>>>)

  /** The update with no keys. */
  const NoChanges := UserUpdate(None, None, None, None, None, None, None, None)

  /** The profile fields an account and a session user share (everything but
      the email, the password and the session's postings). */
  datatype Profile = Profile(
    fullName: string,
    interests: seq<string>,
    accountType: AccountType,
    organizationName: Option<string>,
    profileImage: Option<string>,
    bio: Option<string>)

  function AccountProfile(a: UserAccount): Profile {
    Profile(a.fullName, a.interests, a.accountType, a.organizationName, a.profileImage, a.bio)
  }

  function UserProfile(u: User): Profile {
    Profile(u.fullName, u.interests, u.accountType, u.organizationName, u.profileImage, u.bio)
  }

  /** `{ ...profile, ...updates }` restricted to the profile fields. */
  function OverlayProfile(p: Profile, d: UserUpdate): (r: Profile)
    ensures Overlaid(r.fullName, p.fullName, d.fullName) && Overlaid(r.interests, p.interests, d.interests)
    ensures Overlaid(r.accountType, p.accountType, d.accountType)
    ensures Overlaid(r.organizationName, p.organizationName, d.organizationName)
    ensures Overlaid(r.profileImage, p.profileImage, d.profileImage) && Overlaid(r.bio, p.bio, d.bio)
  {
    Profile(
      d.fullName.GetOr(p.fullName),
      d.interests.GetOr(p.interests),
      d.accountType.GetOr(p.accountType),
      d.organizationName.GetOr(p.organizationName),
      d.profileImage.GetOr(p.profileImage),
      d.bio.GetOr(p.bio))
  }

  /** `{ ...currentUser, ...updates }`: every key present in the update wins. */
  function OverlayUser(u: User, d: UserUpdate): (r: User)
    ensures UserProfile(r) == OverlayProfile(UserProfile(u), d)
    ensures r.email == d.email.GetOr(u.email)
    ensures r.postings == d.postings.GetOr(u.postings)
  {
    User(
      d.email.GetOr(u.email),
      d.fullName.GetOr(u.fullName),
      d.interests.GetOr(u.interests),
      d.profileImage.GetOr(u.profileImage),
      d.bio.GetOr(u.bio),
      d.accountType.GetOr(u.accountType),
      d.organizationName.GetOr(u.organizationName),
      d.postings.GetOr(u.postings))
  }

  /** `{ ...account, ...updates, email: account.email, password: account.password }`:
      the profile fields take the update, the credentials never do. */
  function MergeIntoAccount(a: UserAccount, d: UserUpdate): (r: UserAccount)
    ensures r.email == a.email && r.password == a.password
    ensures AccountProfile(r) == OverlayProfile(AccountProfile(a), d)
  {
    UserAccount(
      a.email,
      a.password,
      d.fullName.GetOr(a.fullName),
      d.interests.GetOr(a.interests),
      d.accountType.GetOr(a.accountType),
      d.organizationName.GetOr(a.organizationName),
      d.profileImage.GetOr(a.profileImage),
      d.bio.GetOr(a.bio))
  }

  /** The test `findIndex` applies: the lower-cased email equals `lowered`, with no trimming. */
  function LowerEmailIs(lowered: string): UserAccount -> bool {
    (acc: UserAccount) => ToLower(acc.email) == lowered
  }

  /** The position `updateAccountInStorage` overwrites, or `|accounts|` when none matches. */
  function AccountIndex(accounts: seq<UserAccount>, email: string): (i: nat)
    ensures i <= |accounts|
    ensures i < |accounts| ==> ToLower(accounts[i].email) == ToLower(email)
    ensures forall j :: 0 <= j < i ==> ToLower(accounts[j].email) != ToLower(email)
  {
    FirstIndex(accounts, LowerEmailIs(ToLower(email)))
  }

  /** The directory after `updateAccountInStorage(email, d)`: at most the first
      matching account changes, and it keeps its email and password. */
  function AccountsAfterUpdate(accounts: seq<UserAccount>, email: string, d: UserUpdate): (r: seq<UserAccount>)
    ensures |r| == |accounts|
    ensures forall j :: 0 <= j < |r| ==> r[j].email == accounts[j].email && r[j].password == accounts[j].password
    ensures forall j :: 0 <= j < |r| && j != AccountIndex(accounts, email) ==> r[j] == accounts[j]
    ensures AccountIndex(accounts, email) < |r| ==>
      AccountProfile(r[AccountIndex(accounts, email)]) == OverlayProfile(AccountProfile(accounts[AccountIndex(accounts, email)]), d)
    ensures (forall j :: 0 <= j < |accounts| ==> ToLower(accounts[j].email) != ToLower(email)) ==> r == accounts
  {
    var i := AccountIndex(accounts, email);
    if i < |accounts| then accounts[i := MergeIntoAccount(accounts[i], d)] else accounts
  }

  /** The directory is searched by email only, and the update never changes an
      email, so the same account is found before and after an update. */
  lemma {:induction false} AccountIndexAfterUpdate(accounts: seq<UserAccount>, email: string, d: UserUpdate, other: string)
    ensures AccountIndex(AccountsAfterUpdate(accounts, email, d), other) == AccountIndex(accounts, other)
  {
  }

  /** Applying the same update twice has the same effect as applying it once. */
  lemma {:induction false} AccountUpdateIdempotent(accounts: seq<UserAccount>, email: string, d: UserUpdate)
    ensures AccountsAfterUpdate(AccountsAfterUpdate(accounts, email, d), email, d) == AccountsAfterUpdate(accounts, email, d)
  {
    AccountIndexAfterUpdate(accounts, email, d, email);
  }

  /** The session corresponds to the directory entry found by its email and
      shows the same profile. */
  ghost predicate Mirrored(accounts: seq<UserAccount>, u: User) {
    var i := AccountIndex(accounts, u.email);
    i < |accounts| && AccountProfile(accounts[i]) == UserProfile(u)
  }

  /** An `updateUser` that does not touch the email keeps session and
      directory entry in step: both take the same profile fields. */
  lemma UpdateKeepsMirror(accounts: seq<UserAccount>, u: User, d: UserUpdate)
    requires Mirrored(accounts, u)
    requires d.email.None?
    ensures Mirrored(AccountsAfterUpdate(accounts, u.email, d), OverlayUser(u, d))
  {
    AccountIndexAfterUpdate(accounts, u.email, d, u.email);
  }

  /** An `updateUser` that changes the email to one no account has: the session
      takes the new email, the directory keeps the old one, so the session no
      longer has an entry and every later mirror is a no-op. */
  lemma EmailChangeDetachesSession(accounts: seq<UserAccount>, u: User, d: UserUpdate, later: UserUpdate)
    requires Mirrored(accounts, u)
    requires d.email.Some?
    requires forall j :: 0 <= j < |accounts| ==> ToLower(accounts[j].email) != ToLower(d.email.value)
    ensures !Mirrored(AccountsAfterUpdate(accounts, u.email, d), OverlayUser(u, d))
    ensures var after := AccountsAfterUpdate(accounts, u.email, d);
      AccountsAfterUpdate(after, OverlayUser(u, d).email, later) == after
  {
    var after := AccountsAfterUpdate(accounts, u.email, d);
    assert forall j :: 0 <= j < |after| ==> after[j].email == accounts[j].email;
  }

  /** An `updateUser` that changes the email to one another account already has
      (compared lower-cased): the session's entry is no longer the one found, and
      the next mirror writes the session's profile fields into that other
      account, whose credentials stay its own. */
  lemma EmailChangeRedirectsMirror(accounts: seq<UserAccount>, u: User, d: UserUpdate, later: UserUpdate)
    requires Mirrored(accounts, u)
    requires d.email.Some? && ToLower(d.email.value) != ToLower(u.email)
    requires AccountIndex(accounts, d.email.value) < |accounts|
    ensures var after := AccountsAfterUpdate(accounts, u.email, d);
      var j := AccountIndex(accounts, d.email.value);
      var next := AccountsAfterUpdate(after, OverlayUser(u, d).email, later);
      j != AccountIndex(accounts, u.email) && after[j] == accounts[j]
      && next[j].email == accounts[j].email && next[j].password == accounts[j].password
      && AccountProfile(next[j]) == OverlayProfile(AccountProfile(accounts[j]), later)
  {
    AccountIndexAfterUpdate(accounts, u.email, d, d.email.value);
  }

  /** The postings of a session user, an absent list read as empty (`postings || []`). */
  function PostingsOf(u: User): seq<VolunteerPosting> {
    u.postings.GetOr([])
  }

  /** The posting `addPosting` builds from the caller's fields, an id and a timestamp. */
  function NewVolunteerPosting(draft: VolunteerPostingDraft, id: string, postedDate: int): (p: VolunteerPosting)
    ensures p.id == id && p.postedDate == postedDate
    ensures VolunteerPostingDraft(p.title, p.description, p.location, p.kind, p.category, p.requirements, p.duration) == draft
  {
    VolunteerPosting(id, draft.title, draft.description, draft.location, draft.kind,
                     draft.category, draft.requirements, draft.duration, postedDate)
  }

  /** The session user with one posting appended; every other field unchanged. */
  function WithPostingAdded(u: User, p: VolunteerPosting): (r: User)
    ensures r.postings == Some(PostingsOf(u) + [p])
    ensures r.(postings := u.postings) == u
  {
    u.(postings := Some(PostingsOf(u) + [p]))
  }

  function OtherPosting(id: string): VolunteerPosting -> bool {
    (p: VolunteerPosting) => p.id != id
  }

  /** The session user without the postings carrying `id`; every other field unchanged. */
  function WithPostingRemoved(u: User, id: string): (r: User)
    ensures r.(postings := u.postings) == u
    ensures r.postings.Some?
    ensures forall k :: 0 <= k < |r.postings.value| ==> r.postings.value[k].id != id && r.postings.value[k] in PostingsOf(u)
    ensures forall k :: 0 <= k < |PostingsOf(u)| && PostingsOf(u)[k].id != id ==> PostingsOf(u)[k] in r.postings.value
  {
    u.(postings := Some(Filter(PostingsOf(u), OtherPosting(id))))
  }

  /** Deleting a freshly added posting by its (new) id gives back the old postings. */
  lemma AddThenRemovePosting(u: User, p: VolunteerPosting)
    requires forall k :: 0 <= k < |PostingsOf(u)| ==> PostingsOf(u)[k].id != p.id
    ensures PostingsOf(WithPostingRemoved(WithPostingAdded(u, p), p.id)) == PostingsOf(u)
  {
    FilterConcat(PostingsOf(u), [p], OtherPosting(p.id));
    FilterKeepsAll(PostingsOf(u), OtherPosting(p.id));
  }

  /** Deleting postings keeps the survivors in their order: deleting from a
      list split in two deletes from each half. */
  lemma RemovePostingKeepsOrder(u: User, id: string, front: seq<VolunteerPosting>, back: seq<VolunteerPosting>)
    requires PostingsOf(u) == front + back
    ensures PostingsOf(WithPostingRemoved(u, id)) == Filter(front, OtherPosting(id)) + Filter(back, OtherPosting(id))
  {
    FilterConcat(front, back, OtherPosting(id));
  }

  /** The user context: the persisted directory, the persisted session and the
      session in memory. */
  class UserStore {
    var accounts: seq<UserAccount>
    var storedUser: Option<User>
    var user: Option<User>

    /** The state before `loadUser` runs: whatever is persisted, no session yet. */
    constructor (persistedAccounts: seq<UserAccount>, persistedUser: Option<User>)
      ensures accounts == persistedAccounts && storedUser == persistedUser && user == None
    {
      accounts := persistedAccounts;
      storedUser := persistedUser;
      user := None;
    }

    /** `isAuthenticated: user !== null`. */
    predicate IsAuthenticated()
      reads this
      ensures IsAuthenticated() <==> user != None
    {
      user.Some?
    }

    /** `updateAccountInStorage`: find the first account with the email and
        overwrite it with the merged record. */
    method UpdateAccountInStorage(email: string, d: UserUpdate)
      modifies this
      ensures accounts == AccountsAfterUpdate(old(accounts), email, d)
      ensures user == old(user) && storedUser == old(storedUser)
    {
      var i := AccountIndex(accounts, email);
      if i < |accounts| {
        accounts := accounts[i := MergeIntoAccount(accounts[i], d)];
      }
    }

    /** `login`: persist the user and make it the session. */
    method Login(u: User)
      modifies this
      ensures user == Some(u) && storedUser == Some(u) && accounts == old(accounts)
      ensures IsAuthenticated()
    {
      storedUser := Some(u);
      user := Some(u);
    }

    /** `logout`: the session is cleared in memory only; the persisted session stays. */
    method Logout()
      modifies this
      ensures user == None && storedUser == old(storedUser) && accounts == old(accounts)
      ensures !IsAuthenticated()
    {
      user := None;
    }

    /** `updateUser`: overlay the update on the session, persist it and mirror
        it into the directory entry of the email the session had before. */
    method UpdateUser(d: UserUpdate)
      modifies this
      ensures old(user).None? ==>
        user == old(user) && storedUser == old(storedUser) && accounts == old(accounts)
      ensures old(user).Some? ==>
        && user == Some(OverlayUser(old(user).value, d))
        && storedUser == user
        && accounts == AccountsAfterUpdate(old(accounts), old(user).value.email, d)
    {
      if user.Some? {
        var current := user.value;
        var updated := OverlayUser(current, d);
        storedUser := Some(updated);
        UpdateAccountInStorage(current.email, d);
        user := Some(updated);
      }
    }

    /** `addPosting`: the new posting is returned whether or not a session exists;
        only with a session is it appended to the session's postings. */
    method AddPosting(draft: VolunteerPostingDraft, id: string, postedDate: int) returns (p: VolunteerPosting)
      modifies this
      ensures p == NewVolunteerPosting(draft, id, postedDate)
      ensures accounts == old(accounts)
      ensures old(user).None? ==> user == old(user) && storedUser == old(storedUser)
      ensures old(user).Some? ==> user == Some(WithPostingAdded(old(user).value, p)) && storedUser == user
    {
      p := NewVolunteerPosting(draft, id, postedDate);
      if user.Some? {
        var updated := WithPostingAdded(user.value, p);
        storedUser := Some(updated);
        user := Some(updated);
      }
    }

    /** `deletePosting`: drop every session posting with the id. */
    method DeletePosting(id: string)
      modifies this
      ensures accounts == old(accounts)
      ensures old(user).None? ==> user == old(user) && storedUser == old(storedUser)
      ensures old(user).Some? ==> user == Some(WithPostingRemoved(old(user).value, id)) && storedUser == user
    {
      if user.Some? {
        var updated := WithPostingRemoved(user.value, id);
        storedUser := Some(updated);
        user := Some(updated);
      }
    }

    /** `updateInterests(interests)` is `updateUser({ interests })`. */
    method UpdateInterests(interests: seq<string>)
      modifies this
      ensures old(user).None? ==>
        user == old(user) && storedUser == old(storedUser) && accounts == old(accounts)
      ensures old(user).Some? ==>
        && user == Some(OverlayUser(old(user).value, NoChanges.(interests := Some(interests))))
        && storedUser == user
        && accounts == AccountsAfterUpdate(old(accounts), old(user).value.email, NoChanges.(interests := Some(interests)))
    {
      UpdateUser(NoChanges.(interests := Some(interests)));
    }

    /** `clearAllData`: both persisted blobs are removed and the session cleared. */
    method ClearAllData()
      modifies this
      ensures accounts == [] && storedUser == None && user == None
      ensures !IsAuthenticated()
    {
      accounts := [];
      storedUser := None;
      user := None;
    }
  }
}
