/** The sign-in / sign-up screen of app/auth.tsx: the email validator, the
    account lookup, the gates of the two handlers, the final account append and
    the interest editors. */
module Auth {
  import opened Seqs
  import opened Strings
  import opened UserContext

  // ---------------------------------------------------------------------------
  // validateEmail

  /** The failures `validateEmail` reports, in the order it checks them. */
  datatype EmailError =
    | Missing
    | ContainsSpace
    | NoAtSign
    | SeveralAtSigns
    | NoLocalPart
    | NoDomain
    | DomainWithoutDot
    | ExtensionTooShort
    | DotAtDomainEdge
    | ConsecutiveDots
    | BadFormat
  {
    /** The errors found on the domain once it is known to be non-empty and dotted. */
    predicate IsDomainError() {
      ExtensionTooShort? || DotAtDomainEdge? || ConsecutiveDots? || BadFormat?
    }

    /** The errors found once the text is known to hold exactly one `@`. */
    predicate IsPartError() {
      NoLocalPart? || NoDomain? || DomainWithoutDot? || IsDomainError()
    }
  }

  datatype EmailCheck = Valid | Invalid(error: EmailError)

  /** The message `validateEmail` returns for each failure; none is empty. */
  function EmailErrorMessage(e: EmailError): (m: string)
    ensures m != []
  {
    match e
    case Missing => "Email address is required"
    case ContainsSpace => "Email cannot contain spaces"
    case NoAtSign => "Email must contain @ symbol"
    case SeveralAtSigns => "Email cannot contain multiple @ symbols"
    case NoLocalPart => "Email address is incomplete (missing text before @)"
    case NoDomain => "Email address is incomplete (missing domain after @)"
    case DomainWithoutDot => "Email domain must contain a dot (e.g., @example.com)"
    case ExtensionTooShort => "Email domain extension is too short (e.g., .com, .edu)"
    case DotAtDomainEdge => "Email domain cannot start or end with a dot"
    case ConsecutiveDots => "Email domain cannot contain consecutive dots"
    case BadFormat => "Please enter a valid email address (e.g., name@example.com)"
  }

  /** `[a-zA-Z0-9._+-]` */
  predicate LocalChar(c: char) {
    AsciiLetter(c) || AsciiDigit(c) || c == '.' || c == '_' || c == '+' || c == '-'
  }

  /** `[a-zA-Z0-9.-]` */
  predicate DomainChar(c: char) {
    AsciiLetter(c) || AsciiDigit(c) || c == '.' || c == '-'
  }

  /** `t` matches `^[a-zA-Z0-9._+-]+@[a-zA-Z0-9.-]+\.[a-zA-Z]{2,}$` with the `@`
      at `at` and the `\.` at `dot`. */
  predicate RegexAt(t: string, at: int, dot: int) {
    && 0 < at && at + 1 < dot && dot + 2 < |t|
    && t[at] == '@' && t[dot] == '.'
    && (forall k :: 0 <= k < at ==> LocalChar(t[k]))
    && (forall k :: at < k < dot ==> DomainChar(t[k]))
    && (forall k :: dot < k < |t| ==> AsciiLetter(t[k]))
  }

  /** The regular expression test at the end of `validateEmail`. */
  predicate MatchesEmailRegex(t: string) {
    exists at, dot | 0 <= at < dot < |t| :: RegexAt(t, at, dot)
  }

  /** The checks of `validateEmail` on the already trimmed text, in source order. */
  function CheckTrimmedEmail(t: string): (r: EmailCheck)
    ensures r.Invalid? && r.error.IsPartError() ==> t != "" && ' ' !in t && CountChar(t, '@') == 1
  {
    if t == "" then Invalid(Missing)
    else if ' ' in t then Invalid(ContainsSpace)
    else if CountChar(t, '@') == 0 then Invalid(NoAtSign)
    else if CountChar(t, '@') > 1 then Invalid(SeveralAtSigns)
    else CheckParts(t, IndexOf(t, '@'))
  }

  /** The checks on the two sides of the only `@`, at `at`. */
  function CheckParts(t: string, at: nat): (r: EmailCheck)
    requires at < |t|
    ensures r.Invalid? ==> r.error.IsPartError()
  {
    var localPart, domain := t[..at], t[at + 1..];
    if localPart == "" then Invalid(NoLocalPart)
    else if domain == "" then Invalid(NoDomain)
    else if '.' !in domain then Invalid(DomainWithoutDot)
    else CheckDomain(t, domain)
  }

  /** The checks on a non-empty domain that contains a dot, then the regular
      expression on the whole text. */
  function CheckDomain(t: string, domain: string): (r: EmailCheck)
    requires domain != ""
    ensures r.Invalid? ==> r.error.IsDomainError()
  {
    if |LastPiece(domain, '.')| < 2 then Invalid(ExtensionTooShort)
    else if domain[0] == '.' || domain[|domain| - 1] == '.' then Invalid(DotAtDomainEdge)
    else if Includes(domain, "..") then Invalid(ConsecutiveDots)
    else if !MatchesEmailRegex(t) then Invalid(BadFormat)
    else Valid
  }

  /** `validateEmail`: the first failing check of the trimmed email. */
  function ValidateEmail(email: string): (r: EmailCheck)
    ensures r == Invalid(Missing) <==> AllWhitespace(email)
  {
    CheckTrimmedEmail(Trim(email))
  }

  /** What `validateEmail` accepts, stated without its chain of checks: the
      regular expression matches, and the domain after the `@` neither starts
      with a dot nor contains two dots in a row. */
  ghost predicate AcceptedEmail(t: string) {
    exists at, dot | 0 <= at < dot < |t| ::
      RegexAt(t, at, dot) && t[at + 1] != '.' && !Includes(t[at + 1..], "..")
  }

  /** A regular-expression match has its only `@` where it was matched, and no space. */
  lemma RegexAtSign(t: string, at: int, dot: int)
    requires RegexAt(t, at, dot)
    ensures IndexOf(t, '@') == at
    ensures CountChar(t, '@') == 1
    ensures ' ' !in t
  {
    forall k | 0 <= k < |t| && k != at ensures t[k] != '@' && t[k] != ' ' {
      if k < at { assert LocalChar(t[k]); }
      else if k < dot { assert DomainChar(t[k]); }
      else if k > dot { assert AsciiLetter(t[k]); }
    }
    CountCharOnce(t, '@', at);
  }

  /** The domain of a regular-expression match has a dot, does not end with
      one, and its last piece is the matched extension. */
  lemma RegexExtension(t: string, at: int, dot: int)
    requires RegexAt(t, at, dot)
    ensures '.' in t[at + 1..] && t[|t| - 1] != '.'
    ensures LastPiece(t[at + 1..], '.') == t[dot + 1..]
  {
    var d := t[at + 1..];
    assert d[dot - at - 1] == '.';
    assert AsciiLetter(t[|t| - 1]);
    forall k | dot - at - 1 < k < |d| ensures d[k] != '.' {
      assert AsciiLetter(t[at + 1 + k]);
    }
    LastPieceAfter(d, '.', dot - at - 1);
    assert t[dot + 1..] == d[dot - at..];
  }

  /** A domain the checks pass is matched by the regular expression, does not
      start with a dot and holds no two dots in a row. */
  lemma CheckedDomainFacts(t: string, domain: string)
    requires domain != "" && CheckDomain(t, domain) == Valid
    ensures MatchesEmailRegex(t) && domain[0] != '.' && !Includes(domain, "..")
  {
  }

  /** Whatever passes the checks on the two sides of the `@` passes the domain checks. */
  lemma CheckedPartsFacts(t: string, at: nat)
    requires at < |t| && CheckParts(t, at) == Valid
    ensures t[at + 1..] != "" && CheckDomain(t, t[at + 1..]) == Valid
  {
  }

  /** Every trimmed text the checks pass is accepted. */
  lemma CheckedEmailAccepted(t: string)
    requires CheckTrimmedEmail(t) == Valid
    ensures AcceptedEmail(t)
  {
    var i := IndexOf(t, '@');
    assert CheckParts(t, i) == Valid;
    CheckedPartsFacts(t, i);
    CheckedDomainFacts(t, t[i + 1..]);
    var at, dot :| 0 <= at < dot < |t| && RegexAt(t, at, dot);
    RegexAtSign(t, at, dot);
    assert t[at + 1..][0] == t[at + 1];
  }

  /** The domain checks pass on the domain of an accepted text. */
  lemma AcceptedDomainChecked(t: string, at: int, dot: int)
    requires RegexAt(t, at, dot) && t[at + 1] != '.' && !Includes(t[at + 1..], "..")
    ensures CheckDomain(t, t[at + 1..]) == Valid
  {
    RegexExtension(t, at, dot);
    var domain := t[at + 1..];
    assert domain[0] == t[at + 1];
    assert MatchesEmailRegex(t);
  }

  /** The checks on the two sides of the `@` pass on an accepted text. */
  lemma AcceptedPartsChecked(t: string, at: int, dot: int)
    requires RegexAt(t, at, dot) && t[at + 1] != '.' && !Includes(t[at + 1..], "..")
    ensures CheckParts(t, at) == Valid
  {
    RegexExtension(t, at, dot);
    AcceptedDomainChecked(t, at, dot);
    assert t[..at] != "" by { assert |t[..at]| == at; }
  }

  /** Every accepted trimmed text passes the checks. */
  lemma AcceptedEmailChecked(t: string)
    requires AcceptedEmail(t)
    ensures CheckTrimmedEmail(t) == Valid
  {
    var at, dot :| 0 <= at < dot < |t| && RegexAt(t, at, dot) && t[at + 1] != '.' && !Includes(t[at + 1..], "..");
    RegexAtSign(t, at, dot);
    AcceptedPartsChecked(t, at, dot);
  }

  /** `validateEmail` accepts exactly the trimmed emails that match the regular
      expression and whose domain neither starts with a dot nor contains "..". */
  lemma ValidateEmailAccepts(email: string)
    ensures ValidateEmail(email) == Valid <==> AcceptedEmail(Trim(email))
  {
    if ValidateEmail(email) == Valid {
      CheckedEmailAccepted(Trim(email));
    }
    if AcceptedEmail(Trim(email)) {
      AcceptedEmailChecked(Trim(email));
    }
  }

  /** The first check: an empty trimmed email is missing, and nothing else is. */
  lemma EmptyCheck(t: string)
    ensures CheckTrimmedEmail(t) == Invalid(Missing) <==> t == ""
  {
  }

  /** The second check: a space anywhere, once the text is non-empty. */
  lemma SpaceCheck(t: string)
    ensures CheckTrimmedEmail(t) == Invalid(ContainsSpace) <==> t != "" && ' ' in t
  {
  }

  /** The third check: the count of `@` must be exactly one; none and several
      are told apart. */
  lemma AtSignChecks(t: string)
    ensures CheckTrimmedEmail(t) == Invalid(NoAtSign) <==> t != "" && ' ' !in t && '@' !in t
    ensures CheckTrimmedEmail(t) == Invalid(SeveralAtSigns) <==> t != "" && ' ' !in t && CountChar(t, '@') > 1
  {
  }

  /** The checks on the sides of the only `@` (at `at`): an empty local part,
      then an empty domain, then a domain without a dot. */
  lemma PartChecks(t: string, at: nat)
    requires at < |t|
    ensures CheckParts(t, at) == Invalid(NoLocalPart) <==> at == 0
    ensures CheckParts(t, at) == Invalid(NoDomain) <==> 0 < at && at == |t| - 1
    ensures CheckParts(t, at) == Invalid(DomainWithoutDot) <==> 0 < at < |t| - 1 && '.' !in t[at + 1..]
  {
  }

  /** A domain that ends with a dot is already rejected as having too short an
      extension, so the "start or end with a dot" message is only ever given
      for a domain that starts with one. */
  lemma TrailingDotIsTooShortExtension(t: string, domain: string)
    requires domain != ""
    ensures CheckDomain(t, domain) == Invalid(DotAtDomainEdge) ==> domain[0] == '.'
  {
  }

  /** An email `validateEmail` accepts matches the regular expression. */
  lemma ValidEmailMatchesRegex(email: string)
    requires ValidateEmail(email) == Valid
    ensures MatchesEmailRegex(Trim(email))
  {
  }

  // ---------------------------------------------------------------------------
  // findUserByEmail

  /** The comparison key `findUserByEmail` uses: lower-cased, then trimmed. */
  function EmailKey(email: string): string {
    Trim(ToLower(email))
  }

  /** A key is its own key: lower-casing and trimming it again changes nothing. */
  lemma EmailKeyCanonical(email: string)
    ensures EmailKey(EmailKey(email)) == EmailKey(email)
  {
    var lowered := ToLower(email);
    ToLowerIdempotent(email);
    TrimKeepsLower(lowered);
    TrimIdempotent(lowered);
  }

  function HasEmailKey(key: string): UserAccount -> bool {
    (acc: UserAccount) => EmailKey(acc.email) == key
  }

  /** The position of the account `findUserByEmail` returns, or `|accounts|`. */
  function UserIndex(accounts: seq<UserAccount>, email: string): (i: nat)
    ensures i <= |accounts|
    ensures i < |accounts| ==> EmailKey(accounts[i].email) == EmailKey(email)
    ensures forall j :: 0 <= j < i ==> EmailKey(accounts[j].email) != EmailKey(email)
  {
    FirstIndex(accounts, HasEmailKey(EmailKey(email)))
  }

  /** `findUserByEmail`: the first account whose key equals the query's key. */
  function FindUserByEmail(accounts: seq<UserAccount>, email: string): (r: Option<UserAccount>)
    ensures r.None? <==> forall j :: 0 <= j < |accounts| ==> EmailKey(accounts[j].email) != EmailKey(email)
    ensures r.Some? ==> exists i :: 0 <= i < |accounts| && accounts[i] == r.value
                          && EmailKey(accounts[i].email) == EmailKey(email)
                          && forall j :: 0 <= j < i ==> EmailKey(accounts[j].email) != EmailKey(email)
  {
    var i := UserIndex(accounts, email);
    if i < |accounts| then Some(accounts[i]) else None
  }

  /** Emails that differ only in letter case or surrounding whitespace find the same account. */
  lemma FindIgnoresCase(accounts: seq<UserAccount>, e1: string, e2: string)
    requires ToLower(e1) == ToLower(e2)
    ensures FindUserByEmail(accounts, e1) == FindUserByEmail(accounts, e2)
  {
  }

  /** Whitespace typed around an email does not change which account is found. */
  lemma FindIgnoresSurroundingSpace(accounts: seq<UserAccount>, w1: string, email: string, w2: string)
    requires AllWhitespace(w1) && AllWhitespace(w2)
    ensures FindUserByEmail(accounts, w1 + email + w2) == FindUserByEmail(accounts, email)
  {
    ToLowerConcat(w1 + email, w2);
    ToLowerConcat(w1, email);
    forall k | 0 <= k < |w1| ensures IsWhitespace(ToLower(w1)[k]) {
      LowerKeepsWhitespace(w1[k]);
    }
    forall k | 0 <= k < |w2| ensures IsWhitespace(ToLower(w2)[k]) {
      LowerKeepsWhitespace(w2[k]);
    }
    TrimDropsSurroundingSpace(ToLower(w1), ToLower(email), ToLower(w2));
    assert EmailKey(w1 + email + w2) == EmailKey(email);
  }

  /** No two accounts share a key: the uniqueness sign-up enforces. */
  ghost predicate UniqueEmails(accounts: seq<UserAccount>) {
    forall i, j :: 0 <= i < j < |accounts| ==> EmailKey(accounts[i].email) != EmailKey(accounts[j].email)
  }

  // ---------------------------------------------------------------------------
  // handleSignIn

  const EnterEmailMessage := "Please enter your email address"
  const UnknownAccountMessage := "Couldn't find your VOLUNTARY Account with this email. Try creating a new account."
  const EnterYourPasswordMessage := "Please enter your password"
  const WrongPasswordMessage := "Wrong password. Try again or click Forgot password to reset it."

  datatype SignInResult = SignedIn(user: User) | SignInRefused(message: string)

  /** The session `login` receives for an account: its fields without the password. */
  function SessionUserOf(a: UserAccount): (u: User)
    ensures u.email == a.email && UserProfile(u) == AccountProfile(a) && u.postings == None
  {
    User(a.email, a.fullName, a.interests, a.profileImage, a.bio, a.accountType, a.organizationName, None)
  }

  /** The gates of `handleSignIn`, in order. */
  function SignIn(email: string, password: string, accounts: seq<UserAccount>): (r: SignInResult)
    ensures r.SignedIn? <==>
      && ValidateEmail(email) == Valid
      && FindUserByEmail(accounts, email).Some?
      && password != ""
      && FindUserByEmail(accounts, email).value.password == password
    ensures r.SignedIn? ==> r.user == SessionUserOf(FindUserByEmail(accounts, email).value)
  {
    if Trim(email) == "" then SignInRefused(EnterEmailMessage)
    else if ValidateEmail(email).Invalid? then SignInRefused(EmailErrorMessage(ValidateEmail(email).error))
    else match FindUserByEmail(accounts, email)
      case None => SignInRefused(UnknownAccountMessage)
      case Some(acc) =>
        if password == "" then SignInRefused(EnterYourPasswordMessage)
        else if acc.password != password then SignInRefused(WrongPasswordMessage)
        else SignedIn(SessionUserOf(acc))
  }

  /** The account the session is later mirrored into (first lower-cased email
      match) is the account sign-in found (first lower-cased, trimmed match),
      so a fresh session is in step with the directory. */
  lemma FoundSessionMirrored(accounts: seq<UserAccount>, email: string)
    requires FindUserByEmail(accounts, email).Some?
    ensures Mirrored(accounts, SessionUserOf(FindUserByEmail(accounts, email).value))
  {
    var i := UserIndex(accounts, email);
    var a := accounts[i];
    assert FindUserByEmail(accounts, email).value == a;
    var k := AccountIndex(accounts, a.email);
    assert k <= i;
    assert EmailKey(accounts[k].email) == EmailKey(a.email);
    assert k == i;
    assert AccountProfile(accounts[k]) == UserProfile(SessionUserOf(a));
  }

  /** A successful sign-in starts a session in step with the directory. */
  lemma SignInSessionMirrored(email: string, password: string, accounts: seq<UserAccount>)
    requires SignIn(email, password, accounts).SignedIn?
    ensures Mirrored(accounts, SignIn(email, password, accounts).user)
  {
    FoundSessionMirrored(accounts, email);
  }

  // ---------------------------------------------------------------------------
  // handleSignUp and handleCompleteSignup

  const EnterNameMessage := "Please enter your full name"
  const ShortNameMessage := "Full name must be at least 2 characters"
  const TakenEmailMessage := "This email is already registered. Please sign in instead."
  const EnterAPasswordMessage := "Please enter a password"
  const ShortPasswordMessage := "Password must be at least 6 characters"
  const WeakPasswordMessage := "Password must contain both letters and numbers"
  const NoInterestMessage := "Please add at least one volunteer interest"

  datatype Verdict = Accepted | Refused(message: string)

  /** At least six characters, with an ASCII letter and a digit among them. */
  predicate StrongPassword(p: string) {
    |p| >= 6 && (exists c :: c in p && AsciiLetter(c)) && (exists c :: c in p && AsciiDigit(c))
  }

  /** The gates of `handleSignUp`, in order. */
  function SignUpCheck(fullName: string, email: string, password: string, accounts: seq<UserAccount>): (r: Verdict)
    ensures r.Accepted? <==>
      && |Trim(fullName)| >= 2
      && ValidateEmail(email) == Valid
      && FindUserByEmail(accounts, email).None?
      && StrongPassword(password)
  {
    if Trim(fullName) == "" then Refused(EnterNameMessage)
    else if |Trim(fullName)| < 2 then Refused(ShortNameMessage)
    else if Trim(email) == "" then Refused(EnterEmailMessage)
    else if ValidateEmail(email).Invalid? then Refused(EmailErrorMessage(ValidateEmail(email).error))
    else if FindUserByEmail(accounts, email).Some? then Refused(TakenEmailMessage)
    else if password == "" then Refused(EnterAPasswordMessage)
    else if |password| < 6 then Refused(ShortPasswordMessage)
    else if !(exists c :: c in password && AsciiLetter(c)) || !(exists c :: c in password && AsciiDigit(c)) then Refused(WeakPasswordMessage)
    else Accepted
  }

  /** The account `handleCompleteSignup` appends: the form's fields as typed. */
  function NewAccount(email: string, password: string, fullName: string, interests: seq<string>): (a: UserAccount)
    ensures a.email == email && a.password == password && a.fullName == fullName && a.interests == interests
    ensures a.accountType == Volunteer && a.organizationName == None && a.profileImage == None && a.bio == None
  {
    UserAccount(email, password, fullName, interests, Volunteer, None, None, None)
  }

  datatype Completion = Completed(accounts: seq<UserAccount>) | NotCompleted(message: string)

  /** The directory `handleCompleteSignup` saves: the old accounts, unchanged
      and in order, and one new account at the end; nothing without an interest. */
  function CompleteSignup(email: string, password: string, fullName: string, interests: seq<string>,
                          accounts: seq<UserAccount>): (r: Completion)
    ensures r.Completed? <==> interests != []
    ensures r.NotCompleted? ==> r.message == NoInterestMessage
    ensures r.Completed? ==>
      && |r.accounts| == |accounts| + 1
      && r.accounts[..|accounts|] == accounts
      && r.accounts[|accounts|] == NewAccount(email, password, fullName, interests)
  {
    if interests == [] then NotCompleted(NoInterestMessage)
    else Completed(accounts + [NewAccount(email, password, fullName, interests)])
  }

  /** An accepted sign-up appends an account whose email no existing account
      shares, so the directory stays free of duplicate emails. */
  lemma SignUpKeepsEmailsUnique(fullName: string, email: string, password: string, interests: seq<string>,
                                accounts: seq<UserAccount>)
    requires UniqueEmails(accounts)
    requires SignUpCheck(fullName, email, password, accounts).Accepted?
    ensures UniqueEmails(accounts + [NewAccount(email, password, fullName, interests)])
  {
    var r := accounts + [NewAccount(email, password, fullName, interests)];
    forall i, j | 0 <= i < j < |r| ensures EmailKey(r[i].email) != EmailKey(r[j].email) {
      if j == |accounts| {
        assert EmailKey(accounts[i].email) != EmailKey(email);
      }
    }
  }

  /** After an accepted sign-up, the session `login` receives is in step with
      the appended account. */
  lemma SignUpSessionMirrored(fullName: string, email: string, password: string, interests: seq<string>,
                              accounts: seq<UserAccount>)
    requires SignUpCheck(fullName, email, password, accounts).Accepted?
    ensures var a := NewAccount(email, password, fullName, interests);
      Mirrored(accounts + [a], SessionUserOf(a))
  {
    var a := NewAccount(email, password, fullName, interests);
    var r := accounts + [a];
    forall j | 0 <= j < |accounts| ensures ToLower(r[j].email) != ToLower(email) {
      assert EmailKey(accounts[j].email) != EmailKey(email);
    }
    assert ToLower(r[|accounts|].email) == ToLower(email);
  }

  /** What an accepted sign-up gives the directory `handleCompleteSignup` saves. */
  lemma CompletedSignupFacts(fullName: string, email: string, password: string, interests: seq<string>,
                             accounts: seq<UserAccount>)
    ensures var c := CompleteSignup(email, password, fullName, interests, accounts);
      c.Completed? && SignUpCheck(fullName, email, password, accounts).Accepted? ==>
        && (UniqueEmails(accounts) ==> UniqueEmails(c.accounts))
        && Mirrored(c.accounts, SessionUserOf(NewAccount(email, password, fullName, interests)))
  {
    if interests != [] && SignUpCheck(fullName, email, password, accounts).Accepted? {
      if UniqueEmails(accounts) {
        SignUpKeepsEmailsUnique(fullName, email, password, interests, accounts);
      }
      SignUpSessionMirrored(fullName, email, password, interests, accounts);
    }
  }

  // ---------------------------------------------------------------------------
  // Interests

  const VolunteerTypes: seq<string> := [
    "Animal Care",
    "Community Service",
    "Disaster Relief",
    "Education & Tutoring",
    "Environmental Conservation",
    "Food Bank & Hunger Relief",
    "Healthcare Support",
    "Homeless Shelter Support",
    "Hospice & Senior Care",
    "International Development",
    "Mental Health Support",
    "Nonprofit Administration",
    "Sports & Recreation",
    "Technology & Digital Literacy",
    "Veterans Support",
    "Youth Mentoring",
    "Arts & Culture",
    "Crisis Counseling",
    "Legal Aid",
    "Fundraising"
  ]

  function OtherInterest(interest: string): string -> bool {
    (i: string) => i != interest
  }

  /** `toggleInterest`: remove the interest if it is selected, append it otherwise. */
  function Toggled(selected: seq<string>, interest: string): (r: seq<string>)
    ensures interest in r <==> interest !in selected
    ensures forall k :: 0 <= k < |selected| && selected[k] != interest ==> selected[k] in r
    ensures forall k :: 0 <= k < |r| && r[k] != interest ==> r[k] in selected
    ensures interest !in selected ==> r == selected + [interest]
  {
    if interest in selected then Filter(selected, OtherInterest(interest)) else selected + [interest]
  }

  /** Toggling an unselected interest twice restores the selection. */
  lemma ToggleTwice(selected: seq<string>, interest: string)
    requires interest !in selected
    ensures Toggled(Toggled(selected, interest), interest) == selected
  {
    FilterConcat(selected, [interest], OtherInterest(interest));
    FilterKeepsAll(selected, OtherInterest(interest));
  }

  /** Unselecting an interest selected once removes just it: the others keep their order. */
  lemma ToggleOffRemovesOnlyIt(before: seq<string>, interest: string, after: seq<string>)
    requires interest !in before && interest !in after
    ensures Toggled(before + [interest] + after, interest) == before + after
  {
    var keep := OtherInterest(interest);
    var selected := before + [interest] + after;
    assert selected[|before|] == interest;
    assert forall i :: 0 <= i < |before| ==> keep(before[i]);
    assert forall i :: 0 <= i < |after| ==> keep(after[i]);
    FilterDropsOne(before, interest, after, keep);
  }

  /** Unselecting keeps the relative order of the remaining interests: removal
      splits over any cut of the selection. */
  lemma ToggleOffKeepsOrder(front: seq<string>, back: seq<string>, interest: string)
    requires interest in front + back
    ensures Toggled(front + back, interest)
      == Filter(front, OtherInterest(interest)) + Filter(back, OtherInterest(interest))
  {
    FilterConcat(front, back, OtherInterest(interest));
  }

  /** No interest is selected twice. */
  ghost predicate NoDuplicates(s: seq<string>) {
    forall i, j :: 0 <= i < j < |s| ==> s[i] != s[j]
  }

  /** A filter of a duplicate-free list is duplicate-free. */
  lemma {:induction false} FilterNoDuplicates(s: seq<string>, keep: string -> bool)
    requires NoDuplicates(s)
    ensures NoDuplicates(Filter(s, keep))
  {
    if s != [] {
      FilterNoDuplicates(s[1..], keep);
      assert s[0] !in s[1..];
    }
  }

  /** The listed types are twenty distinct names, so the suggestion list can key
      its rows by name. */
  lemma VolunteerTypesDistinct()
    ensures |VolunteerTypes| == 20 && NoDuplicates(VolunteerTypes)
  {
    forall i, j | 0 <= i < j < |VolunteerTypes|
      ensures VolunteerTypes[i] != VolunteerTypes[j]
    {
      var a, b := VolunteerTypes[i], VolunteerTypes[j];
      assert |a| != |b| || a[0] != b[0] || a[1] != b[1];
    }
  }

  /** The suggestion list never shows a type twice, whatever the search. */
  lemma SuggestionsDistinct(query: string)
    ensures NoDuplicates(FilteredTypes(query))
  {
    VolunteerTypesDistinct();
    FilterNoDuplicates(VolunteerTypes, MatchesQuery(ToLower(query)));
  }

  /** `toggleInterest` never selects an interest twice. */
  lemma ToggleKeepsNoDuplicates(selected: seq<string>, interest: string)
    requires NoDuplicates(selected)
    ensures NoDuplicates(Toggled(selected, interest))
  {
    if interest in selected {
      FilterNoDuplicates(selected, OtherInterest(interest));
    }
  }

  /** Case-insensitively equal to one of the listed volunteer types. */
  predicate IsVolunteerType(t: string) {
    exists k :: 0 <= k < |VolunteerTypes| && ToLower(VolunteerTypes[k]) == ToLower(t)
  }

  const EmptyInterestMessage := "Please enter an interest"
  const RepeatedInterestMessage := "You've already added this interest"
  const ListedInterestMessage := "This interest is already in the list below. Please select it instead."

  datatype InterestEdit = Added(interests: seq<string>) | NotAdded(message: string)

  /** `addCustomInterest`: the trimmed text is appended unless it is empty,
      already selected, or one of the listed types up to letter case. */
  function WithCustomInterest(selected: seq<string>, custom: string): (r: InterestEdit)
    ensures r.Added? <==> Trim(custom) != "" && Trim(custom) !in selected && !IsVolunteerType(Trim(custom))
    ensures r.Added? ==> r.interests == selected + [Trim(custom)]
  {
    var trimmed := Trim(custom);
    if trimmed == "" then NotAdded(EmptyInterestMessage)
    else if trimmed in selected then NotAdded(RepeatedInterestMessage)
    else if IsVolunteerType(trimmed) then NotAdded(ListedInterestMessage)
    else Added(selected + [trimmed])
  }

  /** `addCustomInterest` never selects an interest twice. */
  lemma CustomInterestKeepsNoDuplicates(selected: seq<string>, custom: string)
    requires NoDuplicates(selected)
    requires WithCustomInterest(selected, custom).Added?
    ensures NoDuplicates(WithCustomInterest(selected, custom).interests)
  {
  }

  function MatchesQuery(loweredQuery: string): string -> bool {
    (t: string) => Includes(ToLower(t), loweredQuery)
  }

  /** The types of `types` whose lower-cased name includes the lower-cased
      search text, in list order. */
  function TypesMatching(types: seq<string>, query: string): (r: seq<string>)
    ensures forall k :: 0 <= k < |r| ==> r[k] in types && Includes(ToLower(r[k]), ToLower(query))
    ensures forall k :: 0 <= k < |types| && Includes(ToLower(types[k]), ToLower(query)) ==> types[k] in r
  {
    Filter(types, MatchesQuery(ToLower(query)))
  }

  /** An empty search keeps every type. */
  lemma EmptyQueryKeepsAll(types: seq<string>)
    ensures TypesMatching(types, "") == types
  {
    forall k | 0 <= k < |types| ensures MatchesQuery(ToLower(""))(types[k]) {
      IncludesEmpty(ToLower(types[k]));
    }
    FilterKeepsAll(types, MatchesQuery(ToLower("")));
  }

  /** `filteredTypes`: the listed volunteer types matching the search text. */
  function FilteredTypes(query: string): (r: seq<string>)
    ensures query == "" ==> r == VolunteerTypes
  {
    EmptyQueryKeepsAll(VolunteerTypes);
    TypesMatching(VolunteerTypes, query)
  }

  /** `checkEmailFormat`: the live warning under the email field. */
  function EmailWarning(text: string): (w: string)
    ensures w == "" <==> text == "" || ValidateEmail(text) == Valid
  {
    if text == "" then ""
    else match ValidateEmail(text)
      case Invalid(e) => EmailErrorMessage(e)
      case Valid => ""
  }

  // ---------------------------------------------------------------------------
  // The screen

  datatype Mode = SignInMode | SignUpMode
  datatype Step = Credentials | Review | Interests

  /** The screen's state: the form fields, the selected interests, the error
      line and its copy of the directory; `store` is the user context. */
  class AuthScreen {
    var mode: Mode
    var step: Step
    var email: string
    var password: string
    var fullName: string
    var searchQuery: string
    var selectedInterests: seq<string>
    var customInterest: string
    var error: string
    var emailWarning: string
    var accounts: seq<UserAccount>
    const store: UserStore

    /** The screen once `loadAccounts` has read the directory. */
    constructor (store: UserStore, loaded: seq<UserAccount>)
      ensures this.store == store && accounts == loaded
      ensures mode == SignInMode && step == Credentials
      ensures email == "" && password == "" && fullName == "" && searchQuery == "" && customInterest == ""
      ensures selectedInterests == [] && error == "" && emailWarning == ""
    {
      this.store := store;
      accounts := loaded;
      mode, step := SignInMode, Credentials;
      email, password, fullName, searchQuery, customInterest := "", "", "", "", "";
      selectedInterests, error, emailWarning := [], "", "";
    }

    /** `checkEmailFormat`. */
    method CheckEmailFormat(text: string)
      modifies this`emailWarning
      ensures emailWarning == EmailWarning(text)
    {
      emailWarning := EmailWarning(text);
    }

    /** Typing in the email field: the text is kept, the error line cleared
        and the live warning recomputed. */
    method EditEmail(text: string)
      modifies this`email, this`error, this`emailWarning
      ensures email == text && error == "" && emailWarning == EmailWarning(text)
    {
      email, error := text, "";
      CheckEmailFormat(text);
    }

    /** "Looks Good - Continue" on the review step. */
    method ConfirmReview()
      modifies this`step
      ensures step == Interests
    {
      step := Interests;
    }

    /** "Go Back and Edit" on the review step. */
    method BackToCredentials()
      modifies this`step
      ensures step == Credentials
    {
      step := Credentials;
    }

    /** `handleSignIn`: on success the session is the found account; otherwise
        only the error line changes and the session is not touched. */
    method HandleSignIn()
      modifies this`error, store
      ensures store.accounts == old(store.accounts)
      ensures match SignIn(email, password, accounts)
        case SignedIn(u) => error == "" && store.user == Some(u) && store.storedUser == Some(u)
        case SignInRefused(m) => error == m && store.user == old(store.user) && store.storedUser == old(store.storedUser)
    {
      error := "";
      match SignIn(email, password, accounts)
      case SignedIn(u) =>
        store.Login(u);
      case SignInRefused(m) =>
        error := m;
    }

    /** `handleSignUp`: passing every gate moves on to the review step. */
    method HandleSignUp()
      modifies this`error, this`step
      ensures var verdict := SignUpCheck(old(fullName), old(email), old(password), old(accounts));
        if verdict.Accepted? then error == "" && step == Review
        else error == verdict.message && step == old(step)
    {
      var verdict := SignUpCheck(fullName, email, password, accounts);
      if verdict.Accepted? {
        error, step := "", Review;
      } else {
        error := verdict.message;
      }
    }

    /** `switchMode`: flip the mode and clear the form. */
    method SwitchMode()
      modifies this`mode, this`error, this`email, this`password, this`fullName
      ensures mode == (if old(mode) == SignInMode then SignUpMode else SignInMode)
      ensures error == "" && email == "" && password == "" && fullName == ""
    {
      mode := if mode == SignInMode then SignUpMode else SignInMode;
      error, email, password, fullName := "", "", "", "";
    }

    /** `handleCompleteSignup`: with at least one interest, save the completed
        directory and log the new account in; after a sign-up that passed the
        gates of `handleSignUp`, emails stay unique and the session is in step
        with its directory entry. */
    method HandleCompleteSignup()
      modifies this`error, this`accounts, store
      ensures match CompleteSignup(email, password, fullName, selectedInterests, old(accounts))
        case NotCompleted(m) => error == m && accounts == old(accounts) && unchanged(store)
        case Completed(r) =>
          && error == "" && accounts == r && store.accounts == r
          && store.user == Some(SessionUserOf(r[|r| - 1])) && store.storedUser == store.user
      ensures old(SignUpCheck(fullName, email, password, accounts)).Accepted? && old(UniqueEmails(accounts))
        ==> UniqueEmails(accounts)
      ensures old(SignUpCheck(fullName, email, password, accounts)).Accepted? && selectedInterests != []
        ==> Mirrored(store.accounts, store.user.value)
    {
      var e, pw, name, chosen, before := email, password, fullName, selectedInterests, accounts;
      var completion := CompleteSignup(e, pw, name, chosen, before);
      if completion.NotCompleted? {
        error := completion.message;
        return;
      }
      var a := NewAccount(e, pw, name, chosen);
      CompletedSignupFacts(name, e, pw, chosen, before);
      error := "";
      accounts := completion.accounts;
      store.accounts := completion.accounts;
      store.Login(SessionUserOf(a));
    }

    /** `toggleInterest`. */
    method ToggleInterest(interest: string)
      modifies this`selectedInterests
      ensures selectedInterests == Toggled(old(selectedInterests), interest)
    {
      if interest in selectedInterests {
        selectedInterests := Filter(selectedInterests, OtherInterest(interest));
      } else {
        selectedInterests := selectedInterests + [interest];
      }
    }

    /** `addCustomInterest`: on success the text box is cleared with the error line. */
    method AddCustomInterest()
      modifies this`selectedInterests, this`customInterest, this`error
      ensures match WithCustomInterest(old(selectedInterests), old(customInterest))
        case Added(s) => selectedInterests == s && customInterest == "" && error == ""
        case NotAdded(m) => error == m && selectedInterests == old(selectedInterests) && customInterest == old(customInterest)
    {
      match WithCustomInterest(selectedInterests, customInterest)
      case Added(s) =>
        selectedInterests, customInterest, error := s, "", "";
      case NotAdded(m) =>
        error := m;
    }
  }
}
