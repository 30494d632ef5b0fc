/** The batch "add users to a group" form (src/components/batchAddUsersToGroup.tsx):
    the comma-separated email list as the validator and the submit handler
    read it, the guard against users already in the group, the choice of the
    batch endpoint from the role and group type, and the submit handler's
    loading flag, form error, requests and notices. Requests are parameters:
    their outcomes are given, not performed. */
module BatchAddUsers {
  import opened Text
  import opened Email

  // ---------------------------------------------------------------------------
  // Email lists
  // ---------------------------------------------------------------------------

  /** The validator's reading of the (already trimmed) input: split on ",",
      drop empty pieces, then trim each. */
  function ValidatorPieces(input: string): (r: seq<string>)
    ensures forall e :: e in r <==> exists p :: p in Split(input, ',') && p != "" && e == Trim(p)
  {
    var kept := NonEmptyOnly(Split(input, ','));
    TrimAllMembers(kept);
    TrimAll(kept)
  }

  /** The refine as written: every piece the validator reads must be an
      email. */
  method RefineEmails(input: string) returns (ok: bool)
    ensures ok <==> forall e :: e in ValidatorPieces(input) ==> IsEmail(e)
  {
    var ids := ValidatorPieces(input);
    ok := EveryEmail(ids);
  }

  /** The refine's `for … of` loop: it stops at the first entry that is not
      an email. */
  method EveryEmail(ids: seq<string>) returns (ok: bool)
    ensures ok <==> forall e :: e in ids ==> IsEmail(e)
  {
    var k := 0;
    while k < |ids|
      invariant 0 <= k <= |ids|
      invariant forall j :: 0 <= j < k ==> IsEmail(ids[j])
    {
      if !IsEmail(ids[k]) {
        return false;
      }
      k := k + 1;
    }
    return true;
  }

  /** What the refine as written accepts: each piece of the input is either
      empty or an email once trimmed. A piece of spaces only is not empty, so
      it is trimmed to "" and rejected. */
  predicate ValidAsWritten(input: string) {
    forall e :: e in ValidatorPieces(input) ==> IsEmail(e)
  }

  lemma ValidAsWrittenIff(input: string)
    ensures ValidAsWritten(input) <==> forall p :: p in Split(input, ',') ==> p == "" || IsEmail(Trim(p))
  {
    if ValidAsWritten(input) {
      forall p | p in Split(input, ',') && p != "" ensures IsEmail(Trim(p)) {
        assert Trim(p) in ValidatorPieces(input);
      }
    }
  }

  /** The submit handler's reading: split on ",", trim each, drop the empty
      ones. Every email it yields is non-empty, trimmed and comma-free, and
      the emails keep the order and the repeats of the trimmed pieces. */
  function ParseEmails(input: string): (r: seq<string>)
    ensures forall e :: e in r <==> exists p :: p in Split(input, ',') && Trim(p) != "" && e == Trim(p)
    ensures forall k :: 0 <= k < |r| ==> r[k] != "" && Trim(r[k]) == r[k] && ',' !in r[k]
    ensures SubsequenceOf(r, TrimAll(Split(input, ',')))
    ensures forall e :: e != "" ==> multiset(r)[e] == multiset(TrimAll(Split(input, ',')))[e]
  {
    var pieces := Split(input, ',');
    var trimmed := TrimAll(pieces);
    var r := NonEmptyOnly(trimmed);
    TrimAllMembers(pieces);
    forall k | 0 <= k < |r| ensures r[k] != "" && Trim(r[k]) == r[k] && ',' !in r[k] {
      assert r[k] in trimmed;
      var p :| p in pieces && r[k] == Trim(p);
      TrimIdempotent(p);
      TrimAvoids(p, ',');
    }
    r
  }

  /** The validator as evidently intended: trim, then drop what is empty, as
      the submit handler does. */
  predicate ValidIntended(input: string) {
    forall e :: e in ParseEmails(input) ==> IsEmail(e)
  }

  lemma ValidIntendedIff(input: string)
    ensures ValidIntended(input) <==> forall p :: p in Split(input, ',') ==> Trim(p) == "" || IsEmail(Trim(p))
  {
    if ValidIntended(input) {
      forall p | p in Split(input, ',') && Trim(p) != "" ensures IsEmail(Trim(p)) {
        assert Trim(p) in ParseEmails(input);
      }
    }
  }

  /** Whatever the validator as written accepts, the intended one accepts too,
      and then every email submitted passes the email check. */
  lemma AsWrittenImpliesIntended(input: string)
    requires ValidAsWritten(input)
    ensures ValidIntended(input)
    ensures forall e :: e in ParseEmails(input) ==> IsEmail(e)
  {
    ValidAsWrittenIff(input);
    ValidIntendedIff(input);
    forall p | p in Split(input, ',') && Trim(p) != "" ensures IsEmail(Trim(p)) {
      assert p != "";
    }
  }

  /** Two comma-free pieces around a blank one. */
  lemma SplitAroundBlank(a: string, c: string)
    requires ',' !in a && ',' !in c
    ensures Split(a + ", ," + c, ',') == [a, " ", c]
  {
    assert a + ", ," + c == a + [','] + (" " + [','] + c);
    SplitAfterPiece(a, ',', " " + [','] + c);
    SplitAfterPiece(" ", ',', c);
    SplitSingle(c, ',');
  }

  lemma BlankTrimsToEmpty()
    ensures Trim(" ") == "" && !IsEmail("")
  {
    assert AllWhitespace(" ");
    TrimEmptyIff(" ");
    assert Split("", '@') == [""];
  }

  /** Two emails with a blank entry between them: the validator as written
      refuses the list, the intended one accepts it, and submitting would send
      exactly the two emails. */
  lemma BlankPieceRejected(a: string, c: string)
    requires IsEmail(a) && IsEmail(c) && ',' !in a && ',' !in c
    ensures !ValidAsWritten(a + ", ," + c)
    ensures ValidIntended(a + ", ," + c)
    ensures ParseEmails(a + ", ," + c) == [a, c]
  {
    BlankRefusedAsWritten(a, c);
    BlankParsed(a, c);
    PairIntended(a + ", ," + c, a, c);
  }

  lemma PairIntended(input: string, a: string, c: string)
    requires ParseEmails(input) == [a, c] && IsEmail(a) && IsEmail(c)
    ensures ValidIntended(input)
  {
    forall e | e in ParseEmails(input) ensures IsEmail(e) {
      if e != a { assert e == c; }
    }
  }

  lemma BlankRefusedAsWritten(a: string, c: string)
    requires ',' !in a && ',' !in c
    ensures !ValidAsWritten(a + ", ," + c)
  {
    var input := a + ", ," + c;
    SplitAroundBlank(a, c);
    BlankTrimsToEmpty();
    assert " " in Split(input, ',');
    assert "" in ValidatorPieces(input);
  }

  lemma BlankParsed(a: string, c: string)
    requires IsEmail(a) && IsEmail(c) && ',' !in a && ',' !in c
    ensures ParseEmails(a + ", ," + c) == [a, c]
  {
    SplitAroundBlank(a, c);
    BlankTrimsToEmpty();
    EmailIsTrimmed(a);
    EmailIsTrimmed(c);
    var input := a + ", ," + c;
    var trimmed := TrimAll(Split(input, ','));
    assert trimmed == [a, "", c];
    assert trimmed[1..] == ["", c] && trimmed[1..][1..] == [c];
    assert NonEmptyOnly([c]) == [c] by {
      assert [c][1..] == [];
    }
    assert NonEmptyOnly(["", c]) == [c];
    assert NonEmptyOnly(trimmed) == [a] + NonEmptyOnly(["", c]);
    assert ParseEmails(input) == NonEmptyOnly(trimmed);
  }

  /** The list "a@b.co, ,c@d.co" is refused by the validator as written and
      accepted by the intended one. */
  lemma ExampleListRefused(input: string)
    requires input == "a@b.co, ,c@d.co"
    ensures !ValidAsWritten(input) && ValidIntended(input)
  {
    ExampleEmails();
    assert input == "a@b.co" + ", ," + "c@d.co";
    BlankPieceRejected("a@b.co", "c@d.co");
  }

  lemma ExampleEmails()
    ensures IsEmail("a@b.co") && IsEmail("c@d.co") && ',' !in "a@b.co" && ',' !in "c@d.co"
  {
    ExampleEmailOf("a", "b");
    ExampleEmailOf("c", "d");
    assert "a" + "@" + "b" + ".co" == "a@b.co";
    assert "c" + "@" + "d" + ".co" == "c@d.co";
  }

  lemma ExampleEmailOf(x: string, y: string)
    requires x == "a" || x == "c"
    requires y == "b" || y == "d"
    ensures IsEmail(x + "@" + y + ".co") && ',' !in x + "@" + y + ".co"
  {
    ExampleEmail(x, y, "co");
    assert x + "@" + y + "." + "co" == x + "@" + y + ".co";
  }


  /** Save is disabled only while the raw field is empty, and an empty field
      has nothing to send: the validator sees no piece and the submit handler
      reads no email. */
  function DisableSave(raw: string): (r: bool)
    ensures r <==> |raw| == 0
    ensures r ==> ValidatorPieces(raw) == [] && ParseEmails(raw) == []
  {
    EmptyFieldSendsNothing();
    |raw| == 0
  }

  lemma EmptyFieldSendsNothing()
    ensures ValidatorPieces("") == [] && ParseEmails("") == []
  {
    assert Split("", ',') == [""];
    assert Trim("") == "";
    assert TrimAll([""]) == [""];
    assert NonEmptyOnly([""]) == [];
  }

  /** Spaces alone enable Save and pass the validator, yet give no email, so
      the submit handler's empty-list error is reachable. */
  lemma BlankInputReachesEmptyError(raw: string)
    requires raw != "" && AllWhitespace(raw)
    ensures !DisableSave(raw)
    ensures ValidAsWritten(Trim(raw)) && ParseEmails(Trim(raw)) == []
  {
    TrimEmptyIff(raw);
    assert Split("", ',') == [""];
    assert ValidatorPieces("") == [];
    assert TrimAll([""]) == [""];
    assert NonEmptyOnly([""]) == [];
  }

  // ---------------------------------------------------------------------------
  // Guards and dispatch
  // ---------------------------------------------------------------------------

  /** Some email is both in the list and among the group's users. */
  predicate HasIntersection(emails: seq<string>, existing: seq<string>) {
    exists e :: e in emails && e in existing
  }

  /** `message.split(":")[2]`; `None` is `undefined` when the message has fewer than two colons. */
  function ThirdSegment(message: string): (r: Option<string>)
    ensures r.Some? <==> |Split(message, ':')| >= 3
    ensures r.Some? ==> ':' !in r.value
  {
    var parts := Split(message, ':');
    if |parts| >= 3 then Some(parts[2]) else None
  }

  /** From `a:b:c` the third segment is `c`. */
  lemma ThirdSegmentOf(a: string, b: string, c: string)
    requires ':' !in a && ':' !in b && ':' !in c
    ensures ThirdSegment(a + ":" + b + ":" + c) == Some(c)
  {
    assert a + ":" + b + ":" + c == a + [':'] + (b + [':'] + c);
    SplitAfterPiece(a, ':', b + [':'] + c);
    SplitAfterPiece(b, ':', c);
    SplitSingle(c, ':');
  }

  datatype UserRole = AdminRole | StudentRole | TeacherRole | ParentRole
  datatype GroupType = ClassGroup | FamilyGroup

  function RoleText(r: UserRole): string
  {
    match r
    case AdminRole => "admin"
    case StudentRole => "student"
    case TeacherRole => "teacher"
    case ParentRole => "parent"
  }

  function GroupText(g: GroupType): string
  {
    match g
    case ClassGroup => "class"
    case FamilyGroup => "family"
  }

  datatype Endpoint = BatchManages | BatchEnrolls | BatchFamilies

  /** The role and group type choose the batch endpoint; any other pair is an error. */
  function Dispatch(role: UserRole, kind: GroupType): (r: Option<Endpoint>)
    ensures r == Some(BatchManages) <==> (role == ParentRole && kind == FamilyGroup) || (role == TeacherRole && kind == ClassGroup)
    ensures r == Some(BatchEnrolls) <==> role == StudentRole && kind == ClassGroup
    ensures r == Some(BatchFamilies) <==> role == StudentRole && kind == FamilyGroup
  {
    if role == ParentRole && kind == FamilyGroup then Some(BatchManages)
    else if role == TeacherRole && kind == ClassGroup then Some(BatchManages)
    else if role == StudentRole && kind == ClassGroup then Some(BatchEnrolls)
    else if role == StudentRole && kind == FamilyGroup then Some(BatchFamilies)
    else None
  }

  /** No endpoint exactly for admins, teachers of a family and parents of a class. */
  lemma DispatchNoneIff(role: UserRole, kind: GroupType)
    ensures Dispatch(role, kind).None? <==>
              role == AdminRole || (role == TeacherRole && kind == FamilyGroup) || (role == ParentRole && kind == ClassGroup)
  {
  }

  // ---------------------------------------------------------------------------
  // The submit handler
  // ---------------------------------------------------------------------------

  /** How the user check ended: found them all, a 404 with its message, or another error. */
  datatype CheckOutcome = CheckOk | CheckNotFound(message: string) | CheckError(message: string)

  /** How the batch request ended: accepted, answered with a body that fails
      its schema, or failed. */
  datatype PostOutcome = Accepted | ResponseInvalid(message: string) | PostFailed(message: string)

  datatype Request =
    | CheckUsers(emails: seq<string>, role: UserRole)
    | BatchPost(endpoint: Endpoint, emails: seq<string>, groupId: string)

  datatype Notice = SearchError(description: string) | Updated | CreateError(description: string)

  const UnmatchedMessage := "Unmatch on user role and group type "

  /** The requests a submit sends once the list has passed both guards. */
  function RequestsAfterGuards(emails: seq<string>, groupId: string, role: UserRole, kind: GroupType,
                               check: CheckOutcome): (rs: seq<Request>)
    ensures |rs| >= 1 && rs[0] == CheckUsers(emails, role)
    ensures |rs| == 2 <==> check.CheckOk? && Dispatch(role, kind).Some?
    ensures |rs| == 2 ==> rs[1] == BatchPost(Dispatch(role, kind).value, emails, groupId)
    ensures |rs| <= 2
  {
    [CheckUsers(emails, role)]
    + (if check.CheckOk? && Dispatch(role, kind).Some? then [BatchPost(Dispatch(role, kind).value, emails, groupId)] else [])
  }

  /** The notices a submit shows once the list has passed both guards. */
  function NoticesAfterGuards(role: UserRole, kind: GroupType, check: CheckOutcome, post: PostOutcome): seq<Notice>
  {
    match check
    case CheckNotFound(_) => []
    case CheckError(m) => [SearchError(m)]
    case CheckOk =>
      match Dispatch(role, kind)
      case None => [CreateError(UnmatchedMessage)]
      case Some(_) =>
        match post
        case Accepted => [Updated]
        case ResponseInvalid(m) => [Updated, CreateError(m)]
        case PostFailed(m) => [CreateError(m)]
  }

  /** An error notice is shown exactly when the check or the batch request did not succeed. */
  lemma ErrorNoticeIff(role: UserRole, kind: GroupType, check: CheckOutcome, post: PostOutcome)
    ensures (exists k :: 0 <= k < |NoticesAfterGuards(role, kind, check, post)| && !NoticesAfterGuards(role, kind, check, post)[k].Updated?)
            <==> check.CheckError? || (check.CheckOk? && (Dispatch(role, kind).None? || !post.Accepted?))
  {
    var ns := NoticesAfterGuards(role, kind, check, post);
    if check.CheckError? || (check.CheckOk? && (Dispatch(role, kind).None? || !post.Accepted?)) {
      assert !ns[|ns| - 1].Updated?;
    }
  }

  /** The field error the two guards set, if any: an empty list, or an email
      already among the group's users. */
  function GuardError(emails: seq<string>, existing: seq<string>, role: UserRole, kind: GroupType): (r: Option<string>)
    ensures r.None? <==> emails != [] && !HasIntersection(emails, existing)
    ensures emails == [] ==> r == Some("Empty list of emails")
  {
    if emails == [] then Some("Empty list of emails")
    else if HasIntersection(emails, existing) then Some("Some " + RoleText(role) + "s are already in this " + GroupText(kind))
    else None
  }

  /** The group is reloaded only after a batch request that was accepted. */
  predicate Reloads(role: UserRole, kind: GroupType, check: CheckOutcome, post: PostOutcome) {
    check.CheckOk? && Dispatch(role, kind).Some? && post.Accepted?
  }

  /** The form's state as the submit handler sees and changes it. */
  class BatchAddForm {
    var isLoading: bool
    /** Every value given to `setIsLoading`, in order. */
    var loadingCalls: seq<bool>
    /** The error on the email field; its message is `undefined` when a 404 message has no third segment. */
    var formError: Option<Option<string>>
    var requests: seq<Request>
    var notices: seq<Notice>
    /** How many times the group was reloaded after a successful batch request. */
    var groupReloads: nat

    constructor (isLoading: bool)
      ensures this.isLoading == isLoading && loadingCalls == [] && formError == None
      ensures requests == [] && notices == [] && groupReloads == 0
    {
      this.isLoading := isLoading;
      loadingCalls := [];
      formError := None;
      requests := [];
      notices := [];
      groupReloads := 0;
    }

    method SetIsLoading(b: bool)
      modifies this
      ensures isLoading == b && loadingCalls == old(loadingCalls) + [b]
      ensures formError == old(formError) && requests == old(requests)
      ensures notices == old(notices) && groupReloads == old(groupReloads)
    {
      isLoading := b;
      loadingCalls := loadingCalls + [b];
    }

    /** `onSubmit` on the validated (trimmed) field text. An empty list or one
        that meets the group's users sets a field error and sends nothing;
        otherwise loading is switched on, the users are checked, the batch
        request goes to the endpoint the role and group type choose, and
        loading is switched off again on every way out. */
    method OnSubmit(input: string, existing: seq<string>, groupId: string, role: UserRole, kind: GroupType,
                    check: CheckOutcome, post: PostOutcome)
      modifies this
      ensures var guard := GuardError(ParseEmails(input), existing, role, kind);
              guard.Some? ==>
                && formError == Some(guard)
                && isLoading == old(isLoading) && loadingCalls == old(loadingCalls)
                && requests == old(requests) && notices == old(notices) && groupReloads == old(groupReloads)
      ensures var emails := ParseEmails(input);
              GuardError(emails, existing, role, kind).None? ==>
                && loadingCalls == old(loadingCalls) + [true, false] && !isLoading
                && requests == old(requests) + RequestsAfterGuards(emails, groupId, role, kind, check)
                && notices == old(notices) + NoticesAfterGuards(role, kind, check, post)
                && formError == (if check.CheckNotFound? then Some(ThirdSegment(check.message)) else old(formError))
                && groupReloads == old(groupReloads) + (if Reloads(role, kind, check, post) then 1 else 0)
    {
      var emails := ParseEmails(input);
      var guard := GuardError(emails, existing, role, kind);
      if guard.Some? {
        formError := Some(guard);
        return;
      }
      SetIsLoading(true);
      SendBatch(emails, groupId, role, kind, check, post);
      SetIsLoading(false);
    }

    /** The two requests between switching loading on and off. */
    method SendBatch(emails: seq<string>, groupId: string, role: UserRole, kind: GroupType,
                     check: CheckOutcome, post: PostOutcome)
      modifies this
      ensures isLoading == old(isLoading) && loadingCalls == old(loadingCalls)
      ensures requests == old(requests) + RequestsAfterGuards(emails, groupId, role, kind, check)
      ensures notices == old(notices) + NoticesAfterGuards(role, kind, check, post)
      ensures formError == (if check.CheckNotFound? then Some(ThirdSegment(check.message)) else old(formError))
      ensures groupReloads == old(groupReloads) + (if Reloads(role, kind, check, post) then 1 else 0)
    {
      requests := requests + [CheckUsers(emails, role)];
      if check.CheckNotFound? {
        formError := Some(ThirdSegment(check.message));
        return;
      }
      if check.CheckError? {
        notices := notices + [SearchError(check.message)];
        return;
      }
      var endpoint := Dispatch(role, kind);
      if endpoint.None? {
        notices := notices + [CreateError(UnmatchedMessage)];
        return;
      }
      requests := requests + [BatchPost(endpoint.value, emails, groupId)];
      notices := notices + NoticesAfterGuards(role, kind, check, post);
      if post.Accepted? {
        groupReloads := groupReloads + 1;
      }
    }
  }
}
