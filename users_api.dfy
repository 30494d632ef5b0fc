/** The `/api/users` route (src/pages/api/users/index.ts): normalising the
    search query, the fail-soft batch creation loop, and deletion by user id.
    Calls to the identity provider (token, search, create, invite, delete) are
    parameters that say whether the call succeeded and what it returned. */
module UsersApi {
  import opened Text
  import opened Http

  // ---------------------------------------------------------------------------
  // GET: search
  // ---------------------------------------------------------------------------

  /** One query value as a list: absent stays absent, a single value becomes a
      one-entry list, a repeated value loses its duplicates. */
  function NormaliseParam(p: QueryParam): (r: Option<seq<string>>)
    ensures r.None? <==> p.Absent?
    ensures p.Single? ==> r == Some([p.value])
    ensures p.Multi? ==> r.Some? && NoDuplicates(r.value) && forall x :: x in r.value <==> x in p.values
  {
    match p
    case Absent => None
    case Single(v) => Some([v])
    case Multi(vs) => Some(RemoveDuplicates(vs))
  }

  datatype SearchType = And | Or

  /** `type` selects a search mode only when it is exactly "AND" or "OR". */
  function SearchTypeOf(kind: QueryParam): (r: Option<SearchType>)
    ensures r == Some(And) <==> kind == Single("AND")
    ensures r == Some(Or) <==> kind == Single("OR")
    ensures r.None? <==> kind != Single("AND") && kind != Single("OR")
  {
    if kind == Single("AND") then Some(And)
    else if kind == Single("OR") then Some(Or)
    else None
  }

  datatype UserQuery = UserQuery(email: Option<seq<string>>, enrolledClassId: Option<seq<string>>,
                                 teachingClassIds: Option<seq<string>>)

  /** The arguments handed to the identity provider's user search. */
  datatype SearchCall = SearchCall(query: UserQuery, searchType: Option<SearchType>)

  /** Every status the handler sends, in order, and the search it issues. */
  datatype GetReply = GetReply(statuses: seq<int>, search: Option<SearchCall>)

  predicate NoSearchQuery(email: QueryParam, enrolled: QueryParam, teaching: QueryParam) {
    Falsy(email) && Falsy(enrolled) && Falsy(teaching)
  }

  /** The search the handler issues: the three parameters in their fixed slots. */
  function SearchFor(email: QueryParam, enrolled: QueryParam, teaching: QueryParam, kind: QueryParam): (c: SearchCall)
    ensures c.query.email.None? <==> email.Absent?
    ensures c.query.enrolledClassId.None? <==> enrolled.Absent?
    ensures c.query.teachingClassIds.None? <==> teaching.Absent?
    ensures email.Single? ==> c.query.email == Some([email.value])
    ensures enrolled.Single? ==> c.query.enrolledClassId == Some([enrolled.value])
    ensures teaching.Single? ==> c.query.teachingClassIds == Some([teaching.value])
    ensures c.searchType == SearchTypeOf(kind)
  {
    SearchCall(UserQuery(NormaliseParam(email), NormaliseParam(enrolled), NormaliseParam(teaching)),
               SearchTypeOf(kind))
  }

  /** The status the handler ends with: 200 once the token and the search
      both succeeded, otherwise the catch's 500. */
  function FinalStatus(tokenOk: bool, searchOk: bool): int
  {
    if tokenOk && searchOk then 200 else 500
  }

  /** `handleGet` as written: the 400 for an empty query is sent, but the
      handler does not return, so it goes on to fetch the token and, if that
      succeeds, to search, and a second status follows. */
  function HandleGet(email: QueryParam, enrolled: QueryParam, teaching: QueryParam, kind: QueryParam,
                     tokenOk: bool, searchOk: bool): (r: GetReply)
    ensures r.search.Some? <==> tokenOk
    ensures tokenOk ==> r.search == Some(SearchFor(email, enrolled, teaching, kind))
    ensures |r.statuses| == (if NoSearchQuery(email, enrolled, teaching) then 2 else 1)
    ensures r.statuses[0] == 400 <==> NoSearchQuery(email, enrolled, teaching)
    ensures r.statuses[|r.statuses| - 1] == 200 <==> tokenOk && searchOk
    ensures r.statuses[|r.statuses| - 1] in {200, 500}
  {
    var first := if NoSearchQuery(email, enrolled, teaching) then [400] else [];
    var call := if tokenOk then Some(SearchFor(email, enrolled, teaching, kind)) else None;
    GetReply(first + [FinalStatus(tokenOk, searchOk)], call)
  }

  /** `handleGet` with the evidently intended `return` after the 400. */
  function HandleGetReturning(email: QueryParam, enrolled: QueryParam, teaching: QueryParam, kind: QueryParam,
                              tokenOk: bool, searchOk: bool): (r: GetReply)
    ensures |r.statuses| == 1
    ensures r.search.Some? <==> !NoSearchQuery(email, enrolled, teaching) && tokenOk
    ensures r.statuses[0] == 400 <==> NoSearchQuery(email, enrolled, teaching)
    ensures r.statuses[0] == 200 <==> !NoSearchQuery(email, enrolled, teaching) && tokenOk && searchOk
  {
    if NoSearchQuery(email, enrolled, teaching) then GetReply([400], None)
    else if !tokenOk then GetReply([500], None)
    else GetReply([FinalStatus(tokenOk, searchOk)], Some(SearchFor(email, enrolled, teaching, kind)))
  }

  /** As written, a request with no search parameter gets two statuses and,
      once the token is fetched, still searches with an all-absent query. */
  lemma GetWithoutQueryAnswersTwice(kind: QueryParam, tokenOk: bool, searchOk: bool)
    ensures HandleGet(Absent, Absent, Absent, kind, tokenOk, searchOk).statuses
              == [400, if tokenOk && searchOk then 200 else 500]
    ensures tokenOk ==>
              HandleGet(Absent, Absent, Absent, kind, tokenOk, searchOk).search.value.query == UserQuery(None, None, None)
  {
  }

  /** The corrected handler differs from the written one only on requests
      without any search parameter. */
  lemma ReturningAgreesWhenQueried(email: QueryParam, enrolled: QueryParam, teaching: QueryParam,
                                   kind: QueryParam, tokenOk: bool, searchOk: bool)
    ensures !NoSearchQuery(email, enrolled, teaching) <==>
            HandleGetReturning(email, enrolled, teaching, kind, tokenOk, searchOk)
              == HandleGet(email, enrolled, teaching, kind, tokenOk, searchOk)
  {
  }

  // ---------------------------------------------------------------------------
  // POST: batch creation
  // ---------------------------------------------------------------------------

  datatype NewUser = NewUser(email: string, firstName: string, lastName: string)

  /** The payload passed to `createUser`. */
  datatype UserCreateData = UserCreateData(
    email: string, firstName: string, lastName: string, role: string,
    enrolledClassId: Option<string>, teachingClassIds: Option<seq<string>>,
    availableModules: Option<seq<string>>, accountExpirationDate: Option<string>)

  /** A parsed request body: one optional single user and a batch sharing role and metadata. */
  datatype PostBody = PostBody(
    user: Option<UserCreateData>, users: seq<NewUser>, role: Option<string>,
    enrolledClassId: Option<string>, teachingClassIds: Option<seq<string>>,
    availableModules: Option<seq<string>>, accountExpirationDate: Option<string>)

  /** What one `createUser` + `sendInvitation` attempt gave: the created user's
      email, or the error's message. A user created but not invited counts as failed. */
  datatype Creation = Created(email: string) | Failed(message: string)

  datatype PostFailure = NoToken | InvalidBody | RoleRequired

  datatype PostReply =
    | Summary(status: int, message: string, details: seq<string>)
    | Rejected(status: int, reason: PostFailure)

  /** `if (!role)`: a missing or empty role is falsy. */
  predicate HasRole(role: Option<string>) {
    role.Some? && role.value != ""
  }

  /** A batch entry combined with the batch's shared fields. */
  function BatchPayload(b: PostBody, u: NewUser): (p: UserCreateData)
    requires HasRole(b.role)
    ensures p.email == u.email && p.firstName == u.firstName && p.lastName == u.lastName
    ensures p.role == b.role.value && p.enrolledClassId == b.enrolledClassId
    ensures p.teachingClassIds == b.teachingClassIds && p.availableModules == b.availableModules
    ensures p.accountExpirationDate == b.accountExpirationDate
  {
    UserCreateData(u.email, u.firstName, u.lastName, b.role.value, b.enrolledClassId,
                   b.teachingClassIds, b.availableModules, b.accountExpirationDate)
  }

  /** The batch's creations, in input order. */
  function BatchAttempts(b: PostBody): (a: seq<UserCreateData>)
    requires HasRole(b.role)
    ensures |a| == |b.users| && forall i :: 0 <= i < |b.users| ==> a[i] == BatchPayload(b, b.users[i])
  {
    seq(|b.users|, i requires 0 <= i < |b.users| => BatchPayload(b, b.users[i]))
  }

  /** The creations attempted for a body, in order: the batch, then the single user. */
  function Attempts(b: PostBody): (a: seq<UserCreateData>)
    requires |b.users| == 0 || HasRole(b.role)
    ensures |a| == |b.users| + (if b.user.Some? then 1 else 0)
    ensures forall i :: 0 <= i < |b.users| ==> a[i] == BatchPayload(b, b.users[i])
    ensures b.user.Some? ==> a[|a| - 1] == b.user.value
  {
    (if |b.users| == 0 then [] else BatchAttempts(b)) + (if b.user.Some? then [b.user.value] else [])
  }

  /** The outcomes of the first `n` attempts. */
  function Outcomes(create: nat -> Creation, n: nat): (os: seq<Creation>)
    ensures |os| == n && forall i :: 0 <= i < n ==> os[i] == create(i)
  {
    seq(n, i requires 0 <= i => create(i))
  }

  function Successes(os: seq<Creation>): nat
  {
    if os == [] then 0 else Successes(os[..|os| - 1]) + (if os[|os| - 1].Created? then 1 else 0)
  }

  function Failures(os: seq<Creation>): nat
  {
    if os == [] then 0 else Failures(os[..|os| - 1]) + (if os[|os| - 1].Failed? then 1 else 0)
  }

  function DetailOf(c: Creation): string
  {
    match c
    case Created(email) => "account creation for " + email + " is done"
    case Failed(message) => message
  }

  /** One detail line per attempt, in attempt order. */
  function Details(os: seq<Creation>): (d: seq<string>)
    ensures |d| == |os| && forall i :: 0 <= i < |os| ==> d[i] == DetailOf(os[i])
  {
    seq(|os|, i requires 0 <= i < |os| => DetailOf(os[i]))
  }

  function Plural(n: nat): string
  {
    if n > 1 then "s" else ""
  }

  function SummaryMessage(success: nat, fail: nat): string
  {
    "\n    Successful case" + Plural(success) + ": " + NatToString(success)
    + " | Failed case" + Plural(fail) + ": " + NatToString(fail) + "\n    "
  }

  /** The reply built from the two counters and the details. */
  function SummaryFrom(success: nat, fail: nat, details: seq<string>): PostReply
  {
    Summary(if success >= 1 then 201 else 500, SummaryMessage(success, fail), details)
  }

  /** The reply once every attempt has been made. */
  function SummaryOf(os: seq<Creation>): PostReply
  {
    SummaryFrom(Successes(os), Failures(os), Details(os))
  }

  /** Every attempt counts exactly once, as a success or as a failure. */
  lemma {:induction false} CountsPartition(os: seq<Creation>)
    ensures Successes(os) + Failures(os) == |os|
  {
    if os != [] { CountsPartition(os[..|os| - 1]); }
  }

  /** The batch is reported as created (201) exactly when some attempt succeeded. */
  lemma {:induction false} CreatedIffSomeSuccess(os: seq<Creation>)
    ensures Successes(os) >= 1 <==> exists i :: 0 <= i < |os| && os[i].Created?
  {
    if os != [] {
      var init := os[..|os| - 1];
      CreatedIffSomeSuccess(init);
      if exists i :: 0 <= i < |init| && init[i].Created? {
        var i :| 0 <= i < |init| && init[i].Created?;
        assert os[i] == init[i];
      }
      if exists i :: 0 <= i < |os| && os[i].Created? {
        var i :| 0 <= i < |os| && os[i].Created?;
        if i < |init| { assert init[i] == os[i]; }
      }
    }
  }

  /** "case" takes an "s" exactly when its count is above one. */
  lemma PluralIff(n: nat)
    ensures Plural(n) == "s" <==> n > 1
    ensures Plural(n) == "" <==> n <= 1
  {
  }

  /** The counters and details after one more attempt. */
  lemma {:induction false} TallyStep(create: nat -> Creation, n: nat)
    ensures var before, after := Outcomes(create, n), Outcomes(create, n + 1);
            && Successes(after) == Successes(before) + (if create(n).Created? then 1 else 0)
            && Failures(after) == Failures(before) + (if create(n).Failed? then 1 else 0)
            && Details(after) == Details(before) + [DetailOf(create(n))]
  {
    assert Outcomes(create, n + 1)[..n] == Outcomes(create, n);
  }

  /** One attempt's bookkeeping: exactly one counter moves and one detail is pushed. */
  method Tally(outcome: Creation, success: nat, fail: nat, details: seq<string>)
    returns (success': nat, fail': nat, details': seq<string>)
    ensures success' + fail' == success + fail + 1
    ensures success' == success + (if outcome.Created? then 1 else 0)
    ensures details' == details + [DetailOf(outcome)]
  {
    match outcome {
      case Created(email) =>
        success', fail' := success + 1, fail;
        details' := details + ["account creation for " + email + " is done"];
      case Failed(message) =>
        details' := details + [message];
        success', fail' := success, fail + 1;
    }
  }

  /** The `for…in` loop over the batch: every entry is attempted in order. */
  method CreateBatch(b: PostBody, create: nat -> Creation)
    returns (attempts: seq<UserCreateData>, success: nat, fail: nat, details: seq<string>)
    requires HasRole(b.role)
    ensures attempts == BatchAttempts(b)
    ensures success == Successes(Outcomes(create, |b.users|))
    ensures fail == Failures(Outcomes(create, |b.users|))
    ensures details == Details(Outcomes(create, |b.users|))
  {
    attempts, success, fail, details := [], 0, 0, [];
    var i := 0;
    while i < |b.users|
      invariant 0 <= i <= |b.users|
      invariant attempts == BatchAttempts(b)[..i]
      invariant success == Successes(Outcomes(create, i))
      invariant fail == Failures(Outcomes(create, i))
      invariant details == Details(Outcomes(create, i))
    {
      attempts := attempts + [BatchPayload(b, b.users[i])];
      TallyStep(create, i);
      success, fail, details := Tally(create(i), success, fail, details);
      i := i + 1;
    }
  }

  /** `handlePost`: after the token and the body parse, a batch without a role
      is refused before anything is created; otherwise each attempt is made in
      turn, a failure does not stop the loop, and the status and summary come
      from the two counters. */
  method HandlePost(tokenOk: bool, body: Option<PostBody>, create: nat -> Creation)
    returns (reply: PostReply, attempts: seq<UserCreateData>)
    ensures !tokenOk ==> reply == Rejected(500, NoToken) && attempts == []
    ensures tokenOk && body.None? ==> reply == Rejected(400, InvalidBody) && attempts == []
    ensures tokenOk && body.Some? && |body.value.users| > 0 && !HasRole(body.value.role) ==>
              reply == Rejected(500, RoleRequired) && attempts == []
    ensures tokenOk && body.Some? && (|body.value.users| == 0 || HasRole(body.value.role)) ==>
              attempts == Attempts(body.value) && reply == SummaryOf(Outcomes(create, |attempts|))
  {
    attempts := [];
    if !tokenOk {
      return Rejected(500, NoToken), attempts;
    }
    if body.None? {
      return Rejected(400, InvalidBody), attempts;
    }
    var b := body.value;
    var success, fail := 0, 0;
    var details: seq<string> := [];
    if |b.users| > 0 {
      if !HasRole(b.role) {
        return Rejected(500, RoleRequired), attempts;
      }
      attempts, success, fail, details := CreateBatch(b, create);
    }
    if b.user.Some? {
      var n := |attempts|;
      attempts := attempts + [b.user.value];
      TallyStep(create, n);
      success, fail, details := Tally(create(n), success, fail, details);
    }
    reply := SummaryFrom(success, fail, details);
  }

  /** Accounting of a completed batch: one detail per attempt, successes and
      failures together equal the attempts, batch entries come first in input order. */
  lemma {:induction false} BatchAccounting(b: PostBody, create: nat -> Creation)
    requires |b.users| == 0 || HasRole(b.role)
    ensures var os := Outcomes(create, |Attempts(b)|);
            |Details(os)| == Successes(os) + Failures(os) == |b.users| + (if b.user.Some? then 1 else 0)
    ensures var os := Outcomes(create, |Attempts(b)|);
            forall i :: 0 <= i < |b.users| ==> Details(os)[i] == DetailOf(create(i))
  {
    CountsPartition(Outcomes(create, |Attempts(b)|));
  }

  // ---------------------------------------------------------------------------
  // DELETE
  // ---------------------------------------------------------------------------

  /** The status sent and the id passed to `deleteUser`, if it was called. */
  datatype DeleteReply = DeleteReply(status: int, deleteCall: Option<string>)

  /** `handleDelete` as written: only a missing or repeated `userId` is refused. */
  function HandleDelete(tokenOk: bool, userId: QueryParam, deleteOk: bool): (r: DeleteReply)
    ensures r.deleteCall.Some? <==> tokenOk && userId.Single?
    ensures r.deleteCall.Some? ==> r.deleteCall.value == Trim(userId.value)
    ensures r.status == 400 <==> tokenOk && !userId.Single?
    ensures r.status == 204 <==> r.deleteCall.Some? && deleteOk
  {
    if !tokenOk then DeleteReply(500, None)
    else if !userId.Single? then DeleteReply(400, None)
    else if deleteOk then DeleteReply(204, Some(Trim(userId.value)))
    else DeleteReply(500, Some(Trim(userId.value)))
  }

  /** As written, a blank `userId` passes the check and `deleteUser` is called
      with the empty id, although the refusal message asks for a non-empty one. */
  lemma BlankUserIdReachesDelete(deleteOk: bool)
    ensures HandleDelete(true, Single(" "), deleteOk).deleteCall == Some("")
  {
    assert Trim(" ") == "" by { TrimEmptyIff(" "); }
  }

  /** `handleDelete` with the evidently intended check: one non-empty user id. */
  function HandleDeleteNonEmpty(tokenOk: bool, userId: QueryParam, deleteOk: bool): (r: DeleteReply)
    ensures r.deleteCall.Some? ==> r.deleteCall.value != ""
    ensures r.deleteCall.Some? <==> tokenOk && userId.Single? && Trim(userId.value) != ""
    ensures r.status == 400 <==> tokenOk && (!userId.Single? || Trim(userId.value) == "")
  {
    if tokenOk && userId.Single? && Trim(userId.value) == "" then DeleteReply(400, None)
    else HandleDelete(tokenOk, userId, deleteOk)
  }
}
