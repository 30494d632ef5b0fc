/** The class management page (src/components/ManageClass.tsx): the module
    editor (modules still to add, add and remove with re-sorting, whether
    Save is enabled), the teacher and student lists, the user search URL the
    page builds, the capacity form's rules, the class-id search box, and the
    page's loading flag across reload, module save and capacity update. The
    requests are parameters: their outcomes are given, not performed. */
module ManageClass {
  import opened Text
  import opened Auth0Schemas
  import ClassesApi

  // ---------------------------------------------------------------------------
  // Module editing
  // ---------------------------------------------------------------------------

  /** `ready.filter(m => !available.includes(m))`. */
  function ModulesToAdd(ready: seq<string>, available: seq<string>): (r: seq<string>)
    ensures forall m :: m in r <==> m in ready && m !in available
    ensures SubsequenceOf(r, ready)
    ensures NoDuplicates(ready) ==> NoDuplicates(r)
  {
    if ready == [] then []
    else
      var rest := ModulesToAdd(ready[1..], available);
      if ready[0] in available then
        assert NoDuplicates(ready) ==> NoDuplicates(ready[1..]);
        assert rest == [] || rest[0] != ready[0];
        rest
      else
        assert ([ready[0]] + rest)[1..] == rest;
        assert NoDuplicates(ready) ==> NoDuplicates(ready[1..]);
        assert NoDuplicates(ready) ==> ready[0] !in ready[1..];
        [ready[0]] + rest
  }

  /** With nothing available yet, every ready module can be added. */
  lemma {:induction false} ModulesToAddNone(ready: seq<string>)
    ensures ModulesToAdd(ready, []) == ready
  {
    if ready != [] {
      ModulesToAddNone(ready[1..]);
    }
  }

  /** A class with the default modules can still add the last two ready ones. */
  lemma ModulesToAddAfterDefaults()
    ensures ModulesToAdd(ModulesReady, DefaultModels) == ["Module D", "Module E"]
  {
    ModulesToAddSplit(DefaultModels, ["Module D", "Module E"], DefaultModels);
  }

  /** Modules all available, followed by modules none available, leave the latter. */
  lemma {:induction false} ModulesToAddSplit(have: seq<string>, lack: seq<string>, available: seq<string>)
    requires forall m :: m in have ==> m in available
    requires forall m :: m in lack ==> m !in available
    ensures ModulesToAdd(have + lack, available) == lack
  {
    if have == [] {
      assert have + lack == lack;
      if lack != [] {
        ModulesToAddSplit([], lack[1..], available);
        assert [] + lack[1..] == lack[1..];
        ModulesToAddCons(lack[0], lack[1..], available);
        assert [lack[0]] + lack[1..] == lack;
      }
    } else {
      ModulesToAddSplit(have[1..], lack, available);
      ModulesToAddCons(have[0], have[1..] + lack, available);
      HeadAppend(have, lack);
    }
  }

  lemma HeadAppend<T>(xs: seq<T>, ys: seq<T>)
    requires xs != []
    ensures xs + ys == [xs[0]] + (xs[1..] + ys)
  {
    assert xs == [xs[0]] + xs[1..];
  }

  /** One step of the filter: the head is kept exactly when it is not available. */
  lemma ModulesToAddCons(m: string, rest: seq<string>, available: seq<string>)
    ensures ModulesToAdd([m] + rest, available)
              == (if m in available then [] else [m]) + ModulesToAdd(rest, available)
  {
    assert ([m] + rest)[1..] == rest;
  }

  /** `handleAddModule`: `[...prev, m].sort()` is sorted and holds `prev` and `m`. */
  function AddModule(prev: seq<string>, m: string): (r: seq<string>)
    ensures Sorted(r) && multiset(r) == multiset(prev) + multiset{m}
    ensures m in r && forall x :: x in prev ==> x in r
  {
    SortCorrect(prev + [m]);
    assert multiset(prev + [m]) == multiset(prev) + multiset{m};
    var r := Sort(prev + [m]);
    assert m in multiset(r);
    assert forall x :: x in prev ==> x in multiset(r);
    r
  }

  /** `handleRemoveModule`: every occurrence of `m` goes, the rest stay, re-sorted. */
  function RemoveModule(prev: seq<string>, m: string): (r: seq<string>)
    ensures Sorted(r) && m !in r
    ensures forall x :: x != m ==> multiset(r)[x] == multiset(prev)[x]
  {
    SortCorrect(Without(prev, m));
    var r := Sort(Without(prev, m));
    assert m !in multiset(r);
    r
  }

  /** Removing a module just added to a sorted list without it gives the list back. */
  lemma {:induction false} RemoveUndoesAdd(prev: seq<string>, m: string)
    requires Sorted(prev) && m !in prev
    ensures RemoveModule(AddModule(prev, m), m) == prev
  {
    var r := RemoveModule(AddModule(prev, m), m);
    assert multiset(r)[m] == 0 == multiset(prev)[m];
    assert multiset(r) == multiset(prev);
    SortedUnique(r, prev);
  }

  /** An added module is no longer offered for adding; a removed one is again. */
  lemma AddRemoveOffer(prev: seq<string>, m: string)
    ensures m !in ModulesToAdd(ModulesReady, AddModule(prev, m))
    ensures m in ModulesReady ==> m in ModulesToAdd(ModulesReady, RemoveModule(prev, m))
  {
  }

  /** The module Save button: disabled when the saved list and the edited list
      print the same (`toString` joins with ","); with no class loaded it is enabled. */
  function DisableSave(saved: Option<seq<string>>, edited: seq<string>): (r: bool)
    ensures r ==> saved.Some?
  {
    saved.Some? && Join(saved.value, ',') == Join(edited, ',')
  }

  predicate PlainNames(ms: seq<string>) {
    forall k :: 0 <= k < |ms| ==> ms[k] != "" && ',' !in ms[k]
  }

  /** For module names that are non-empty and comma-free, comparing the
      printed lists is comparing the lists. */
  lemma DisableSaveIff(saved: seq<string>, edited: seq<string>)
    requires PlainNames(saved) && PlainNames(edited)
    ensures DisableSave(Some(saved), edited) <==> saved == edited
  {
    if Join(saved, ',') == Join(edited, ',') {
      if saved == [] || edited == [] {
        JoinEmpty(saved);
        JoinEmpty(edited);
      } else {
        SplitJoin(saved, ',');
        SplitJoin(edited, ',');
      }
    }
  }

  /** A list of non-empty names prints as "" only when it is empty. */
  lemma JoinEmpty(ms: seq<string>)
    requires PlainNames(ms)
    ensures Join(ms, ',') == "" <==> ms == []
  {
    if |ms| > 1 {
      assert |Join(ms, ',')| >= |ms[0]|;
    }
  }

  // ---------------------------------------------------------------------------
  // Teachers and students
  // ---------------------------------------------------------------------------

  /** `users.filter(user => user.roles.includes(role))`. */
  function UsersWithRole(users: seq<RoledUser>, role: Role): (r: seq<RoledUser>)
    ensures forall u :: u in r <==> u in users && role in u.roles
    ensures forall u: RoledUser :: role in u.roles ==> multiset(r)[u] == multiset(users)[u]
    ensures SubsequenceOf(r, users) && |r| <= |users|
  {
    if users == [] then []
    else
      var rest := UsersWithRole(users[1..], role);
      assert users == [users[0]] + users[1..];
      if role in users[0].roles then [users[0]] + rest else rest
  }

  function Teachers(users: seq<RoledUser>): seq<RoledUser> { UsersWithRole(users, Teacher) }
  function Students(users: seq<RoledUser>): seq<RoledUser> { UsersWithRole(users, ManagedStudent) }

  /** The teacher list holds exactly the users with the teacher role, the
      student list exactly those with the managed-student role; an unmanaged
      student is in neither unless it also has one of those roles. */
  lemma TeachersAndStudents(users: seq<RoledUser>, u: RoledUser)
    ensures u in Teachers(users) <==> u in users && Teacher in u.roles
    ensures u in Students(users) <==> u in users && ManagedStudent in u.roles
  {
  }

  // ---------------------------------------------------------------------------
  // The user search URL
  // ---------------------------------------------------------------------------

  const SearchBase := "/api/users?type=OR"

  /** One `&email=e` per email, in order. */
  function EmailParams(emails: seq<string>): string
  {
    if emails == [] then "" else EmailParams(emails[..|emails| - 1]) + "&email=" + emails[|emails| - 1]
  }

  function SearchUrl(emails: seq<string>): string
  {
    SearchBase + EmailParams(emails)
  }

  /** `reload`'s URL: no request for an empty list, otherwise the base URL
      followed by one email parameter per email. */
  method BuildSearchUrl(emails: seq<string>) returns (url: Option<string>)
    ensures url.None? <==> emails == []
    ensures url.Some? ==> url.value == SearchUrl(emails)
  {
    if |emails| == 0 {
      return None;
    }
    var u := SearchBase;
    var k := 0;
    while k < |emails|
      invariant 0 <= k <= |emails|
      invariant u == SearchBase + EmailParams(emails[..k])
    {
      assert emails[..k + 1][..k] == emails[..k];
      u := u + "&email=" + emails[k];
      k := k + 1;
    }
    assert emails[..|emails|] == emails;
    return Some(u);
  }

  /** The fields of the search URL, as a reader splitting it on "&" finds them. */
  function EmailFields(emails: seq<string>): (r: seq<string>)
    ensures |r| == |emails| && forall k :: 0 <= k < |emails| ==> r[k] == "email=" + emails[k]
  {
    seq(|emails|, k requires 0 <= k < |emails| => "email=" + emails[k])
  }

  /** Splitting the URL on "&" gives the base and one `email=` field per
      email, in order, when no email holds an "&". */
  lemma SearchUrlFields(emails: seq<string>)
    requires forall k :: 0 <= k < |emails| ==> '&' !in emails[k]
    ensures Split(SearchUrl(emails), '&') == [SearchBase] + EmailFields(emails)
  {
    BaseHasNoAmpersand();
    UrlFields(SearchBase, emails);
  }

  /** The same for any base free of "&". */
  lemma {:induction false} UrlFields(base: string, emails: seq<string>)
    requires '&' !in base
    requires forall k :: 0 <= k < |emails| ==> '&' !in emails[k]
    ensures Split(base + EmailParams(emails), '&') == [base] + EmailFields(emails)
  {
    if emails == [] {
      assert base + EmailParams(emails) == base;
      SplitSingle(base, '&');
    } else {
      var init := emails[..|emails| - 1];
      UrlFields(base, init);
      UrlFieldsStep(base, emails);
    }
  }

  /** One more email adds one more field after the fields of the others. */
  lemma UrlFieldsStep(base: string, emails: seq<string>)
    requires emails != [] && '&' !in emails[|emails| - 1]
    requires Split(base + EmailParams(emails[..|emails| - 1]), '&') == [base] + EmailFields(emails[..|emails| - 1])
    ensures Split(base + EmailParams(emails), '&') == [base] + EmailFields(emails)
  {
    var init := emails[..|emails| - 1];
    var field := "email=" + emails[|emails| - 1];
    var url := base + EmailParams(init);
    assert base + EmailParams(emails) == url + ['&'] + field by {
      ParamsSnoc(base, emails);
    }
    assert Split(url + ['&'] + field, '&') == Split(url, '&') + [field] by {
      FieldHasNoAmpersand(emails[|emails| - 1]);
      SplitAppend(url, '&', field);
    }
    FieldsSnoc(emails);
    ConsSnoc(base, EmailFields(init), field, EmailFields(emails));
  }

  lemma ConsSnoc<T>(x: T, xs: seq<T>, y: T, ys: seq<T>)
    requires ys == xs + [y]
    ensures [x] + xs + [y] == [x] + ys
  {
  }

  lemma ParamsSnoc(base: string, emails: seq<string>)
    requires emails != []
    ensures base + EmailParams(emails) == base + EmailParams(emails[..|emails| - 1]) + ['&'] + ("email=" + emails[|emails| - 1])
  {
    var params, e := EmailParams(emails[..|emails| - 1]), emails[|emails| - 1];
    Regroup(base, params, "&email=", e);
    ParamSplit(base + params, e);
  }

  lemma Regroup<T>(a: seq<T>, b: seq<T>, c: seq<T>, d: seq<T>)
    ensures a + (b + c + d) == a + b + c + d
  {
  }

  lemma ParamSplit(prefix: string, e: string)
    ensures prefix + "&email=" + e == prefix + ['&'] + ("email=" + e)
  {
    assert "&email=" == ['&'] + "email=";
  }

  lemma FieldsSnoc(emails: seq<string>)
    requires emails != []
    ensures EmailFields(emails) == EmailFields(emails[..|emails| - 1]) + ["email=" + emails[|emails| - 1]]
  {
    var init := emails[..|emails| - 1];
    var r := EmailFields(init) + ["email=" + emails[|emails| - 1]];
    assert |r| == |emails|;
    forall k | 0 <= k < |emails| ensures EmailFields(emails)[k] == r[k] {
      if k < |init| {
        assert init[k] == emails[k];
      }
    }
  }

  lemma BaseHasNoAmpersand()
    ensures '&' !in SearchBase
  {
  }

  lemma FieldHasNoAmpersand(e: string)
    requires '&' !in e
    ensures '&' !in "email=" + e
  {
    assert forall c :: c in "email=" + e ==> c in "email=" || c in e;
  }

  // ---------------------------------------------------------------------------
  // The capacity form
  // ---------------------------------------------------------------------------

  datatype CapacityIssue = Required | InvalidInput | SameAsOld

  function IssueMessage(i: CapacityIssue): string
  {
    match i
    case Required => "Required"
    case InvalidInput => "Invalid input"
    case SameAsOld => "Updated capacity must not be same as the old value."
  }

  /** The capacity schema's issues, in the order they are reported: the field
      must be non-empty and a number, and the number must differ from the
      current capacity. The checks do not stop one another. */
  function CapacityIssues(text: string, capacity: int): (r: seq<CapacityIssue>)
    ensures Required in r <==> text == ""
    ensures InvalidInput in r <==> NumberValue(text).None?
    ensures SameAsOld in r <==> NumberValue(text) == Some(capacity)
  {
    IssuesOf(text == "", NumberValue(text), capacity)
  }

  /** The issues, given whether the field is empty and what it reads as. */
  function IssuesOf(empty: bool, number: Option<int>, capacity: int): (r: seq<CapacityIssue>)
    ensures Required in r <==> empty
    ensures InvalidInput in r <==> number.None?
    ensures SameAsOld in r <==> number == Some(capacity)
  {
    (if empty then [Required] else [])
    + (if number.None? then [InvalidInput] else [])
    + (if number == Some(capacity) then [SameAsOld] else [])
  }

  /** A capacity is accepted exactly when it is non-empty number text with a new value. */
  lemma CapacityAcceptedIff(text: string, capacity: int)
    ensures CapacityIssues(text, capacity) == [] <==>
              text != "" && NumberValue(text).Some? && NumberValue(text).value != capacity
  {
    var r := CapacityIssues(text, capacity);
    if r == [] {
      assert Required !in r && InvalidInput !in r && SameAsOld !in r;
    }
  }

  /** The empty field is reported as required only: `Number("")` is 0, a number. */
  lemma EmptyCapacityIssues(capacity: int)
    ensures CapacityIssues("", capacity) == [Required] + (if capacity == 0 then [SameAsOld] else [])
  {
    assert Trim("") == "";
  }

  /** Save is disabled while the field shows the current capacity; such a
      value would be refused by the schema as unchanged anyway. */
  function DisableCapacitySave(text: string, capacity: int): (r: bool)
    ensures r <==> text == IntToString(capacity)
    ensures r ==> SameAsOld in CapacityIssues(text, capacity)
  {
    NumberOfIntToString(capacity);
    text == IntToString(capacity)
  }

  // ---------------------------------------------------------------------------
  // The class-id search box
  // ---------------------------------------------------------------------------

  datatype SearchStep = Blank | Busy | Fetch(id: string)

  const BlankMessage := "Please fill in class ID."

  /** `InputClassID`'s submit: blank input is refused with a message, nothing
      is sent while the page is loading, otherwise the trimmed id is looked up. */
  function ClassIdSearch(value: string, isLoading: bool): (r: SearchStep)
    ensures r == Blank <==> AllWhitespace(value)
    ensures r == Busy <==> !AllWhitespace(value) && isLoading
    ensures r.Fetch? ==> r.id == Trim(value) && r.id != "" && Trim(r.id) == r.id
  {
    TrimEmptyIff(value);
    TrimIdempotent(value);
    var input := Trim(value);
    if |input| == 0 then Blank
    else if isLoading then Busy
    else Fetch(input)
  }

  // ---------------------------------------------------------------------------
  // The page
  // ---------------------------------------------------------------------------

  type ClassJson = ClassesApi.ClassJson

  datatype PageRequest =
    | SearchUsers(url: string)
    | PutCapacity(classId: string, capacity: int)
    | PutModules(classId: string, modules: seq<string>)

  datatype Notice = Updated | SearchError(message: string) | UpdateError(message: string)

  /** How the user search ended: the users it found, or an error (including a reply that fails its schema). */
  datatype SearchOutcome = Found(users: seq<RoledUser>) | SearchFailed(message: string)

  /** How a class update ended: accepted with the updated class, accepted with
      a reply that fails its schema, or failed. */
  datatype PutOutcome = PutAccepted(updated: ClassJson) | PutUnparsable(message: string) | PutFailed(message: string)

  /** The emails `reload` searches for: students first, then teachers. */
  function ClassEmails(c: ClassJson): seq<string>
  {
    c.studentIds + c.teacherIds
  }

  function ReloadRequests(c: ClassJson): seq<PageRequest>
  {
    if ClassEmails(c) == [] then [] else [SearchUsers(SearchUrl(ClassEmails(c)))]
  }

  function ReloadNotices(c: ClassJson, search: SearchOutcome): seq<Notice>
  {
    if ClassEmails(c) != [] && search.SearchFailed? then [SearchError(search.message)] else []
  }

  function ReloadUsers(c: ClassJson, search: SearchOutcome, prior: seq<RoledUser>): seq<RoledUser>
  {
    if ClassEmails(c) != [] && search.Found? then search.users else prior
  }

  function PutNotices(put: PutOutcome): seq<Notice>
  {
    match put
    case PutAccepted(_) => [Updated]
    case PutUnparsable(m) => [Updated, UpdateError(m)]
    case PutFailed(m) => [UpdateError(m)]
  }

  /** The page's state. */
  class ClassPage {
    var isLoading: bool
    var data: Option<ClassJson>
    var users: seq<RoledUser>
    var availableModules: seq<string>
    var requests: seq<PageRequest>
    var notices: seq<Notice>

    constructor ()
      ensures !isLoading && data.None? && users == [] && availableModules == []
      ensures requests == [] && notices == []
    {
      isLoading := false;
      data := None;
      users := [];
      availableModules := [];
      requests := [];
      notices := [];
    }

    /** `reload`: loads the class's modules, then, unless the class has no
        members, searches its users; loading is off again at the end. */
    method Reload(current: Option<ClassJson>, search: SearchOutcome)
      modifies this
      ensures current.None? ==>
                isLoading == old(isLoading) && availableModules == old(availableModules)
                && users == old(users) && requests == old(requests) && notices == old(notices)
      ensures current.Some? ==>
                !isLoading && availableModules == current.value.availableModules
                && users == ReloadUsers(current.value, search, old(users))
                && requests == old(requests) + ReloadRequests(current.value)
                && notices == old(notices) + ReloadNotices(current.value, search)
      ensures data == old(data)
    {
      if current.None? {
        return;
      }
      var c := current.value;
      availableModules := c.availableModules;
      isLoading := true;
      var url := BuildSearchUrl(ClassEmails(c));
      if url.None? {
        isLoading := false;
        return;
      }
      requests := requests + [SearchUsers(url.value)];
      match search {
        case Found(found) => users := found;
        case SearchFailed(m) => notices := notices + [SearchError(m)];
      }
      isLoading := false;
    }

    /** `handleChangeClass`: shows the given class (or none), clears the
        users and reloads. */
    method HandleChangeClass(payload: Option<ClassJson>, search: SearchOutcome)
      modifies this
      ensures data == payload
      ensures payload.None? ==>
                users == [] && availableModules == []
                && isLoading == old(isLoading) && requests == old(requests) && notices == old(notices)
      ensures payload.Some? ==>
                !isLoading && availableModules == payload.value.availableModules
                && users == ReloadUsers(payload.value, search, [])
                && requests == old(requests) + ReloadRequests(payload.value)
                && notices == old(notices) + ReloadNotices(payload.value, search)
    {
      data := payload;
      users := [];
      availableModules := if payload.Some? then payload.value.availableModules else [];
      if payload.None? {
        return;
      }
      Reload(payload, search);
    }

    /** `handleSaveModules`: sends the edited modules and reloads the class
        the server returns; loading is off again on every way out. */
    method SaveModules(put: PutOutcome, search: SearchOutcome)
      modifies this
      ensures old(data).None? ==>
                isLoading == old(isLoading) && requests == old(requests) && notices == old(notices)
                && availableModules == old(availableModules) && users == old(users) && data == old(data)
      ensures old(data).Some? ==> !isLoading
      ensures old(data).Some? ==>
                requests == old(requests) + [PutModules(old(data).value.classId, old(availableModules))]
                  + (if put.PutAccepted? then ReloadRequests(put.updated) else [])
      ensures old(data).Some? ==>
                notices == old(notices) + PutNotices(put)
                  + (if put.PutAccepted? then ReloadNotices(put.updated, search) else [])
      ensures old(data).Some? && put.PutAccepted? ==>
                data == Some(put.updated) && availableModules == put.updated.availableModules
                && users == ReloadUsers(put.updated, search, [])
      ensures old(data).Some? && !put.PutAccepted? ==>
                data == old(data) && availableModules == old(availableModules) && users == old(users)
    {
      if data.None? {
        return;
      }
      isLoading := true;
      requests := requests + [PutModules(data.value.classId, availableModules)];
      notices := notices + PutNotices(put);
      if put.PutAccepted? {
        HandleChangeClass(Some(put.updated), search);
      }
      isLoading := false;
    }

    /** `UpdateCapacity`'s submit as written: nothing happens while loading;
        otherwise loading is switched on and the new capacity sent. Only the
        reload after a successful update switches loading off again: after a
        failed update the page stays loading. */
    method UpdateCapacityAsWritten(text: string, put: PutOutcome, search: SearchOutcome)
      requires data.Some? && CapacityIssues(text, data.value.capacity) == []
      modifies this
      ensures old(isLoading) ==>
                isLoading && requests == old(requests) && notices == old(notices) && data == old(data)
                && availableModules == old(availableModules) && users == old(users)
      ensures !old(isLoading) ==>
                requests == old(requests) + [PutCapacity(old(data).value.classId, NumberValue(text).value)]
                  + (if put.PutAccepted? then ReloadRequests(put.updated) else [])
                && notices == old(notices) + PutNotices(put)
                  + (if put.PutAccepted? then ReloadNotices(put.updated, search) else [])
      ensures !old(isLoading) ==> (isLoading <==> !put.PutAccepted?)
      ensures !old(isLoading) && put.PutAccepted? ==>
                data == Some(put.updated) && availableModules == put.updated.availableModules
                && users == ReloadUsers(put.updated, search, [])
      ensures !old(isLoading) && !put.PutAccepted? ==>
                data == old(data) && availableModules == old(availableModules) && users == old(users)
    {
      CapacityAcceptedIff(text, data.value.capacity);
      if isLoading {
        return;
      }
      isLoading := true;
      requests := requests + [PutCapacity(data.value.classId, NumberValue(text).value)];
      notices := notices + PutNotices(put);
      if put.PutAccepted? {
        HandleChangeClass(Some(put.updated), search);
      }
    }

    /** `UpdateCapacity`'s submit with loading switched off at the end, as
        the module save does: no way out leaves the page loading. */
    method UpdateCapacity(text: string, put: PutOutcome, search: SearchOutcome)
      requires data.Some? && CapacityIssues(text, data.value.capacity) == []
      modifies this
      ensures old(isLoading) ==>
                isLoading && requests == old(requests) && notices == old(notices) && data == old(data)
                && availableModules == old(availableModules) && users == old(users)
      ensures !old(isLoading) ==>
                requests == old(requests) + [PutCapacity(old(data).value.classId, NumberValue(text).value)]
                  + (if put.PutAccepted? then ReloadRequests(put.updated) else [])
                && notices == old(notices) + PutNotices(put)
                  + (if put.PutAccepted? then ReloadNotices(put.updated, search) else [])
      ensures !old(isLoading) ==> !isLoading
      ensures !old(isLoading) && put.PutAccepted? ==>
                data == Some(put.updated) && availableModules == put.updated.availableModules
                && users == ReloadUsers(put.updated, search, [])
      ensures !old(isLoading) && !put.PutAccepted? ==>
                data == old(data) && availableModules == old(availableModules) && users == old(users)
    {
      if isLoading {
        return;
      }
      UpdateCapacityAsWritten(text, put, search);
      isLoading := false;
    }
  }
}
