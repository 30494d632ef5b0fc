/** The test harness's view of the orchestrator (__tests__/api.test.ts): the
    fields a test subclass of the task handler resets, the helper that plants
    a failing procedure in the revert stack, the unwinding of that stack, and
    the payloads the tests create users with. The orchestrator itself
    (running the queues and `revertChanges`) is not part of this model;
    unwinding is modelled by assumption as: pop the top procedure, undo it,
    and stop at the first undo that fails. */
module ApiTest {
  import opened Text

  datatype Target = Auth0 | Db

  /** What a procedure does when it is undone: the test's `errorAction` always
      throws; any other action is an external call whose outcome is a parameter. */
  datatype Action = ErrorAction | External(name: string)

  /** A payload value, as far as the tests use them. */
  datatype Value = Num(n: int) | Str(s: string) | Fields(entries: seq<(string, Value)>)

  datatype Procedure = Procedure(name: string, target: Target, action: Action, payload: seq<Value>)

  /** The procedure `setRevertError` plants. */
  const ErrorProcedure := Procedure(
    "Error Procedure For Testing", Db, ErrorAction,
    [Num(123), Str("test payload"),
     Fields([("first", Str("revert")), ("second", Str("error")), ("third", Num(321))])])

  /** A cached user or group, by its identifier. */
  datatype Snapshot = Snapshot(id: string, fields: seq<(string, string)>)

  // ---------------------------------------------------------------------------
  // Splicing into the revert stack
  // ---------------------------------------------------------------------------

  /** Where `splice(index, 0, x)` inserts: a negative index counts from the
      end (and stops at 0), an index past the end means the end. */
  function SpliceIndex(index: int, len: nat): (k: nat)
    ensures k <= len
    ensures 0 <= index <= len ==> k == index
    ensures index > len ==> k == len
    ensures index < 0 ==> k == if len + index < 0 then 0 else len + index
  {
    if index < 0 then (if len + index < 0 then 0 else len + index)
    else if index > len then len
    else index
  }

  function SpliceInsert(s: seq<Procedure>, k: nat, x: Procedure): (r: seq<Procedure>)
    requires k <= |s|
  {
    s[..k] + [x] + s[k..]
  }

  /** The inserted entry sits at `k`, the stack grew by one, and taking the
      entry out again gives the old stack back, its order unchanged. */
  lemma SpliceInsertInverse(s: seq<Procedure>, k: nat, x: Procedure)
    requires k <= |s|
    ensures |SpliceInsert(s, k, x)| == |s| + 1 && SpliceInsert(s, k, x)[k] == x
    ensures SpliceInsert(s, k, x)[..k] + SpliceInsert(s, k, x)[k + 1..] == s
    ensures multiset(SpliceInsert(s, k, x)) == multiset(s) + multiset{x}
  {
    var r := SpliceInsert(s, k, x);
    assert r[..k] == s[..k];
    assert r[k + 1..] == s[k..];
    assert s[..k] + s[k..] == s;
  }

  // ---------------------------------------------------------------------------
  // Unwinding the revert stack
  // ---------------------------------------------------------------------------

  /** Whether undoing `p` succeeds, given the outcome of each external call. */
  predicate Undoes(p: Procedure, external: string -> bool) {
    p.action.External? && external(p.action.name)
  }

  /** The result of unwinding: the entries left on the stack, those undone (in
      the order they were popped), and the one whose undo failed, if any. */
  datatype Unwinding = Unwinding(remaining: seq<Procedure>, undone: seq<Procedure>, failed: Option<Procedure>)

  /** Pop and undo from the top; the first failed undo stops the unwinding,
      and the failed entry has already been popped. */
  function Unwind(stack: seq<Procedure>, external: string -> bool): (u: Unwinding)
    ensures |u.remaining| + |u.undone| + (if u.failed.Some? then 1 else 0) == |stack|
    ensures u.failed.None? ==> u.remaining == []
    decreases |stack|
  {
    if stack == [] then Unwinding([], [], None)
    else
      var top := stack[|stack| - 1];
      var below := stack[..|stack| - 1];
      if !Undoes(top, external) then Unwinding(below, [], Some(top))
      else
        var u := Unwind(below, external);
        Unwinding(u.remaining, [top] + u.undone, u.failed)
  }

  /** One step of unwinding a non-empty stack: its top is popped, and either
      fails there or is undone before the rest is unwound. */
  lemma UnwindPop(stack: seq<Procedure>, external: string -> bool)
    requires stack != []
    ensures var top, below := stack[|stack| - 1], stack[..|stack| - 1];
            Unwind(stack, external) ==
              if !Undoes(top, external) then Unwinding(below, [], Some(top))
              else Unwinding(Unwind(below, external).remaining, [top] + Unwind(below, external).undone,
                             Unwind(below, external).failed)
  {
  }

  function Reverse(s: seq<Procedure>): (r: seq<Procedure>)
    ensures |r| == |s|
  {
    if s == [] then [] else [s[|s| - 1]] + Reverse(s[..|s| - 1])
  }

  function FailedPart(f: Option<Procedure>): seq<Procedure>
  {
    if f.Some? then [f.value] else []
  }

  /** Nothing is lost or reordered: the stack is what remains, then the failed
      entry, then the undone ones in the reverse of their popping order. */
  lemma {:induction false} UnwindPartition(stack: seq<Procedure>, external: string -> bool)
    ensures var u := Unwind(stack, external);
            stack == u.remaining + FailedPart(u.failed) + Reverse(u.undone)
    decreases |stack|
  {
    if stack != [] {
      var top := stack[|stack| - 1];
      var below := stack[..|stack| - 1];
      assert stack == below + [top];
      if Undoes(top, external) {
        UnwindPartition(below, external);
        var u := Unwind(below, external);
        assert Unwind(stack, external) == Unwinding(u.remaining, [top] + u.undone, u.failed);
        ReverseCons(top, u.undone);
        calc {
          u.remaining + FailedPart(u.failed) + Reverse([top] + u.undone);
          u.remaining + FailedPart(u.failed) + (Reverse(u.undone) + [top]);
          (u.remaining + FailedPart(u.failed) + Reverse(u.undone)) + [top];
          below + [top];
        }
      } else {
        assert Unwind(stack, external) == Unwinding(below, [], Some(top));
        assert Reverse([]) == [];
      }
    }
  }

  lemma {:induction false} ReverseCons(x: Procedure, s: seq<Procedure>)
    ensures Reverse([x] + s) == Reverse(s) + [x]
    decreases |s|
  {
    if s != [] {
      var t := [x] + s;
      assert t[|t| - 1] == s[|s| - 1];
      assert t[..|t| - 1] == [x] + s[..|s| - 1];
      ReverseCons(x, s[..|s| - 1]);
    } else {
      assert [x] + s == [x];
    }
  }

  /** When every undo succeeds the whole stack is undone, top first. */
  lemma {:induction false} UnwindAllSucceed(stack: seq<Procedure>, external: string -> bool)
    requires forall i :: 0 <= i < |stack| ==> Undoes(stack[i], external)
    ensures Unwind(stack, external) == Unwinding([], Reverse(stack), None)
    decreases |stack|
  {
    if stack != [] {
      var below := stack[..|stack| - 1];
      assert forall i :: 0 <= i < |below| ==> below[i] == stack[i];
      UnwindAllSucceed(below, external);
    }
  }

  /** With the error procedure on top, unwinding undoes nothing: it pops the
      error procedure and leaves everything below it in place. */
  lemma ErrorOnTopUndoesNothing(stack: seq<Procedure>, external: string -> bool)
    ensures Unwind(stack + [ErrorProcedure], external) == Unwinding(stack, [], Some(ErrorProcedure))
  {
    var s := stack + [ErrorProcedure];
    assert s[..|s| - 1] == stack;
  }

  // ---------------------------------------------------------------------------
  // The test handler
  // ---------------------------------------------------------------------------

  /** The task handler's fields that the test subclass touches. */
  class TestTaskHandler {
    var auth0Token: Option<string>
    var auth0Tasks: seq<Procedure>
    var dbTasks: seq<Procedure>
    var revertStack: seq<Procedure>
    var errorStatusText: Option<string>
    var errorMessages: seq<string>
    var users: map<string, Snapshot>
    var groups: map<string, Snapshot>
    /** Messages sent to the revert-error log stream. */
    var revertErrorLog: seq<string>

    predicate Empty()
      reads this
    {
      auth0Token.None? && auth0Tasks == [] && dbTasks == [] && revertStack == []
      && errorStatusText.None? && errorMessages == [] && users == map[] && groups == map[]
    }

    constructor ()
      ensures Empty() && revertErrorLog == []
    {
      auth0Token := None;
      auth0Tasks := [];
      dbTasks := [];
      revertStack := [];
      errorStatusText := None;
      errorMessages := [];
      users := map[];
      groups := map[];
      revertErrorLog := [];
    }

    method ClearUsers()
      modifies this
      ensures users == map[]
      ensures auth0Token == old(auth0Token) && auth0Tasks == old(auth0Tasks) && dbTasks == old(dbTasks)
      ensures revertStack == old(revertStack) && errorStatusText == old(errorStatusText)
      ensures errorMessages == old(errorMessages) && groups == old(groups) && revertErrorLog == old(revertErrorLog)
    {
      users := map[];
    }

    method ClearGroups()
      modifies this
      ensures groups == map[]
      ensures auth0Token == old(auth0Token) && auth0Tasks == old(auth0Tasks) && dbTasks == old(dbTasks)
      ensures revertStack == old(revertStack) && errorStatusText == old(errorStatusText)
      ensures errorMessages == old(errorMessages) && users == old(users) && revertErrorLog == old(revertErrorLog)
    {
      groups := map[];
    }

    /** `clearTasks`: both queues are spliced empty. */
    method ClearTasks()
      modifies this
      ensures auth0Tasks == [] && dbTasks == []
      ensures auth0Token == old(auth0Token) && revertStack == old(revertStack)
      ensures errorStatusText == old(errorStatusText) && errorMessages == old(errorMessages)
      ensures users == old(users) && groups == old(groups) && revertErrorLog == old(revertErrorLog)
    {
      auth0Tasks := auth0Tasks[..0] + auth0Tasks[|auth0Tasks|..];
      dbTasks := dbTasks[..0] + dbTasks[|dbTasks|..];
    }

    /** `clearRevert`: pops the top entry and recurses until the stack is empty. */
    method ClearRevert()
      modifies this
      ensures revertStack == []
      ensures auth0Token == old(auth0Token) && auth0Tasks == old(auth0Tasks) && dbTasks == old(dbTasks)
      ensures errorStatusText == old(errorStatusText) && errorMessages == old(errorMessages)
      ensures users == old(users) && groups == old(groups) && revertErrorLog == old(revertErrorLog)
      decreases |revertStack|
    {
      if |revertStack| > 0 {
        revertStack := revertStack[..|revertStack| - 1];
        ClearRevert();
      }
    }

    /** `clearError`: the status goes and the messages are popped one by one. */
    method ClearError()
      modifies this
      ensures errorStatusText.None? && errorMessages == []
      ensures auth0Token == old(auth0Token) && auth0Tasks == old(auth0Tasks) && dbTasks == old(dbTasks)
      ensures revertStack == old(revertStack)
      ensures users == old(users) && groups == old(groups) && revertErrorLog == old(revertErrorLog)
    {
      errorStatusText := None;
      while |errorMessages| > 0
        invariant errorStatusText.None?
        invariant auth0Token == old(auth0Token) && auth0Tasks == old(auth0Tasks) && dbTasks == old(dbTasks)
        invariant revertStack == old(revertStack)
        invariant users == old(users) && groups == old(groups) && revertErrorLog == old(revertErrorLog)
        decreases |errorMessages|
      {
        errorMessages := errorMessages[..|errorMessages| - 1];
      }
    }

    /** `resetProperties`: the handler is back to its freshly built state
        (the revert-error log is outside the handler and stays). */
    method ResetProperties()
      modifies this
      ensures Empty()
      ensures revertErrorLog == old(revertErrorLog)
    {
      auth0Token := None;
      ClearTasks();
      ClearRevert();
      ClearError();
      ClearUsers();
      ClearGroups();
    }

    /** `setRevertError`: the error procedure is inserted at `index`, by
        default at the top of the stack. */
    method SetRevertError(index: Option<int>)
      modifies this
      ensures var k := SpliceIndex(if index.Some? then index.value else |old(revertStack)|, |old(revertStack)|);
              revertStack == SpliceInsert(old(revertStack), k, ErrorProcedure)
      ensures auth0Token == old(auth0Token) && auth0Tasks == old(auth0Tasks) && dbTasks == old(dbTasks)
      ensures errorStatusText == old(errorStatusText) && errorMessages == old(errorMessages)
      ensures users == old(users) && groups == old(groups) && revertErrorLog == old(revertErrorLog)
    {
      var start := if index.Some? then index.value else |revertStack|;
      var k := SpliceIndex(start, |revertStack|);
      revertStack := revertStack[..k] + [ErrorProcedure] + revertStack[k..];
    }

    /** `testRevert`: unwinds the revert stack. Each failed undo adds a
        message and is reported to the revert-error log. */
    method TestRevert(external: string -> bool)
      modifies this
      ensures var u := Unwind(old(revertStack), external);
              revertStack == u.remaining
              && errorMessages == old(errorMessages) + (if u.failed.Some? then [u.failed.value.name] else [])
              && revertErrorLog == old(revertErrorLog) + (if u.failed.Some? then [u.failed.value.name] else [])
      ensures auth0Token == old(auth0Token) && auth0Tasks == old(auth0Tasks) && dbTasks == old(dbTasks)
      ensures errorStatusText == old(errorStatusText) && users == old(users) && groups == old(groups)
    {
      ghost var undone: seq<Procedure> := [];
      while |revertStack| > 0
        invariant Unwind(old(revertStack), external) == 
                    (var u := Unwind(revertStack, external); Unwinding(u.remaining, undone + u.undone, u.failed))
        invariant errorMessages == old(errorMessages) && revertErrorLog == old(revertErrorLog)
        invariant auth0Token == old(auth0Token) && auth0Tasks == old(auth0Tasks) && dbTasks == old(dbTasks)
        invariant errorStatusText == old(errorStatusText) && users == old(users) && groups == old(groups)
        decreases |revertStack|
      {
        ghost var before := revertStack;
        var top := revertStack[|revertStack| - 1];
        revertStack := revertStack[..|revertStack| - 1];
        UnwindPop(before, external);
        if !Undoes(top, external) {
          errorMessages := errorMessages + [top.name];
          revertErrorLog := revertErrorLog + [top.name];
          return;
        }
        ghost var rest := Unwind(revertStack, external).undone;
        assert undone + ([top] + rest) == (undone + [top]) + rest;
        undone := undone + [top];
      }
    }
  }

  /** Planting the error procedure at its default place and then unwinding
      leaves the stack as it was before the error procedure went in. */
  method RevertErrorScenario(h: TestTaskHandler, external: string -> bool)
    modifies h
    ensures h.revertStack == old(h.revertStack)
    ensures h.revertErrorLog == old(h.revertErrorLog) + [ErrorProcedure.name]
  {
    h.SetRevertError(None);
    ErrorOnTopUndoesNothing(old(h.revertStack), external);
    h.TestRevert(external);
  }

  // ---------------------------------------------------------------------------
  // Test users
  // ---------------------------------------------------------------------------

  /** The user-creation payload a test sends (before request validation).
      `Missing` stands for a key that is absent or `undefined`. */
  datatype UserPayload = UserPayload(
    role: string, email: string, name: string, expirationDate: Nullish<string>,
    availableModules: Nullish<seq<string>>, enrolled: Nullish<string>,
    families: Nullish<seq<string>>, managing: Nullish<seq<string>>)

  function Given<T>(v: Option<T>): Nullish<T>
  {
    if v.Some? then Present(v.value) else Missing
  }

  /** `createTestUser`'s payload for a role: admins get null expiry and
      modules and nothing else; students carry their class and families;
      parents and teachers carry what they manage and null modules; any other
      role becomes a student with an empty family list. Everyone but an admin
      expires on the default date. */
  function TestUserPayload(email: string, role: string, managing: Option<seq<string>>,
                           enrolled: Option<string>, families: Option<seq<string>>, defaultDate: string): (p: UserPayload)
    ensures p.email == email && p.name == "test " + role
    ensures p.role == (if role in {"admin", "student", "parent", "teacher"} then role else "student")
    ensures p.role == "admin" <==> p.expirationDate == Null
    ensures p.role != "admin" ==> p.expirationDate == Present(defaultDate)
    ensures p.availableModules == (if role in {"admin", "parent", "teacher"} then Null else Missing)
    ensures p.managing.Missing? <==> !(role in {"parent", "teacher"}) || managing.None?
    ensures role in {"parent", "teacher"} ==> p.managing == Given(managing)
    ensures role !in {"parent", "teacher"} ==> p.managing == Missing
    ensures role == "student" ==> p.enrolled == Given(enrolled) && p.families == Given(families)
    ensures role != "student" ==> p.enrolled == Missing
    ensures role in {"admin", "parent", "teacher"} ==> p.families == Missing
    ensures role !in {"admin", "student", "parent", "teacher"} ==> p.families == Present([])
  {
    if role == "admin" then
      UserPayload("admin", email, "test " + role, Null, Null, Missing, Missing, Missing)
    else if role == "student" then
      UserPayload(role, email, "test " + role, Present(defaultDate), Missing, Given(enrolled), Given(families), Missing)
    else if role == "parent" || role == "teacher" then
      UserPayload(role, email, "test " + role, Present(defaultDate), Null, Missing, Missing, Given(managing))
    else
      UserPayload("student", email, "test " + role, Present(defaultDate), Missing, Missing, Present([]), Missing)
  }
}
