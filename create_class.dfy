/** The class creation form (src/components/CreateClass.tsx): the initial
    module list, which sorts the shared default-module array in place, the
    module editor, and the submit handler's capacity check and payload. */
module CreateClass {
  import opened Text
  import opened Email
  import opened Auth0Schemas
  import ManageClass

  /** `Array.prototype.sort` on an array of strings, in place: the array ends
      up holding the sorted arrangement of what it held. */
  method SortInPlace(a: array<string>)
    modifies a
    ensures a[..] == Sort(old(a[..]))
  {
    var i := 0;
    while i < a.Length
      invariant 0 <= i <= a.Length
      invariant forall p, q :: 0 <= p < q < i ==> Leq(a[p], a[q])
      invariant multiset(a[..]) == multiset(old(a[..]))
    {
      InsertStep(a, i);
      i := i + 1;
    }
    SortCorrect(old(a[..]));
    SortedUnique(a[..], Sort(old(a[..])));
  }

  /** One pass of insertion sort: the entry at `i` moves down past the larger
      entries before it, leaving the first `i + 1` entries in order and the
      contents of the array the same. */
  method InsertStep(a: array<string>, i: int)
    requires 0 <= i < a.Length
    requires forall p, q :: 0 <= p < q < i ==> Leq(a[p], a[q])
    modifies a
    ensures forall p, q :: 0 <= p < q < i + 1 ==> Leq(a[p], a[q])
    ensures multiset(a[..]) == multiset(old(a[..]))
  {
    var j := i;
    while j > 0 && !Leq(a[j - 1], a[j])
      invariant 0 <= j <= i
      invariant forall p, q :: 0 <= p < q <= i && p != j && q != j ==> Leq(a[p], a[q])
      invariant forall q :: j < q <= i ==> Leq(a[j], a[q])
      invariant multiset(a[..]) == multiset(old(a[..]))
    {
      ghost var before := a[..];
      a[j - 1], a[j] := a[j], a[j - 1];
      SwapStep(before, a[..], i, j);
      j := j - 1;
    }
    SettledStep(a, i, j);
  }

  /** Swapping the moving entry with a larger one before it keeps the two
      loop facts, one place further down. */
  lemma SwapStep(s: seq<string>, t: seq<string>, i: int, j: int)
    requires 0 < j <= i < |s| == |t|
    requires t == s[j - 1 := s[j]][j := s[j - 1]]
    requires forall p, q :: 0 <= p < q <= i && p != j && q != j ==> Leq(s[p], s[q])
    requires forall q :: j < q <= i ==> Leq(s[j], s[q])
    requires !Leq(s[j - 1], s[j])
    ensures forall p, q :: 0 <= p < q <= i && p != j - 1 && q != j - 1 ==> Leq(t[p], t[q])
    ensures forall q :: j - 1 < q <= i ==> Leq(t[j - 1], t[q])
  {
    LeqTotal(s[j - 1], s[j]);
    forall q | j - 1 < q <= i ensures Leq(t[j - 1], t[q]) {
      if q > j { LeqTransitive(s[j], s[j - 1], s[q]); }
    }
  }

  /** Once the moving entry stops at `j`, the first `i + 1` entries are in order. */
  lemma SettledStep(a: array<string>, i: int, j: int)
    requires 0 <= j <= i < a.Length
    requires forall p, q :: 0 <= p < q <= i && p != j && q != j ==> Leq(a[p], a[q])
    requires forall q :: j < q <= i ==> Leq(a[j], a[q])
    requires j == 0 || Leq(a[j - 1], a[j])
    ensures forall p, q :: 0 <= p < q < i + 1 ==> Leq(a[p], a[q])
  {
    forall p, q | 0 <= p < q < i + 1 ensures Leq(a[p], a[q]) {
      if q == j && p < j - 1 {
        LeqTransitive(a[p], a[j - 1], a[j]);
      }
    }
  }

  /** The form's module list starts as the default modules sorted in place;
      they are already in order, so the shared array is left as it was. */
  lemma InitialModulesUnchanged()
    ensures Sort(DefaultModels) == DefaultModels
  {
    assert Leq("Module A", "Module B") && Leq("Module B", "Module C") && Leq("Module A", "Module C");
    SortOfSorted(DefaultModels);
  }

  /** At the start the form can add the last two ready modules. */
  lemma InitialModulesToAdd()
    ensures ManageClass.ModulesToAdd(ModulesReady, Sort(DefaultModels)) == ["Module D", "Module E"]
  {
    InitialModulesUnchanged();
    ManageClass.ModulesToAddAfterDefaults();
  }

  /** A module edit: add or remove one module. */
  datatype Edit = Add(m: string) | Remove(m: string)

  function ApplyEdit(modules: seq<string>, e: Edit): seq<string>
  {
    match e
    case Add(m) => ManageClass.AddModule(modules, m)
    case Remove(m) => ManageClass.RemoveModule(modules, m)
  }

  function ApplyEdits(modules: seq<string>, edits: seq<Edit>): seq<string>
    decreases |edits|
  {
    if edits == [] then modules else ApplyEdits(ApplyEdit(modules, edits[0]), edits[1..])
  }

  /** After any non-empty run of edits the module list is sorted, and it holds
      the last module edited exactly when that edit added it. */
  lemma {:induction false} EditsKeepSorted(modules: seq<string>, edits: seq<Edit>)
    requires edits != [] || Sorted(modules)
    ensures Sorted(ApplyEdits(modules, edits))
    ensures edits != [] ==> (edits[|edits| - 1].m in ApplyEdits(modules, edits) <==> edits[|edits| - 1].Add?)
    decreases |edits|
  {
    if edits != [] {
      var next := ApplyEdit(modules, edits[0]);
      EditsKeepSorted(next, edits[1..]);
      if |edits| > 1 {
        assert edits[1..][|edits[1..]| - 1] == edits[|edits| - 1];
      }
    }
  }

  /** The create-class form's fields: an email teacher id (checked before it
      is trimmed, so it is already trimmed) and a required capacity. */
  predicate FormValid(teacherId: string, capacity: string) {
    IsEmail(teacherId) && capacity != ""
  }

  datatype Payload = Payload(teacherId: string, capacity: int, availableModules: seq<string>)

  /** The form's state. */
  class CreateClassForm {
    var isLoading: bool
    var availableModules: seq<string>
    /** The error on the capacity field, if one was set. */
    var capacityError: Option<string>
    /** The payloads built so far. */
    var payloads: seq<Payload>

    /** The first render: the shared default array is sorted in place and
        becomes the module list. */
    constructor (defaults: array<string>)
      modifies defaults
      ensures defaults[..] == Sort(old(defaults[..]))
      ensures availableModules == defaults[..]
      ensures !isLoading && capacityError.None? && payloads == []
    {
      SortInPlace(defaults);
      isLoading := false;
      availableModules := defaults[..];
      capacityError := None;
      payloads := [];
    }

    method Edit(e: Edit)
      modifies this
      ensures availableModules == ApplyEdit(old(availableModules), e)
      ensures isLoading == old(isLoading) && capacityError == old(capacityError) && payloads == old(payloads)
    {
      availableModules := ApplyEdit(availableModules, e);
    }

    /** `onSubmit`: capacity text that is not a number sets "Invalid number"
        and builds nothing; otherwise the payload carries the teacher id, the
        capacity's value and the module list as it stands. Loading is off at the end either way. */
    method OnSubmit(teacherId: string, capacity: string)
      requires FormValid(teacherId, capacity)
      modifies this
      ensures !isLoading && availableModules == old(availableModules)
      ensures NumberValue(capacity).None? ==>
                capacityError == Some("Invalid number") && payloads == old(payloads)
      ensures NumberValue(capacity).Some? ==>
                capacityError == old(capacityError)
                && payloads == old(payloads) + [Payload(teacherId, NumberValue(capacity).value, old(availableModules))]
    {
      isLoading := true;
      var value := NumberValue(capacity);
      if value.None? {
        capacityError := Some("Invalid number");
        isLoading := false;
        return;
      }
      payloads := payloads + [Payload(teacherId, value.value, availableModules)];
      isLoading := false;
    }
  }
}
