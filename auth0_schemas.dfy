/** Constants and validation rules of src/models/auth0_schemas.ts: the module
    lists, the four identity-provider roles and their role records, the
    user-metadata rules, and the role-check and roled-user shapes. zod's
    `.trim()` rewrites the value before `.nonempty()` checks it, so parsing
    returns trimmed text. */
module Auth0Schemas {
  import opened Text

  // ---------------------------------------------------------------------------
  // Modules
  // ---------------------------------------------------------------------------

  const DefaultModels: seq<string> := ["Module A", "Module B", "Module C"]

  /** `defaultModels.concat(["Module D", "Module E"])`. */
  const ModulesReady: seq<string> := DefaultModels + ["Module D", "Module E"]

  /** The ready modules start with the default ones, so every default module is ready. */
  lemma DefaultModulesAreReady()
    ensures ModulesReady[..|DefaultModels|] == DefaultModels
    ensures forall m :: m in DefaultModels ==> m in ModulesReady
    ensures |ModulesReady| == |DefaultModels| + 2
  {
  }

  /** No module name holds a comma, none is empty, and none repeats. */
  lemma ModuleNamesPlain()
    ensures forall k :: 0 <= k < |ModulesReady| ==> ',' !in ModulesReady[k] && ModulesReady[k] != ""
    ensures NoDuplicates(ModulesReady)
  {
  }

  // ---------------------------------------------------------------------------
  // Roles
  // ---------------------------------------------------------------------------

  datatype Role = Admin | ManagedStudent | Teacher | UnmanagedStudent

  /** `PossilbeRoles`, in declaration order. */
  const PossibleRoles: seq<Role> := [Admin, ManagedStudent, Teacher, UnmanagedStudent]

  /** The literal each role is written as. */
  function RoleKey(r: Role): string
  {
    match r
    case Admin => "admin"
    case ManagedStudent => "managedStudent"
    case Teacher => "teacher"
    case UnmanagedStudent => "unmanagedStudent"
  }

  /** `UserRoleSchema`: accepts exactly the four role literals. */
  function ParseRole(s: string): (r: Option<Role>)
    ensures r.Some? ==> RoleKey(r.value) == s
  {
    if s == "admin" then Some(Admin)
    else if s == "managedStudent" then Some(ManagedStudent)
    else if s == "teacher" then Some(Teacher)
    else if s == "unmanagedStudent" then Some(UnmanagedStudent)
    else None
  }

  /** Every role's literal parses back to that role. */
  lemma ParseRoleKey(r: Role)
    ensures ParseRole(RoleKey(r)) == Some(r)
  {
  }

  /** A string parses as a role exactly when it is one of the listed literals. */
  lemma ParseRoleIff(s: string)
    ensures ParseRole(s).Some? <==> exists k :: 0 <= k < |PossibleRoles| && RoleKey(PossibleRoles[k]) == s
  {
    if ParseRole(s).Some? {
      var r := ParseRole(s).value;
      var k := match r case Admin => 0 case ManagedStudent => 1 case Teacher => 2 case UnmanagedStudent => 3;
      assert PossibleRoles[k] == r;
    }
  }

  /** `filter(role => role !== "admin")`. */
  function WithoutAdmin(rs: seq<Role>): (r: seq<Role>)
    ensures Admin !in r
    ensures forall x :: x != Admin ==> (x in r <==> x in rs)
    ensures |r| <= |rs|
  {
    if rs == [] then []
    else if rs[0] == Admin then WithoutAdmin(rs[1..])
    else [rs[0]] + WithoutAdmin(rs[1..])
  }

  const NonAdminRoles: seq<Role> := WithoutAdmin(PossibleRoles)

  /** The non-admin roles, in their original order. */
  lemma NonAdminRolesInOrder()
    ensures NonAdminRoles == [ManagedStudent, Teacher, UnmanagedStudent]
  {
    assert PossibleRoles[1..][1..][1..][1..] == [];
  }

  datatype RoleInfo = RoleInfo(name: string, id: string)

  /** `roleMapping`: the identity provider's display name and id of each role. */
  function RoleMapping(r: Role): RoleInfo
  {
    match r
    case Admin => RoleInfo("admin", "rol_dhBIdUmGdNR52dha")
    case ManagedStudent => RoleInfo("student", "rol_sscS5jlEm9eNoQhh")
    case Teacher => RoleInfo("teacher", "rol_2TX6jO3b0TbA1z7y")
    case UnmanagedStudent => RoleInfo("unmanaged student", "rol_JHWVsaPKEqqHno00")
  }

  /** `RoleRecordSchema`'s entry rule: name and id non-empty after trimming. */
  predicate RoleInfoValid(i: RoleInfo) {
    Trim(i.name) != "" && Trim(i.id) != ""
  }

  /** Every role has an entry that satisfies the record schema; the student
      roles are named "student" and "unmanaged student". */
  lemma RoleMappingValid(r: Role)
    ensures RoleInfoValid(RoleMapping(r))
    ensures RoleMapping(ManagedStudent).name == "student"
    ensures RoleMapping(UnmanagedStudent).name == "unmanaged student"
  {
    RoleInfoValidWhenLettered(RoleMapping(r));
  }

  /** A record whose name and id both start with a lower-case letter passes the schema. */
  lemma RoleInfoValidWhenLettered(i: RoleInfo)
    requires i.name != [] && 'a' <= i.name[0] <= 'z'
    requires i.id != [] && 'a' <= i.id[0] <= 'z'
    ensures RoleInfoValid(i)
  {
    TrimNonBlank(i.name);
    TrimNonBlank(i.id);
  }

  /** No two roles share an identity-provider id. */
  lemma RoleIdsDistinct(a: Role, b: Role)
    ensures a != b ==> RoleMapping(a).id != RoleMapping(b).id
  {
    assert RoleMapping(a).id[4] == RoleIdMark(a) && RoleMapping(b).id[4] == RoleIdMark(b);
  }

  /** The character that tells the role ids apart. */
  function RoleIdMark(r: Role): char
  {
    match r
    case Admin => 'd'
    case ManagedStudent => 's'
    case Teacher => '2'
    case UnmanagedStudent => 'J'
  }

  // ---------------------------------------------------------------------------
  // User metadata
  // ---------------------------------------------------------------------------

  /** Date text in the form YYYY-MM-DD (the shape the unseen `validDateString` asks for). */
  predicate ValidDateString(s: string) {
    |s| == 10 && s[4] == '-' && s[7] == '-'
    && IsDigit(s[0]) && IsDigit(s[1]) && IsDigit(s[2]) && IsDigit(s[3])
    && IsDigit(s[5]) && IsDigit(s[6]) && IsDigit(s[8]) && IsDigit(s[9])
  }

  datatype UserMetadata = UserMetadata(
    accountExpirationDate: Nullish<string>, enrolledClassId: Nullish<string>,
    teachingClassIds: Nullish<seq<string>>, availableModules: Nullish<seq<string>>)

  predicate NonBlank(s: string) {
    Trim(s) != ""
  }

  predicate AllNonBlank(xs: seq<string>) {
    forall i :: 0 <= i < |xs| ==> NonBlank(xs[i])
  }

  /** `UserMetadataSchema`'s rules: a present date is YYYY-MM-DD; a present
      class id, and every present teaching class id and module, is non-blank. */
  predicate MetadataValid(m: UserMetadata) {
    && (m.accountExpirationDate.Present? ==> ValidDateString(m.accountExpirationDate.value))
    && (m.enrolledClassId.Present? ==> NonBlank(m.enrolledClassId.value))
    && (m.teachingClassIds.Present? ==> AllNonBlank(m.teachingClassIds.value))
    && (m.availableModules.Present? ==> AllNonBlank(m.availableModules.value))
  }

  function TrimPresent(s: Nullish<string>): Nullish<string>
  {
    if s.Present? then Present(Trim(s.value)) else s
  }

  function TrimPresentList(s: Nullish<seq<string>>): Nullish<seq<string>>
  {
    if s.Present? then Present(TrimAll(s.value)) else s
  }

  /** Parsing user metadata: accepted exactly when the rules hold; the date
      is kept as given, the ids and modules come back trimmed, and a missing
      or null field stays as it was. */
  function ParseUserMetadata(m: UserMetadata): (r: Option<UserMetadata>)
    ensures r.Some? <==> MetadataValid(m)
    ensures r.Some? ==> r.value.accountExpirationDate == m.accountExpirationDate
    ensures r.Some? ==> r.value.enrolledClassId == TrimPresent(m.enrolledClassId)
    ensures r.Some? ==> r.value.teachingClassIds == TrimPresentList(m.teachingClassIds)
    ensures r.Some? ==> r.value.availableModules == TrimPresentList(m.availableModules)
  {
    if MetadataValid(m) then
      Some(UserMetadata(m.accountExpirationDate, TrimPresent(m.enrolledClassId),
                        TrimPresentList(m.teachingClassIds), TrimPresentList(m.availableModules)))
    else None
  }

  lemma TrimAllStable(xs: seq<string>)
    requires AllNonBlank(xs)
    ensures AllNonBlank(TrimAll(xs)) && TrimAll(TrimAll(xs)) == TrimAll(xs)
  {
    forall i | 0 <= i < |xs| ensures NonBlank(TrimAll(xs)[i]) && Trim(TrimAll(xs)[i]) == TrimAll(xs)[i] {
      TrimIdempotent(xs[i]);
    }
  }

  /** What the schema accepts, it accepts again unchanged: parsing is idempotent. */
  lemma ParseUserMetadataIdempotent(m: UserMetadata)
    requires ParseUserMetadata(m).Some?
    ensures ParseUserMetadata(ParseUserMetadata(m).value) == ParseUserMetadata(m)
  {
    var p := ParseUserMetadata(m).value;
    if m.enrolledClassId.Present? { TrimIdempotent(m.enrolledClassId.value); }
    if m.teachingClassIds.Present? { TrimAllStable(m.teachingClassIds.value); }
    if m.availableModules.Present? { TrimAllStable(m.availableModules.value); }
    assert MetadataValid(p);
  }

  // ---------------------------------------------------------------------------
  // Role check and roled users
  // ---------------------------------------------------------------------------

  /** `RoleArraySchema`: every entry must be a role literal. */
  function ParseRoles(names: seq<string>): (r: Option<seq<Role>>)
    ensures r.Some? <==> forall i :: 0 <= i < |names| ==> ParseRole(names[i]).Some?
    ensures r.Some? ==> |r.value| == |names| && forall i :: 0 <= i < |names| ==> RoleKey(r.value[i]) == names[i]
  {
    if names == [] then Some([])
    else
      var head := ParseRole(names[0]);
      var tail := ParseRoles(names[1..]);
      if head.Some? && tail.Some? then
        Some([head.value] + tail.value)
      else
        assert head.None? ==> !ParseRole(names[0]).Some?;
        assert tail.None? ==> exists i :: 1 <= i < |names| && !ParseRole(names[i]).Some?
          by {
            if tail.None? {
              var j :| 0 <= j < |names[1..]| && !ParseRole(names[1..][j]).Some?;
              assert names[1..][j] == names[j + 1];
            }
          }
        None
  }

  datatype RawRoleEntry = RawRoleEntry(id: string, name: string, description: string)
  datatype RoleEntry = RoleEntry(id: string, name: Role, description: string)

  /** `RoleCheckResponseSchema`: every entry's name must be one of the four roles. */
  function ParseRoleCheck(raw: seq<RawRoleEntry>): (r: Option<seq<RoleEntry>>)
    ensures r.Some? <==> forall i :: 0 <= i < |raw| ==> ParseRole(raw[i].name).Some?
    ensures r.Some? ==> |r.value| == |raw| && forall i :: 0 <= i < |raw| ==>
              r.value[i].id == raw[i].id && r.value[i].description == raw[i].description
              && RoleKey(r.value[i].name) == raw[i].name
  {
    var names := seq(|raw|, i requires 0 <= i < |raw| => raw[i].name);
    assert forall i :: 0 <= i < |raw| ==> names[i] == raw[i].name;
    var roles := ParseRoles(names);
    if roles.Some? then
      Some(seq(|raw|, i requires 0 <= i < |raw| => RoleEntry(raw[i].id, roles.value[i], raw[i].description)))
    else None
  }

  /** `UserSearchResponseSchema` (extra keys aside). */
  datatype SearchUser = SearchUser(email: string, name: string, userId: string, userMetadata: Option<UserMetadata>)

  /** `RoledUserSchema`: a search result extended with its roles. */
  datatype RoledUser = RoledUser(email: string, name: string, userId: string,
                                 userMetadata: Option<UserMetadata>, roles: seq<Role>)

  /** Parsing a roled user: the inherited `user_metadata` rule still applies,
      so present metadata must pass `UserMetadataSchema` and comes back in its
      parsed (trimmed) form, and every role must be a role literal. */
  function ParseRoledUser(u: SearchUser, roleNames: seq<string>): (r: Option<RoledUser>)
    ensures r.Some? <==> (forall i :: 0 <= i < |roleNames| ==> ParseRole(roleNames[i]).Some?)
                         && (u.userMetadata.Some? ==> MetadataValid(u.userMetadata.value))
    ensures r.Some? ==> r.value.email == u.email && r.value.name == u.name && r.value.userId == u.userId
    ensures r.Some? ==> (r.value.userMetadata.Some? <==> u.userMetadata.Some?)
    ensures r.Some? && u.userMetadata.Some? ==> r.value.userMetadata == ParseUserMetadata(u.userMetadata.value)
    ensures r.Some? ==> |r.value.roles| == |roleNames|
    ensures r.Some? ==> forall i :: 0 <= i < |roleNames| ==> RoleKey(r.value.roles[i]) == roleNames[i]
  {
    var roles := ParseRoles(roleNames);
    var metadata := if u.userMetadata.Some? then ParseUserMetadata(u.userMetadata.value) else None;
    if roles.Some? && (u.userMetadata.None? || metadata.Some?) then
      Some(RoledUser(u.email, u.name, u.userId, metadata, roles.value))
    else None
  }
}
