/** The outward projection of a loaded user: every column except the password hash, with
    "the" role of the user taken from its first role link. */
module UserMapper {
  import opened Common
  import opened Calendar
  import opened Entities

  datatype UserResponse = UserResponse(
    id: int,
    firstName: string,
    lastName: string,
    email: string,
    username: string,
    profileImage: Option<string>,
    isActive: bool,
    darkMode: bool,
    expirationPassword: Option<Date>,
    flagPassword: bool,
    createdAt: Date,
    updatedAt: Date,
    deletedAt: Option<Date>,
    role: Option<string>,
    roleId: Option<int>)

  /** `user.roles?.[0]?.role`: the role joined to the first link, if any. */
  function MainRole(u: LoadedUser): (r: Option<Role>)
    ensures r.Some? <==> |u.roles| > 0 && u.roles[0].role.Some?
    ensures r.Some? ==> r.value == u.roles[0].role.value.role
  {
    if |u.roles| > 0 && u.roles[0].role.Some? then Some(u.roles[0].role.value.role) else None
  }

  function ToResponseDto(u: LoadedUser): (r: UserResponse)
    ensures r.id == u.user.id && r.email == u.user.email && r.username == u.user.username
    ensures r.profileImage.None? <==> u.user.profileImage.Null?
    ensures r.expirationPassword.None? <==> u.user.expirationPassword.Null?
    ensures r.deletedAt.None? <==> u.user.deletedAt.Null?
    ensures r.role.Some? <==> r.roleId.Some?
    ensures r.roleId.Some? <==> |u.roles| > 0 && u.roles[0].role.Some?
    ensures r.roleId.Some? ==> r.roleId.value == u.roles[0].role.value.role.id
    ensures r.role.Some? ==> r.role.value == u.roles[0].role.value.role.name
  {
    var main := MainRole(u);
    UserResponse(
      u.user.id,
      u.user.firstName,
      u.user.lastName,
      u.user.email,
      u.user.username,
      NullToUndefined(u.user.profileImage),
      u.user.isActive,
      u.user.darkMode,
      NullToUndefined(u.user.expirationPassword),
      u.user.flagPassword,
      u.user.createdAt,
      u.user.updatedAt,
      NullToUndefined(u.user.deletedAt),
      if main.Some? then Some(main.value.name) else None,
      if main.Some? then Some(main.value.id) else None)
  }

  /** The password hash does not reach the response: two users that differ only in their
      password project to the same response. */
  lemma ResponseIgnoresPassword(u: LoadedUser, password: string)
    ensures ToResponseDto(u) == ToResponseDto(u.(user := u.user.(password := password)))
  {
  }

  /** Only the first link decides `role` and `roleId`; later links are ignored. */
  lemma ResponseIgnoresLaterLinks(u: LoadedUser, later: seq<LoadedUserRole>)
    requires |u.roles| > 0
    ensures ToResponseDto(u) == ToResponseDto(u.(roles := [u.roles[0]] + later))
  {
  }

  /** Every column other than the password, the roles and the three nullable columns is
      copied verbatim, and the nullable ones are copied when they hold a value. */
  lemma ResponseCopiesColumns(u: LoadedUser)
    ensures var r := ToResponseDto(u);
      && r.firstName == u.user.firstName && r.lastName == u.user.lastName
      && r.isActive == u.user.isActive && r.darkMode == u.user.darkMode
      && r.flagPassword == u.user.flagPassword
      && r.createdAt == u.user.createdAt && r.updatedAt == u.user.updatedAt
      && (u.user.profileImage.NonNull? ==> r.profileImage == Some(u.user.profileImage.value))
      && (u.user.expirationPassword.NonNull? ==> r.expirationPassword == Some(u.user.expirationPassword.value))
      && (u.user.deletedAt.NonNull? ==> r.deletedAt == Some(u.user.deletedAt.value))
  {
  }
}
