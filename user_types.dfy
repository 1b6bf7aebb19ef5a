/** The user record of the roster and its role. */
module UserTypes {

  datatype UserRole = Admin | Editor | User

  datatype UserRecord = UserRecord(
    id: string,
    name: string,
    email: string,
    role: UserRole,
    avatar: string,
    joinDate: string)

  /** The id of a record, as the key the roster filters and matches on. */
  function UserId(u: UserRecord): string
  {
    u.id
  }
}
