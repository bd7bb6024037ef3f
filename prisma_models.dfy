/**
 * The records Prisma returns for the three tables the services use.  Dates are kept as the
 * strings the client sent; timestamps the schema may add are not part of this model.
 */
module PrismaModels {
  import opened Wrappers

  /** The `UserRole` enumeration of the schema. */
  datatype UserRole = RoleUser | RoleAdmin | RoleModerator | RoleStaff

  /** The role a new user gets when the creation data names none (`UserRole.user`). */
  const DEFAULT_ROLE: UserRole := RoleUser

  /** `password` holds the bcrypt hash, never the plaintext. */
  datatype User = User(
    id: string,
    email: string,
    password: string,
    fullName: Option<string>,
    dateOfBirth: Option<string>,
    role: UserRole)

  datatype SiteSection = SiteSection(id: string, title: string, description: string)

  datatype Setting = Setting(
    id: string,
    sectionTitle: string,
    key: string,
    value: string,
    sectionId: string)

  /** Every record is stored under its own id. */
  ghost predicate UsersKeyed(users: map<string, User>) {
    forall id :: id in users ==> users[id].id == id
  }

  /** The unique index on `User.email`. */
  ghost predicate UniqueEmails(users: map<string, User>) {
    forall a, b :: a in users && b in users && users[a].email == users[b].email ==> a == b
  }

  ghost predicate SectionsKeyed(sections: map<string, SiteSection>) {
    forall id :: id in sections ==> sections[id].id == id
  }

  /** The unique index on `SiteSection.title`. */
  ghost predicate UniqueTitles(sections: map<string, SiteSection>) {
    forall a, b :: a in sections && b in sections && sections[a].title == sections[b].title ==> a == b
  }

  ghost predicate SettingsKeyed(settings: map<string, Setting>) {
    forall id :: id in settings ==> settings[id].id == id
  }
}
