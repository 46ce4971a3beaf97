/** The user table that redirect rules point at and that login and the access
    gate look users up in (app/custom_users/models.py). */
module Accounts {

  type UserId = int

  /** A stored user. `password` is the stored hash; hashing is not modelled. */
  datatype User = User(id: UserId, username: string, password: string)

  /** The public representation of a user: the username only. */
  datatype UserView = UserView(username: string)

  /** `CustomUser.as_dict`: exposes the username and nothing else. */
  function UserAsDict(u: User): UserView {
    UserView(u.username)
  }

  /** The user table keyed by primary key: every row is stored under its own id. */
  ghost predicate UsersKeyed(users: map<UserId, User>) {
    forall id :: id in users ==> users[id].id == id
  }

  /** The ids of the users with the given username (the username column is not unique). */
  function UsersNamed(users: map<UserId, User>, name: string): (ids: set<UserId>)
    ensures forall id :: id in ids <==> id in users && users[id].username == name
  {
    set id | id in users && users[id].username == name
  }
}
