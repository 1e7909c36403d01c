/** The Board entity: a title, an admin, and four sets (role assignments,
    items, statuses, item types) that the entity's own methods grow and shrink
    in place. */
module Boards {
  import opened Auth
  import Items

  /** A role assignment of a user on a board; the role is an opaque label. */
  datatype UserRoleInBoard = UserRoleInBoard(id: int, user: UserId, role: string)

  /** A status of a board's workflow. */
  datatype Status = Status(id: int, status: string)

  /** An item type a board offers. */
  datatype ItemType = ItemType(id: int, itemType: string)

  class Board {
    var title: string
    var admin: User
    var userRoleInBoards: set<UserRoleInBoard>
    var items: set<Items.Item>
    var statuses: set<Status>
    var types: set<ItemType>

    /** A new board has its title and admin and no roles, items, statuses or types. */
    constructor (title: string, admin: User)
      ensures this.title == title && this.admin == admin
      ensures userRoleInBoards == {} && items == {} && statuses == {} && types == {}
    {
      this.title := title;
      this.admin := admin;
      userRoleInBoards := {};
      items := {};
      statuses := {};
      types := {};
    }

    /** Adds a role assignment and returns the role set; adding one already there changes nothing. */
    method AddUserRole(assignment: UserRoleInBoard) returns (roles: set<UserRoleInBoard>)
      modifies this`userRoleInBoards
      ensures userRoleInBoards == old(userRoleInBoards) + {assignment}
      ensures assignment in old(userRoleInBoards) ==> userRoleInBoards == old(userRoleInBoards)
      ensures roles == userRoleInBoards
      ensures title == old(title) && admin == old(admin)
      ensures items == old(items) && statuses == old(statuses) && types == old(types)
    {
      userRoleInBoards := userRoleInBoards + {assignment};
      roles := userRoleInBoards;
    }

    /** Removes a role assignment and returns the role set; removing an absent one changes nothing. */
    method RemoveUserRole(assignment: UserRoleInBoard) returns (roles: set<UserRoleInBoard>)
      modifies this`userRoleInBoards
      ensures userRoleInBoards == old(userRoleInBoards) - {assignment}
      ensures assignment !in userRoleInBoards
      ensures assignment !in old(userRoleInBoards) ==> userRoleInBoards == old(userRoleInBoards)
      ensures roles == userRoleInBoards
      ensures title == old(title) && admin == old(admin)
      ensures items == old(items) && statuses == old(statuses) && types == old(types)
    {
      userRoleInBoards := userRoleInBoards - {assignment};
      roles := userRoleInBoards;
    }

    /** Adds a status and returns the status set; adding one already there changes nothing. */
    method AddStatus(status: Status) returns (result: set<Status>)
      modifies this`statuses
      ensures statuses == old(statuses) + {status}
      ensures status in old(statuses) ==> statuses == old(statuses)
      ensures result == statuses
      ensures title == old(title) && admin == old(admin)
      ensures userRoleInBoards == old(userRoleInBoards) && items == old(items) && types == old(types)
    {
      statuses := statuses + {status};
      result := statuses;
    }

    /** Removes a status and returns the status set; removing an absent one changes nothing. */
    method RemoveStatus(status: Status) returns (result: set<Status>)
      modifies this`statuses
      ensures statuses == old(statuses) - {status}
      ensures status !in statuses
      ensures status !in old(statuses) ==> statuses == old(statuses)
      ensures result == statuses
      ensures title == old(title) && admin == old(admin)
      ensures userRoleInBoards == old(userRoleInBoards) && items == old(items) && types == old(types)
    {
      statuses := statuses - {status};
      result := statuses;
    }
  }

  /** A role granted and then revoked on a fresh board: present after the
      grant, gone after the revocation, and revoking it again is a no-op. */
  method GrantAndRevoke(admin: User, assignment: UserRoleInBoard) returns (granted: bool, revoked: bool)
    ensures granted && revoked
  {
    var board := new Board("board", admin);
    var roles := board.AddUserRole(assignment);
    granted := assignment in roles;
    roles := board.RemoveUserRole(assignment);
    revoked := assignment !in roles && roles == {};
    roles := board.RemoveUserRole(assignment);
    revoked := revoked && roles == {};
  }
}
