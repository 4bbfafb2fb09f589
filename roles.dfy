/** The UserRole enum and the identity of the requesting user. */
module Roles {

  datatype UserRole = Admin | User | PremiumUser {

    /** Enum.name(): the constant's name as declared. */
    function Name(): string {
      match this
      case Admin => "ADMIN"
      case User => "USER"
      case PremiumUser => "PREMIUM_USER"
    }
  }

  /**
   * The requesting user, passed explicitly instead of being read from the security context:
   * the User entity's id, username and role.
   */
  datatype Identity = Identity(id: int, username: string, role: UserRole)
}
