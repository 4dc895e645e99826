/** A `User` row as the route handlers see it: its id, login names, role and department. */
module Users {

  datatype User = User(id: int, username: string, email: string, role: string, department: string)

  /** `User.is_admin()`. */
  predicate IsAdmin(u: User) { u.role == "admin" }

  /** `User.is_hr()`. */
  predicate IsHr(u: User) { u.role == "hr" }

  /** HR staff and administrators, whom most handlers let see and change everything. */
  predicate IsStaff(u: User) { IsHr(u) || IsAdmin(u) }
}
