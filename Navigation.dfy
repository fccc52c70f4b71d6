/**
 * The role-dependent link lists of the site header (`getNavLinks`) and of the dashboard
 * sidebar (`getLinks`), each built from a fixed start by appending under role tests,
 * and the sidebar heading.
 */
module Navigation {
  import opened Common
  import opened JsString
  import opened UserModel
  import opened Session

  datatype Link = Link(href: string, text: string)

  // ----- Site header -----

  /** The links everybody sees, in order. */
  const BaseLinks: seq<Link> := [Link("/", "Home"), Link("/clubs", "Clubs"), Link("/events", "Events")]

  const ProfileLink: Link := Link("/profile", "My Profile")

  /** The dashboard entry of the header, which only admins and coordinators have. */
  function DashboardLink(role: Role): (l: Option<Link>)
    ensures l.Some? <==> role != Student
  {
    match role
    case Admin => Some(Link("/admin", "Admin Dashboard"))
    case Coordinator => Some(Link("/coordinator", "Coordinator Dashboard"))
    case Student => None
  }

  predicate IsDashboardLink(l: Link) {
    l == Link("/admin", "Admin Dashboard") || l == Link("/coordinator", "Coordinator Dashboard")
  }

  /**
   * `getNavLinks`. Always Home, Clubs, Events first; nothing more when signed out; when
   * signed in, the role's dashboard if it has one (admin or coordinator, never both,
   * never for a student), then My Profile last.
   */
  method GetNavLinks(session: Option<SessionUser>) returns (links: seq<Link>)
    ensures |links| >= 3 && links[..3] == BaseLinks
    ensures session.None? ==> links == BaseLinks
    ensures session.Some? ==> links[|links| - 1] == ProfileLink
    ensures |links| == if session.None? then 3 else if session.value.role == Student then 4 else 5
    ensures session.Some? && session.value.role == Admin ==> links[3] == Link("/admin", "Admin Dashboard")
    ensures session.Some? && session.value.role == Coordinator
      ==> links[3] == Link("/coordinator", "Coordinator Dashboard")
    ensures forall i :: 0 <= i < |links| && IsDashboardLink(links[i]) ==>
      i == 3 && session.Some? && DashboardLink(session.value.role) == Some(links[i])
  {
    links := BaseLinks;
    if session.Some? {
      if session.value.role == Admin {
        links := links + [Link("/admin", "Admin Dashboard")];
      } else if session.value.role == Coordinator {
        links := links + [Link("/coordinator", "Coordinator Dashboard")];
      }
      links := links + [ProfileLink];
    }
  }

  // ----- Dashboard sidebar -----

  /** The section every sidebar link of a role points into. */
  function Section(role: Option<Role>): (s: string)
    ensures s == "/admin" <==> role == Some(Admin)
    ensures s == "/admin" || s == "/coordinator"
  {
    if role == Some(Admin) then "/admin" else "/coordinator"
  }

  /**
   * `getLinks`. Dashboard and Events first, under `/admin` for an admin and under
   * `/coordinator` for anyone else; then Clubs, Budget, Users, Settings for an admin;
   * Members, Budget, Settings for a coordinator; nothing more for anyone else.
   */
  method GetLinks(role: Option<Role>) returns (links: seq<Link>)
    ensures |links| >= 2
    ensures links[0] == Link(Section(role), "Dashboard")
    ensures links[1] == Link(Section(role) + "/events", "Events")
    ensures forall i :: 0 <= i < |links| ==> StartsWith(links[i].href, Section(role))
    ensures |links| == if role == Some(Admin) then 6 else if role == Some(Coordinator) then 5 else 2
    ensures role == Some(Admin) ==>
      links[2..] == [Link("/admin/clubs", "Clubs"), Link("/admin/budget", "Budget"),
                     Link("/admin/users", "Users"), Link("/admin/settings", "Settings")]
    ensures role == Some(Coordinator) ==>
      links[2..] == [Link("/coordinator/members", "Members"), Link("/coordinator/budget", "Budget"),
                     Link("/coordinator/settings", "Settings")]
  {
    links := [
      Link(if role == Some(Admin) then "/admin" else "/coordinator", "Dashboard"),
      Link(if role == Some(Admin) then "/admin/events" else "/coordinator/events", "Events")];
    if role == Some(Admin) {
      links := links + [Link("/admin/clubs", "Clubs"), Link("/admin/budget", "Budget"),
                        Link("/admin/users", "Users"), Link("/admin/settings", "Settings")];
    } else if role == Some(Coordinator) {
      links := links + [Link("/coordinator/members", "Members"), Link("/coordinator/budget", "Budget"),
                        Link("/coordinator/settings", "Settings")];
    }
  }

  /** The sidebar heading: the admin heading exactly for an admin. */
  function Heading(role: Option<Role>): (h: string)
    ensures h == "Admin Dashboard" <==> role == Some(Admin)
    ensures h != "Admin Dashboard" ==> h == "Coordinator Dashboard"
  {
    if role == Some(Admin) then "Admin Dashboard" else "Coordinator Dashboard"
  }
}
