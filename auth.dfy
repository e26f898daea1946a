/** The session gate of server.js: the `requireAuth` middleware and the login, logout and
    status handlers, over the two session fields the handlers read and write. The bcrypt
    comparison against the stored hash is the parameter `passwordMatches`. */
module Auth {
  import opened Wrappers
  import opened Text

  /** `ADMIN_CREDENTIALS.username`, the only staff identity. */
  const AdminUsername: string := "admin"

  /** What `requireAuth` does with a request: run the wrapped handler, answer 401, or
      redirect to `/login`. */
  datatype Gate = Proceed | Unauthorized | RedirectToLogin

  /** `requireAuth(req, res, next)` for a session whose flag is `isAuthenticated`, on `path`. */
  function RequireAuth(isAuthenticated: bool, path: string): (g: Gate)
    ensures g == Proceed <==> isAuthenticated
    ensures !isAuthenticated ==> (g == Unauthorized <==> StartsWith(path, "/api/"))
    ensures !isAuthenticated ==> (g == RedirectToLogin <==> !StartsWith(path, "/api/"))
  {
    if isAuthenticated then Proceed
    else if StartsWith(path, "/api/") then Unauthorized
    else RedirectToLogin
  }

  /** The path of `PATCH` and `DELETE` on one ticket. */
  function TicketPath(id: string): string {
    "/api/tickets/" + id
  }

  /** An anonymous `PATCH` or `DELETE` on any ticket is refused with 401 and never reaches
      the handler. */
  lemma TicketMutationsGated(id: string)
    ensures RequireAuth(false, TicketPath(id)) == Unauthorized
  {
    assert TicketPath(id)[..5] == "/api/";
  }

  /** Every page outside `/api/` sends an anonymous visitor to `/login`, the staff pages
      `/board` and `/ticket/:id` among them. */
  lemma StaffPagesRedirect(id: string)
    ensures forall p :: !StartsWith(p, "/api/") ==> RequireAuth(false, p) == RedirectToLogin
    ensures RequireAuth(false, "/board") == RedirectToLogin
    ensures RequireAuth(false, "/ticket/" + id) == RedirectToLogin
  {
    NotStartsWithAt("/board", "/api/", 1);
    assert ("/ticket/" + id)[1] == 't';
    NotStartsWithAt("/ticket/" + id, "/api/", 1);
  }

  /** `POST /api/auth/login` outcomes. */
  datatype LoginReply = MissingCredentials | InvalidCredentials | LoggedIn(user: string) {
    function Code(): int {
      match this
      case MissingCredentials => 400
      case InvalidCredentials => 401
      case LoggedIn(_) => 200
    }
  }

  /** `POST /api/auth/logout` outcomes. */
  datatype LogoutReply = LoggedOut | LogoutError {
    function Code(): int {
      if LoggedOut? then 200 else 500
    }
  }

  /** JavaScript truthiness of a body field that is absent or a string. */
  predicate Truthy(field: Option<string>) {
    field.Some? && field.value != []
  }

  /** One client's session: `req.session.isAuthenticated` and `req.session.username`. */
  class Session {
    var isAuthenticated: bool
    var username: Option<string>

    /** The only way into the authenticated state binds the staff username. */
    ghost predicate Valid()
      reads this
    {
      username == if isAuthenticated then Some(AdminUsername) else None
    }

    /** A new session is anonymous. */
    constructor ()
      ensures !isAuthenticated && username == None
      ensures Valid()
    {
      isAuthenticated := false;
      username := None;
    }

    /** Checks the credentials; only an exact staff username whose password verifies changes
        the session. */
    method Login(user: Option<string>, password: Option<string>, passwordMatches: string -> bool)
      returns (r: LoginReply)
      modifies this
      ensures r == MissingCredentials <==> !Truthy(user) || !Truthy(password)
      ensures r.LoggedIn? <==>
        Truthy(user) && Truthy(password) && user.value == AdminUsername && passwordMatches(password.value)
      ensures r.LoggedIn? ==> r.user == AdminUsername
      ensures r.LoggedIn? ==> isAuthenticated && username == Some(AdminUsername)
      ensures !r.LoggedIn? ==> isAuthenticated == old(isAuthenticated) && username == old(username)
      ensures old(Valid()) ==> Valid()
    {
      if !Truthy(user) || !Truthy(password) {
        r := MissingCredentials;
        return;
      }
      if user.value == AdminUsername && passwordMatches(password.value) {
        isAuthenticated := true;
        username := user;
        r := LoggedIn(user.value);
      } else {
        r := InvalidCredentials;
      }
    }

    /** `req.session.destroy`: on success the session is gone, so the client is anonymous;
        when the store reports an error the reply is 500 and the session remains. */
    method Logout(destroyOk: bool) returns (r: LogoutReply)
      modifies this
      ensures r == LoggedOut <==> destroyOk
      ensures destroyOk ==> !isAuthenticated && username == None
      ensures !destroyOk ==> isAuthenticated == old(isAuthenticated) && username == old(username)
      ensures old(Valid()) ==> Valid()
    {
      if destroyOk {
        isAuthenticated := false;
        username := None;
        r := LoggedOut;
      } else {
        r := LogoutError;
      }
    }

    /** `GET /api/auth/status`: the flag, and the bound username only when authenticated. */
    method Status() returns (authenticated: bool, user: Option<string>)
      ensures authenticated == isAuthenticated
      ensures user == if isAuthenticated then username else None
      ensures Valid() ==> (user.Some? <==> authenticated) && (user.Some? ==> user.value == AdminUsername)
    {
      authenticated := isAuthenticated;
      user := if isAuthenticated then username else None;
    }
  }
}
