/**
 * The in-memory administrator sessions: a set of tokens that login adds to,
 * logout discards from, and every administrator route checks.
 */
module Auth {
  import opened Wrappers
  import opened Http

  /** `verify_admin_password`: the entered password is the configured one. */
  function VerifyPassword(password: string, configured: string): (ok: bool)
    ensures ok <==> password == configured
  {
    password == configured
  }

  /** `verify_admin_session` over a given session set: a missing token is never valid. */
  predicate IsAdmin(sessions: set<string>, token: Option<string>)
  {
    token.Some? && token.value in sessions
  }

  /** `require_admin` over a given session set and the `admin_session` cookie. */
  function RequireAdmin(sessions: set<string>, cookie: Option<string>): (r: Option<HttpError>)
    ensures r.None? <==> cookie.Some? && cookie.value in sessions
    ensures r.Some? ==> r.value == HttpError(401, "Admin authentication required")
  {
    if IsAdmin(sessions, cookie) then None
    else Some(HttpError(401, "Admin authentication required"))
  }

  /** The module-level `admin_sessions` set. */
  class AdminSessions {
    var tokens: set<string>

    constructor()
      ensures tokens == {}
    {
      tokens := {};
    }

    /** `verify_admin_session`. */
    function Verify(token: Option<string>): (ok: bool)
      reads this
      ensures token.None? ==> !ok
      ensures ok <==> IsAdmin(tokens, token)
    {
      token.Some? && token.value in tokens
    }

    /** `create_admin_session`; the random `secrets.token_urlsafe(32)` value is the
        parameter `issued`. */
    method Create(issued: string) returns (token: string)
      modifies this
      ensures token == issued
      ensures tokens == old(tokens) + {issued}
      ensures Verify(Some(token))
      ensures forall u :: u != issued ==> (Verify(Some(u)) <==> old(Verify(Some(u))))
    {
      tokens := tokens + {issued};
      token := issued;
    }

    /** `delete_admin_session`: `set.discard`, so an absent token is no error. */
    method Delete(token: string)
      modifies this
      ensures tokens == old(tokens) - {token}
      ensures !Verify(Some(token))
      ensures token !in old(tokens) ==> tokens == old(tokens)
      ensures forall u :: u != token ==> (Verify(Some(u)) <==> old(Verify(Some(u))))
    {
      tokens := tokens - {token};
    }

    /** `require_admin` against the current sessions. */
    method Require(cookie: Option<string>) returns (r: Option<HttpError>)
      ensures r == RequireAdmin(tokens, cookie)
      ensures r.Some? <==> !Verify(cookie)
    {
      if Verify(cookie) {
        r := None;
      } else {
        r := Some(HttpError(401, "Admin authentication required"));
      }
    }
  }
}
