/**
 * The admin credential check (is_authorized, server.py): HTTP Basic with
 * the fixed user name "admin" and the configured admin password.
 */
module Auth {
  import opened Wrappers
  import opened Text

  const BasicPrefix: string := "Basic "
  const AdminUser: string := "admin"

  /**
   * is_authorized. `header` is the Authorization header (None when the
   * request has none, which the source reads as ""); `b64decode` and
   * `utf8decode` are base64.b64decode and bytes.decode("utf-8"), None
   * standing for the ValueError / UnicodeDecodeError they raise.
   */
  function IsAuthorized(header: Option<string>, password: string,
                        b64decode: string -> Option<seq<bv8>>,
                        utf8decode: seq<bv8> -> Option<string>): (ok: bool)
    // a header that does not start with "Basic ", a missing one included, never authorises
    ensures !StartsWith(header.GetOr(""), BasicPrefix) ==> !ok
    // undecodable base64 or non-UTF-8 credentials mean "not authorised", not an error
    ensures StartsWith(header.GetOr(""), BasicPrefix) ==>
              var token := header.GetOr("")[|BasicPrefix|..];
              (b64decode(token).None? ==> !ok) &&
              (b64decode(token).Some? && utf8decode(b64decode(token).value).None? ==> !ok)
  {
    var h := header.GetOr("");
    if !StartsWith(h, BasicPrefix) then false
    else
      // h.split(" ", 1)[1]: the first space is the one that ends "Basic"
      var token := h[|BasicPrefix|..];
      match b64decode(token)
      case None => false
      case Some(bytes) =>
        match utf8decode(bytes)
        case None => false
        case Some(decoded) => CredentialsMatch(decoded, password)
  }

  /** username, _, password = decoded.partition(":"), compared with "admin" and the admin password. */
  predicate CredentialsMatch(decoded: string, password: string) {
    var p := Partition(decoded, ':');
    p.0 == AdminUser && p.2 == password
  }

  /**
   * The decoded credentials are accepted exactly when they are "admin:"
   * followed by the password (colons in the password included), or, when
   * the password is empty, the bare word "admin" (partition then yields an
   * empty password).
   */
  lemma {:induction false} CredentialsMatchIff(decoded: string, password: string)
    ensures CredentialsMatch(decoded, password) <==>
              decoded == AdminUser + ":" + password || (password == [] && decoded == AdminUser)
  {
    var p := Partition(decoded, ':');
    if decoded == AdminUser + ":" + password {
      FirstColonSplit(AdminUser, password, p.0, p.2, p.1);
    }
    if CredentialsMatch(decoded, password) {
      if p.1 {
        assert decoded == p.0 + [':'] + p.2;
      } else {
        assert decoded == AdminUser;
      }
    }
  }

  /** Splitting u + ":" + w at its first colon gives u back when u has no colon. */
  lemma {:induction false} FirstColonSplit(u: string, w: string, before: string, after: string, found: bool)
    requires ':' !in u
    requires ':' !in before
    requires found && u + ":" + w == before + [':'] + after
    ensures before == u && after == w
  {
    var s := u + ":" + w;
    assert forall k :: 0 <= k < |u| ==> s[k] == u[k] != ':';
    assert forall k :: 0 <= k < |before| ==> s[k] == before[k] != ':';
    assert s[|u|] == ':' && s[|before|] == ':';
    assert |before| == |u|;
    assert before == s[..|u|] == u;
    assert after == s[|u| + 1..] == w;
  }

  /**
   * The whole check, end to end: a "Basic " header whose token decodes to
   * text t is accepted exactly when t is "admin:" + password (or "admin"
   * with an empty password); any other user name is refused.
   */
  lemma BasicHeaderAccepted(token: string, t: string, password: string,
                            b64decode: string -> Option<seq<bv8>>,
                            utf8decode: seq<bv8> -> Option<string>)
    requires b64decode(token).Some? && utf8decode(b64decode(token).value) == Some(t)
    ensures IsAuthorized(Some(BasicPrefix + token), password, b64decode, utf8decode) <==>
              t == AdminUser + ":" + password || (password == [] && t == AdminUser)
  {
    var h := BasicPrefix + token;
    assert StartsWith(h, BasicPrefix) && h[|BasicPrefix|..] == token;
    CredentialsMatchIff(t, password);
  }
}
