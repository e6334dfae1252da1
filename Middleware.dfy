/** The JWT check in front of the protected routes (server/middleware/auth.go). Token
    parsing is a foreign library and is a parameter: the claims a token string decodes to,
    or None when it does not parse. */
module AuthMiddleware {
  import opened Wrappers
  import Text
  import ControllerHelpers

  datatype Claims = Claims(userId: nat, username: string)

  /** `strings.TrimPrefix`: one leading occurrence of `prefix` removed, if there is one. */
  function TrimPrefix(s: string, prefix: string): (r: string)
    ensures Text.StartsWith(s, prefix) ==> s == prefix + r
    ensures !Text.StartsWith(s, prefix) ==> r == s
  {
    if Text.StartsWith(s, prefix) then s[|prefix|..] else s
  }

  const BearerPrefix := "Bearer "

  datatype Decision = Reject(error: string) | Accept(claims: Claims)

  /** The decision on the `Authorization` header. */
  function Decide(header: string, parseToken: string -> Option<Claims>): (d: Decision) {
    if header == "" then Reject("Authorization header required")
    else
      var token := TrimPrefix(header, BearerPrefix);
      if token == header then Reject("Invalid authorization format")
      else match parseToken(token)
        case None => Reject("Invalid token")
        case Some(claims) => Accept(claims)
  }

  /** The three rejections and the acceptance: a header without the exact prefix "Bearer "
      is a format error, and the token parsed is the header with one prefix removed. */
  lemma DecisionCases(header: string, parseToken: string -> Option<Claims>)
    ensures header == "" ==> Decide(header, parseToken) == Reject("Authorization header required")
    ensures header != "" ==>
              (Decide(header, parseToken) == Reject("Invalid authorization format") <==> !Text.StartsWith(header, BearerPrefix))
    ensures Text.StartsWith(header, BearerPrefix) ==>
              Decide(header, parseToken) == (match parseToken(header[7..])
                                             case None => Reject("Invalid token")
                                             case Some(claims) => Accept(claims))
    ensures Decide(header, parseToken).Accept? ==>
              header == BearerPrefix + header[7..] && parseToken(header[7..]) == Some(Decide(header, parseToken).claims)
  {
    if Text.StartsWith(header, BearerPrefix) {
      assert |TrimPrefix(header, BearerPrefix)| < |header|;
    }
  }

  /** Only one prefix is removed: "Bearer Bearer t" hands "Bearer t" to the parser. */
  lemma OnePrefixRemoved(t: string, parseToken: string -> Option<Claims>)
    ensures Decide("Bearer Bearer " + t, parseToken) == Decide("Bearer " + ("Bearer " + t), parseToken)
    ensures parseToken("Bearer " + t).None? ==> Decide("Bearer Bearer " + t, parseToken) == Reject("Invalid token")
  {
    var h := "Bearer Bearer " + t;
    assert h == BearerPrefix + ("Bearer " + t);
    assert Text.StartsWith(h, BearerPrefix);
    assert h[7..] == "Bearer " + t;
    DecisionCases(h, parseToken);
  }

  /** The context after an accepted request: `user_id` and `username` from the claims. */
  function Admit(c: ControllerHelpers.Context, claims: Claims): (r: ControllerHelpers.Context)
    ensures "user_id" in r && r["user_id"] == ControllerHelpers.UintValue(claims.userId)
    ensures "username" in r && r["username"] == ControllerHelpers.StringValue(claims.username)
    ensures forall k :: k in c && k != "user_id" && k != "username" ==> k in r && r[k] == c[k]
  {
    c["user_id" := ControllerHelpers.UintValue(claims.userId)]["username" := ControllerHelpers.StringValue(claims.username)]
  }

  /** The handlers behind the middleware see the claims' user id; a token whose claims carry
      user id 0 passes the middleware but is answered 401 by every handler that requires a
      user. */
  lemma HandlersSeeClaimsUser(c: ControllerHelpers.Context, claims: Claims)
    ensures ControllerHelpers.GetUserID(Admit(c, claims)) == claims.userId
    ensures claims.userId == 0 ==> ControllerHelpers.RequireUser(Admit(c, claims)) == ControllerHelpers.Stop(401, "未授权访问")
  {
  }

  /** The gin context as the middleware changes it. */
  class GinContext {
    var values: ControllerHelpers.Context
    var aborted: bool
    var status: int
    var body: map<string, string>

    constructor (values: ControllerHelpers.Context)
      ensures this.values == values && !aborted && status == 200 && body == map[]
    {
      this.values := values;
      aborted := false;
      status := 200;
      body := map[];
    }

    /** The middleware: a rejection writes 401 with an `error` body and aborts; an
        acceptance stores the claims and lets the chain continue. */
    method Authenticate(header: string, parseToken: string -> Option<Claims>)
      modifies this
      ensures Decide(header, parseToken).Reject? ==>
                aborted && status == 401 && body == map["error" := Decide(header, parseToken).error]
                && values == old(values)
      ensures Decide(header, parseToken).Accept? ==>
                values == Admit(old(values), Decide(header, parseToken).claims)
                && aborted == old(aborted) && status == old(status) && body == old(body)
    {
      var d := Decide(header, parseToken);
      match d
      case Reject(e) =>
        status := 401;
        body := map["error" := e];
        aborted := true;
      case Accept(claims) =>
        values := values["user_id" := ControllerHelpers.UintValue(claims.userId)];
        values := values["username" := ControllerHelpers.StringValue(claims.username)];
    }
  }
}
