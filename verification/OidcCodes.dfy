/**
 Authorization codes of the OpenID Connect provider: the authorization endpoint stores a code with
 everything it stands for, and the token endpoint deletes it in one statement before checking the
 request against it. Requests interleave between these two points.
 */
module OidcCodes {
  import opened Common

  const CODE_LIFETIME := 10 * 60

  datatype Client = Client(secretHash: string, redirectURIs: seq<string>, scopes: seq<string>)

  datatype AuthCode = AuthCode(
    code: string, clientId: string, userId: string, scopes: seq<string>, nonce: string, redirectURI: string,
    challenge: string, challengeMethod: string, expiresAt: int, createdAt: int)

  datatype AuthorizeRequest = AuthorizeRequest(
    clientId: string, redirectURI: string, responseType: string, scope: string, nonce: string,
    challenge: string, challengeMethod: string)

  datatype AuthorizeResult =
    | Unauthenticated | UnknownClient | BadRedirect | UnsupportedResponseType | BadChallengeMethod
    | ServerError | MalformedRedirect | Issued(code: string)

  datatype TokenRequest = TokenRequest(clientId: string, redirectURI: string, verifier: string, clientSecret: string)

  datatype TokenResult =
    | Expired | ClientMissing | ClientMismatch | RedirectMismatch | InvalidClient | PkceFailed | NoUser
    | Granted(response: Response)

  /** The claims of the tokens that are handed out. */
  datatype Response = Response(code: string, clientId: string, subject: string, scope: string, nonce: string)

  /** SHA-256 with base64url, and the check of a client secret against its hash. */
  datatype Crypto = Crypto(s256: string -> string, secretOk: (string, string) -> bool)

  // ---- Scopes ------------------------------------------------------------------

  /** strings.Split(s, " ") */
  function Split(s: string): (parts: seq<string>)
    ensures parts != []
  {
    if s == "" then [""]
    else
      var rest := Split(s[1..]);
      if s[0] == ' ' then [""] + rest else [[s[0]] + rest[0]] + rest[1..]
  }

  /** strings.Join(parts, " ") */
  function Join(parts: seq<string>): string {
    if parts == [] then ""
    else if |parts| == 1 then parts[0]
    else parts[0] + " " + Join(parts[1..])
  }

  /** The token response names the requested scopes letter by letter. */
  lemma {:induction false} JoinSplit(s: string)
    ensures Join(Split(s)) == s
  {
    if s != "" {
      JoinSplit(s[1..]);
      var rest := Split(s[1..]);
      if s[0] == ' ' {
        assert Split(s)[1..] == rest;
      } else {
        assert Split(s)[1..] == rest[1..];
      }
    }
  }

  lemma {:induction false} SplitWord(w: string, rest: string)
    requires ' ' !in w
    ensures Split(w) == [w] && Split(w + " " + rest) == [w] + Split(rest)
  {
    var s := w + " " + rest;
    if w == "" {
      assert s[0] == ' ' && s[1..] == rest;
    } else {
      assert s[0] == w[0] && w[0] in w && s[1..] == w[1..] + " " + rest;
      SplitWord(w[1..], rest);
      assert [w[0]] + w[1..] == w;
    }
  }

  /** Splitting takes a joined list of words apart again, so it cuts at every space and nowhere else. */
  lemma {:induction false} SplitJoin(parts: seq<string>)
    requires parts != [] && forall w <- parts :: ' ' !in w
    ensures Split(Join(parts)) == parts
  {
    if |parts| == 1 {
      SplitWord(parts[0], "");
    } else {
      SplitWord(parts[0], Join(parts[1..]));
      SplitJoin(parts[1..]);
    }
  }

  lemma {:induction false} SplitWords(s: string)
    ensures forall w <- Split(s) :: ' ' !in w
  {
    if s != "" {
      SplitWords(s[1..]);
      assert Split(s[1..])[0] in Split(s[1..]);
    }
  }

  // ---- PKCE --------------------------------------------------------------------

  function VerifyPKCE(c: Crypto, challenge: string, challengeMethod: string, verifier: string): bool {
    if challengeMethod == "" || challengeMethod == "S256" then c.s256(verifier) == challenge else false
  }

  /** What a token request has to show for a code. */
  predicate Entitled(c: Crypto, ac: AuthCode, req: TokenRequest, client: Option<Client>, userFound: bool, at: int) {
    && at <= ac.expiresAt
    && req.clientId != "" && req.clientId == ac.clientId && req.redirectURI == ac.redirectURI
    && client.Some?
    && (client.value.secretHash != "" ==>
          req.clientSecret != "" && c.secretOk(client.value.secretHash, req.clientSecret))
    && (ac.challenge != "" ==> req.verifier != "" && c.s256(req.verifier) == ac.challenge)
    && userFound
  }

  /** Nothing more and nothing less is asked for. */
  lemma {:induction false} EntitledExactly(c: Crypto, ac: AuthCode, req: TokenRequest, client: Client, at: int)
    ensures !Entitled(c, ac, req, None, true, at) && !Entitled(c, ac, req, Some(client), false, at)
    ensures Entitled(c, ac, req, Some(client), true, at) ==>
              && at <= ac.expiresAt && req.clientId == ac.clientId && req.redirectURI == ac.redirectURI
              && (client.secretHash != "" ==> c.secretOk(client.secretHash, req.clientSecret))
              && (ac.challenge != "" ==> c.s256(req.verifier) == ac.challenge)
    ensures at <= ac.expiresAt && req.clientId == ac.clientId != "" && req.redirectURI == ac.redirectURI &&
            (client.secretHash == "" || (req.clientSecret != "" && c.secretOk(client.secretHash, req.clientSecret))) &&
            (ac.challenge == "" || (req.verifier != "" && c.s256(req.verifier) == ac.challenge)) ==>
              Entitled(c, ac, req, Some(client), true, at)
  {
  }

  // ---- The provider ------------------------------------------------------------

  /** An authorization: the request, the user who made it and the scopes registered for the client. */
  datatype Authorization = Authorization(request: AuthorizeRequest, user: string, registered: seq<string>)

  /** The scope that was asked for, or the client's own scopes if none was. */
  function RequestedScope(a: Authorization): string {
    if a.request.scope == "" then Join(a.registered) else a.request.scope
  }

  /** Only checked requests get a code. */
  predicate Authorizable(req: AuthorizeRequest, user: Option<string>, client: Option<Client>) {
    && user.Some? && client.Some? && req.redirectURI in client.value.redirectURIs
    && req.responseType == "code" && req.challengeMethod in {"", "S256"}
  }

  /** The code that stands for an authorization. */
  function CodeFor(a: Authorization, code: string, at: int): AuthCode {
    var scopes := if a.request.scope == "" then a.registered else Split(a.request.scope);
    AuthCode(code, a.request.clientId, a.user, scopes, a.request.nonce, a.request.redirectURI,
             a.request.challenge, a.request.challengeMethod, at + CODE_LIFETIME, at)
  }

  predicate WellIssued(ac: AuthCode, code: string, a: Authorization) {
    ac == CodeFor(a, code, ac.createdAt) && a.request.challengeMethod in {"", "S256"}
  }

  /** A grant, with the request that obtained it. */
  datatype Grant = Grant(response: Response, request: TokenRequest, at: int)

  /** The response carries what the user authorized, in time and with proof of possession. */
  predicate Bound(c: Crypto, g: Grant, code: string, a: Authorization, issuedAt: int) {
    && g.response == Response(code, a.request.clientId, a.user, RequestedScope(a), a.request.nonce)
    && g.request.clientId == a.request.clientId && g.request.redirectURI == a.request.redirectURI
    && g.at <= issuedAt + 600
    && (a.request.challenge != "" ==> c.s256(g.request.verifier) == a.request.challenge)
  }

  /** What a token request reads back from the code is what was asked for. */
  lemma {:induction false} ScopeKept(a: Authorization, code: string, at: int)
    ensures Join(CodeFor(a, code, at).scopes) == RequestedScope(a)
  {
    JoinSplit(a.request.scope);
  }

  class Provider {
    const crypto: Crypto
    var codes: map<string, AuthCode>             // the oidc_auth_codes table
    ghost var issued: map<string, AuthCode>      // every code ever stored
    ghost var asked: map<string, Authorization>  // what each of them was issued for
    ghost var held: set<string>                  // codes consumed by token requests that are not answered yet
    ghost var grants: map<string, Grant>         // the grant each code was exchanged for

    /** A code is in the table, or with one request, or was exchanged once, or is gone. */
    ghost predicate Valid()
      reads this
    {
      && (forall c <- issued :: c in asked && WellIssued(issued[c], c, asked[c]))
      && (forall c <- codes :: c in issued && codes[c] == issued[c] && c !in held && c !in grants)
      && (forall c <- held :: c in issued && c !in grants)
      && (forall c <- grants :: c in issued && Bound(crypto, grants[c], c, asked[c], issued[c].createdAt))
    }

    constructor (crypto: Crypto)
      ensures Valid() && this.crypto == crypto && codes == map[]
      ensures issued == map[] && asked == map[] && held == {} && grants == map[]
    {
      this.crypto := crypto;
      codes, issued, asked, held, grants := map[], map[], map[], {}, map[];
    }

    /** CreateAuthCode: the code is new. */
    method CreateAuthCode(code: string, ghost a: Authorization, ac: AuthCode)
      requires Valid() && code !in issued && WellIssued(ac, code, a)
      modifies this`codes, this`issued, this`asked
      ensures Valid()
      ensures issued == old(issued)[code := ac] && asked == old(asked)[code := a] && codes == old(codes)[code := ac]
    {
      codes := codes[code := ac];
      issued := issued[code := ac];
      asked := asked[code := a];
    }

    /**
     Stores a code, never used before, for an authenticated user and a registered redirect URI.
     Drawing the code and storing it can fail.
     */
    method Authorize(req: AuthorizeRequest, user: Option<string>, client: Option<Client>, drawn: Option<string>,
                     stored: bool, urlParses: bool, at: int)
      returns (result: AuthorizeResult)
      requires Valid() && (drawn.Some? ==> drawn.value !in issued)
      modifies this`codes, this`issued, this`asked
      ensures Valid()
      ensures result.Issued? || result.MalformedRedirect? || result.ServerError? <==> Authorizable(req, user, client)
      ensures Authorizable(req, user, client) && drawn.Some? && stored ==>
                result == if urlParses then Issued(drawn.value) else MalformedRedirect
      ensures Authorizable(req, user, client) && (drawn.None? || !stored) ==> result == ServerError
      ensures result == Unauthenticated <==> user.None?
      ensures result == UnknownClient <==> user.Some? && client.None?
      ensures result == BadRedirect <==>
              user.Some? && client.Some? && req.redirectURI !in client.value.redirectURIs
      ensures result == UnsupportedResponseType <==>
              && user.Some? && client.Some? && req.redirectURI in client.value.redirectURIs
              && req.responseType != "code"
      ensures result == BadChallengeMethod <==>
              && user.Some? && client.Some? && req.redirectURI in client.value.redirectURIs
              && req.responseType == "code" && req.challengeMethod != "" && req.challengeMethod != "S256"
      ensures if Authorizable(req, user, client) && drawn.Some? && stored then
                var a := Authorization(req, user.value, client.value.scopes);
                var ac := CodeFor(a, drawn.value, at);
                && !result.ServerError? && issued == old(issued)[drawn.value := ac]
                && asked == old(asked)[drawn.value := a] && codes == old(codes)[drawn.value := ac]
              else issued == old(issued) && asked == old(asked) && codes == old(codes)
    {
      if user.None? {
        return Unauthenticated;
      }
      if client.None? {
        return UnknownClient;
      }
      if req.redirectURI !in client.value.redirectURIs {
        return BadRedirect;
      }
      if req.responseType != "code" {
        return UnsupportedResponseType;
      }
      if req.challengeMethod != "" && req.challengeMethod != "S256" {
        return BadChallengeMethod;
      }
      var scopes := client.value.scopes;
      if req.scope != "" {
        scopes := Split(req.scope);
      }
      if drawn.None? || !stored {
        return ServerError;
      }
      var code := drawn.value;
      var ac := AuthCode(code, req.clientId, user.value, scopes, req.nonce, req.redirectURI,
                         req.challenge, req.challengeMethod, at + CODE_LIFETIME, at);
      CreateAuthCode(code, Authorization(req, user.value, client.value.scopes), ac);
      if !urlParses {
        return MalformedRedirect;
      }
      return Issued(code);
    }

    /** DELETE ... RETURNING: of all requests with this code, one gets the row. */
    method ConsumeAuthCode(code: string) returns (ac: Option<AuthCode>)
      requires Valid()
      modifies this`codes, this`held
      ensures Valid()
      ensures ac == if code in old(codes) then Some(issued[code]) else None
      ensures codes == old(codes) - {code}
      ensures held == if ac.Some? then old(held) + {code} else old(held)
      ensures ac.Some? ==> code !in old(held) && code !in grants
    {
      if code !in codes {
        return None;
      }
      ac := Some(codes[code]);
      codes := codes - {code};
      held := held + {code};
    }

    /** The rest of the token request that holds the code: a grant iff the request is entitled to it. */
    method FinishToken(ac: AuthCode, req: TokenRequest, client: Option<Client>, userFound: bool, at: int)
      returns (result: TokenResult)
      requires Valid() && ac.code in held && issued[ac.code] == ac
      modifies this`held, this`grants
      ensures Valid() && held == old(held) - {ac.code} && ac.code !in old(grants)
      ensures result.Granted? <==> Entitled(crypto, ac, req, client, userFound, at)
      ensures result == Expired <==> ac.createdAt + 600 < at
      ensures result == ClientMissing ==> req.clientId == ""
      ensures result == ClientMismatch ==> req.clientId != ac.clientId
      ensures result == RedirectMismatch ==> req.clientId == ac.clientId && req.redirectURI != ac.redirectURI
      ensures result == InvalidClient ==>
              || client.None?
              || (client.value.secretHash != "" &&
                  (req.clientSecret == "" || !crypto.secretOk(client.value.secretHash, req.clientSecret)))
      ensures result == PkceFailed ==>
              ac.challenge != "" && (req.verifier == "" || crypto.s256(req.verifier) != ac.challenge)
      ensures result == NoUser ==> !userFound && Entitled(crypto, ac, req, client, true, at)
      ensures grants == if result.Granted? then old(grants)[ac.code := Grant(result.response, req, at)]
                        else old(grants)
      ensures result.Granted? ==>
                Bound(crypto, Grant(result.response, req, at), ac.code, asked[ac.code], ac.createdAt)
    {
      held := held - {ac.code};
      if at > ac.expiresAt {
        return Expired;
      }
      if req.clientId == "" {
        return ClientMissing;
      }
      if req.clientId != ac.clientId {
        return ClientMismatch;
      }
      if req.redirectURI != ac.redirectURI {
        return RedirectMismatch;
      }
      if client.None? {
        return InvalidClient;
      }
      if client.value.secretHash != "" {
        if req.clientSecret == "" || !crypto.secretOk(client.value.secretHash, req.clientSecret) {
          return InvalidClient;
        }
      }
      if ac.challenge != "" {
        if req.verifier == "" || !VerifyPKCE(crypto, ac.challenge, ac.challengeMethod, req.verifier) {
          return PkceFailed;
        }
      }
      if !userFound {
        return NoUser;
      }
      var response := Response(ac.code, ac.clientId, ac.userId, Join(ac.scopes), ac.nonce);
      ScopeKept(asked[ac.code], ac.code, ac.createdAt);
      grants := grants[ac.code := Grant(response, req, at)];
      return Granted(response);
    }
  }
}
