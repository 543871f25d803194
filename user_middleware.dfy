/**
 * The backend's `validateUser` middleware: it checks the `Authorization`
 * header's shape, extracts the token, hands it to the token verifier and
 * either passes the request on with the decoded claims attached or answers
 * with a status and an error message. The verifier (`jwt.verify` with the
 * server's secret) is a parameter.
 */
module UserMiddleware {
  import opened Wrappers
  import opened JsString

  /** What the verifier decodes: the claims, of which `userId` is copied onto the request. */
  datatype Claims = Claims(userId: Option<string>, other: map<string, string>)

  /** The verifier either decodes the token or throws an error with a `name`. */
  datatype Verified = Decoded(claims: Claims) | Thrown(name: string)

  /** What the middleware does with the request: call `next` with `req.user`
      and `req.userId` set, or answer with a status and `{ error }`. */
  datatype Response =
    | Next(user: Claims, userId: Option<string>)
    | Answer(status: int, error: string)

  const FormatError := "Invalid token format. Expected 'Bearer <token>'."
  const NoTokenError := "Access denied. No token provided."

  /** The header passes the shape check: present, non-empty and starting with
      `"Bearer "` or `"Bearer: "`. */
  predicate WellFormed(header: Option<string>) {
    header.Some? && header.value != ""
    && (StartsWith(header.value, "Bearer ") || StartsWith(header.value, "Bearer: "))
  }

  /** The token: the first `"Bearer"` removed, then the first `":"`, then trimmed. */
  function TokenOf(header: string): string {
    Trim(ReplaceFirst(ReplaceFirst(header, "Bearer"), ":"))
  }

  /** The error name the handler maps to a status and a message. */
  function Failure(name: string): (r: Response)
    ensures r.Answer? && r.status in {400, 401, 500}
    ensures r.status == 400 <==> name == "JsonWebTokenError"
    ensures r.status == 401 <==> name == "TokenExpiredError"
  {
    if name == "JsonWebTokenError" then Answer(400, "Invalid token.")
    else if name == "TokenExpiredError" then Answer(401, "Token has expired.")
    else Answer(500, "Internal server error.")
  }

  /** `validateUser(req, res, next)` */
  function ValidateUser(header: Option<string>, verify: string -> Verified): Response {
    if !WellFormed(header) then Answer(401, FormatError)
    else
      var token := TokenOf(header.value);
      if token == "" then Answer(401, NoTokenError)
      else
        match verify(token)
        case Decoded(claims) => Next(claims, claims.userId)
        case Thrown(name) => Failure(name)
  }

  // ---------------------------------------------------------------------------
  // Properties

  /** The request goes on exactly when the header is well formed, yields a
      token, and the verifier decodes that token; the request then carries the
      decoded claims and their `userId`. Every other path answers and never
      calls `next`. */
  lemma NextIffVerified(header: Option<string>, verify: string -> Verified)
    ensures var r := ValidateUser(header, verify);
      && (r.Next? <==> WellFormed(header) && TokenOf(header.value) != "" && verify(TokenOf(header.value)).Decoded?)
      && (r.Next? ==> r.user == verify(TokenOf(header.value)).claims && r.userId == r.user.userId)
  {
    var r := ValidateUser(header, verify);
    if WellFormed(header) && TokenOf(header.value) != "" {
      var v := verify(TokenOf(header.value));
      if v.Thrown? {
        assert r == Failure(v.name);
      }
    }
  }

  /** A missing header, or one with neither prefix, is refused with 401 before
      the verifier is consulted: the answer does not depend on it. */
  lemma BadFormatRefused(header: Option<string>, verify1: string -> Verified, verify2: string -> Verified)
    requires header.None? || (!StartsWith(header.value, "Bearer ") && !StartsWith(header.value, "Bearer: "))
    ensures ValidateUser(header, verify1) == Answer(401, FormatError)
    ensures ValidateUser(header, verify1) == ValidateUser(header, verify2)
  {
  }

  /** When the verifier throws, the answer is the one `Failure` maps its error name to. */
  lemma FailureAnswered(header: Option<string>, verify: string -> Verified)
    requires WellFormed(header) && TokenOf(header.value) != ""
    requires verify(TokenOf(header.value)).Thrown?
    ensures ValidateUser(header, verify) == Failure(verify(TokenOf(header.value)).name)
  {
  }

  /** Removing `"Bearer"` from a header that passed the shape check removes its prefix. */
  lemma BearerRemoved(header: string)
    requires StartsWith(header, "Bearer ") || StartsWith(header, "Bearer: ")
    ensures ReplaceFirst(header, "Bearer") == header[6..]
  {
    assert header[..6] == "Bearer";
    ReplaceFirstPrefix(header, "Bearer");
  }

  /** A string with no `':'` loses nothing to the colon removal. */
  lemma NoColonKept(s: string)
    requires ':' !in s
    ensures ReplaceFirst(s, ":") == s
  {
    MissingChar(s, ":", 0);
  }

  /** The token of a header is the trim of what follows `"Bearer"`, once the
      first colon there is removed. */
  lemma TokenAfterPrefix(header: string)
    requires StartsWith(header, "Bearer ") || StartsWith(header, "Bearer: ")
    ensures TokenOf(header) == Trim(ReplaceFirst(header[6..], ":"))
  {
    BearerRemoved(header);
  }

  /** `"Bearer <token>"` gives back a token that holds no `':'` and has no
      blank at either end. */
  lemma TokenRoundTrip(token: string)
    requires token != [] && !IsSpace(token[0]) && !IsSpace(token[|token| - 1]) && ':' !in token
    ensures TokenOf("Bearer " + token) == token
  {
    var header := "Bearer " + token;
    assert header[..7] == "Bearer ";
    var rest := header[6..];
    assert rest == [' '] + token;
    TokenAfterPrefix(header);
    NoColonKept(rest);
    TrimLeadingBlank(' ', token);
    TrimNoop(token);
  }

  /** So does `"Bearer: <token>"`. */
  lemma ColonTokenRoundTrip(token: string)
    requires token != [] && !IsSpace(token[0]) && !IsSpace(token[|token| - 1]) && ':' !in token
    ensures TokenOf("Bearer: " + token) == token
  {
    var header := "Bearer: " + token;
    assert header[..8] == "Bearer: ";
    var rest := header[6..];
    assert rest == ":" + ([' '] + token);
    TokenAfterPrefix(header);
    ReplaceFirstPrefix(rest, ":");
    assert rest[1..] == [' '] + token;
    TrimLeadingBlank(' ', token);
    TrimNoop(token);
  }

  /** The colon removal is not tied to the prefix: in `"Bearer a:b"` it is the
      token's own first colon that goes. */
  lemma ColonInTokenDropped(a: string, b: string)
    requires a != [] && !IsSpace(a[0]) && ':' !in a
    requires b != [] && !IsSpace(b[|b| - 1])
    ensures TokenOf("Bearer " + a + ":" + b) == a + b
  {
    var header := "Bearer " + a + ":" + b;
    assert header[..7] == "Bearer ";
    assert header[6..] == [' '] + a + ":" + b;
    ColonDropped(a, b);
    TokenAfterPrefix(header);
  }

  lemma ColonDropped(a: string, b: string)
    requires a != [] && !IsSpace(a[0]) && ':' !in a
    requires b != [] && !IsSpace(b[|b| - 1])
    ensures Trim(ReplaceFirst([' '] + a + ":" + b, ":")) == a + b
  {
    ColonRemoved(a, b);
    BlankThenTrimmed(a, b);
  }

  lemma ColonRemoved(a: string, b: string)
    requires ':' !in a
    ensures ReplaceFirst([' '] + a + ":" + b, ":") == [' '] + (a + b)
  {
    var rest := [' '] + a + ":" + b;
    FirstColon(rest, 1 + |a|);
    assert rest[..1 + |a|] + rest[2 + |a|..] == [' '] + (a + b);
  }

  lemma BlankThenTrimmed(a: string, b: string)
    requires a != [] && !IsSpace(a[0])
    requires b != [] && !IsSpace(b[|b| - 1])
    ensures Trim([' '] + (a + b)) == a + b
  {
    var ab := a + b;
    assert ab[0] == a[0] && ab[|ab| - 1] == b[|b| - 1];
    TrimNoop(ab);
    TrimLeadingBlank(' ', ab);
  }

  /** The first `':'` of a string is the one removed. */
  lemma FirstColon(s: string, i: nat)
    requires i < |s| && s[i] == ':' && ':' !in s[..i]
    ensures ReplaceFirst(s, ":") == s[..i] + s[i + 1..]
  {
    assert OccursAt(s, ":", i);
    forall j: nat | j < i
      ensures !OccursAt(s, ":", j)
    {
      assert s[..i][j] == s[j];
    }
    FirstOccurrence(s, ":", i);
  }

  /** `"Bearer "` alone passes the shape check but yields no token. */
  lemma BareBearerNoToken(verify: string -> Verified)
    ensures ValidateUser(Some("Bearer "), verify) == Answer(401, NoTokenError)
  {
    var header := "Bearer ";
    assert header[..7] == "Bearer ";
    TokenAfterPrefix(header);
    assert header[6..] == " ";
    NoColonKept(" ");
    TrimLeadingBlank(' ', "");
  }
}
