/** The access guards of middlewares/adminMiddleware.js as verdicts. Token
    verification and the account lookups are outside the model: they are passed
    in as functions (`verify` answers `None` where the library throws, a lookup
    answers `LookupFails` where the store throws). Attaching `req.admin` or
    `req.user` and calling `next` become the verdict `Next(attached)`. */
module Guards {
  import opened Seqs
  import opened Accounts

  /** The claims of a verified token that the guards read. */
  datatype Payload = Payload(userId: Option<UserId>, exp: Option<int>)

  datatype Admin = Admin(id: UserId, role: string)
  datatype Staff = Staff(id: UserId, accessLevel: string)

  datatype Lookup<T> = Found(record: T) | Absent | LookupFails

  /** The three places a token can come from. */
  datatype Request = Request(cookieJwt: Option<string>, bodyToken: Option<string>, authorization: Option<string>)

  /** What a guard does with the request: pass it on with something attached,
      answer it with a status, or let an exception escape the handler. */
  datatype Verdict<T> = Next(attached: T) | Reject(status: int) | Escapes

  /** JavaScript truthiness of an optional string. */
  predicate Truthy(v: Option<string>) {
    v.Some? && v.value != ""
  }

  predicate OccursAt(s: string, pat: string, k: nat) {
    k + |pat| <= |s| && s[k..k + |pat|] == pat
  }

  /** The first position at or after `from` where `pat` occurs in `s`. */
  function IndexFrom(s: string, pat: string, from: nat): (r: Option<nat>)
    decreases |s| - from
    ensures r.Some? ==> from <= r.value && OccursAt(s, pat, r.value)
    ensures r.Some? ==> forall k :: from <= k < r.value ==> !OccursAt(s, pat, k)
    ensures r.None? ==> forall k :: from <= k ==> !OccursAt(s, pat, k)
  {
    if from + |pat| > |s| then None
    else if OccursAt(s, pat, from) then Some(from)
    else IndexFrom(s, pat, from + 1)
  }

  /** `s.replace(pat, rep)` with a string pattern: only the first occurrence is
      replaced, wherever it stands. */
  function ReplaceFirst(s: string, pat: string, rep: string): (r: string)
    ensures (forall k :: !OccursAt(s, pat, k)) ==> r == s
    ensures forall i: nat :: OccursAt(s, pat, i) && (forall k: nat :: k < i ==> !OccursAt(s, pat, k)) ==>
      r == s[..i] + rep + s[i + |pat|..]
  {
    match IndexFrom(s, pat, 0)
    case None => s
    case Some(i) => s[..i] + rep + s[i + |pat|..]
  }

  const Bearer: string := "Bearer "

  /** A header that starts with "Bearer " loses exactly that prefix. */
  lemma StripsLeadingBearer(header: string)
    requires |header| >= |Bearer| && header[..|Bearer|] == Bearer
    ensures ReplaceFirst(header, Bearer, "") == header[|Bearer|..]
  {
    assert OccursAt(header, Bearer, 0);
    assert header[..0] + "" + header[|Bearer|..] == header[|Bearer|..];
  }

  datatype TokenChoice = Token(token: string) | HeaderMissing

  /** `req.cookies.jwt || req.body.token || req.headers.authorization.replace("Bearer ", "")` */
  function ChooseToken(req: Request): (r: TokenChoice)
    ensures r == HeaderMissing <==> !Truthy(req.cookieJwt) && !Truthy(req.bodyToken) && req.authorization.None?
  {
    if Truthy(req.cookieJwt) then Token(req.cookieJwt.value)
    else if Truthy(req.bodyToken) then Token(req.bodyToken.value)
    else if req.authorization.None? then HeaderMissing
    else Token(ReplaceFirst(req.authorization.value, Bearer, ""))
  }

  /** The same with `authorization?.replace(...)`, as checkTokenExpiration
      writes it: a missing header gives no token instead of throwing. */
  function ChooseTokenOrNone(req: Request): Option<string> {
    match ChooseToken(req)
    case HeaderMissing => None
    case Token(t) => Some(t)
  }

  /** Precedence: a truthy cookie wins; then a truthy body token; then the
      header. A token from the cookie or the body is never empty. */
  lemma TokenPrecedence(req: Request)
    ensures Truthy(req.cookieJwt) ==> ChooseToken(req) == Token(req.cookieJwt.value)
    ensures !Truthy(req.cookieJwt) && Truthy(req.bodyToken) ==> ChooseToken(req) == Token(req.bodyToken.value)
    ensures !Truthy(req.cookieJwt) && !Truthy(req.bodyToken) && req.authorization.Some? ==>
      ChooseToken(req) == Token(ReplaceFirst(req.authorization.value, Bearer, ""))
    ensures ChooseToken(req).Token? && ChooseToken(req).token == "" ==>
      !Truthy(req.cookieJwt) && !Truthy(req.bodyToken) && req.authorization.Some?
  {
  }

  /** requireAdmin. The token is chosen before the `try`, so a request with no
      truthy cookie or body token and no header lets the exception escape. */
  function RequireAdmin(req: Request, verify: string -> Option<Payload>,
                        findAdmin: Option<UserId> -> Lookup<Admin>): (v: Verdict<Admin>)
    ensures v == Escapes <==> ChooseToken(req) == HeaderMissing
    ensures v.Next? ==>
      && ChooseToken(req).Token?
      && verify(ChooseToken(req).token).Some?
      && findAdmin(verify(ChooseToken(req).token).value.userId) == Found(v.attached)
    ensures v.Next? <==>
      && ChooseToken(req).Token? && ChooseToken(req).token != ""
      && verify(ChooseToken(req).token).Some?
      && findAdmin(verify(ChooseToken(req).token).value.userId).Found?
      && findAdmin(verify(ChooseToken(req).token).value.userId).record.role == "admin"
    ensures v == Reject(403) <==>
      && ChooseToken(req).Token? && ChooseToken(req).token != ""
      && verify(ChooseToken(req).token).Some?
      && match findAdmin(verify(ChooseToken(req).token).value.userId)
         case Absent => true
         case Found(admin) => admin.role != "admin"
         case LookupFails => false
    ensures v == Reject(401) <==>
      && ChooseToken(req).Token?
      && (|| ChooseToken(req).token == ""
          || verify(ChooseToken(req).token).None?
          || findAdmin(verify(ChooseToken(req).token).value.userId).LookupFails?)
    ensures v.Reject? ==> v.status == 401 || v.status == 403
  {
    match ChooseToken(req)
    case HeaderMissing => Escapes
    case Token(token) =>
      if token == "" then Reject(401)
      else match verify(token)
        case None => Reject(401)
        case Some(decoded) =>
          match findAdmin(decoded.userId)
          case LookupFails => Reject(401)
          case Absent => Reject(403)
          case Found(admin) => if admin.role != "admin" then Reject(403) else Next(admin)
  }

  /** requireAuth: the decoded payload is attached on success; every failure,
      a missing header included (it throws inside the `try`), answers 401. */
  function RequireAuth(req: Request, verify: string -> Option<Payload>): (v: Verdict<Payload>)
    ensures v != Escapes
    ensures v.Reject? ==> v.status == 401
    ensures v.Next? <==>
      ChooseToken(req).Token? && ChooseToken(req).token != "" && verify(ChooseToken(req).token).Some?
    ensures v.Next? ==> Some(v.attached) == verify(ChooseToken(req).token)
  {
    match ChooseToken(req)
    case HeaderMissing => Reject(401)
    case Token(token) =>
      if token == "" then Reject(401)
      else match verify(token)
        case None => Reject(401)
        case Some(decoded) => Next(decoded)
  }

  predicate IsStaffLevel(level: string) {
    level == "chef" || level == "waiter" || level == "accountant"
  }

  /** requireStaff: only a chef, waiter or accountant passes. There is no
      empty-token check; the token goes straight to verification. */
  function RequireStaff(req: Request, verify: string -> Option<Payload>,
                        findStaff: Option<UserId> -> Lookup<Staff>): (v: Verdict<Staff>)
    ensures v != Escapes
    ensures v.Next? ==>
      && ChooseToken(req).Token?
      && verify(ChooseToken(req).token).Some?
      && findStaff(verify(ChooseToken(req).token).value.userId) == Found(v.attached)
    ensures v.Next? <==>
      && ChooseToken(req).Token?
      && verify(ChooseToken(req).token).Some?
      && findStaff(verify(ChooseToken(req).token).value.userId).Found?
      && IsStaffLevel(findStaff(verify(ChooseToken(req).token).value.userId).record.accessLevel)
    ensures v == Reject(403) <==>
      && ChooseToken(req).Token?
      && verify(ChooseToken(req).token).Some?
      && match findStaff(verify(ChooseToken(req).token).value.userId)
         case Absent => true
         case Found(staff) => !IsStaffLevel(staff.accessLevel)
         case LookupFails => false
    ensures v == Reject(401) <==>
      || ChooseToken(req) == HeaderMissing
      || verify(ChooseToken(req).token).None?
      || findStaff(verify(ChooseToken(req).token).value.userId).LookupFails?
    ensures v.Reject? ==> v.status == 401 || v.status == 403
  {
    match ChooseToken(req)
    case HeaderMissing => Reject(401)
    case Token(token) =>
      match verify(token)
      case None => Reject(401)
      case Some(decoded) =>
        match findStaff(decoded.userId)
        case LookupFails => Reject(401)
        case Absent => Reject(403)
        case Found(staff) => if !IsStaffLevel(staff.accessLevel) then Reject(403) else Next(staff)
  }

  /** `decodedToken.exp < Date.now() / 1000`, with the clock reading passed in;
      a payload without `exp` compares false (`undefined < n`). */
  predicate ExpiredAt(p: Payload, nowMs: int) {
    p.exp.Some? && (p.exp.value as real) < (nowMs as real) / 1000.0
  }

  /** The comparison in seconds is the integer comparison in milliseconds. */
  lemma ExpiredAtInMilliseconds(p: Payload, nowMs: int)
    requires p.exp.Some?
    ensures ExpiredAt(p, nowMs) <==> p.exp.value * 1000 < nowMs
  {
    var e := p.exp.value as real;
    var n := nowMs as real;
    assert e < n / 1000.0 <==> e * 1000.0 < n;
    assert (p.exp.value * 1000) as real == e * 1000.0;
  }

  datatype ExpiryAnswer = ExpiryAnswer(status: int, expired: bool)

  /** checkTokenExpiration: reports expired when there is no token, when it
      fails verification, or when its expiry lies before now. */
  function CheckTokenExpiration(req: Request, verify: string -> Option<Payload>, nowMs: int): (a: ExpiryAnswer)
    ensures a.status == (if a.expired then 401 else 200)
    ensures !a.expired <==>
      && ChooseTokenOrNone(req).Some? && ChooseTokenOrNone(req).value != ""
      && verify(ChooseTokenOrNone(req).value).Some?
      && !ExpiredAt(verify(ChooseTokenOrNone(req).value).value, nowMs)
  {
    match ChooseTokenOrNone(req)
    case None => ExpiryAnswer(401, true)
    case Some(token) =>
      if token == "" then ExpiryAnswer(401, true)
      else match verify(token)
        case None => ExpiryAnswer(401, true)
        case Some(decoded) =>
          if ExpiredAt(decoded, nowMs) then ExpiryAnswer(401, true) else ExpiryAnswer(200, false)
  }

  /** With no token anywhere, the guards part ways: requireAdmin lets the
      exception escape, requireAuth and requireStaff answer 401. */
  lemma NoTokenAnywhere(verify: string -> Option<Payload>,
                        findAdmin: Option<UserId> -> Lookup<Admin>,
                        findStaff: Option<UserId> -> Lookup<Staff>, nowMs: int)
    ensures RequireAdmin(Request(None, None, None), verify, findAdmin) == Escapes
    ensures RequireAuth(Request(None, None, None), verify) == Reject(401)
    ensures RequireStaff(Request(None, None, None), verify, findStaff) == Reject(401)
    ensures CheckTokenExpiration(Request(None, None, None), verify, nowMs) == ExpiryAnswer(401, true)
  {
  }
}
