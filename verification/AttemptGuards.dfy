/** The attempt guards: which rule each identity meets, and what a run of checks guarantees per identity. */
module AttemptGuards {
  import opened Wrappers
  import opened HybridLimit
  import opened LimiterGoverning
  import opened RedisLimiter

  const MINUTE := 60_000
  const HOUR := 3_600_000

  const SIGN_UP_PER_IP: ValidRule := Rule(5, HOUR, 10, HOUR)
  const SIGN_UP_PER_EMAIL: ValidRule := Rule(2, HOUR, 3, HOUR)
  const SIGN_IN_PER_IP: ValidRule := Rule(10, 5 * MINUTE, 30, 15 * MINUTE)
  const SIGN_IN_PER_EMAIL: ValidRule := Rule(5, 15 * MINUTE, 10, 15 * MINUTE)
  const PASSWORD_CHANGE_PER_IP: ValidRule := Rule(5, 15 * MINUTE, 10, 15 * MINUTE)
  const PASSWORD_CHANGE_PER_ACCOUNT: ValidRule := Rule(3, 30 * MINUTE, 5, 30 * MINUTE)
  const VERIFICATION_REQUEST_PER_IP: ValidRule := Rule(10, 15 * MINUTE, 20, 15 * MINUTE)
  const VERIFICATION_REQUEST_PER_EMAIL: ValidRule := Rule(3, 15 * MINUTE, 5, 15 * MINUTE)
  const CODE_CHECK_PER_IP: ValidRule := Rule(15, 10 * MINUTE, 30, 10 * MINUTE)
  const CODE_CHECK_PER_EMAIL: ValidRule := Rule(5, 10 * MINUTE, 10, 10 * MINUTE)
  const RESET_REQUEST_PER_IP: ValidRule := Rule(5, 15 * MINUTE, 10, 15 * MINUTE)
  const RESET_PER_EMAIL: ValidRule := Rule(3, 30 * MINUTE, 5, 30 * MINUTE)
  const RESET_COMPLETE_PER_IP: ValidRule := Rule(10, 15 * MINUTE, 20, 15 * MINUTE)
  const HTTP_READ_PER_IP: ValidRule := Rule(60, MINUTE, 300, 5 * MINUTE)
  const HTTP_WRITE_PER_IP: ValidRule := Rule(20, MINUTE, 100, 5 * MINUTE)

  const DECLARED: set<Rule> := {
    SIGN_UP_PER_IP, SIGN_UP_PER_EMAIL, SIGN_IN_PER_IP, SIGN_IN_PER_EMAIL, PASSWORD_CHANGE_PER_IP,
    PASSWORD_CHANGE_PER_ACCOUNT, VERIFICATION_REQUEST_PER_IP, VERIFICATION_REQUEST_PER_EMAIL, CODE_CHECK_PER_IP,
    CODE_CHECK_PER_EMAIL, RESET_REQUEST_PER_IP, RESET_PER_EMAIL, RESET_COMPLETE_PER_IP, HTTP_READ_PER_IP, HTTP_WRITE_PER_IP
  }

  /** Of the declared rules, the window can deny what the bucket allows only for sign-in per address and the HTTP limits. */
  lemma GoverningDeclaredRules(r: ValidRule)
    requires r in DECLARED
    ensures WindowNeverDecides(r) <==> r !in {SIGN_IN_PER_IP, HTTP_READ_PER_IP, HTTP_WRITE_PER_IP}
  {
    GoverningLimit(r);
  }

  // ----- charges -----

  /** One call of the limiter that a check makes. */
  datatype Charge = Charge(operation: string, dimension: string, identity: string, rule: ValidRule)

  // The operation names belong to the authentication library; only their being distinct and trimmed matters here.
  const REGISTER := "register"
  const LOGIN := "login"
  const VERIFY := "verify"
  const REQUEST := "request"

  const PASSWORD_PREFIX := "authentication.password."
  const VERIFICATION_PREFIX := "authentication.email_verification."
  const RESET_PREFIX := "authentication.password_reset."
  const HTTP_PREFIX := "authentication.http."

  datatype Guard = Password | Verification | Reset

  /** What a guard is asked about.  Only password attempts carry a subject. */
  datatype Attempt = Attempt(guard: Guard, operation: string, source: string, email: string, subject: string)

  function ClientIP(source: string): string {
    var trimmed := TrimSpace(source);
    if trimmed == "" then "unknown" else trimmed
  }

  function Prefix(guard: Guard): string {
    match guard
    case Password => PASSWORD_PREFIX
    case Verification => VERIFICATION_PREFIX
    case Reset => RESET_PREFIX
  }

  function IPLimit(guard: Guard, operation: string): ValidRule {
    match guard
    case Password =>
      if operation == REGISTER then SIGN_UP_PER_IP
      else if operation == LOGIN then SIGN_IN_PER_IP
      else PASSWORD_CHANGE_PER_IP
    case Verification => if operation == VERIFY then CODE_CHECK_PER_IP else VERIFICATION_REQUEST_PER_IP
    case Reset => if operation == REQUEST then RESET_REQUEST_PER_IP else RESET_COMPLETE_PER_IP
  }

  function EmailLimit(guard: Guard, operation: string): ValidRule {
    match guard
    case Password => if operation == REGISTER then SIGN_UP_PER_EMAIL else SIGN_IN_PER_EMAIL
    case Verification => if operation == VERIFY then CODE_CHECK_PER_EMAIL else VERIFICATION_REQUEST_PER_EMAIL
    case Reset => RESET_PER_EMAIL
  }

  function IPCharge(a: Attempt): Charge {
    Charge(Prefix(a.guard) + a.operation, "ip", ClientIP(a.source), IPLimit(a.guard, a.operation))
  }

  /** The charge for the email, or for the account when a password attempt names no email. */
  function IdentityCharge(a: Attempt): Option<Charge> {
    var email, account := TrimSpace(a.email), TrimSpace(a.subject);
    if email != "" then
      Some(Charge(Prefix(a.guard) + a.operation, "email", email, EmailLimit(a.guard, a.operation)))
    else if a.guard.Password? && account != "" then
      Some(Charge(Prefix(a.guard) + a.operation, "account", account, PASSWORD_CHANGE_PER_ACCOUNT))
    else None
  }

  function Charges(a: Attempt): seq<Charge> {
    [IPCharge(a)] + if IdentityCharge(a).Some? then [IdentityCharge(a).value] else []
  }

  /** The charge the HTTP limiter makes for a request. */
  function HttpCharge(method': string, clientIP: string): Charge {
    if method' == "GET" then Charge(HTTP_PREFIX + "read", "ip", ClientIP(clientIP), HTTP_READ_PER_IP)
    else Charge(HTTP_PREFIX + "write", "ip", ClientIP(clientIP), HTTP_WRITE_PER_IP)
  }

  /** What an attempt is charged for: its address always, then its email, or else a password attempt's account. */
  lemma WhoIsCharged(a: Attempt)
    ensures IPCharge(a).dimension == "ip"
    ensures IPCharge(a).identity == if TrimSpace(a.source) == "" then "unknown" else TrimSpace(a.source)
    ensures TrimSpace(a.email) != "" ==>
              && IdentityCharge(a).Some? && IdentityCharge(a).value.dimension == "email"
              && IdentityCharge(a).value.identity == TrimSpace(a.email)
    ensures TrimSpace(a.email) == "" && a.guard == Password && TrimSpace(a.subject) != "" ==>
              && IdentityCharge(a).Some? && IdentityCharge(a).value.dimension == "account"
              && IdentityCharge(a).value.identity == TrimSpace(a.subject)
    ensures TrimSpace(a.email) == "" && (a.guard != Password || TrimSpace(a.subject) == "") ==> IdentityCharge(a) == None
    ensures forall c :: c in Charges(a) ==>
              c.operation == (match a.guard
                              case Password => "authentication.password."
                              case Verification => "authentication.email_verification."
                              case Reset => "authentication.password_reset.") + a.operation
  {
    hide TrimSpace;
    hide IPLimit;
    hide EmailLimit;
  }

  /** The limits an address meets, in milliseconds. */
  lemma AddressLimits(a: Attempt)
    ensures a.guard == Password ==>
              IPCharge(a).rule == if a.operation == "register" then Rule(5, 3_600_000, 10, 3_600_000)
                                  else if a.operation == "login" then Rule(10, 300_000, 30, 900_000)
                                  else Rule(5, 900_000, 10, 900_000)
    ensures a.guard == Verification ==>
              IPCharge(a).rule == if a.operation == "verify" then Rule(15, 600_000, 30, 600_000)
                                  else Rule(10, 900_000, 20, 900_000)
    ensures a.guard == Reset ==>
              IPCharge(a).rule == if a.operation == "request" then Rule(5, 900_000, 10, 900_000)
                                  else Rule(10, 900_000, 20, 900_000)
  {
    hide TrimSpace;
  }

  /** The limits an email or an account meets, in milliseconds. */
  lemma IdentityLimits(a: Attempt)
    requires IdentityCharge(a).Some?
    ensures TrimSpace(a.email) == "" ==> IdentityCharge(a).value.rule == Rule(3, 1_800_000, 5, 1_800_000)
    ensures TrimSpace(a.email) != "" && a.guard == Password ==>
              IdentityCharge(a).value.rule == if a.operation == "register" then Rule(2, 3_600_000, 3, 3_600_000)
                                              else Rule(5, 900_000, 10, 900_000)
    ensures TrimSpace(a.email) != "" && a.guard == Verification ==>
              IdentityCharge(a).value.rule == if a.operation == "verify" then Rule(5, 600_000, 10, 600_000)
                                              else Rule(3, 900_000, 5, 900_000)
    ensures TrimSpace(a.email) != "" && a.guard == Reset ==>
              IdentityCharge(a).value.rule == Rule(3, 1_800_000, 5, 1_800_000)
  {
    hide TrimSpace;
  }

  /** What a request is charged for. */
  lemma RequestCharge(method': string, ip: string)
    ensures var identity := if TrimSpace(ip) == "" then "unknown" else TrimSpace(ip);
            HttpCharge(method', ip)
            == if method' == "GET" then Charge("authentication.http.read", "ip", identity, Rule(60, 60_000, 300, 300_000))
               else Charge("authentication.http.write", "ip", identity, Rule(20, 60_000, 100, 300_000))
  {
    hide TrimSpace;
  }

  /** A charge some guard or the HTTP limiter can make, for an operation name without outer white space. */
  ghost predicate Made(c: Charge) {
    || (exists a: Attempt :: TrimSpace(a.operation) == a.operation && c in Charges(a))
    || (exists method', ip :: c == HttpCharge(method', ip))
  }

  lemma OperationDecides(a: Attempt, b: Attempt)
    requires Prefix(a.guard) + a.operation == Prefix(b.guard) + b.operation
    ensures a.guard == b.guard && a.operation == b.operation
  {
    var x, y := Prefix(a.guard) + a.operation, Prefix(b.guard) + b.operation;
    assert x[15] == Prefix(a.guard)[15] && y[15] == Prefix(b.guard)[15];
    assert x[23] == Prefix(a.guard)[23] && y[23] == Prefix(b.guard)[23];
    SameSuffix(Prefix(a.guard), a.operation, b.operation);
  }

  lemma AttemptNotHttp(a: Attempt, c: Charge, method': string, ip: string)
    requires c in Charges(a)
    ensures c.operation != HttpCharge(method', ip).operation
  {
    hide TrimSpace;
    var x := Prefix(a.guard) + a.operation;
    assert x[15] == Prefix(a.guard)[15] != 'h';
  }

  lemma PrefixTrimmed(p: string, operation: string)
    requires p != "" && !IsSpace(p[0]) && !IsSpace(p[|p| - 1]) && TrimSpace(operation) == operation
    ensures TrimSpace(p + operation) == p + operation
  {
    var x := p + operation;
    assert x[|x| - 1] == if operation == "" then p[|p| - 1] else operation[|operation| - 1];
  }

  /** Operation names reach the key as they are if they carried no outer white space to begin with. */
  lemma MadeTrimmed(c: Charge)
    requires Made(c)
    ensures TrimSpace(c.operation) == c.operation
  {
    hide TrimSpace;
    if a: Attempt :| TrimSpace(a.operation) == a.operation && c in Charges(a) {
      assert Prefix(a.guard)[0] == 'a' && Prefix(a.guard)[|Prefix(a.guard)| - 1] == '.';
      PrefixTrimmed(Prefix(a.guard), a.operation);
    } else {
      var m, ip :| c == HttpCharge(m, ip);
      HttpTrimmed();
    }
  }

  lemma HttpTrimmed()
    ensures TrimSpace(HTTP_PREFIX + "read") == HTTP_PREFIX + "read"
    ensures TrimSpace(HTTP_PREFIX + "write") == HTTP_PREFIX + "write"
  {
    PrefixTrimmed(HTTP_PREFIX, "read");
    PrefixTrimmed(HTTP_PREFIX, "write");
  }

  lemma SameRuleAttempts(a: Attempt, c: Charge, b: Attempt, d: Charge)
    requires c in Charges(a) && d in Charges(b) && c.operation == d.operation && c.dimension == d.dimension
    ensures c.rule == d.rule
  {
    OperationDecides(a, b);
  }

  /** Each (operation, dimension) pair that reaches a key, and so each key, always meets the same rule. */
  lemma SameKeySameRule(c: Charge, d: Charge)
    requires Made(c) && Made(d)
    requires TrimSpace(c.operation) == TrimSpace(d.operation) && c.dimension == d.dimension
    ensures c.rule == d.rule
  {
    hide Charges;
    hide TrimSpace;
    hide IPLimit;
    hide EmailLimit;
    MadeTrimmed(c);
    MadeTrimmed(d);
    if a: Attempt :| c in Charges(a) {
      if b: Attempt :| d in Charges(b) {
        SameRuleAttempts(a, c, b, d);
      } else {
        var m, ip :| d == HttpCharge(m, ip);
        AttemptNotHttp(a, c, m, ip);
      }
    } else {
      var m, ip :| c == HttpCharge(m, ip);
      if b: Attempt :| d in Charges(b) {
        AttemptNotHttp(b, d, m, ip);
      }
    }
  }
}
