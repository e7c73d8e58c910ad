/** The HTTP face of the user service: sign-up input validation (a zod object
    schema) and the status codes of sign-up and sign-in. */
module UserController {
  import opened Wrappers
  import opened Domain
  import opened Text
  import UserService

  /** The sign-up request body; `None` is an absent field. */
  datatype SignupBody = SignupBody(name: Option<string>, email: Option<string>, password: Option<string>)

  datatype Body = MsgJson(msg: string) | LoginJson(result: UserService.LoginResult)

  datatype Response = Response(status: nat, body: Body)

  predicate Letter(c: char) { 'a' <= c <= 'z' || 'A' <= c <= 'Z' }
  predicate Alnum(c: char) { Letter(c) || '0' <= c <= '9' }

  /** The local part of an address: letters, digits and `_'+-.`, not starting
      with a dot and ending in a letter, digit or one of `_+-`. */
  predicate LocalPartOk(l: string)
  {
    |l| >= 1 && l[0] != '.' &&
    (forall i :: 0 <= i < |l| ==> Alnum(l[i]) || l[i] in "_'+-.") &&
    (Alnum(l[|l| - 1]) || l[|l| - 1] in "_+-")
  }

  /** A domain label: a letter or digit followed by letters, digits and
      hyphens. */
  predicate LabelOk(p: string)
  {
    |p| >= 1 && Alnum(p[0]) && forall i :: 0 <= i < |p| ==> Alnum(p[i]) || p[i] == '-'
  }

  /** The top-level domain: at least two letters. */
  predicate TopLevelOk(p: string)
  {
    |p| >= 2 && forall i :: 0 <= i < |p| ==> Letter(p[i])
  }

  /** One or more labels, each followed by a dot, then the top-level domain. */
  predicate DomainOk(d: string)
  {
    var labels := SplitOn(d, '.');
    |labels| >= 2 &&
    (forall i :: 0 <= i < |labels| - 1 ==> LabelOk(labels[i])) &&
    TopLevelOk(labels[|labels| - 1])
  }

  predicate NoDoubleDot(s: string)
  {
    forall i :: 0 <= i < |s| - 1 ==> !(s[i] == '.' && s[i + 1] == '.')
  }

  /** `z.string().email()`, zod 3's address pattern: no `..` anywhere, a local
      part, `@`, and a dotted domain. */
  predicate WellFormedEmail(s: string)
  {
    var at := IndexOf(s, '@');
    at < |s| && NoDoubleDot(s) && LocalPartOk(s[..at]) && DomainOk(s[at + 1..])
  }

  const Required: string := "Required"
  const NameTooShort: string := "String must contain at least 2 character(s)"
  const NameTooLong: string := "String must contain at most 30 character(s)"
  const InvalidEmail: string := "Invalid email"
  const PasswordTooShort: string := "String must contain at least 6 character(s)"

  /** The issues of the sign-up schema, field by field in declaration order. */
  function SignupIssues(b: SignupBody): seq<string>
  {
    (match b.name
     case None => [Required]
     case Some(n) => if Utf16Length(n) < 2 then [NameTooShort] else if Utf16Length(n) > 30 then [NameTooLong] else [])
    +
    (match b.email
     case None => [Required]
     case Some(e) => if WellFormedEmail(e) then [] else [InvalidEmail])
    +
    (match b.password
     case None => [Required]
     case Some(p) => if Utf16Length(p) < 6 then [PasswordTooShort] else [])
  }

  /** The body the schema accepts; lengths are JavaScript's, in UTF-16 code
      units. */
  predicate SignupValid(b: SignupBody)
  {
    && b.name.Some? && 2 <= Utf16Length(b.name.value) <= 30
    && b.email.Some? && WellFormedEmail(b.email.value)
    && b.password.Some? && Utf16Length(b.password.value) >= 6
  }

  /** The schema reports no issue exactly when the length and address rules
      all hold, and its first issue belongs to the first failing field. */
  lemma SignupIssuesSpec(b: SignupBody)
    ensures SignupIssues(b) == [] <==> SignupValid(b)
    ensures (b.name.None? || Utf16Length(b.name.value) < 2 || Utf16Length(b.name.value) > 30) ==>
      SignupIssues(b)[0] in {Required, NameTooShort, NameTooLong}
    ensures (b.name.Some? && 2 <= Utf16Length(b.name.value) <= 30 && b.email.Some? &&
             !WellFormedEmail(b.email.value)) ==> SignupIssues(b)[0] == InvalidEmail
    ensures (b.name.Some? && 2 <= Utf16Length(b.name.value) <= 30 && b.email.None?) ==>
      SignupIssues(b)[0] == Required
    ensures (b.name.Some? && 2 <= Utf16Length(b.name.value) <= 30 &&
             b.email.Some? && WellFormedEmail(b.email.value) &&
             (b.password.None? || Utf16Length(b.password.value) < 6)) ==>
      SignupIssues(b)[0] in {Required, PasswordTooShort}
  {
  }

  /** A name of one emoji is two code units long, so the name rule lets it
      through although it is a single character. */
  lemma AstralNameLongEnough(b: SignupBody)
    requires b.name == Some("\U{1F600}")
    ensures |b.name.value| == 1
    ensures NameTooShort !in SignupIssues(b) && NameTooLong !in SignupIssues(b)
  {
    assert Utf16Length(b.name.value) == 2;
  }

  const Registered: string := "User registered successfully"

  /** The validation step of `signup`: a 400 with the first issue, in which
      case the service is never called. */
  function SignupGuard(b: SignupBody): (resp: Option<Response>)
    ensures resp.None? <==> SignupValid(b)
    ensures resp.Some? ==> resp.value.status == 400 && resp.value.body == MsgJson(SignupIssues(b)[0])
  {
    SignupIssuesSpec(b);
    var issues := SignupIssues(b);
    if issues != [] then Some(Response(400, MsgJson(issues[0]))) else None
  }

  /** `signup`: validation, then the outcome of `registerUser`. */
  function Signup(b: SignupBody, outcome: Result<Domain.User>): (resp: Response)
    ensures !SignupValid(b) ==> resp == SignupGuard(b).value
    ensures SignupValid(b) && outcome.Ok? ==> resp == Response(201, MsgJson(Registered))
    ensures SignupValid(b) && outcome.Err? ==> resp == Response(400, MsgJson(outcome.message))
  {
    match SignupGuard(b)
    case Some(early) => early
    case None =>
      match outcome
      case Ok(_) => Response(201, MsgJson(Registered))
      case Err(msg) => Response(400, MsgJson(msg))
  }

  /** An invalid body gets the same answer whatever the service would do. */
  lemma SignupGuardIgnoresService(b: SignupBody, o1: Result<Domain.User>, o2: Result<Domain.User>)
    requires !SignupValid(b)
    ensures Signup(b, o1) == Signup(b, o2) && Signup(b, o1).status == 400
  {
  }

  /** `signin`: the login result with status 200, or 401 with the message. */
  function Signin(outcome: Result<UserService.LoginResult>): (resp: Response)
    ensures resp.status == 200 <==> outcome.Ok?
    ensures outcome.Ok? ==> resp.body == LoginJson(outcome.value)
    ensures outcome.Err? ==> resp == Response(401, MsgJson(outcome.message))
  {
    match outcome
    case Ok(res) => Response(200, LoginJson(res))
    case Err(msg) => Response(401, MsgJson(msg))
  }

  /** One step of `SplitOn` on a literal. */
  lemma SplitCons(x: char, t: string, c: char)
    ensures SplitOn([x] + t, c) ==
      if x == c then [[]] + SplitOn(t, c) else [[x] + SplitOn(t, c)[0]] + SplitOn(t, c)[1..]
  {
    assert ([x] + t)[1..] == t;
  }

  /** Sample addresses: the pattern accepts a plain address and refuses one
      without a top-level domain and one with a doubled dot. */
  lemma EmailExamples()
    ensures WellFormedEmail("a@b.co")
    ensures !WellFormedEmail("a@b")
    ensures !WellFormedEmail("a..b@c.de")
  {
    var good := "a@b.co";
    assert IndexOf(good, '@') == 1 by {
      assert good[0] == 'a' && good[1..][0] == '@';
    }
    assert good[2..] == "b.co";
    assert "b.co" == ['b'] + ".co" && ".co" == ['.'] + "co" && "co" == ['c'] + "o" && "o" == ['o'] + "";
    SplitCons('o', "", '.');
    assert SplitOn("", '.') == [""];
    assert SplitOn("o", '.') == ["o"];
    SplitCons('c', "o", '.');
    assert SplitOn("co", '.') == ["co"];
    SplitCons('.', "co", '.');
    assert SplitOn(".co", '.') == ["", "co"];
    SplitCons('b', ".co", '.');
    assert ['b'] + "" == "b" && ["", "co"][1..] == ["co"];
    assert SplitOn("b.co", '.') == ["b", "co"];
    var short := "a@b";
    assert IndexOf(short, '@') == 1 by {
      assert short[0] == 'a' && short[1..][0] == '@';
    }
    assert short[2..] == "b";
    assert "b" == ['b'] + "";
    SplitCons('b', "", '.');
    var dotted := "a..b@c.de";
    assert dotted[1] == '.' && dotted[2] == '.';
  }
}
