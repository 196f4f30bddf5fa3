/** The staff user handlers: `Signup`, `Login` (up to the password check) and `FindUserByID`. */
module Users {
  import opened Base
  import opened Utils
  import opened Dates
  import opened Records
  import opened Store

  predicate EmailTaken(users: seq<User>, email: string)
  {
    exists i | 0 <= i < |users| :: users[i].email == email
  }

  predicate PhoneTaken(users: seq<User>, phone: string)
  {
    exists i | 0 <= i < |users| :: users[i].phone == phone
  }

  predicate NationalIdTaken(users: seq<User>, nationalId: string)
  {
    exists i | 0 <= i < |users| :: users[i].nationalId == nationalId
  }

  /** The user table: unique keys, and no two users share an e-mail, a phone or a national id. */
  predicate UniqueUsers(users: seq<User>)
  {
    && UniqueKeys(UserUids(users))
    && forall i, j | 0 <= i < j < |users| ::
         && users[i].email != users[j].email && users[i].phone != users[j].phone
         && users[i].nationalId != users[j].nationalId
  }

  // ---------------------------------------------------------------------------------------
  // Signup

  /** The e-mail checks of `Signup` on the trimmed e-mail: present, well formed, free. */
  function EmailStatus(users: seq<User>, email: string): (code: int)
    ensures code == 200 <==> email != "" && IsValidEmail(email) && !EmailTaken(users, email)
    ensures code == 200 || code == 400
  {
    if email == "" || !IsValidEmail(email) || EmailTaken(users, email) then 400 else 200
  }

  /** The phone checks of `Signup` on the normalized phone: valid, free. */
  function PhoneStatus(users: seq<User>, phone: string, cc: int): (code: int)
    ensures code == 200 <==> IsPhoneValid(phone, cc) && !PhoneTaken(users, phone)
    ensures code == 200 || code == 400
  {
    if !IsPhoneValid(phone, cc) || PhoneTaken(users, phone) then 400 else 200
  }

  /** The national id checks of `Signup` on the trimmed id: present, free. */
  function NationalIdStatus(users: seq<User>, nationalId: string): (code: int)
    ensures code == 200 <==> nationalId != "" && !NationalIdTaken(users, nationalId)
    ensures code == 200 || code == 400
  {
    if nationalId == "" || NationalIdTaken(users, nationalId) then 400 else 200
  }

  /** The input as `Signup` prepares it: e-mail, national id, name and password trimmed,
      phone normalized. */
  function SignupInput(u: User, cc: int): (p: User)
    ensures p.email == TrimSpace(u.email) && p.phone == MakePhoneValid(u.phone, cc)
    ensures p.nationalId == TrimSpace(u.nationalId) && p.name == TrimSpace(u.name) && p.pass1 == TrimSpace(u.pass1)
    ensures p.uid == u.uid && p.userGroup == u.userGroup
  {
    u.(email := TrimSpace(u.email), phone := MakePhoneValid(u.phone, cc), nationalId := TrimSpace(u.nationalId),
       name := TrimSpace(u.name), pass1 := TrimSpace(u.pass1))
  }

  /** The status code of `Signup` for the prepared input `p`. The checks run in the handler's
      order: e-mail, phone, national id, name, password (at least six characters), user
      group; then hashing and the insert, whose failures answer 500. */
  function SignupStatus(users: seq<User>, cc: int, crypto: Crypto, p: User): (code: int)
    ensures code == 500 ==> crypto.bcryptHash(p.pass1).None? || AssignUid(p.uid, UserUids(users)).None?
    ensures code == 200 ==> crypto.bcryptHash(p.pass1).Some? && AssignUid(p.uid, UserUids(users)).Some?
    ensures code == 200 || code == 400 || code == 500
    ensures code == 200 <==> (&& EmailStatus(users, p.email) == 200 && PhoneStatus(users, p.phone, cc) == 200
                              && NationalIdStatus(users, p.nationalId) == 200
                              && p.name != "" && |p.pass1| >= 6 && p.userGroup >= 1
                              && crypto.bcryptHash(p.pass1).Some? && AssignUid(p.uid, UserUids(users)).Some?)
  {
    if EmailStatus(users, p.email) != 200 then 400
    else if PhoneStatus(users, p.phone, cc) != 200 then 400
    else if NationalIdStatus(users, p.nationalId) != 200 then 400
    else if p.name == "" then 400
    else if |p.pass1| < 6 then 400
    else if p.userGroup < 1 then 400
    else if crypto.bcryptHash(p.pass1).None? then 500
    else if AssignUid(p.uid, UserUids(users)).None? then 500
    else 200
  }

  /** A signup is accepted only with a well-formed e-mail, a valid phone and a national id
      that no user holds yet, a name, a password of at least six characters, a user group,
      and a hash. */
  lemma SignupAcceptsOnlyValid(users: seq<User>, cc: int, crypto: Crypto, p: User)
    requires SignupStatus(users, cc, crypto, p) == 200
    ensures IsValidEmail(p.email) && !EmailTaken(users, p.email)
    ensures IsPhoneValid(p.phone, cc) && !PhoneTaken(users, p.phone)
    ensures p.nationalId != "" && !NationalIdTaken(users, p.nationalId)
    ensures p.name != "" && |p.pass1| >= 6 && p.userGroup >= 1
    ensures crypto.bcryptHash(p.pass1).Some? && AssignUid(p.uid, UserUids(users)).Some?
  {
  }

  /** The company of a new user: COMPANY_ID when it parses as an integer, 1 otherwise. */
  function CompanyId(config: Config): (r: int)
    ensures Atoi(config.companyId).None? ==> r == 1
    ensures Atoi(config.companyId).Some? ==> r == Atoi(config.companyId).value
  {
    match Atoi(config.companyId)
    case Some(n) => n
    case None => 1
  }

  /** The row `Signup` inserts for the prepared input: the bcrypt hash in place of the
      password, the request time and the company, under the input's key or the next one; a
      zero company or status becomes 1. */
  function SignedUpUser(users: seq<User>, p: User, config: Config, hash: string, now: string): (r: User)
    requires AssignUid(p.uid, UserUids(users)).Some?
    ensures r.uid !in UserUids(users) && r.pass1 == hash && r.joinDate == now
    ensures r.email == p.email && r.phone == p.phone && r.nationalId == p.nationalId && r.name == p.name
    ensures r.company == (if CompanyId(config) == 0 then 1 else CompanyId(config))
  {
    UserDefaults(p.(pass1 := hash, joinDate := now, company := CompanyId(config)), AssignUid(p.uid, UserUids(users)).value)
  }

  method CheckEmail(users: seq<User>, email: string) returns (code: int)
    ensures code == EmailStatus(users, email)
  {
    if email == "" {
      return 400;
    }
    if !IsValidEmail(email) {
      return 400;
    }
    if EmailTaken(users, email) {
      return 400;
    }
    return 200;
  }

  method CheckPhone(users: seq<User>, phone: string, cc: int) returns (code: int)
    ensures code == PhoneStatus(users, phone, cc)
  {
    if !IsPhoneValid(phone, cc) {
      return 400;
    }
    if PhoneTaken(users, phone) {
      return 400;
    }
    return 200;
  }

  method CheckNationalId(users: seq<User>, nationalId: string) returns (code: int)
    ensures code == NationalIdStatus(users, nationalId)
  {
    if nationalId == "" {
      return 400;
    }
    if NationalIdTaken(users, nationalId) {
      return 400;
    }
    return 200;
  }

  /** The checks of `Signup` on the prepared input, in the handler's order. */
  method CheckSignup(users: seq<User>, cc: int, crypto: Crypto, p: User) returns (code: int)
    ensures code == SignupStatus(users, cc, crypto, p)
  {
    code := CheckEmail(users, p.email);
    if code != 200 {
      return;
    }
    code := CheckPhone(users, p.phone, cc);
    if code != 200 {
      return;
    }
    code := CheckNationalId(users, p.nationalId);
    if code != 200 {
      return;
    }
    if p.name == "" {
      return 400;
    }
    if |p.pass1| < 6 {
      return 400;
    }
    if p.userGroup < 1 {
      return 400;
    }
    var hash := crypto.bcryptHash(p.pass1);
    if hash.None? {
      return 500;
    }
    var uid := AssignUid(p.uid, UserUids(users));
    if uid.None? {
      return 500;
    }
    return 200;
  }

  /** The checks of `Signup` and the row it would insert. The trimming and the normalization
      are pure, so they are all done first. */
  method PrepareSignup(users: seq<User>, config: Config, crypto: Crypto, input: User, now: string)
    returns (code: int, row: User)
    ensures code == SignupStatus(users, config.cc, crypto, SignupInput(input, config.cc))
    ensures code == 200 ==>
              && var p := SignupInput(input, config.cc);
                 && crypto.bcryptHash(p.pass1).Some? && AssignUid(p.uid, UserUids(users)).Some?
                 && row == SignedUpUser(users, p, config, crypto.bcryptHash(p.pass1).value, now)
  {
    var p := SignupInput(input, config.cc);
    row := p;
    code := CheckSignup(users, config.cc, crypto, p);
    if code != 200 {
      return;
    }
    row := SignedUpUser(users, p, config, crypto.bcryptHash(p.pass1).value, now);
  }

  /** `Signup`. Binding failures (`None`) answer 400; on 200 the new user is appended and
      its key returned. */
  method Signup(db: Database, config: Config, crypto: Crypto, input: Option<User>, now: string)
    returns (code: int, uid: int)
    modifies db`users
    ensures input.None? ==> code == 400
    ensures input.Some? ==> code == SignupStatus(old(db.users), config.cc, crypto, SignupInput(input.value, config.cc))
    ensures code == 200 ==>
              && input.Some?
              && var p := SignupInput(input.value, config.cc);
                 && crypto.bcryptHash(p.pass1).Some? && AssignUid(p.uid, UserUids(old(db.users))).Some?
                 && var row := SignedUpUser(old(db.users), p, config, crypto.bcryptHash(p.pass1).value, now);
                    db.users == old(db.users) + [row] && uid == row.uid
    ensures code != 200 ==> db.users == old(db.users)
    ensures UniqueUsers(old(db.users)) ==> UniqueUsers(db.users)
  {
    uid := 0;
    if input.None? {
      return 400, uid;
    }
    var row;
    code, row := PrepareSignup(db.users, config, crypto, input.value, now);
    if code != 200 {
      return;
    }
    if UniqueUsers(db.users) {
      AppendUserKeepsUnique(db.users, row);
    }
    db.users := db.users + [row];
    uid := row.uid;
  }

  /** A user with a fresh key, e-mail, phone and national id keeps the table unique. */
  lemma AppendUserKeepsUnique(users: seq<User>, row: User)
    requires UniqueUsers(users) && row.uid !in UserUids(users)
    requires !EmailTaken(users, row.email) && !PhoneTaken(users, row.phone) && !NationalIdTaken(users, row.nationalId)
    ensures UniqueUsers(users + [row])
  {
    var all := users + [row];
    UniqueKeysAppend(UserUids(users), row.uid);
    assert UserUids(all) == UserUids(users) + [row.uid];
    forall i, j | 0 <= i < j < |all|
      ensures all[i].email != all[j].email && all[i].phone != all[j].phone && all[i].nationalId != all[j].nationalId
    {
      assert all[i] == users[i];
      if j == |users| {
        assert all[j] == row;
      } else {
        assert all[j] == users[j];
      }
    }
  }

  // ---------------------------------------------------------------------------------------
  // Login

  /** The bound login body: `emailOrPhone` and `password`. */
  datatype LoginInput = LoginInput(emailOrPhone: string, password: string)

  /** What `Login` answers: the status of the first response written, and the user whose
      data was written into the body (gin appends later bodies after the first). */
  datatype LoginResult = LoginResult(code: int, sent: Option<User>)

  /** The first user with the e-mail, as `First` reads it. */
  function UserByEmail(users: seq<User>, email: string): (r: Option<User>)
    ensures r.Some? ==> r.value in users && r.value.email == email
    ensures r.Some? ==> exists i | 0 <= i < |users| :: users[i] == r.value && forall j | 0 <= j < i :: users[j].email != email
    ensures r.None? <==> !EmailTaken(users, email)
  {
    First(users, (x: User) => x.email == email)
  }

  /** The first user with the phone. */
  function UserByPhone(users: seq<User>, phone: string): (r: Option<User>)
    ensures r.Some? ==> r.value in users && r.value.phone == phone
    ensures r.Some? ==> exists i | 0 <= i < |users| :: users[i] == r.value && forall j | 0 <= j < i :: users[j].phone != phone
    ensures r.None? <==> !PhoneTaken(users, phone)
  {
    First(users, (x: User) => x.phone == phone)
  }

  /** How the handler finds the user for a trimmed, non-empty username: by e-mail when the
      username is a valid e-mail address, otherwise by the normalized phone, which must be
      valid (`Err(400)`). A missing user is `Err(500)`. */
  function LookupUser(users: seq<User>, cc: int, username: string): (r: Result<User, int>)
    ensures r.Ok? ==> r.value in users
    ensures r.Ok? && IsValidEmail(username) ==> r.value.email == username
    ensures r.Ok? && !IsValidEmail(username) ==> r.value.phone == MakePhoneValid(username, cc)
    ensures IsValidEmail(username) ==> (r.Ok? <==> EmailTaken(users, username))
    ensures IsValidEmail(username) && r.Ok? ==> r.value == UserByEmail(users, username).value
    ensures r.Err? ==> r.error == 400 || r.error == 500
    ensures !IsValidEmail(username) && !IsPhoneValid(MakePhoneValid(username, cc), cc) ==> r == Err(400)
    ensures !IsValidEmail(username) && IsPhoneValid(MakePhoneValid(username, cc), cc) ==>
              (r.Ok? <==> PhoneTaken(users, MakePhoneValid(username, cc)))
    ensures !IsValidEmail(username) && r.Ok? ==> r.value == UserByPhone(users, MakePhoneValid(username, cc)).value
  {
    if IsValidEmail(username) then
      match UserByEmail(users, username)
      case Some(x) => Ok(x)
      case None => Err(500)
    else
      var phone := MakePhoneValid(username, cc);
      if !IsPhoneValid(phone, cc) then Err(400)
      else
        match UserByPhone(users, phone)
        case Some(x) => Ok(x)
        case None => Err(500)
  }

  /** The answer of `Login` for a bound input. An empty password writes a 400 response but
      does not return, so the password comparison still runs; the status stays 400. */
  function LoginOutcome(users: seq<User>, cc: int, crypto: Crypto, input: LoginInput): (r: LoginResult)
  {
    LoginAs(users, cc, crypto, TrimSpace(input.emailOrPhone), TrimSpace(input.password))
  }

  /** The answer of `Login` for the trimmed username and password. */
  function LoginAs(users: seq<User>, cc: int, crypto: Crypto, username: string, password: string): (r: LoginResult)
    ensures r.sent.Some? ==> crypto.bcryptMatches(r.sent.value.pass1, password)
    ensures r.sent.Some? ==> r.sent.value in users
    ensures r.sent.Some? ==> username != "" && LookupUser(users, cc, username) == Ok(r.sent.value)
    ensures r.code == 200 <==> r.sent.Some? && password != ""
  {
    if username == "" then LoginResult(400, None)
    else
      match LookupUser(users, cc, username)
      case Err(code) => LoginResult(code, None)
      case Ok(user) =>
        if !crypto.bcryptMatches(user.pass1, password) then
          LoginResult(if password == "" then 400 else 401, None)
        else
          LoginResult(if password == "" then 400 else 200, Some(user))
  }

  /** `Login` up to the response body: the JWT and the group name are not modelled. */
  method Login(db: Database, config: Config, crypto: Crypto, input: Option<LoginInput>)
    returns (code: int, sent: Option<User>)
    ensures input.None? ==> code == 400 && sent.None?
    ensures input.Some? ==> LoginResult(code, sent) == LoginOutcome(db.users, config.cc, crypto, input.value)
  {
    if input.None? {
      return 400, None;
    }
    var username := TrimSpace(input.value.emailOrPhone);
    if username == "" {
      return 400, None;
    }
    var user: User;
    if IsValidEmail(username) {
      var found := UserByEmail(db.users, username);
      if found.None? {
        return 500, None;
      }
      user := found.value;
    } else {
      var phone := MakePhoneValid(username, config.cc);
      if !IsPhoneValid(phone, config.cc) {
        return 400, None;
      }
      var found := UserByPhone(db.users, phone);
      if found.None? {
        return 500, None;
      }
      user := found.value;
    }
    code := 0;
    var password := TrimSpace(input.value.password);
    if password == "" {
      code := 400;
    }
    if !crypto.bcryptMatches(user.pass1, password) {
      if code == 0 {
        code := 401;
      }
      return code, None;
    }
    if code == 0 {
      code := 200;
    }
    return code, Some(user);
  }

  /** A user who signed up can log in with the e-mail and password they signed up with,
      as long as bcrypt accepts the password against its own hash. */
  lemma SignupThenLogin(users: seq<User>, config: Config, crypto: Crypto, u: User, now: string)
    requires SignupStatus(users, config.cc, crypto, SignupInput(u, config.cc)) == 200
    requires var p := SignupInput(u, config.cc);
             crypto.bcryptHash(p.pass1).Some? ==> crypto.bcryptMatches(crypto.bcryptHash(p.pass1).value, p.pass1)
    ensures var p := SignupInput(u, config.cc);
            var row := SignedUpUser(users, p, config, crypto.bcryptHash(p.pass1).value, now);
            LoginOutcome(users + [row], config.cc, crypto, LoginInput(u.email, u.pass1)) == LoginResult(200, Some(row))
  {
    var p := SignupInput(u, config.cc);
    SignupAcceptsOnlyValid(users, config.cc, crypto, p);
    var row := SignedUpUser(users, p, config, crypto.bcryptHash(p.pass1).value, now);
    LoginAsNewUser(users, config.cc, crypto, row, p.email, p.pass1);
  }

  lemma LoginAsNewUser(users: seq<User>, cc: int, crypto: Crypto, row: User, email: string, password: string)
    requires IsValidEmail(email) && !EmailTaken(users, email) && row.email == email
    requires password != "" && crypto.bcryptMatches(row.pass1, password)
    ensures LoginAs(users + [row], cc, crypto, email, password) == LoginResult(200, Some(row))
  {
    NoEmptyEmail();
    LookupFindsNewUser(users, cc, row, email);
    LoginWithFoundUser(users + [row], cc, crypto, row, email, password);
  }

  lemma LookupFindsNewUser(users: seq<User>, cc: int, row: User, email: string)
    requires IsValidEmail(email) && !EmailTaken(users, email) && row.email == email
    ensures LookupUser(users + [row], cc, email) == Ok(row)
  {
    FirstOfAppended(users, row, email);
  }

  /** Once the lookup finds a user whose hash matches a non-empty password, the login succeeds. */
  lemma LoginWithFoundUser(users: seq<User>, cc: int, crypto: Crypto, user: User, username: string, password: string)
    requires username != "" && LookupUser(users, cc, username) == Ok(user)
    requires password != "" && crypto.bcryptMatches(user.pass1, password)
    ensures LoginAs(users, cc, crypto, username, password) == LoginResult(200, Some(user))
  {
  }

  lemma FirstOfAppended(users: seq<User>, row: User, email: string)
    requires !EmailTaken(users, email) && row.email == email
    ensures UserByEmail(users + [row], email) == Some(row)
  {
    var all := users + [row];
    var r := UserByEmail(all, email);
    assert all[|users|] == row;
    assert forall k | 0 <= k < |users| :: all[k] == users[k];
    assert r.value == row by {
      var k :| 0 <= k < |all| && all[k] == r.value;
      if k < |users| {
        assert false;
      }
    }
  }

  lemma NoEmptyEmail()
    ensures !IsValidEmail("")
  {
    assert !exists a, d :: EmailSplitAt("", a, d);
  }

  /** With the password left empty the login never succeeds, even where bcrypt matches. */
  lemma EmptyPasswordNeverLogsIn(users: seq<User>, cc: int, crypto: Crypto, username: string)
    ensures LoginAs(users, cc, crypto, username, "").code != 200
  {
  }

  /** A username that is a valid e-mail address is never read as a phone number: the user
      found has exactly that e-mail. */
  lemma EmailUsernameFindsByEmail(users: seq<User>, cc: int, crypto: Crypto, username: string, password: string)
    requires IsValidEmail(username)
    ensures var r := LoginAs(users, cc, crypto, username, password);
            && (r.sent.Some? ==> r.sent.value.email == username)
            && (!EmailTaken(users, username) ==> r.code == 500)
  {
    NoEmptyEmail();
  }

  /** A username that is not an e-mail address logs in as the first user holding its
      normalized phone, when that phone is valid and the password matches that user's hash. */
  lemma PhoneUsernameFindsByPhone(users: seq<User>, cc: int, crypto: Crypto, username: string, password: string)
    requires !IsValidEmail(username)
    ensures var r := LoginAs(users, cc, crypto, username, password);
            r.sent.Some? ==> r.sent.value.phone == MakePhoneValid(username, cc)
    ensures var phone := MakePhoneValid(username, cc);
            username != "" && IsPhoneValid(phone, cc) && PhoneTaken(users, phone)
            && crypto.bcryptMatches(UserByPhone(users, phone).value.pass1, password) ==>
              LoginAs(users, cc, crypto, username, password).sent == UserByPhone(users, phone)
  {
    var r := LoginAs(users, cc, crypto, username, password);
    var found := LookupUser(users, cc, username);
    if r.sent.Some? {
      assert found.Ok? && found.value == r.sent.value;
    }
    var phone := MakePhoneValid(username, cc);
    if username != "" && IsPhoneValid(phone, cc) && PhoneTaken(users, phone) {
      assert found == Ok(UserByPhone(users, phone).value);
    }
  }

  // ---------------------------------------------------------------------------------------
  // FindUserByID

  /** `FindUserByID`: 400 for a missing or zero key; otherwise the user with the key and its
      join date cut to `YYYY-MM-DD hh:mm:ss`. When no user has the key, the empty join date
      makes `DatetimeFormatter` panic, which the recovery middleware answers with 500; so does
      a stored join date shorter than 19 characters. No permission is asked. */
  method FindUserById(db: Database, uidParam: string) returns (code: int, user: Option<User>)
    ensures var uid := ParamToIntWithDefault(uidParam, 0);
            var found := First(db.users, (x: User) => x.uid == uid);
            && (uid == 0 ==> code == 400 && user.None?)
            && (uid != 0 && found.Some? && |found.value.joinDate| >= 19 ==>
                  code == 200 && user == Some(found.value.(joinDate := DatetimeFormatter(found.value.joinDate))))
            && (uid != 0 && (found.None? || |found.value.joinDate| < 19) ==> code == 500 && user.None?)
  {
    var uid := ParamToIntWithDefault(uidParam, 0);
    if uid == 0 {
      return 400, None;
    }
    var found := First(db.users, (x: User) => x.uid == uid);
    var joinDate := if found.Some? then found.value.joinDate else "";
    if |joinDate| < 19 {
      return 500, None;
    }
    return 200, Some(found.value.(joinDate := DatetimeFormatter(joinDate)));
  }

  /** A user found by key is answered with a join date of exactly 19 characters, whose
      first 'T' (if any) is a space. */
  lemma FoundUserDateIsFormatted(u: User)
    requires |u.joinDate| >= 19
    ensures |DatetimeFormatter(u.joinDate)| == 19
    ensures forall i | 0 <= i < 19 && u.joinDate[i] != 'T' :: DatetimeFormatter(u.joinDate)[i] == u.joinDate[i]
  {
  }
}
