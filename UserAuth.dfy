/** Calendar dates as Go's `time` package prints and reads them with the layout
    "2006-01-02", and the `String()` form of a time value. */
module Dates {
  import opened Wrappers
  import opened Text

  datatype Date = Date(year: int, month: nat, day: nat)

  /** A time value: its date, its clock and the text `String()` prints for its zone
      (the offset and the zone's name, " +0800 CST" say). Fractional seconds are not part
      of this model. */
  datatype Time = Time(date: Date, hour: nat, minute: nat, second: nat, zone: string)

  predicate IsLeap(year: int) {
    year % 4 == 0 && (year % 100 != 0 || year % 400 == 0)
  }

  function DaysIn(year: int, month: int): int {
    if month == 2 then (if IsLeap(year) then 29 else 28)
    else if month in {4, 6, 9, 11} then 30
    else 31
  }

  /** A date the layout can print with a four-digit year. */
  predicate ValidDate(d: Date) {
    0 <= d.year <= 9999 && 1 <= d.month <= 12 && 1 <= d.day <= DaysIn(d.year, d.month)
  }

  function Pow10(n: nat): (p: nat)
    ensures p >= 1
  {
    if n == 0 then 1 else 10 * Pow10(n - 1)
  }

  /** The last `width` decimal digits of `n`, with leading zeros. */
  function Fixed(n: nat, width: nat): (s: string)
    ensures |s| == width && AllDigits(s)
  {
    if width == 0 then "" else Fixed(n / 10, width - 1) + [DigitChar(n % 10)]
  }

  /** A number below `10^width` reads back from its fixed-width digits. */
  lemma {:induction false} FixedRoundTrip(n: nat, width: nat)
    requires n < Pow10(width)
    ensures DigitsValue(Fixed(n, width)) == n
  {
    if width > 0 {
      assert n / 10 < Pow10(width - 1);
      FixedRoundTrip(n / 10, width - 1);
      var s := Fixed(n, width);
      assert s[..|s| - 1] == Fixed(n / 10, width - 1);
    }
  }

  /** Digits read as a number and printed at the same width give the digits back. */
  lemma {:induction false} FixedOfDigits(s: string)
    requires AllDigits(s)
    ensures Fixed(DigitsValue(s), |s|) == s
  {
    if |s| > 0 {
      var init := s[..|s| - 1];
      assert AllDigits(init);
      FixedOfDigits(init);
      var d := s[|s| - 1] as int - '0' as int;
      assert IsDigit(s[|s| - 1]);
      var v := DigitsValue(s);
      assert v == DigitsValue(init) * 10 + d;
      assert v / 10 == DigitsValue(init) && v % 10 == d;
      assert s == init + [s[|s| - 1]];
    }
  }

  /** Go pads the year to four digits and prints longer years in full. */
  function YearText(year: int): (s: string)
    ensures |s| >= 4
  {
    LongNumberText(if year < 0 then -year else year);
    if year < 0 then "-" + (if -year < 10000 then Fixed(-year, 4) else NatToString(-year))
    else if year < 10000 then Fixed(year, 4)
    else NatToString(year)
  }

  lemma {:induction false} LongNumberText(n: nat)
    ensures n >= 1000 ==> |NatToString(n)| >= 4
  {
    if n >= 1000 {
      if n >= 10000 {
        LongNumberText(n / 10);
      } else {
        assert n / 10 >= 100 && n / 100 >= 10;
        assert |NatToString(n / 100)| >= 2;
      }
    }
  }

  /** The date printed with the layout "2006-01-02". */
  function DateText(d: Date): (s: string)
    ensures |s| >= 10
  {
    YearText(d.year) + "-" + Fixed(d.month, 2) + "-" + Fixed(d.day, 2)
  }

  /** `Time.String()`: the date, the clock and the zone, "2006-01-02 15:04:05 -0700 MST". */
  function TimeString(t: Time): (s: string)
    ensures |s| > 10
  {
    DateText(t.date) + " " + Fixed(t.hour, 2) + ":" + Fixed(t.minute, 2) + ":" + Fixed(t.second, 2) + " " + t.zone
  }

  /** `time.Parse("2006-01-02", s)`: four year digits, two month digits and two day digits
      separated by '-', a month in 1..12 and a day within the month, and no text after. */
  function ParseDate(s: string): (r: Option<Date>)
    ensures r.Some? ==> ValidDate(r.value) && |s| == 10
  {
    if |s| != 10 || s[4] != '-' || s[7] != '-' || !AllDigits(s[..4]) || !AllDigits(s[5..7]) || !AllDigits(s[8..]) then None
    else
      var year := DigitsValue(s[..4]);
      var month := DigitsValue(s[5..7]);
      var day := DigitsValue(s[8..]);
      assert year < 10000 by {
        FixedOfDigits(s[..4]);
        DigitsBelow(s[..4]);
      }
      if 1 <= month <= 12 && 1 <= day <= DaysIn(year, month) then Some(Date(year, month, day)) else None
  }

  lemma {:induction false} DigitsBelow(s: string)
    requires AllDigits(s)
    ensures DigitsValue(s) < Pow10(|s|)
  {
    if |s| > 0 {
      assert AllDigits(s[..|s| - 1]);
      DigitsBelow(s[..|s| - 1]);
      assert IsDigit(s[|s| - 1]);
    }
  }

  /** Reading the layout is the inverse of printing with it: a text parses to a date
      exactly when it is that date's printed form. */
  lemma ParseDateIff(s: string, d: Date)
    ensures ParseDate(s) == Some(d) <==> ValidDate(d) && s == DateText(d)
  {
    if ValidDate(d) && s == DateText(d) {
      var y, m, dd := Fixed(d.year, 4), Fixed(d.month, 2), Fixed(d.day, 2);
      assert s == y + "-" + m + "-" + dd;
      assert s[..4] == y && s[5..7] == m && s[8..] == dd;
      FixedRoundTrip(d.year, 4);
      FixedRoundTrip(d.month, 2);
      FixedRoundTrip(d.day, 2);
    }
    if ParseDate(s) == Some(d) {
      FixedOfDigits(s[..4]);
      FixedOfDigits(s[5..7]);
      FixedOfDigits(s[8..]);
      assert s == s[..4] + "-" + s[5..7] + "-" + s[8..];
    }
  }

  /** How the services read a requested birth date: the request's time printed by
      `String()` and parsed with the date layout. The printed time always carries its
      clock after the date, so the parse never succeeds and no birth date is stored. */
  function BirthDateAsWritten(t: Time): (r: Option<Date>)
    ensures r.None?
  {
    ParseDate(TimeString(t))
  }

  /** The evidently intended reading: the date printed with the layout it is parsed
      with, which keeps the request's calendar date. */
  function BirthDateOf(t: Time): (r: Option<Date>)
    ensures ValidDate(t.date) ==> r == Some(t.date)
  {
    ParseDateIff(DateText(t.date), t.date);
    ParseDate(DateText(t.date))
  }
}

/** The users table (server/models/user.go, server/repositories/user_repository.go).
    Username and email carry unique indexes, which soft-deleted rows keep holding, while
    every lookup skips soft-deleted rows. */
module UserStore {
  import opened Wrappers
  import Dates

  /** The database's answer to a row that would repeat an indexed key. */
  const DuplicateKey := "duplicated key not allowed"

  datatype User = User(
    id: nat, username: string, password: string, email: string, nickname: string, gender: string,
    birthDate: Option<Dates.Date>, height: Option<int>, weight: Option<int>, deleted: bool)

  predicate Live(users: seq<User>, id: nat) {
    1 <= id <= |users| && !users[id - 1].deleted
  }

  /** No two rows, deleted or not, share a username or an email. */
  predicate UniqueKeys(users: seq<User>) {
    forall i, j :: 0 <= i < j < |users| ==> users[i].username != users[j].username && users[i].email != users[j].email
  }

  /** Some row other than the one at `except` (deleted or not) holds the username or the
      email in its index. */
  predicate KeyClash(users: seq<User>, username: string, email: string, except: int) {
    exists i :: 0 <= i < |users| && i != except && (users[i].username == username || users[i].email == email)
  }

  /** `GetByID`. */
  function GetByID(users: seq<User>, id: nat): (r: Option<User>)
    ensures r.Some? <==> Live(users, id)
    ensures r.Some? ==> r.value == users[id - 1]
  {
    if Live(users, id) then Some(users[id - 1]) else None
  }

  /** `GetByUsername`: the first live row with the name. */
  function GetByUsername(users: seq<User>, username: string): (r: Option<User>)
    ensures r.Some? ==> r.value in users && r.value.username == username && !r.value.deleted
    ensures r.None? <==> forall u :: u in users && u.username == username ==> u.deleted
  {
    if users == [] then None
    else if users[0].username == username && !users[0].deleted then Some(users[0])
    else
      var rest := GetByUsername(users[1..], username);
      assert forall u :: u in users ==> u == users[0] || u in users[1..];
      rest
  }

  /** `ExistsByUsername`: the count of live rows with the name is positive. */
  predicate ExistsByUsername(users: seq<User>, username: string) {
    exists i :: 0 <= i < |users| && !users[i].deleted && users[i].username == username
  }

  /** `ExistsByEmail`. */
  predicate ExistsByEmail(users: seq<User>, email: string) {
    exists i :: 0 <= i < |users| && !users[i].deleted && users[i].email == email
  }

  /** With unique names, the row `GetByUsername` finds is the live row with the name. */
  lemma {:induction false} GetByUsernameFinds(users: seq<User>, k: nat)
    requires UniqueKeys(users) && k < |users| && !users[k].deleted
    ensures GetByUsername(users, users[k].username) == Some(users[k])
  {
    if k > 0 {
      assert users[0].username != users[k].username;
      assert UniqueKeys(users[1..]) by {
        forall i, j | 0 <= i < j < |users[1..]|
          ensures users[1..][i].username != users[1..][j].username && users[1..][i].email != users[1..][j].email
        {
          assert users[1..][i] == users[i + 1] && users[1..][j] == users[j + 1];
        }
      }
      assert users[1..][k - 1] == users[k];
      GetByUsernameFinds(users[1..], k - 1);
    }
  }

  /** The table: row `i` has id `i + 1`, and the unique indexes hold. */
  class UserRepository {
    var users: seq<User>

    ghost predicate Valid()
      reads this
    {
      && (forall i :: 0 <= i < |users| ==> users[i].id == i + 1)
      && UniqueKeys(users)
    }

    constructor ()
      ensures Valid() && users == []
    {
      users := [];
    }

    /** `Create`: refused when any row holds the username or the email; otherwise the
        next id. */
    method Create(user: User) returns (r: Result<nat, string>)
      requires Valid()
      modifies this
      ensures Valid()
      ensures KeyClash(old(users), user.username, user.email, -1) ==> r == Err(DuplicateKey) && users == old(users)
      ensures !KeyClash(old(users), user.username, user.email, -1) ==>
                r == Ok(|old(users)| + 1) && users == old(users) + [user.(id := |old(users)| + 1, deleted := false)]
    {
      var i := 0;
      while i < |users|
        invariant 0 <= i <= |users|
        invariant forall j :: 0 <= j < i ==> users[j].username != user.username && users[j].email != user.email
      {
        if users[i].username == user.username || users[i].email == user.email {
          return Err(DuplicateKey);
        }
        i := i + 1;
      }
      var id := |users| + 1;
      users := users + [user.(id := id, deleted := false)];
      r := Ok(id);
    }

    /** `Update` (`Save`) of a stored row: refused when another row holds its username
        or its email. */
    method Update(user: User) returns (err: Option<string>)
      requires Valid() && 1 <= user.id <= |users|
      modifies this
      ensures Valid()
      ensures KeyClash(old(users), user.username, user.email, user.id - 1) ==> err == Some(DuplicateKey) && users == old(users)
      ensures !KeyClash(old(users), user.username, user.email, user.id - 1) ==>
                err.None? && users == old(users)[user.id - 1 := user]
    {
      var i := 0;
      while i < |users|
        invariant 0 <= i <= |users|
        invariant forall j :: 0 <= j < i && j != user.id - 1 ==> users[j].username != user.username && users[j].email != user.email
      {
        if i != user.id - 1 && (users[i].username == user.username || users[i].email == user.email) {
          return Some(DuplicateKey);
        }
        i := i + 1;
      }
      users := users[user.id - 1 := user];
      err := None;
    }

    /** `Delete`: a soft delete; a missing or deleted id changes nothing. */
    method Delete(id: nat)
      requires Valid()
      modifies this
      ensures Valid() && |users| == |old(users)|
      ensures Live(old(users), id) ==> users == old(users)[id - 1 := old(users)[id - 1].(deleted := true)]
      ensures !Live(old(users), id) ==> users == old(users)
    {
      if Live(users, id) {
        users := users[id - 1 := users[id - 1].(deleted := true)];
      }
    }
  }

  /** A deleted user's name and email are free for the lookups but still held by the
      indexes, so a new account with either is refused by the database. */
  lemma DeletedKeysStayTaken(users: seq<User>, id: nat)
    requires UniqueKeys(users) && Live(users, id)
    ensures var u := users[id - 1];
            var after := users[id - 1 := u.(deleted := true)];
            && !ExistsByUsername(after, u.username) && !ExistsByEmail(after, u.email)
            && KeyClash(after, u.username, u.email, -1)
  {
    var u := users[id - 1];
    var after := users[id - 1 := u.(deleted := true)];
    assert after[id - 1].username == u.username;
    forall i | 0 <= i < |after| && after[i].username == u.username ensures after[i].deleted {
      assert i == id - 1;
    }
    forall i | 0 <= i < |after| && after[i].email == u.email ensures after[i].deleted {
      assert i == id - 1;
    }
  }
}

/** The user service (server/services/user_service.go). Password hashing and checking are
    the bcrypt helpers of server/utils, given here as a check function and the hash
    result. */
module UserService {
  import opened Wrappers
  import Dates
  import opened UserStore

  const NotFound := "user not found"
  const EmailTaken := "email already exists"
  const UpdateFailed := "failed to update user profile"
  const WrongPassword := "invalid old password"
  const HashFailed := "failed to hash new password"
  const PasswordSaveFailed := "failed to update password"
  const DeleteFailed := "failed to delete user"

  /** `UpdateProfileDTO`: every field is optional. */
  datatype UpdateRequest = UpdateRequest(
    nickname: Option<string>, email: Option<string>, gender: Option<string>,
    birthDate: Option<Dates.Time>, height: Option<int>, weight: Option<int>)

  /** A user as the service hands it out: without the password. */
  function Profile(u: User): (p: User)
    ensures p.password == "" && p.(password := u.password) == u
  {
    u.(password := "")
  }

  /** `GetProfile`. */
  function GetProfile(users: seq<User>, userId: nat): (r: Result<User, string>)
    ensures r.Ok? <==> Live(users, userId)
    ensures r.Ok? ==> r.value == Profile(users[userId - 1]) && r.value.password == ""
    ensures r.Err? ==> r.error == NotFound
  {
    match GetByID(users, userId)
    case None => Err(NotFound)
    case Some(u) => Ok(Profile(u))
  }

  /** The fields `UpdateProfile` writes once the email is cleared: each given field; the
      birth date through the parse the service performs. */
  function Patched(u: User, req: UpdateRequest): User {
    var birth := if req.birthDate.Some? then Dates.BirthDateAsWritten(req.birthDate.value) else None;
    u.(email := req.email.GetOr(u.email),
       nickname := req.nickname.GetOr(u.nickname),
       gender := req.gender.GetOr(u.gender),
       birthDate := if birth.Some? then birth else u.birthDate,
       height := if req.height.Some? then req.height else u.height,
       weight := if req.weight.Some? then req.weight else u.weight)
  }

  /** Only the given fields change; the birth date never does, because the requested time
      never parses; the empty request changes nothing. */
  lemma PatchedFields(u: User, req: UpdateRequest)
    ensures var p := Patched(u, req);
            && p.email == (if req.email.Some? then req.email.value else u.email)
            && p.nickname == (if req.nickname.Some? then req.nickname.value else u.nickname)
            && p.gender == (if req.gender.Some? then req.gender.value else u.gender)
            && p.height == (if req.height.Some? then req.height else u.height)
            && p.weight == (if req.weight.Some? then req.weight else u.weight)
            && p.birthDate == u.birthDate
            && p.(email := u.email, nickname := u.nickname, gender := u.gender, height := u.height, weight := u.weight) == u
    ensures Patched(u, UpdateRequest(None, None, None, None, None, None)) == u
  {
  }

  /** The email check of `UpdateProfile`: a new email held by a live user is refused. */
  predicate EmailRefused(users: seq<User>, u: User, req: UpdateRequest) {
    req.email.Some? && req.email.value != u.email && ExistsByEmail(users, req.email.value)
  }

  /** `UpdateProfile`. */
  method UpdateProfile(repo: UserRepository, userId: nat, req: UpdateRequest) returns (r: Result<User, string>)
    requires repo.Valid()
    modifies repo
    ensures repo.Valid()
    ensures !Live(old(repo.users), userId) ==> r == Err(NotFound) && repo.users == old(repo.users)
    ensures Live(old(repo.users), userId) && EmailRefused(old(repo.users), old(repo.users)[userId - 1], req) ==>
              r == Err(EmailTaken) && repo.users == old(repo.users)
    ensures Live(old(repo.users), userId) && !EmailRefused(old(repo.users), old(repo.users)[userId - 1], req) ==>
              var u := Patched(old(repo.users)[userId - 1], req);
              && (KeyClash(old(repo.users), u.username, u.email, userId - 1) ==>
                    r == Err(UpdateFailed) && repo.users == old(repo.users))
              && (!KeyClash(old(repo.users), u.username, u.email, userId - 1) ==>
                    r == Ok(Profile(u)) && repo.users == old(repo.users)[userId - 1 := u])
    ensures r.Ok? ==> r.value.password == ""
  {
    var found := GetByID(repo.users, userId);
    if found.None? {
      return Err(NotFound);
    }
    var user := found.value;
    if req.email.Some? && req.email.value != user.email {
      var taken := ExistsByEmail(repo.users, req.email.value);
      if taken {
        return Err(EmailTaken);
      }
      user := user.(email := req.email.value);
    }
    user := PatchDetails(user, req);
    assert user == Patched(found.value, req);
    var err := repo.Update(user);
    if err.Some? {
      return Err(UpdateFailed);
    }
    r := Ok(Profile(user));
  }

  /** The field-by-field updates of `UpdateProfile` after the email. */
  method PatchDetails(user0: User, req: UpdateRequest) returns (user: User)
    ensures user == Patched(user0, req.(email := None))
  {
    user := user0;
    if req.nickname.Some? && req.nickname.value != user.nickname {
      user := user.(nickname := req.nickname.value);
    }
    if req.gender.Some? && req.gender.value != user.gender {
      user := user.(gender := req.gender.value);
    }
    if req.birthDate.Some? {
      var parsed := Dates.BirthDateAsWritten(req.birthDate.value);
      if parsed.Some? {
        user := user.(birthDate := parsed);
      }
    }
    if req.height.Some? {
      user := user.(height := req.height);
    }
    if req.weight.Some? {
      user := user.(weight := req.weight);
    }
  }

  /** Past the service's own email check, the database refuses a profile update only for
      an email that a deleted user still holds. */
  lemma ProfileSaveClash(users: seq<User>, userId: nat, req: UpdateRequest)
    requires UniqueKeys(users) && Live(users, userId) && !EmailRefused(users, users[userId - 1], req)
    requires var u := Patched(users[userId - 1], req); KeyClash(users, u.username, u.email, userId - 1)
    ensures exists i :: 0 <= i < |users| && users[i].deleted && users[i].email == req.email.GetOr(users[userId - 1].email)
  {
    var u := Patched(users[userId - 1], req);
    var i :| 0 <= i < |users| && i != userId - 1 && (users[i].username == u.username || users[i].email == u.email);
    assert users[i].username != u.username;
    assert users[i].email == u.email;
    assert req.email.Some? && req.email.value != users[userId - 1].email;
  }

  /** `ChangePassword`: `check(password, hash)` is `CheckPassword` and `hashed` is what
      `HashPassword` returns for the new password. */
  method ChangePassword(repo: UserRepository, userId: nat, oldPassword: string,
                        check: (string, string) -> bool, hashed: Result<string, string>) returns (err: Option<string>)
    requires repo.Valid()
    modifies repo
    ensures repo.Valid()
    ensures !Live(old(repo.users), userId) ==> err == Some(NotFound) && repo.users == old(repo.users)
    ensures Live(old(repo.users), userId) && !check(oldPassword, old(repo.users)[userId - 1].password) ==>
              err == Some(WrongPassword) && repo.users == old(repo.users)
    ensures Live(old(repo.users), userId) && check(oldPassword, old(repo.users)[userId - 1].password) && hashed.Err? ==>
              err == Some(HashFailed) && repo.users == old(repo.users)
    ensures Live(old(repo.users), userId) && check(oldPassword, old(repo.users)[userId - 1].password) && hashed.Ok? ==>
              err.None? && repo.users == old(repo.users)[userId - 1 := old(repo.users)[userId - 1].(password := hashed.value)]
  {
    var found := GetByID(repo.users, userId);
    if found.None? {
      return Some(NotFound);
    }
    var user := found.value;
    if !check(oldPassword, user.password) {
      return Some(WrongPassword);
    }
    if hashed.Err? {
      return Some(HashFailed);
    }
    user := user.(password := hashed.value);
    assert !KeyClash(repo.users, user.username, user.email, userId - 1);
    var saved := repo.Update(user);
    if saved.Some? {
      return Some(PasswordSaveFailed);
    }
    err := None;
  }

  /** `DeleteUser`. */
  method DeleteUser(repo: UserRepository, userId: nat) returns (err: Option<string>)
    requires repo.Valid()
    modifies repo
    ensures repo.Valid()
    ensures err.None? <==> Live(old(repo.users), userId)
    ensures !Live(old(repo.users), userId) ==> err == Some(NotFound) && repo.users == old(repo.users)
    ensures Live(old(repo.users), userId) ==>
              repo.users == old(repo.users)[userId - 1 := old(repo.users)[userId - 1].(deleted := true)]
  {
    var found := GetByID(repo.users, userId);
    if found.None? {
      return Some(NotFound);
    }
    repo.Delete(userId);
    err := None;
  }
}

/** The authentication service (server/services/auth_service.go). Hashing, checking and
    token signing are the helpers of server/utils, given here as a check function and the
    results of the hash and the token generation. */
module AuthService {
  import opened Wrappers
  import Dates
  import opened UserStore
  import ApiErrors
  import CommonErrors

  const UsernameTaken := "username already exists"
  const EmailTaken := "email already exists"
  const BadCredentials := "invalid username or password"

  /** `RegisterDTO`. */
  datatype RegisterRequest = RegisterRequest(
    username: string, password: string, email: string, nickname: string, gender: string,
    birthDate: Option<Dates.Time>, height: Option<int>, weight: Option<int>)

  /** The row `Register` hands to `Create`: the stored password is the hash, and the
      nickname falls back to the username. */
  function NewUser(req: RegisterRequest, hash: string): (u: User)
    ensures u.password == hash && u.username == req.username && u.email == req.email
    ensures u.nickname == (if req.nickname == "" then req.username else req.nickname)
    ensures u.nickname != "" || req.username == ""
  {
    var birth := if req.birthDate.Some? then Dates.BirthDateAsWritten(req.birthDate.value) else None;
    User(0, req.username, hash, req.email, if req.nickname == "" then req.username else req.nickname,
         req.gender, birth, req.height, req.weight, false)
  }

  /** `Register`: the username is checked before the email; both checks see only live
      users, and the database refuses keys a deleted user still holds. */
  method Register(repo: UserRepository, req: RegisterRequest, hashed: Result<string, string>)
    returns (r: Result<User, ApiErrors.APIError>)
    requires repo.Valid()
    modifies repo
    ensures repo.Valid()
    ensures ExistsByUsername(old(repo.users), req.username) ==>
              r == Err(ApiErrors.NewInternalError(UsernameTaken, [])) && repo.users == old(repo.users)
    ensures !ExistsByUsername(old(repo.users), req.username) && ExistsByEmail(old(repo.users), req.email) ==>
              r == Err(ApiErrors.NewInternalError(EmailTaken, [])) && repo.users == old(repo.users)
    ensures !ExistsByUsername(old(repo.users), req.username) && !ExistsByEmail(old(repo.users), req.email) ==>
              && (hashed.Err? ==>
                    r == Err(ApiErrors.NewInternalError("failed to hash password", [hashed.error])) && repo.users == old(repo.users))
              && (hashed.Ok? && KeyClash(old(repo.users), req.username, req.email, -1) ==>
                    r == Err(ApiErrors.NewInternalError("failed to create user", [])) && repo.users == old(repo.users))
              && (hashed.Ok? && !KeyClash(old(repo.users), req.username, req.email, -1) ==>
                    var row := NewUser(req, hashed.value).(id := |old(repo.users)| + 1);
                    repo.users == old(repo.users) + [row] && r == Ok(row.(password := "")))
  {
    var taken := ExistsByUsername(repo.users, req.username);
    if taken {
      return Err(ApiErrors.NewInternalError(UsernameTaken, []));
    }
    taken := ExistsByEmail(repo.users, req.email);
    if taken {
      return Err(ApiErrors.NewInternalError(EmailTaken, []));
    }
    if hashed.Err? {
      return Err(ApiErrors.NewInternalError("failed to hash password", [hashed.error]));
    }
    var birthDate: Option<Dates.Date> := None;
    if req.birthDate.Some? {
      var parsed := Dates.BirthDateAsWritten(req.birthDate.value);
      if parsed.Some? {
        birthDate := parsed;
      }
    }
    var nickname := req.nickname;
    if nickname == "" {
      nickname := req.username;
    }
    var user := User(0, req.username, hashed.value, req.email, nickname, req.gender, birthDate, req.height, req.weight, false);
    var created := repo.Create(user);
    if created.Err? {
      return Err(ApiErrors.NewInternalError("failed to create user", []));
    }
    r := Ok(user.(id := created.value, password := ""));
  }

  /** `Login`: `check` is `CheckPassword` and `token` what `GenerateToken` returns for the
      user found. */
  function Login(users: seq<User>, username: string, password: string,
                 check: (string, string) -> bool, token: Result<string, string>): (r: Result<string, ApiErrors.APIError>)
    ensures r.Ok? <==> GetByUsername(users, username).Some? && check(password, GetByUsername(users, username).value.password) && token.Ok?
    ensures r.Ok? ==> r.value == token.value
    ensures GetByUsername(users, username).None? || !check(password, GetByUsername(users, username).value.password) ==>
              r == Err(ApiErrors.NewInternalError(BadCredentials, []))
    ensures r.Err? && r != Err(ApiErrors.NewInternalError(BadCredentials, [])) ==>
              r == Err(ApiErrors.NewInternalError("failed to generate token", []))
  {
    match GetByUsername(users, username)
    case None => Err(ApiErrors.NewInternalError(BadCredentials, []))
    case Some(u) =>
      if !check(password, u.password) then Err(ApiErrors.NewInternalError(BadCredentials, []))
      else match token
        case Err(_) => Err(ApiErrors.NewInternalError("failed to generate token", []))
        case Ok(t) => Ok(t)
  }

  /** An unknown user and a wrong password are answered alike, so the reply does not tell
      whether the account exists; the handler answers both with 401. */
  lemma LoginFailureUniform(users: seq<User>, unknown: string, known: string, password: string,
                            check: (string, string) -> bool, token: Result<string, string>)
    requires GetByUsername(users, unknown).None?
    requires GetByUsername(users, known).Some? && !check(password, GetByUsername(users, known).value.password)
    ensures Login(users, unknown, password, check, token) == Login(users, known, password, check, token)
    ensures CommonErrors.HandleError(CommonErrors.Other(ApiErrors.ErrorText(Login(users, unknown, password, check, token).error))).status == 401
  {
  }

  /** The conflicts of `Register` reach the handler as plain errors and are answered 409. */
  lemma RegisterConflictsAnswered()
    ensures CommonErrors.HandleError(CommonErrors.Other(ApiErrors.ErrorText(ApiErrors.NewInternalError(UsernameTaken, []))))
            == CommonErrors.Reply(409, map["error" := "Username already exists"])
    ensures CommonErrors.HandleError(CommonErrors.Other(ApiErrors.ErrorText(ApiErrors.NewInternalError(EmailTaken, []))))
            == CommonErrors.Reply(409, map["error" := "Email already exists"])
  {
  }

  /** A registered user can log in with the password whose hash was stored. */
  lemma RegisteredUserCanLogIn(users: seq<User>, req: RegisterRequest, hash: string,
                               check: (string, string) -> bool, token: string)
    requires UniqueKeys(users) && !KeyClash(users, req.username, req.email, -1) && check(req.password, hash)
    ensures var row := NewUser(req, hash).(id := |users| + 1);
            Login(users + [row], req.username, req.password, check, Ok(token)) == Ok(token)
  {
    var row := NewUser(req, hash).(id := |users| + 1);
    var all := users + [row];
    assert UniqueKeys(all) by {
      forall i, j | 0 <= i < j < |all| ensures all[i].username != all[j].username && all[i].email != all[j].email {
        assert all[i] == users[i];
        if j < |users| {
          assert all[j] == users[j];
        }
      }
    }
    GetByUsernameFinds(all, |users|);
  }

  /** After a password change, the user logs in with the new password. */
  lemma ChangedPasswordLogsIn(users: seq<User>, userId: nat, hash: string, newPassword: string,
                              check: (string, string) -> bool, token: string)
    requires UniqueKeys(users) && Live(users, userId) && check(newPassword, hash)
    ensures var u := users[userId - 1];
            Login(users[userId - 1 := u.(password := hash)], u.username, newPassword, check, Ok(token)) == Ok(token)
  {
    var u := users[userId - 1];
    var after := users[userId - 1 := u.(password := hash)];
    assert UniqueKeys(after) by {
      forall i, j | 0 <= i < j < |after| ensures after[i].username != after[j].username && after[i].email != after[j].email {
        assert after[i].username == users[i].username && after[i].email == users[i].email;
        assert after[j].username == users[j].username && after[j].email == users[j].email;
      }
    }
    GetByUsernameFinds(after, userId - 1);
  }

  /** `ValidateUser`: the user without the password. */
  function ValidateUser(users: seq<User>, userId: nat): (r: Result<User, ApiErrors.APIError>)
    ensures r.Ok? <==> Live(users, userId)
    ensures r.Ok? ==> r.value == users[userId - 1].(password := "")
    ensures r.Err? ==> r.error == ApiErrors.NewInternalError("user not found", [])
  {
    match GetByID(users, userId)
    case None => Err(ApiErrors.NewInternalError("user not found", []))
    case Some(u) => Ok(u.(password := ""))
  }

  /** `RefreshToken`: `token` is what `GenerateToken` returns for the user. */
  function RefreshToken(users: seq<User>, userId: nat, token: Result<string, string>): (r: Result<string, ApiErrors.APIError>)
    ensures r.Ok? <==> Live(users, userId) && token.Ok?
    ensures r.Ok? ==> r.value == token.value
    ensures !Live(users, userId) ==> r == Err(ApiErrors.NewInternalError("user not found", []))
    ensures Live(users, userId) && token.Err? ==> r == Err(ApiErrors.NewInternalError("failed to generate token", []))
  {
    match GetByID(users, userId)
    case None => Err(ApiErrors.NewInternalError("user not found", []))
    case Some(_) =>
      match token
      case Err(_) => Err(ApiErrors.NewInternalError("failed to generate token", []))
      case Ok(t) => Ok(t)
  }
}
