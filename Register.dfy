/** The registration page of the desktop client
    (client/what-to-wear-client/src/RegisterPage.tsx): the ordered validation chain,
    the e-mail pattern, `parseInt` of height and weight, and the payload posted to
    the server. The fetch itself is an outcome passed to `HandleResponse`. */
module Register {
  import opened Wrappers
  import Text

  // ---------------------------------------------------------------- e-mail pattern

  /** Position of the first `c` in `s`, or |s| when there is none. */
  function IndexOf(s: string, c: char): (k: nat)
    ensures k <= |s|
    ensures k < |s| ==> s[k] == c
    ensures forall i :: 0 <= i < k ==> s[i] != c
  {
    if |s| == 0 then 0 else if s[0] == c then 0 else 1 + IndexOf(s[1..], c)
  }

  /** A run of the class `[^\s@]`. The pattern has no `u` flag, so it reads UTF-16 code
      units; a character beyond U+FFFF is two surrogates, both in the class, so reading
      characters instead matches the same strings. */
  predicate NoSpaceOrAt(s: string) {
    forall i :: 0 <= i < |s| ==> !Text.IsSpace(Text.JavaScript, s[i]) && s[i] != '@'
  }

  /** `s` is `a@b.c` with `a`, `b`, `c` non-empty runs of `[^\s@]`, the '@' at `i` and
      the '.' at `j`. */
  predicate EmailSplit(s: string, i: int, j: int) {
    0 < i && i + 1 < j && j + 1 < |s| && s[i] == '@' && s[j] == '.'
    && NoSpaceOrAt(s[..i]) && NoSpaceOrAt(s[i + 1..j]) && NoSpaceOrAt(s[j + 1..])
  }

  /** What `/^[^\s@]+@[^\s@]+\.[^\s@]+$/` matches, stated as the existence of a split. */
  ghost predicate MatchesEmailPattern(s: string) {
    exists i, j :: EmailSplit(s, i, j)
  }

  /** A direct check: no white space, exactly one '@' with something before it, and a '.'
      after it that has characters on both sides. */
  function IsValidEmail(s: string): bool {
    var k := IndexOf(s, '@');
    0 < k && k + 4 <= |s|
    && (forall i :: 0 <= i < |s| ==> !Text.IsSpace(Text.JavaScript, s[i]))
    && '@' !in s[k + 1..]
    && '.' in s[k + 2..|s| - 1]
  }

  lemma EmailCheckMatchesPattern(s: string)
    ensures IsValidEmail(s) <==> MatchesEmailPattern(s)
  {
    var k := IndexOf(s, '@');
    if IsValidEmail(s) {
      var mid := s[k + 2..|s| - 1];
      var m :| 0 <= m < |mid| && mid[m] == '.';
      var j := k + 2 + m;
      assert s[j] == '.';
      forall t | k + 1 <= t < |s| ensures s[t] != '@' {
        assert s[t] == s[k + 1..][t - k - 1];
      }
      assert EmailSplit(s, k, j);
    }
    if MatchesEmailPattern(s) {
      var i, j :| EmailSplit(s, i, j);
      forall t | 0 <= t < i ensures s[t] != '@' && !Text.IsSpace(Text.JavaScript, s[t]) {
        assert s[t] == s[..i][t];
      }
      assert k == i;
      forall t | i < t < |s| ensures s[t] != '@' && !Text.IsSpace(Text.JavaScript, s[t]) {
        if t < j {
          assert s[t] == s[i + 1..j][t - i - 1];
        } else if t > j {
          assert s[t] == s[j + 1..][t - j - 1];
        }
      }
      assert s[k + 2..|s| - 1][j - k - 2] == '.';
    }
  }

  // ---------------------------------------------------------------- validation

  datatype RegisterForm = RegisterForm(username: string, email: string, password: string,
                                       confirmPassword: string, nickname: string, gender: string,
                                       birthDate: string, height: string, weight: string)

  const EmptyForm := RegisterForm("", "", "", "", "", "", "", "", "")

  /** `handleInputChange`: sets the named field; a name that is no field of the form
      takes no part in validation or in the payload. */
  function WithField(f: RegisterForm, name: string, value: string): RegisterForm {
    match name
    case "username" => f.(username := value)
    case "email" => f.(email := value)
    case "password" => f.(password := value)
    case "confirmPassword" => f.(confirmPassword := value)
    case "nickname" => f.(nickname := value)
    case "gender" => f.(gender := value)
    case "birthDate" => f.(birthDate := value)
    case "height" => f.(height := value)
    case "weight" => f.(weight := value)
    case _ => f
  }

  /** One guard of `validateForm`: whether it passes and the message it sets otherwise. */
  datatype Check = Check(passes: bool, message: string)

  /** The guards in the order `validateForm` tries them. Length checks count UTF-16
      code units of the untrimmed strings. */
  function Checks(f: RegisterForm): (cs: seq<Check>)
    ensures |cs| == 7
  {
    [ Check(Text.Trim(Text.JavaScript, f.username) != "", "请输入用户名"),
      Check(Text.Utf16Length(f.username) >= 3, "用户名至少需要3个字符"),
      Check(Text.Trim(Text.JavaScript, f.email) != "", "请输入邮箱地址"),
      Check(IsValidEmail(f.email), "请输入有效的邮箱地址"),
      Check(Text.Trim(Text.JavaScript, f.password) != "", "请输入密码"),
      Check(Text.Utf16Length(f.password) >= 6, "密码至少需要6个字符"),
      Check(f.password == f.confirmPassword, "两次输入的密码不一致") ]
  }

  /** The message of the first failing guard at index `k` or later, or None when all
      of them pass. */
  function FirstFailure(cs: seq<Check>, k: nat): Option<string>
    decreases |cs| - k
  {
    if k >= |cs| then None
    else if !cs[k].passes then Some(cs[k].message)
    else FirstFailure(cs, k + 1)
  }

  /** FirstFailure reports a failing guard all of whose predecessors pass, and nothing
      only when every guard passes. */
  lemma {:induction false} FirstFailureIsFirst(cs: seq<Check>, k: nat)
    ensures FirstFailure(cs, k).None? <==> forall i :: k <= i < |cs| ==> cs[i].passes
    ensures FirstFailure(cs, k).Some? ==>
      exists i :: k <= i < |cs| && !cs[i].passes && cs[i].message == FirstFailure(cs, k).value
                  && forall j :: k <= j < i ==> cs[j].passes
    decreases |cs| - k
  {
    if k < |cs| && cs[k].passes {
      FirstFailureIsFirst(cs, k + 1);
      if FirstFailure(cs, k + 1).Some? {
        var i :| k + 1 <= i < |cs| && !cs[i].passes && cs[i].message == FirstFailure(cs, k + 1).value
                 && forall j :: k + 1 <= j < i ==> cs[j].passes;
        assert forall j :: k <= j < i ==> cs[j].passes;
      }
    }
  }

  /** `validateForm`: None when the form is valid, otherwise the message it sets. */
  function ValidateForm(f: RegisterForm): (r: Option<string>)
    ensures r.None? <==>
      Text.Trim(Text.JavaScript, f.username) != "" && Text.Utf16Length(f.username) >= 3 && Text.Trim(Text.JavaScript, f.email) != ""
      && MatchesEmailPattern(f.email) && Text.Trim(Text.JavaScript, f.password) != "" && Text.Utf16Length(f.password) >= 6
      && f.password == f.confirmPassword
  {
    EmailCheckMatchesPattern(f.email);
    if Text.Trim(Text.JavaScript, f.username) == "" then Some("请输入用户名")
    else if Text.Utf16Length(f.username) < 3 then Some("用户名至少需要3个字符")
    else if Text.Trim(Text.JavaScript, f.email) == "" then Some("请输入邮箱地址")
    else if !IsValidEmail(f.email) then Some("请输入有效的邮箱地址")
    else if Text.Trim(Text.JavaScript, f.password) == "" then Some("请输入密码")
    else if Text.Utf16Length(f.password) < 6 then Some("密码至少需要6个字符")
    else if f.password != f.confirmPassword then Some("两次输入的密码不一致")
    else None
  }

  /** The message `validateForm` sets is that of the first failing guard in `Checks`. */
  lemma ValidateIsFirstFailure(f: RegisterForm)
    ensures ValidateForm(f) == FirstFailure(Checks(f), 0)
  {
    ValidateUnrolled(f, Checks(f));
  }

  /** `validateForm`'s chain of guards is `FirstFailure` unrolled over the seven checks. */
  lemma ValidateUnrolled(f: RegisterForm, cs: seq<Check>)
    requires cs == Checks(f)
    ensures ValidateForm(f) == FirstFailure(cs, 0)
  {
    var b0, b1, b2, b3, b4, b5, b6 := cs[0].passes, cs[1].passes, cs[2].passes, cs[3].passes,
                                      cs[4].passes, cs[5].passes, cs[6].passes;
    assert FirstFailure(cs, 7) == None;
    assert FirstFailure(cs, 6) == if b6 then None else Some(cs[6].message);
    assert FirstFailure(cs, 5) == if b5 then FirstFailure(cs, 6) else Some(cs[5].message);
    assert FirstFailure(cs, 4) == if b4 then FirstFailure(cs, 5) else Some(cs[4].message);
    assert FirstFailure(cs, 3) == if b3 then FirstFailure(cs, 4) else Some(cs[3].message);
    assert FirstFailure(cs, 2) == if b2 then FirstFailure(cs, 3) else Some(cs[2].message);
    assert FirstFailure(cs, 1) == if b1 then FirstFailure(cs, 2) else Some(cs[1].message);
    assert FirstFailure(cs, 0) == if b0 then FirstFailure(cs, 1) else Some(cs[0].message);
  }

  /** A user name of two spaces and a letter passes both user-name guards: the emptiness
      guard trims, the length guard does not. With the e-mail left blank, the first guard
      that fails is the e-mail one. */
  lemma PaddedUserNamePasses(f: RegisterForm)
    requires f.username == "  a" && f.email == ""
    ensures Text.Trim(Text.JavaScript, f.username) == "a"
    ensures Text.Utf16Length(f.username) == 3
    ensures ValidateForm(f) == Some("请输入邮箱地址")
  {
    var u := f.username;
    assert u[0] == ' ' && u[1] == ' ' && u[2] == 'a';
    assert Text.IsSpace(Text.JavaScript, u[0]) && Text.IsSpace(Text.JavaScript, u[1]);
    assert !Text.IsSpace(Text.JavaScript, u[2]);
    TwoLeadingSpaces(Text.JavaScript, u);
    assert u[2..] == "a";
    assert u[2..][1..] == [];
    assert Text.Utf16Length(u[2..]) == 1;
    assert u[1..][1..] == u[2..];
    assert Text.Utf16Length(u[1..]) == 2;
  }

  /** Two spaces and a character that is not one trim to that character. */
  lemma TwoLeadingSpaces(rt: Text.Runtime, s: string)
    requires |s| == 3 && Text.IsSpace(rt, s[0]) && Text.IsSpace(rt, s[1]) && !Text.IsSpace(rt, s[2])
    ensures Text.Trim(rt, s) == s[2..]
  {
    assert s[1..][0] == s[1] && s[1..][1..] == s[2..];
    assert Text.TrimStart(rt, s[2..]) == s[2..];
    assert Text.TrimStart(rt, s) == s[2..];
  }

  /** An emoji and a letter are three UTF-16 code units, so they pass the user-name
      length guard though they are two characters: with the e-mail left blank, the first
      guard that fails is the e-mail one. */
  lemma SurrogatePairCountsTwice(f: RegisterForm)
    requires f.username == "\U{1F600}a" && f.email == ""
    ensures |f.username| == 2 && Text.Utf16Length(f.username) == 3
    ensures ValidateForm(f) == Some("请输入邮箱地址")
  {
    var u := f.username;
    assert u[1..] == "a" && u[1..][1..] == [];
    assert Text.Utf16Length(u[1..]) == 1;
    assert u[0] as int > 0xFFFF;
    Text.AstralNotSpace(Text.JavaScript, u[0]);
    assert Text.TrimStart(Text.JavaScript, u) == u;
  }

  /** A user name made only of ideographic spaces is empty after trimming, so the first
      guard refuses it. */
  lemma IdeographicSpaceIsBlank(f: RegisterForm)
    requires f.username == "\U{3000}\U{3000}\U{3000}"
    ensures !Checks(f)[0].passes
    ensures ValidateForm(f) == Some("请输入用户名")
  {
    var u := f.username;
    Text.IdeographicSpaceIsSpace(Text.JavaScript);
    assert forall i :: 0 <= i < |u| ==> u[i] == '\U{3000}';
    Text.TrimEmptyIff(Text.JavaScript, u);
  }

  // ---------------------------------------------------------------- parseInt

  function HexDigitValue(c: char): (v: int)
  {
    if '0' <= c <= '9' then c as int - '0' as int
    else if 'a' <= c <= 'f' then c as int - 'a' as int + 10
    else if 'A' <= c <= 'F' then c as int - 'A' as int + 10
    else -1
  }

  predicate IsHexDigit(c: char) { HexDigitValue(c) >= 0 }

  /** The longest prefix of `s` made of decimal digits. */
  function DecimalPrefix(s: string): (r: string)
    ensures |r| <= |s| && r == s[..|r|]
    ensures Text.AllDigits(r)
    ensures |r| < |s| ==> !Text.IsDigit(s[|r|])
  {
    if |s| > 0 && Text.IsDigit(s[0]) then [s[0]] + DecimalPrefix(s[1..]) else ""
  }

  /** The longest prefix of `s` made of hexadecimal digits. */
  function HexPrefix(s: string): (r: string)
    ensures |r| <= |s| && r == s[..|r|]
    ensures forall i :: 0 <= i < |r| ==> IsHexDigit(r[i])
    ensures |r| < |s| ==> !IsHexDigit(s[|r|])
  {
    if |s| > 0 && IsHexDigit(s[0]) then [s[0]] + HexPrefix(s[1..]) else ""
  }

  function HexValue(s: string): nat
    requires forall i :: 0 <= i < |s| ==> IsHexDigit(s[i])
  {
    if |s| == 0 then 0
    else
      var d := HexDigitValue(s[|s| - 1]);
      assert IsHexDigit(s[|s| - 1]);
      HexValue(s[..|s| - 1]) * 16 + d
  }

  /** The number `parseInt` yields before serialisation: NaN, or an integer. */
  datatype IntValue = Null | NaN | Num(n: int)

  /** `parseInt(s)` with no radix: leading white space is skipped, one sign is read, a
      '0x'/'0X' prefix selects base 16, and the longest run of digits is read; no digit
      gives NaN. */
  function ParseIntJs(s: string): (r: IntValue)
    ensures r.NaN? || r.Num?
  {
    var t := Text.TrimStart(Text.JavaScript, s);
    var signed := |t| > 0 && (t[0] == '-' || t[0] == '+');
    var magnitude := ParseMagnitude(if signed then t[1..] else t);
    if magnitude.None? then NaN
    else if signed && t[0] == '-' then Num(-(magnitude.value as int))
    else Num(magnitude.value)
  }

  /** The digits after the sign: base 16 after '0x'/'0X', base 10 otherwise; None when
      there is no digit. */
  function ParseMagnitude(u: string): Option<nat> {
    if |u| >= 2 && u[0] == '0' && (u[1] == 'x' || u[1] == 'X') then
      var h := HexPrefix(u[2..]);
      if h == "" then None else Some(HexValue(h))
    else
      var d := DecimalPrefix(u);
      if d == "" then None else Some(Text.DigitsValue(d))
  }

  /** A run made only of digits is its own longest digit prefix. */
  lemma {:induction false} DecimalPrefixOfDigits(s: string)
    requires Text.AllDigits(s)
    ensures DecimalPrefix(s) == s
  {
    if |s| > 0 {
      DecimalPrefixOfDigits(s[1..]);
    }
  }

  /** `parseInt` reads back the decimal form of every integer. */
  lemma ParseIntRoundTrip(n: int)
    ensures ParseIntJs(Text.IntToString(n)) == Num(n)
  {
    var m: nat := if n < 0 then -n else n;
    var digits := Text.NatToString(m);
    Text.NatToStringRoundTrip(m);
    DecimalPrefixOfDigits(digits);
    assert ParseMagnitude(digits) == Some(m);
    var s := Text.IntToString(n);
    assert !Text.IsSpace(Text.JavaScript, s[0]);
    assert Text.TrimStart(Text.JavaScript, s) == s;
    if n < 0 {
      assert s == "-" + digits && s[0] == '-' && s[1..] == digits;
    } else {
      assert s == digits && Text.IsDigit(s[0]);
      assert !(s[0] == '-' || s[0] == '+');
    }
  }

  /** `parseInt` stops at the first character that is not a digit. */
  lemma ParseIntStopsAtNonDigit()
    ensures ParseIntJs("175.5") == Num(175)
  {
    var s := "175.5";
    assert s[0] == '1' && !Text.IsSpace(Text.JavaScript, s[0]);
    assert Text.TrimStart(Text.JavaScript, s) == s;
    DecimalPrefixExample();
    assert !(s[0] == '-' || s[0] == '+');
    assert ParseMagnitude(s) == Some(175);
  }

  lemma DecimalPrefixExample()
    ensures DecimalPrefix("175.5") == "175"
    ensures Text.DigitsValue("175") == 175
  {
    var s := "175.5";
    assert DecimalPrefix(s[3..]) == "";
    assert DecimalPrefix(s[2..]) == "5";
    assert DecimalPrefix(s[1..]) == "75";
    assert "175"[..2] == "17" && "17"[..1] == "1" && "1"[..0] == "";
  }

  /** Without a leading digit `parseInt` gives NaN. */
  lemma ParseIntNoDigit()
    ensures ParseIntJs("abc") == NaN
  {
    var s := "abc";
    assert s[0] == 'a' && !Text.IsSpace(Text.JavaScript, s[0]) && !Text.IsDigit(s[0]);
    assert Text.TrimStart(Text.JavaScript, s) == s;
    assert DecimalPrefix(s) == "";
    assert ParseMagnitude(s) == None;
  }

  /** How JSON.stringify writes the value: NaN becomes null. */
  function JsonNumber(v: IntValue): (r: Option<int>)
    ensures r.Some? <==> v.Num?
    ensures v.Num? ==> r == Some(v.n)
  {
    match v
    case Num(n) => Some(n)
    case _ => None
  }

  // ---------------------------------------------------------------- payload

  datatype RegisterData = RegisterData(username: string, password: string, email: string,
                                       nickname: string, gender: string, birthDate: string,
                                       height: IntValue, weight: IntValue)

  /** `height ? parseInt(height) : null`. */
  function OptionalInt(s: string): (v: IntValue)
    ensures s == "" <==> v.Null?
    ensures s != "" ==> v == ParseIntJs(s)
  {
    if s == "" then Null else ParseIntJs(s)
  }

  /** `registerData`: the nickname falls back to the user name when empty. */
  function Payload(f: RegisterForm): (d: RegisterData)
    ensures d.username == f.username && d.password == f.password && d.email == f.email
    ensures d.nickname == (if f.nickname != "" then f.nickname else f.username)
    ensures d.gender == f.gender && d.birthDate == f.birthDate
    ensures d.height == OptionalInt(f.height) && d.weight == OptionalInt(f.weight)
  {
    RegisterData(f.username, f.password, f.email,
                 if f.nickname != "" then f.nickname else f.username,
                 f.gender, f.birthDate, OptionalInt(f.height), OptionalInt(f.weight))
  }

  /** A height typed as the decimal form of an integer is posted as that integer. */
  lemma NumericHeightIsPosted(f: RegisterForm, h: int)
    requires f.height == Text.IntToString(h)
    ensures JsonNumber(Payload(f).height) == Some(h)
  {
    ParseIntRoundTrip(h);
  }

  /** What the fetch came back with: a response whose status is ok, an error response
      with its `error` field (absent is written "undefined"), or a thrown error. */
  datatype Outcome = Succeeded | Failed(error: Option<string>) | NetworkError

  function ResponseMessage(o: Outcome): (m: string)
    ensures o.Succeeded? ==> m == "注册成功！请登录"
    ensures o.Failed? ==> m == "注册失败: " + o.error.GetOr("undefined")
    ensures o.NetworkError? ==> m == "网络错误，请检查服务器连接"
  {
    match o
    case Succeeded => "注册成功！请登录"
    case Failed(e) => "注册失败: " + e.GetOr("undefined")
    case NetworkError => "网络错误，请检查服务器连接"
  }

  class RegisterPage {
    var formData: RegisterForm
    var message: string
    var isLoading: bool

    constructor ()
      ensures formData == EmptyForm && message == "" && !isLoading
    {
      formData := EmptyForm;
      message := "";
      isLoading := false;
    }

    method HandleInputChange(name: string, value: string)
      modifies this
      ensures formData == WithField(old(formData), name, value)
      ensures message == old(message) && isLoading == old(isLoading)
    {
      formData := WithField(formData, name, value);
    }

    /** `handleRegister` up to the fetch: the request it sends, if any. An invalid form
        sends nothing and shows the first failing guard's message. */
    method HandleRegister() returns (request: Option<RegisterData>)
      modifies this
      ensures formData == old(formData)
      ensures ValidateForm(formData).Some? ==>
        request.None? && message == ValidateForm(formData).value && isLoading == old(isLoading)
      ensures ValidateForm(formData).None? ==>
        request == Some(Payload(formData)) && message == "注册中..." && isLoading
    {
      var invalid := ValidateForm(formData);
      if invalid.Some? {
        message := invalid.value;
        return None;
      }
      isLoading := true;
      message := "注册中...";
      request := Some(Payload(formData));
    }

    /** The rest of `handleRegister`: the message for the outcome; `switchToLogin` is
        whether `onRegisterSuccess` is scheduled. */
    method HandleResponse(o: Outcome) returns (switchToLogin: bool)
      modifies this
      ensures message == ResponseMessage(o) && !isLoading && formData == old(formData)
      ensures switchToLogin <==> o.Succeeded?
    {
      message := ResponseMessage(o);
      isLoading := false;
      switchToLogin := o.Succeeded?;
    }
  }
}
