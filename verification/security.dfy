/**
 * The client's security utilities (`SecurityUtils` in frontend/src/utils/security.js):
 * the password, username and phone schemas, the rate-limit test, the cookie
 * writer's argument checks and defaults, CSRF validation and the hex encoding
 * of freshly generated CSRF tokens.
 */
module Security {
  import opened Js
  import opened Text

  // ---------------------------------------------------------------- password

  const MinLengthMessage := "Password must be at least 8 characters long"
  const UppercaseMessage := "Password must contain at least one uppercase letter"
  const LowercaseMessage := "Password must contain at least one lowercase letter"
  const DigitMessage := "Password must contain at least one number"
  const SpecialMessage := "Password must contain at least one special character"

  /** The class `[!@#$%^&*(),.?":{}|<>]` of the password schema. */
  predicate IsSpecial(c: char) {
    c in {'!', '@', '#', '$', '%', '^', '&', '*', '(', ')', ',', '.', '?', '"', ':', '{', '}', '|', '<', '>'}
  }

  /** Some character of `p` is in the class `cls`. */
  ghost predicate Has(p: string, cls: char -> bool) {
    exists i :: 0 <= i < |p| && cls(p[i])
  }

  /** Every issue the schema reports, in the order its checks are declared; all checks run. */
  function PasswordIssues(p: string): seq<string> {
    (if |p| < 8 then [MinLengthMessage] else [])
    + (if !Any(p, IsUpper) then [UppercaseMessage] else [])
    + (if !Any(p, IsLower) then [LowercaseMessage] else [])
    + (if !Any(p, IsDigit) then [DigitMessage] else [])
    + (if !Any(p, IsSpecial) then [SpecialMessage] else [])
  }

  /**
   * `validatePassword`: no message when the password meets all five rules,
   * otherwise the message of the first rule it breaks.
   */
  function ValidatePassword(p: string): (r: Option<string>)
    ensures r.None? <==> |p| >= 8 && Has(p, IsUpper) && Has(p, IsLower) && Has(p, IsDigit) && Has(p, IsSpecial)
    ensures |p| < 8 ==> r == Some(MinLengthMessage)
    ensures |p| >= 8 && !Has(p, IsUpper) ==> r == Some(UppercaseMessage)
    ensures |p| >= 8 && Has(p, IsUpper) && !Has(p, IsLower) ==> r == Some(LowercaseMessage)
    ensures |p| >= 8 && Has(p, IsUpper) && Has(p, IsLower) && !Has(p, IsDigit) ==> r == Some(DigitMessage)
    ensures |p| >= 8 && Has(p, IsUpper) && Has(p, IsLower) && Has(p, IsDigit) && !Has(p, IsSpecial)
      ==> r == Some(SpecialMessage)
  {
    var issues := PasswordIssues(p);
    if |issues| == 0 then None else Some(issues[0])
  }

  // ---------------------------------------------------------------- username

  const UsernameMessage := "Username must be 3-20 characters and can only contain letters, numbers, and underscores"

  /** `validateUsername`: the pattern `^[a-zA-Z0-9_]{3,20}$`, with its one fixed message. */
  function ValidateUsername(u: string): (r: Option<string>)
    ensures r.None? <==> 3 <= |u| <= 20 && forall i :: 0 <= i < |u| ==> IsWordChar(u[i])
    ensures r.Some? ==> r.value == UsernameMessage
  {
    if 3 <= |u| <= 20 && All(u, IsWordChar) then None else Some(UsernameMessage)
  }

  // ---------------------------------------------------------------- phone

  /**
   * One way for `s` to match `^\+?1?\d{9,15}$`: `plus` and `one` say whether the
   * optional `+` and `1` are taken, the rest being 9 to 15 digits.
   */
  predicate PhoneSplit(s: string, plus: bool, one: bool) {
    var a := if plus then 1 else 0;
    var b := a + (if one then 1 else 0);
    && b <= |s|
    && (plus ==> s[0] == '+')
    && (one ==> s[a] == '1')
    && All(s[b..], IsDigit)
    && 9 <= |s| - b <= 15
  }

  /** The phone pattern of the client schema (and of the server's `phone_regex`). */
  predicate PhoneMatches(s: string) {
    PhoneSplit(s, false, false) || PhoneSplit(s, false, true)
    || PhoneSplit(s, true, false) || PhoneSplit(s, true, true)
  }

  /** All characters of `d` are decimal digits. */
  ghost predicate Digits(d: string) {
    forall i :: 0 <= i < |d| ==> IsDigit(d[i])
  }

  /** The pattern in closed form: an optional `+`, then 9 to 15 digits, or 16 digits led by `1`. */
  ghost predicate PhoneShape(s: string) {
    var d := if |s| > 0 && s[0] == '+' then s[1..] else s;
    Digits(d) && (9 <= |d| <= 15 || (|d| == 16 && d[0] == '1'))
  }

  lemma PhoneMatchesShape(s: string)
    ensures PhoneMatches(s) <==> PhoneShape(s)
  {
    var plus := |s| > 0 && s[0] == '+';
    var d := if plus then s[1..] else s;
    if PhoneShape(s) {
      if 9 <= |d| <= 15 {
        assert s[(if plus then 1 else 0)..] == d;
        assert PhoneSplit(s, plus, false);
      } else {
        var a := if plus then 1 else 0;
        assert s[a + 1..] == d[1..];
        assert PhoneSplit(s, plus, true);
      }
    }
    if PhoneMatches(s) {
      if PhoneSplit(s, true, true) {
        assert d == [s[1]] + s[2..];
      } else if PhoneSplit(s, true, false) {
        assert d == s[1..];
      } else if PhoneSplit(s, false, true) {
        assert d == [s[0]] + s[1..];
      } else {
        assert d == s[0..];
      }
    }
  }

  /** `validatePhoneNumber`: an empty number passes; otherwise the phone pattern decides. */
  function ValidatePhoneNumber(number: string): (ok: bool)
    ensures number == "" ==> ok
    ensures number != "" ==> (ok <==> PhoneShape(number))
  {
    PhoneMatchesShape(number);
    if number == "" then true else PhoneMatches(number)
  }

  /** Every number the pattern accepts has at most 17 characters. */
  lemma PhoneLengthBound(s: string)
    requires s != "" && ValidatePhoneNumber(s)
    ensures |s| <= 17
  {
  }

  // ---------------------------------------------------------------- rate limit

  const DefaultDelay := 3000

  /**
   * `rateLimitCheck(lastAttempt, delay)` at clock reading `now` (milliseconds):
   * still limited while fewer than `delay` milliseconds have passed; a missing
   * delay means 3000, and any non-number argument fails safe to limited.
   */
  function RateLimitCheck(lastAttempt: Value, delay: Value, now: int): (limited: bool)
    ensures !lastAttempt.Num? ==> limited
    ensures !delay.Num? && !delay.Undefined? ==> limited
    ensures lastAttempt.Num? && delay.Num? ==> (limited <==> now - lastAttempt.n < delay.n)
    ensures lastAttempt.Num? && delay.Undefined? ==> (limited <==> now - lastAttempt.n < DefaultDelay)
  {
    var d := if delay.Undefined? then Num(DefaultDelay) else delay;
    if !lastAttempt.Num? || !d.Num? then true
    else now - lastAttempt.n < d.n
  }

  /** Once an attempt is no longer limited, it stays unlimited as the clock advances. */
  lemma RateLimitReleases(lastAttempt: Value, delay: Value, now: int, later: int)
    requires now <= later
    requires !RateLimitCheck(lastAttempt, delay, now)
    ensures !RateLimitCheck(lastAttempt, delay, later)
  {
  }

  // ---------------------------------------------------------------- cookies

  const InvalidCookieNameMessage := "Invalid cookie name"
  const NullCookieValueMessage := "Cookie value cannot be null or undefined"

  /** The caller's cookie options; `None` is a key the caller did not pass. */
  datatype CookieOptions = CookieOptions(
    expires: Option<int>, path: Option<string>, sameSite: Option<string>,
    secure: Option<bool>, httpOnly: Option<bool>)

  const NoOptions := CookieOptions(None, None, None, None, None)

  /** The attributes the cookie is written with; `expires` counts days. */
  datatype CookieAttributes = CookieAttributes(
    expires: int, path: string, sameSite: string, secure: bool, httpOnly: Option<bool>)

  datatype CookieWrite = CookieWrite(name: string, value: Value, attributes: CookieAttributes)

  function OptionOr<T>(o: Option<T>, fallback: T): T {
    if o.Some? then o.value else fallback
  }

  /**
   * `setCookie(name, value, options)` on a page served over HTTPS or not: the
   * name must be a non-empty string and the value neither `null` nor
   * `undefined`; the defaults (365 days, path `/`, `Strict`, secure on HTTPS)
   * are overridden by every option the caller passes.
   */
  function SetCookie(name: Value, value: Value, options: CookieOptions, https: bool): (r: Result<CookieWrite>)
    ensures !Truthy(name) || !name.Str? ==> r == Err(InvalidCookieNameMessage)
    ensures name.Str? && name.s != "" && Nullish(value) ==> r == Err(NullCookieValueMessage)
    ensures r.Ok? <==> name.Str? && name.s != "" && !Nullish(value)
    ensures r.Ok? ==> r.value.name == name.s && r.value.value == value
    ensures r.Ok? ==> r.value.attributes.expires == (if options.expires.Some? then options.expires.value else 365)
    ensures r.Ok? ==> r.value.attributes.path == (if options.path.Some? then options.path.value else "/")
    ensures r.Ok? ==> r.value.attributes.sameSite == (if options.sameSite.Some? then options.sameSite.value else "Strict")
    ensures r.Ok? ==> r.value.attributes.secure == (if options.secure.Some? then options.secure.value else https)
    ensures r.Ok? ==> r.value.attributes.httpOnly == options.httpOnly
  {
    if !Truthy(name) || !name.Str? then Err(InvalidCookieNameMessage)
    else if Nullish(value) then Err(NullCookieValueMessage)
    else
      var defaults := CookieAttributes(365, "/", "Strict", https, None);
      Ok(CookieWrite(name.s, value, CookieAttributes(
        OptionOr(options.expires, defaults.expires),
        OptionOr(options.path, defaults.path),
        OptionOr(options.sameSite, defaults.sameSite),
        OptionOr(options.secure, defaults.secure),
        if options.httpOnly.Some? then options.httpOnly else defaults.httpOnly)))
  }

  // ---------------------------------------------------------------- CSRF

  /** `getCSRFToken`: the meta tag's content, or `null` when the tag is absent or empty. */
  function GetCsrfToken(meta: Option<string>): (r: Option<string>)
    ensures r.Some? <==> meta.Some? && meta.value != ""
    ensures r.Some? ==> r == meta
  {
    if meta.Some? && meta.value != "" then meta else None
  }

  /** `csrfConfig.validateCSRF(token)` against the page's meta tag. */
  function ValidateCsrf(token: Value, meta: Option<string>): (ok: bool)
    ensures ok <==> token.Str? && token.s != "" && meta == Some(token.s)
  {
    if !Truthy(token) || !token.Str? then false
    else
      var stored := GetCsrfToken(meta);
      stored.Some? && stored.value == token.s
  }

  // ---------------------------------------------------------------- hex tokens

  type byte = b: int | 0 <= b < 256

  predicate IsHexChar(c: char) {
    IsDigit(c) || 'a' <= c <= 'f'
  }

  function HexDigit(n: int): (c: char)
    requires 0 <= n < 16
    ensures IsHexChar(c)
  {
    if n < 10 then ('0' as int + n) as char else ('a' as int + n - 10) as char
  }

  /** `n.toString(16)`: base-16 digits without leading zeros. */
  function ToBase16(n: nat): (r: string)
    decreases n
  {
    if n < 16 then [HexDigit(n)] else ToBase16(n / 16) + [HexDigit(n % 16)]
  }

  /** `s.padStart(width, fill)`. */
  function PadStart(s: string, width: nat, fill: char): (r: string)
    decreases width - |s|
  {
    if |s| >= width then s else PadStart([fill] + s, width, fill)
  }

  /** One byte of a token: `byte.toString(16).padStart(2, '0')` is always its two hex digits. */
  function ByteToHex(b: byte): (r: string)
    ensures r == [HexDigit(b / 16), HexDigit(b % 16)]
  {
    assert b < 16 ==> PadStart(ToBase16(b), 2, '0') == PadStart(['0', HexDigit(b)], 2, '0');
    assert b >= 16 ==> ToBase16(b / 16) == [HexDigit(b / 16)];
    PadStart(ToBase16(b), 2, '0')
  }

  /** `Array.from(bytes, ByteToHex).join('')`. */
  function EncodeHex(bytes: seq<byte>): (r: string)
    ensures |r| == 2 * |bytes|
    ensures forall i :: 0 <= i < |r| ==> IsHexChar(r[i])
    decreases |bytes|
  {
    if |bytes| == 0 then "" else ByteToHex(bytes[0]) + EncodeHex(bytes[1..])
  }

  /** The value of a lower-case hex digit. */
  function HexValue(c: char): (r: Option<int>)
    ensures r.Some? <==> IsHexChar(c)
    ensures r.Some? ==> 0 <= r.value < 16 && HexDigit(r.value) == c
    ensures forall n :: 0 <= n < 16 && c == HexDigit(n) ==> r == Some(n)
  {
    if IsDigit(c) then Some(c as int - '0' as int)
    else if 'a' <= c <= 'f' then Some(c as int - 'a' as int + 10)
    else None
  }

  /** Reads a token back into its bytes, two lower-case hex digits per byte. */
  function DecodeHex(s: string): (r: Option<seq<byte>>)
    decreases |s|
  {
    if |s| == 0 then Some([])
    else if |s| == 1 then None
    else
      var hi := HexValue(s[0]);
      var lo := HexValue(s[1]);
      var rest := DecodeHex(s[2..]);
      if hi.None? || lo.None? || rest.None? then None
      else Some([hi.value * 16 + lo.value] + rest.value)
  }

  lemma {:induction false} DecodeEncode(bytes: seq<byte>)
    ensures DecodeHex(EncodeHex(bytes)) == Some(bytes)
    decreases |bytes|
  {
    if |bytes| > 0 {
      var b, tail := bytes[0], EncodeHex(bytes[1..]);
      var s := EncodeHex(bytes);
      assert s == ByteToHex(b) + tail;
      assert s[0] == HexDigit(b / 16) && s[1] == HexDigit(b % 16) && s[2..] == tail;
      HexDigitsOfByte(b);
      DecodeEncode(bytes[1..]);
      assert bytes == [b] + bytes[1..];
    }
  }

  lemma HexDigitsOfByte(b: byte)
    ensures HexValue(HexDigit(b / 16)) == Some(b / 16) && HexValue(HexDigit(b % 16)) == Some(b % 16)
    ensures b / 16 * 16 + b % 16 == b
  {
    var hi, lo := HexValue(HexDigit(b / 16)), HexValue(HexDigit(b % 16));
  }

  lemma {:induction false} EncodeDecode(s: string)
    requires DecodeHex(s).Some?
    ensures EncodeHex(DecodeHex(s).value) == s
    decreases |s|
  {
    if |s| > 0 {
      var bytes := DecodeHex(s).value;
      EncodeDecode(s[2..]);
      var b := HexValue(s[0]).value * 16 + HexValue(s[1]).value;
      assert bytes[0] == b && bytes[1..] == DecodeHex(s[2..]).value;
      assert b / 16 == HexValue(s[0]).value && b % 16 == HexValue(s[1]).value;
      assert s == [s[0], s[1]] + s[2..];
    }
  }

  const TokenBytes := 32

  /**
   * `csrf.generateToken()`, the random source being the 32 bytes
   * `crypto.getRandomValues` filled in: a 64-character lower-case hex string
   * from which the bytes can be read back.
   */
  function GenerateToken(random: seq<byte>): (token: string)
    requires |random| == TokenBytes
    ensures |token| == 2 * TokenBytes
    ensures forall i :: 0 <= i < |token| ==> IsHexChar(token[i])
    ensures DecodeHex(token) == Some(random)
  {
    DecodeEncode(random);
    EncodeHex(random)
  }

  /**
   * After `initCSRF` puts a fresh token in the meta tag, `validateCSRF`
   * accepts exactly that token.
   */
  lemma CsrfAcceptsOnlyInitialisedToken(random: seq<byte>, token: Value)
    requires |random| == TokenBytes
    ensures ValidateCsrf(token, Some(GenerateToken(random))) <==> token == Str(GenerateToken(random))
  {
  }

  /** `initCSRF` writes its cookie secure and HTTP-only whatever the page's protocol. */
  lemma CsrfCookieAlwaysSecure(random: seq<byte>, https: bool)
    requires |random| == TokenBytes
    ensures var w := SetCookie(Str("csrf_token"), Str(GenerateToken(random)),
                               CookieOptions(None, None, Some("Strict"), Some(true), Some(true)), https);
            w.Ok? && w.value.attributes.secure && w.value.attributes.httpOnly == Some(true)
            && w.value.attributes.expires == 365
  {
  }
}
