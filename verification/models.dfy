/**
 * The persistent records of backend/cliquepay/models.py and the constraints
 * the database enforces on them: canonical, unique friendship pairs; unique
 * group memberships; the phone-number field; the two-decimal money fields of
 * `Expense`; and the defaults of a new `User`.
 */
module Models {
  import opened Js
  import opened Text
  import Security

  // ---------------------------------------------------------------- ordering of ids

  /** Code-point lexicographic order on string ids, the `<` of the `force_user_order` check. */
  predicate LexLess(a: string, b: string)
    decreases |a|
  {
    if |a| == 0 then |b| > 0
    else if |b| == 0 then false
    else a[0] < b[0] || (a[0] == b[0] && LexLess(a[1..], b[1..]))
  }

  lemma {:induction false} LexLessAsymmetric(a: string, b: string)
    ensures LexLess(a, b) ==> !LexLess(b, a)
    decreases |a|
  {
    if |a| > 0 && |b| > 0 && a[0] == b[0] {
      LexLessAsymmetric(a[1..], b[1..]);
    }
  }

  /** Any two distinct ids can be stored in exactly one canonical order. */
  lemma {:induction false} LexLessTotal(a: string, b: string)
    ensures a != b ==> LexLess(a, b) || LexLess(b, a)
    decreases |a|
  {
    if |a| > 0 && |b| > 0 && a[0] == b[0] {
      LexLessTotal(a[1..], b[1..]);
      if a != b {
        assert a == [a[0]] + a[1..] && b == [b[0]] + b[1..];
      }
    }
  }

  // ---------------------------------------------------------------- users

  const DefaultFullName := "Unnamed User"
  const DefaultCurrency := "USD"
  const DefaultAvatarUrl := "https://storage.cloud.google.com/cliquepay_profile_photo_bucket/Default_pfp.jpg"

  datatype User = User(
    id: string, cognitoId: string, fullName: string, name: string, email: string,
    phoneNumber: Option<string>, avatarUrl: string, currency: string,
    createdAt: int, updatedAt: int)

  /**
   * A `User` row as the ORM creates it: the columns the caller leaves out take
   * their declared defaults, and `created_at` (`auto_now_add`) and `updated_at`
   * (`auto_now`) each take their own reading of the clock.
   */
  function NewUser(id: string, cognitoId: string, name: string, email: string,
                   fullName: Option<string>, phoneNumber: Option<string>,
                   createdAt: int, updatedAt: int): (u: User)
    ensures u.id == id && u.cognitoId == cognitoId && u.name == name && u.email == email
    ensures u.phoneNumber == phoneNumber
    ensures fullName.None? ==> u.fullName == DefaultFullName
    ensures fullName.Some? ==> u.fullName == fullName.value
    ensures u.currency == DefaultCurrency && u.avatarUrl == DefaultAvatarUrl
    ensures u.createdAt == createdAt && u.updatedAt == updatedAt
  {
    User(id, cognitoId, if fullName.Some? then fullName.value else DefaultFullName,
         name, email, phoneNumber, DefaultAvatarUrl, DefaultCurrency, createdAt, updatedAt)
  }

  // ---------------------------------------------------------------- the phone field

  /**
   * One way for `^\+?1?\d{9,15}` to match all of `s` under Python's `re`: as in
   * `Security.PhoneSplit`, except that `\d` is Python's Unicode class of
   * decimal digits, passed in as `isDecimal` (it holds the ASCII digits and
   * also, among others, the Arabic-Indic digits U+0660 to U+0669).
   */
  predicate PySplit(s: string, plus: bool, one: bool, isDecimal: char -> bool) {
    var a := if plus then 1 else 0;
    var b := a + (if one then 1 else 0);
    && b <= |s|
    && (plus ==> s[0] == '+')
    && (one ==> s[a] == '1')
    && All(s[b..], isDecimal)
    && 9 <= |s| - b <= 15
  }

  /** Some choice of the optional `+` and `1` lets the pattern cover all of `s`. */
  predicate PyCovers(s: string, isDecimal: char -> bool) {
    PySplit(s, false, false, isDecimal) || PySplit(s, false, true, isDecimal)
    || PySplit(s, true, false, isDecimal) || PySplit(s, true, true, isDecimal)
  }

  /**
   * `RegexValidator` runs `re.search`, and Python's `$` also matches just before
   * a newline that ends the string: the pattern accepts `s` when it covers `s`
   * or `s` without one final `\n`.
   */
  predicate PhoneRegexAccepts(s: string, isDecimal: char -> bool) {
    PyCovers(s, isDecimal) || (|s| > 0 && s[|s| - 1] == '\n' && PyCovers(s[..|s| - 1], isDecimal))
  }

  /** Python's `\d` holds at least the ASCII digits. */
  predicate HoldsAsciiDigits(isDecimal: char -> bool) {
    forall c :: IsDigit(c) ==> isDecimal(c)
  }

  /**
   * The `phone_number` field's validation as written: `null` and blank are
   * allowed, anything else must fit 16 characters and be accepted by
   * `phone_regex` under Python's regular-expression semantics.
   */
  predicate PhoneFieldAccepts(phone: Option<string>, isDecimal: char -> bool) {
    phone.None? || phone.value == "" || (|phone.value| <= 16 && PhoneRegexAccepts(phone.value, isDecimal))
  }

  /**
   * The validation the field evidently intends, and the one the rest of the
   * model uses: the pattern must cover the whole value and `\d` means an
   * ASCII digit, as in the signup form's copy of the same pattern.
   */
  predicate PhoneFieldValid(phone: Option<string>) {
    phone.None? || phone.value == "" || (|phone.value| <= 16 && Security.PhoneMatches(phone.value))
  }

  /** The intended validation only narrows the written one. */
  lemma PhoneFieldValidNarrows(phone: Option<string>, isDecimal: char -> bool)
    requires HoldsAsciiDigits(isDecimal)
    ensures PhoneFieldValid(phone) ==> PhoneFieldAccepts(phone, isDecimal)
  {
    if phone.Some? && phone.value != "" && PhoneFieldValid(phone) {
      var s := phone.value;
      forall plus: bool, one: bool | Security.PhoneSplit(s, plus, one)
        ensures PySplit(s, plus, one, isDecimal)
      {
        var b := (if plus then 1 else 0) + (if one then 1 else 0);
        assert forall i :: 0 <= i < |s[b..]| ==> IsDigit(s[b..][i]);
      }
      assert PyCovers(s, isDecimal);
    }
  }

  /** A number the intended field accepts is one the signup form accepts too. */
  lemma ServerPhoneAcceptedByClient(phone: string)
    requires PhoneFieldValid(Some(phone))
    ensures Security.ValidatePhoneNumber(phone)
  {
  }

  /**
   * As written, the field accepts nine digits followed by a newline, which the
   * signup form's pattern (a JavaScript `$`) rejects.
   */
  lemma ServerAcceptsTrailingNewline(isDecimal: char -> bool)
    requires HoldsAsciiDigits(isDecimal)
    ensures var p := "123456789\n";
            PhoneFieldAccepts(Some(p), isDecimal) && !PhoneFieldValid(Some(p))
            && !Security.ValidatePhoneNumber(p)
  {
    var p := "123456789\n";
    assert p[..|p| - 1] == "123456789";
    PyCoversDecimals("123456789", isDecimal);
    NonDigitRejected(p, 9);
  }

  /** As written, the field also accepts nine Arabic-Indic digits, which the form rejects. */
  lemma ServerAcceptsArabicIndicDigits(isDecimal: char -> bool)
    requires forall c :: '\U{0660}' <= c <= '\U{0669}' ==> isDecimal(c)
    ensures var p := "\U{0661}\U{0662}\U{0663}\U{0664}\U{0665}\U{0666}\U{0667}\U{0668}\U{0669}";
            PhoneFieldAccepts(Some(p), isDecimal) && !PhoneFieldValid(Some(p))
            && !Security.ValidatePhoneNumber(p)
  {
    var p := "\U{0661}\U{0662}\U{0663}\U{0664}\U{0665}\U{0666}\U{0667}\U{0668}\U{0669}";
    PyCoversDecimals(p, isDecimal);
    NonDigitRejected(p, 0);
  }

  /** Nine to fifteen decimal digits, and nothing else, are covered by the pattern. */
  lemma PyCoversDecimals(s: string, isDecimal: char -> bool)
    requires 9 <= |s| <= 15 && forall i :: 0 <= i < |s| ==> isDecimal(s[i])
    ensures PyCovers(s, isDecimal)
  {
    assert s[0..] == s;
    assert PySplit(s, false, false, isDecimal);
  }

  /** A value with a character that is neither an ASCII digit nor `+` fails the form and the intended field. */
  lemma NonDigitRejected(s: string, i: int)
    requires 0 <= i < |s| && !IsDigit(s[i]) && s[i] != '+'
    ensures !Security.ValidatePhoneNumber(s) && !PhoneFieldValid(Some(s))
  {
    if Security.PhoneShape(s) {
      var d := if s[0] == '+' then s[1..] else s;
      if s[0] == '+' {
        assert d[i - 1] == s[i];
      } else {
        assert d[i] == s[i];
      }
    }
    Security.PhoneMatchesShape(s);
  }

  /**
   * Neither is the form stricter in length: `+1` followed by any fifteen digits
   * matches the shared pattern, so the form accepts it, but its 17 characters
   * exceed the field, as written or as intended.
   */
  lemma ClientAcceptsTooLongPhone(digits: string, isDecimal: char -> bool)
    requires |digits| == 15 && Security.Digits(digits)
    ensures var p := "+1" + digits;
            Security.ValidatePhoneNumber(p) && !PhoneFieldValid(Some(p)) && !PhoneFieldAccepts(Some(p), isDecimal)
  {
    var p := "+1" + digits;
    var d := p[1..];
    assert d == "1" + digits;
    assert forall i :: 1 <= i < |d| ==> d[i] == digits[i - 1];
    assert Security.PhoneShape(p);
  }

  // ---------------------------------------------------------------- friendships

  const StatusPending := "pending"
  const StatusAccepted := "accepted"
  const StatusBlocked := "blocked"

  /** The declared `STATUS_CHOICES`. */
  predicate IsStatusChoice(status: string) {
    status in {StatusPending, StatusAccepted, StatusBlocked}
  }

  datatype Friendship = Friendship(
    id: string, user1: string, user2: string, status: string, createdAt: int, actionUser: string)

  /** A new friendship row: without an explicit status it is pending. */
  function NewFriendship(id: string, user1: string, user2: string, actionUser: string,
                         status: Option<string>, now: int): (f: Friendship)
    ensures status.None? ==> f.status == StatusPending
    ensures status.Some? ==> f.status == status.value
    ensures f.user1 == user1 && f.user2 == user2 && f.actionUser == actionUser && f.createdAt == now
  {
    Friendship(id, user1, user2, if status.Some? then status.value else StatusPending, now, actionUser)
  }

  /** The friendship joins users `a` and `b`, in either column. */
  predicate Joins(f: Friendship, a: string, b: string) {
    (f.user1 == a && f.user2 == b) || (f.user1 == b && f.user2 == a)
  }

  /** The `force_user_order` check and the `unique_friendship` constraint over a table. */
  predicate FriendshipsValid(fs: seq<Friendship>) {
    && (forall i :: 0 <= i < |fs| ==> LexLess(fs[i].user1, fs[i].user2))
    && (forall i, j :: 0 <= i < j < |fs| ==> fs[i].user1 != fs[j].user1 || fs[i].user2 != fs[j].user2)
  }

  const ForceUserOrder := "force_user_order"
  const UniqueFriendship := "unique_friendship"
  const ForeignKeyViolation := "foreign_key_violation"

  /** The three `ForeignKey` columns of the row name users of the table `users`. */
  predicate FriendshipRefsResolve(f: Friendship, users: set<string>) {
    f.user1 in users && f.user2 in users && f.actionUser in users
  }

  /**
   * Inserting a row into `friendships` when the `users` table holds the ids
   * `users`: the database rejects it, naming the violated constraint, unless it
   * is in canonical order, its pair is new and its three foreign keys resolve.
   * The foreign keys are checked last, as the deferred constraints they are.
   */
  function InsertFriendship(users: set<string>, fs: seq<Friendship>, f: Friendship): (r: Result<seq<Friendship>>)
    ensures !LexLess(f.user1, f.user2) ==> r == Err(ForceUserOrder)
    ensures r.Ok? <==>
              (LexLess(f.user1, f.user2)
               && (forall i :: 0 <= i < |fs| ==> fs[i].user1 != f.user1 || fs[i].user2 != f.user2)
               && FriendshipRefsResolve(f, users))
    ensures r.Err? && r.message == ForeignKeyViolation ==> !FriendshipRefsResolve(f, users)
    ensures r.Ok? ==> r.value == fs + [f]
    ensures FriendshipsValid(fs) && r.Ok? ==> FriendshipsValid(r.value)
  {
    if !LexLess(f.user1, f.user2) then Err(ForceUserOrder)
    else if exists i :: 0 <= i < |fs| && fs[i].user1 == f.user1 && fs[i].user2 == f.user2 then Err(UniqueFriendship)
    else if !FriendshipRefsResolve(f, users) then Err(ForeignKeyViolation)
    else Ok(fs + [f])
  }

  /** In a valid table two users are joined by at most one friendship, whichever column each is in. */
  lemma AtMostOneFriendshipPerPair(fs: seq<Friendship>, a: string, b: string, i: int, j: int)
    requires FriendshipsValid(fs)
    requires 0 <= i < |fs| && 0 <= j < |fs|
    requires Joins(fs[i], a, b) && Joins(fs[j], a, b)
    ensures i == j
  {
    LexLessAsymmetric(a, b);
  }

  // ---------------------------------------------------------------- group membership

  datatype GroupMember = GroupMember(id: nat, group: string, user: string, createdAt: int)

  /** The `unique_group_membership` constraint over a table. */
  predicate MembershipsValid(ms: seq<GroupMember>) {
    forall i, j :: 0 <= i < j < |ms| ==> ms[i].user != ms[j].user || ms[i].group != ms[j].group
  }

  const UniqueGroupMembership := "unique_group_membership"

  /**
   * Inserting a membership row when the `users` and `groups` tables hold the
   * given ids: rejected when the user is already in the group, and otherwise
   * when the row's `user` or `group` foreign key does not resolve.
   */
  function InsertMember(users: set<string>, groups: set<string>, ms: seq<GroupMember>, m: GroupMember)
    : (r: Result<seq<GroupMember>>)
    ensures r.Ok? <==>
              (forall i :: 0 <= i < |ms| ==> ms[i].user != m.user || ms[i].group != m.group)
              && m.user in users && m.group in groups
    ensures r.Err? ==> r.message == UniqueGroupMembership || r.message == ForeignKeyViolation
    ensures r.Err? && r.message == ForeignKeyViolation ==> m.user !in users || m.group !in groups
    ensures r.Ok? ==> r.value == ms + [m]
    ensures MembershipsValid(ms) && r.Ok? ==> MembershipsValid(r.value)
  {
    if exists i :: 0 <= i < |ms| && ms[i].user == m.user && ms[i].group == m.group then Err(UniqueGroupMembership)
    else if m.user !in users || m.group !in groups then Err(ForeignKeyViolation)
    else Ok(ms + [m])
  }

  /** In a valid table a user is a member of a given group at most once. */
  lemma MemberAtMostOnce(ms: seq<GroupMember>, user: string, group: string, i: int, j: int)
    requires MembershipsValid(ms)
    requires 0 <= i < |ms| && 0 <= j < |ms|
    requires ms[i].user == user && ms[i].group == group
    requires ms[j].user == user && ms[j].group == group
    ensures i == j
  {
  }

  // ---------------------------------------------------------------- expenses

  const MaxDigits := 10
  const DecimalPlaces := 2

  /** The number of decimal digits of `n` (`0` has one). */
  function DigitCount(n: nat): (d: nat)
    ensures d >= 1
    decreases n
  {
    if n < 10 then 1 else 1 + DigitCount(n / 10)
  }

  function Pow10(k: nat): (p: nat)
    ensures p >= 1
  {
    if k == 0 then 1 else 10 * Pow10(k - 1)
  }

  lemma {:induction false} DigitCountBound(n: nat, k: nat)
    requires k >= 1
    ensures DigitCount(n) <= k <==> n < Pow10(k)
    decreases k
  {
    if k > 1 {
      if n >= 10 {
        DigitCountBound(n / 10, k - 1);
      }
    }
  }

  /**
   * A `DecimalField(max_digits=10, decimal_places=2)` value held as a whole
   * number of cents: its digit tuple has at most ten digits.
   */
  predicate FitsMoneyField(cents: int) {
    DigitCount(if cents < 0 then -cents else cents) <= MaxDigits
  }

  /** Money fields hold strictly less than 10^10 cents in magnitude, i.e. at most 99,999,999.99. */
  lemma MoneyFieldBound(cents: int)
    ensures FitsMoneyField(cents) <==> -10000000000 < cents < 10000000000
  {
    DigitCountBound(if cents < 0 then -cents else cents, MaxDigits);
    assert Pow10(MaxDigits) == 10000000000;
  }

  /**
   * An `Expense` row.  Both `group_id` and `friend_id` are declared as
   * required foreign keys; the amounts are in cents.
   */
  datatype Expense = Expense(
    id: string, groupId: string, friendId: string, paidBy: string,
    totalAmount: int, remainingAmount: int, description: string,
    createdAt: int, deadline: Option<int>, receiptUrl: Option<string>)

  predicate ExpenseFieldsValid(e: Expense) {
    FitsMoneyField(e.totalAmount) && FitsMoneyField(e.remainingAmount)
  }

  /**
   * `Expense.__str__` reads the attributes `amount` and `group`, which the model
   * does not declare: after the payer's name it fails on `amount`.
   */
  function ExpenseToString(e: Expense, payerFullName: string): (r: Result<string>)
    ensures r.Err? && r.message == "'Expense' object has no attribute 'amount'"
  {
    var _ := payerFullName;
    Err("'Expense' object has no attribute 'amount'")
  }
}
