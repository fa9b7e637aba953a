/**
 * The request serializers of backend/api/serializers.py, as field lists: a
 * payload (a JSON object of strings) is valid for a serializer when every
 * required field is present and every present field respects its maximum
 * length and format.  `FriendRequestSerializer` adds an object-level rule.
 * The e-mail and URL format checks are parameters.
 */
module Serializers {
  import opened Js

  datatype Kind = CharKind | EmailKind | UrlKind

  datatype FieldSpec = FieldSpec(name: string, kind: Kind, required: bool, maxLength: Option<nat>)

  type Payload = map<string, string>

  /** One complaint about one field. */
  datatype FieldError = Missing(field: string) | TooLong(field: string, maxLength: nat) | BadFormat(field: string)

  function Char(name: string, required: bool, maxLength: Option<nat>): FieldSpec {
    FieldSpec(name, CharKind, required, maxLength)
  }

  function Email(name: string, required: bool): FieldSpec {
    FieldSpec(name, EmailKind, required, None)
  }

  const UserRegistration := [Char("username", true, Some(255)), Char("fullname", true, Some(255)),
                             Char("password", true, Some(128)), Email("email", true), Char("phone_number", false, Some(20))]
  const VerifySignup := [Char("username", true, Some(255)), Char("confirmation_code", true, Some(6))]
  const UserLogin := [Char("username", true, Some(255)), Char("password", true, Some(128))]
  const TokenRenew := [Char("refresh_token", true, None), Char("id_token", true, None)]
  const LogoutUser := [Char("access_token", true, None)]
  const InitiateResetPassword := [Email("email", true)]
  const ConfirmResetPassword := [Email("email", true), Char("confirmation_code", true, Some(6)), Char("new_password", true, Some(128))]
  const GetUserFriends := [Char("id_token", true, None)]
  const GetResentVerificationCode := [Char("username", true, Some(255))]
  const VerifyUserAccess := [Char("access_token", true, None)]
  const GetUserProfile := [Char("id_token", true, None)]
  const ChangePassword := [Char("old_password", true, Some(128)), Char("new_password", true, Some(128)), Char("access_token", true, None)]
  const UpdateUserProfile := [Char("id_token", true, None), Char("full_name", false, Some(150)), Char("phone_number", false, Some(16)),
                              FieldSpec("avatar_url", UrlKind, false, None), Char("currency", false, Some(10))]
  const FriendRequest := [Char("id_token", true, None), Char("recieve_username", false, Some(255)), Email("recieve_useremail", false)]

  /** Whether a present value has the field's format. */
  predicate WellFormed(kind: Kind, v: string, validEmail: string -> bool, validUrl: string -> bool) {
    match kind
    case CharKind => true
    case EmailKind => validEmail(v)
    case UrlKind => validUrl(v)
  }

  /** The field is satisfied: present when required, and within its length and format when present. */
  predicate FieldOk(s: FieldSpec, data: Payload, validEmail: string -> bool, validUrl: string -> bool) {
    && (s.required ==> s.name in data)
    && (s.name in data ==>
          && (s.maxLength.Some? ==> |data[s.name]| <= s.maxLength.value)
          && WellFormed(s.kind, data[s.name], validEmail, validUrl))
  }

  /** The complaints about one field: missing, or every rule its value breaks. */
  function SpecErrors(s: FieldSpec, data: Payload, validEmail: string -> bool, validUrl: string -> bool): (r: seq<FieldError>)
    ensures |r| == 0 <==> FieldOk(s, data, validEmail, validUrl)
  {
    if s.name !in data then (if s.required then [Missing(s.name)] else [])
    else
      var v := data[s.name];
      (if s.maxLength.Some? && |v| > s.maxLength.value then [TooLong(s.name, s.maxLength.value)] else [])
      + (if WellFormed(s.kind, v, validEmail, validUrl) then [] else [BadFormat(s.name)])
  }

  /** Every complaint about the payload, field by field in declaration order. */
  function Errors(specs: seq<FieldSpec>, data: Payload, validEmail: string -> bool, validUrl: string -> bool): (r: seq<FieldError>)
    ensures |r| == 0 <==> forall i :: 0 <= i < |specs| ==> FieldOk(specs[i], data, validEmail, validUrl)
    decreases |specs|
  {
    if |specs| == 0 then []
    else
      var rest := Errors(specs[1..], data, validEmail, validUrl);
      assert forall i :: 1 <= i < |specs| ==> specs[i] == specs[1..][i - 1];
      SpecErrors(specs[0], data, validEmail, validUrl) + rest
  }

  /** `serializer.is_valid()` for the field rules alone. */
  predicate IsValid(specs: seq<FieldSpec>, data: Payload, validEmail: string -> bool, validUrl: string -> bool) {
    |Errors(specs, data, validEmail, validUrl)| == 0
  }

  /** Both serializers that carry a confirmation code accept at most six characters of it. */
  lemma ConfirmationCodeAtMostSix(data: Payload, validEmail: string -> bool, validUrl: string -> bool)
    ensures IsValid(VerifySignup, data, validEmail, validUrl) ==>
              "confirmation_code" in data && |data["confirmation_code"]| <= 6
    ensures IsValid(ConfirmResetPassword, data, validEmail, validUrl) ==>
              "confirmation_code" in data && |data["confirmation_code"]| <= 6
  {
    if IsValid(VerifySignup, data, validEmail, validUrl) {
      assert FieldOk(VerifySignup[1], data, validEmail, validUrl);
    }
    if IsValid(ConfirmResetPassword, data, validEmail, validUrl) {
      assert FieldOk(ConfirmResetPassword[1], data, validEmail, validUrl);
    }
  }

  /** The friends, profile, profile-update and friend-request payloads are rejected without an `id_token`. */
  lemma IdTokenRequired(data: Payload, validEmail: string -> bool, validUrl: string -> bool)
    requires "id_token" !in data
    ensures !IsValid(GetUserFriends, data, validEmail, validUrl)
    ensures !IsValid(GetUserProfile, data, validEmail, validUrl)
    ensures !IsValid(UpdateUserProfile, data, validEmail, validUrl)
    ensures !IsValid(FriendRequest, data, validEmail, validUrl)
  {
    assert !FieldOk(GetUserFriends[0], data, validEmail, validUrl);
    assert !FieldOk(GetUserProfile[0], data, validEmail, validUrl);
    assert !FieldOk(UpdateUserProfile[0], data, validEmail, validUrl);
    assert !FieldOk(FriendRequest[0], data, validEmail, validUrl);
  }

  /** A valid profile update keeps each optional field it carries within its column's length. */
  lemma ProfileUpdateLengths(data: Payload, validEmail: string -> bool, validUrl: string -> bool)
    requires IsValid(UpdateUserProfile, data, validEmail, validUrl)
    ensures "full_name" in data ==> |data["full_name"]| <= 150
    ensures "phone_number" in data ==> |data["phone_number"]| <= 16
    ensures "currency" in data ==> |data["currency"]| <= 10
    ensures "avatar_url" in data ==> validUrl(data["avatar_url"])
  {
    assert FieldOk(UpdateUserProfile[1], data, validEmail, validUrl);
    assert FieldOk(UpdateUserProfile[2], data, validEmail, validUrl);
    assert FieldOk(UpdateUserProfile[3], data, validEmail, validUrl);
    assert FieldOk(UpdateUserProfile[4], data, validEmail, validUrl);
  }

  // ---------------------------------------------------------------- FriendRequestSerializer.validate

  const EitherMessage := "Either username or email must be provided"

  /** `validate(data)`: rejects a payload naming neither recipient, and otherwise hands it back untouched. */
  function ValidateFriendRequest(data: Payload): (r: Result<Payload>)
    ensures r.Ok? <==> "recieve_username" in data || "recieve_useremail" in data
    ensures r.Ok? ==> r.value == data
    ensures r.Err? ==> r.message == EitherMessage
  {
    if !("recieve_username" in data || "recieve_useremail" in data) then Err(EitherMessage) else Ok(data)
  }

  /** The outcome of `is_valid()` on a friend request. */
  datatype Verdict = Accepted(data: Payload) | FieldErrors(errors: seq<FieldError>) | NonFieldError(message: string)

  /** `validated_data`: the declared fields the payload carries; anything else is dropped. */
  function Validated(specs: seq<FieldSpec>, data: Payload): (r: Payload)
    ensures forall k :: k in r <==> k in data && exists i :: 0 <= i < |specs| && specs[i].name == k
    ensures forall k :: k in r ==> r[k] == data[k]
  {
    map k | k in data && (exists i :: 0 <= i < |specs| && specs[i].name == k) :: data[k]
  }

  /**
   * The whole friend-request check: the field rules first, and only when
   * they pass, `validate` on the validated data.
   */
  function CheckFriendRequest(data: Payload, validEmail: string -> bool): (r: Verdict)
    ensures r.FieldErrors? <==> !IsValid(FriendRequest, data, validEmail, _ => true)
    ensures r.FieldErrors? ==> r.errors == Errors(FriendRequest, data, validEmail, _ => true)
    ensures r.Accepted? <==> IsValid(FriendRequest, data, validEmail, _ => true)
                             && ("recieve_username" in data || "recieve_useremail" in data)
    ensures r.NonFieldError? ==> r.message == EitherMessage
    ensures r.Accepted? ==> r.data == Validated(FriendRequest, data) && "id_token" in r.data
  {
    var errors := Errors(FriendRequest, data, validEmail, _ => true);
    if |errors| > 0 then FieldErrors(errors)
    else
      assert FieldOk(FriendRequest[0], data, validEmail, _ => true);
      var validated := Validated(FriendRequest, data);
      assert FriendRequest[1].name == "recieve_username" && FriendRequest[2].name == "recieve_useremail";
      assert FriendRequest[0].name == "id_token";
      match ValidateFriendRequest(validated)
      case Ok(v) => Accepted(v)
      case Err(m) => NonFieldError(m)
  }

  /** A payload with nothing but a token passes the field rules and is rejected by `validate`. */
  lemma TokenAloneIsNotAFriendRequest(token: string, validEmail: string -> bool)
    ensures CheckFriendRequest(map["id_token" := token], validEmail) == NonFieldError(EitherMessage)
  {
    var data := map["id_token" := token];
    assert FieldOk(FriendRequest[0], data, validEmail, _ => true);
    assert FieldOk(FriendRequest[1], data, validEmail, _ => true);
    assert FieldOk(FriendRequest[2], data, validEmail, _ => true);
  }

  /** The field rules look only at the declared names: an entry under any other key changes no complaint. */
  lemma {:induction false} ErrorsIgnoreUndeclared(specs: seq<FieldSpec>, data: Payload, k: string, v: string,
                                                  validEmail: string -> bool, validUrl: string -> bool)
    requires forall i :: 0 <= i < |specs| ==> specs[i].name != k
    ensures Errors(specs, data[k := v], validEmail, validUrl) == Errors(specs, data, validEmail, validUrl)
    decreases |specs|
  {
    if |specs| > 0 {
      assert forall i :: 0 <= i < |specs[1..]| ==> specs[1..][i] == specs[i + 1];
      ErrorsIgnoreUndeclared(specs[1..], data, k, v, validEmail, validUrl);
      assert SpecErrors(specs[0], data[k := v], validEmail, validUrl) == SpecErrors(specs[0], data, validEmail, validUrl);
    }
  }

  /**
   * A friend request is judged on its three declared fields alone: adding an
   * entry under any other key leaves the verdict, and the validated data,
   * exactly as they were.
   */
  lemma UndeclaredKeysIgnored(data: Payload, k: string, v: string, validEmail: string -> bool)
    requires k != "id_token" && k != "recieve_username" && k != "recieve_useremail"
    ensures CheckFriendRequest(data[k := v], validEmail) == CheckFriendRequest(data, validEmail)
  {
    assert forall i :: 0 <= i < |FriendRequest| ==> FriendRequest[i].name != k;
    ErrorsIgnoreUndeclared(FriendRequest, data, k, v, validEmail, _ => true);
    ValidatedIgnoresUndeclared(FriendRequest, data, k, v);
  }

  /** Only declared names reach `validated_data`, so an undeclared entry never does. */
  lemma ValidatedIgnoresUndeclared(specs: seq<FieldSpec>, data: Payload, k: string, v: string)
    requires forall i :: 0 <= i < |specs| ==> specs[i].name != k
    ensures Validated(specs, data[k := v]) == Validated(specs, data)
  {
    var a, b := Validated(specs, data[k := v]), Validated(specs, data);
    assert forall n :: n in a <==> n in b;
    assert forall n :: n in a ==> a[n] == b[n];
  }
}
