/** The authentication request (contract/authentication_request.go): its
    construction from options, its validation, and the key/value payload it
    is sent as. A Go `*string` / `*bool` field is an `Option`: `nil` is
    `None`. */
module AuthenticationRequests {
  import opened Wrappers
  import opened JsonValue
  import opened Formats

  /** The optional string fields. */
  datatype TextField =
    | Email | PhoneNumber | Sub1 | Sub2 | Sub3 | Sub4 | Sub5 | UserGroup
    | MediaSourceName | MediaSourceId | MediaSubSourceId
    | MediaAdsetName | MediaAdsetId | MediaCreativeName | MediaCreativeId | MediaCampaignName

  datatype AuthenticationRequest = AuthenticationRequest(
    publisherUserId: string,
    age: int,
    gender: int,
    email: Option<string>,
    phoneNumber: Option<string>,
    sub1: Option<string>,
    sub2: Option<string>,
    sub3: Option<string>,
    sub4: Option<string>,
    sub5: Option<string>,
    userGroup: Option<string>,
    mediaSourceName: Option<string>,
    mediaSourceId: Option<string>,
    mediaSubSourceId: Option<string>,
    incentivized: Option<bool>,
    mediaAdsetName: Option<string>,
    mediaAdsetId: Option<string>,
    mediaCreativeName: Option<string>,
    mediaCreativeId: Option<string>,
    mediaCampaignName: Option<string>)

  function Text(req: AuthenticationRequest, f: TextField): Option<string> {
    match f
    case Email => req.email
    case PhoneNumber => req.phoneNumber
    case Sub1 => req.sub1
    case Sub2 => req.sub2
    case Sub3 => req.sub3
    case Sub4 => req.sub4
    case Sub5 => req.sub5
    case UserGroup => req.userGroup
    case MediaSourceName => req.mediaSourceName
    case MediaSourceId => req.mediaSourceId
    case MediaSubSourceId => req.mediaSubSourceId
    case MediaAdsetName => req.mediaAdsetName
    case MediaAdsetId => req.mediaAdsetId
    case MediaCreativeName => req.mediaCreativeName
    case MediaCreativeId => req.mediaCreativeId
    case MediaCampaignName => req.mediaCampaignName
  }

  // ---------------------------------------------------------------------
  // Construction: NewAuthenticationRequest(publisherUserID, age, gender, opts...)
  // ---------------------------------------------------------------------

  /** An `AuthenticationRequestOptions` closure that assigns one field. A
      closure assigning several fields is the sequence of their options. */
  datatype RequestOption =
    | SetPublisherUserId(id: string)
    | SetAge(years: int)
    | SetGender(code: int)
    | SetText(field: TextField, text: Option<string>)
    | SetIncentivized(flag: Option<bool>)

  /** Every field of the request, and what a field can hold. */
  datatype Field = PublisherUserIdField | AgeField | GenderField | TextFieldOf(t: TextField) | IncentivizedField
  datatype FieldValue = StrValue(s: string) | IntValue(i: int) | OptStrValue(o: Option<string>) | OptBoolValue(b: Option<bool>)

  function GetField(req: AuthenticationRequest, f: Field): FieldValue {
    match f
    case PublisherUserIdField => StrValue(req.publisherUserId)
    case AgeField => IntValue(req.age)
    case GenderField => IntValue(req.gender)
    case TextFieldOf(t) => OptStrValue(Text(req, t))
    case IncentivizedField => OptBoolValue(req.incentivized)
  }

  function Target(opt: RequestOption): Field {
    match opt
    case SetPublisherUserId(_) => PublisherUserIdField
    case SetAge(_) => AgeField
    case SetGender(_) => GenderField
    case SetText(t, _) => TextFieldOf(t)
    case SetIncentivized(_) => IncentivizedField
  }

  function Assigned(opt: RequestOption): FieldValue {
    match opt
    case SetPublisherUserId(id) => StrValue(id)
    case SetAge(years) => IntValue(years)
    case SetGender(code) => IntValue(code)
    case SetText(_, text) => OptStrValue(text)
    case SetIncentivized(flag) => OptBoolValue(flag)
  }

  function WithText(req: AuthenticationRequest, f: TextField, v: Option<string>): (r: AuthenticationRequest)
    ensures Text(r, f) == v
    ensures forall g :: g != f ==> Text(r, g) == Text(req, g)
    ensures r.publisherUserId == req.publisherUserId && r.age == req.age && r.gender == req.gender
    ensures r.incentivized == req.incentivized
  {
    match f
    case Email => req.(email := v)
    case PhoneNumber => req.(phoneNumber := v)
    case Sub1 => req.(sub1 := v)
    case Sub2 => req.(sub2 := v)
    case Sub3 => req.(sub3 := v)
    case Sub4 => req.(sub4 := v)
    case Sub5 => req.(sub5 := v)
    case UserGroup => req.(userGroup := v)
    case MediaSourceName => req.(mediaSourceName := v)
    case MediaSourceId => req.(mediaSourceId := v)
    case MediaSubSourceId => req.(mediaSubSourceId := v)
    case MediaAdsetName => req.(mediaAdsetName := v)
    case MediaAdsetId => req.(mediaAdsetId := v)
    case MediaCreativeName => req.(mediaCreativeName := v)
    case MediaCreativeId => req.(mediaCreativeId := v)
    case MediaCampaignName => req.(mediaCampaignName := v)
  }

  /** Running one option: its field takes its value, no other field changes. */
  function Apply(req: AuthenticationRequest, opt: RequestOption): (r: AuthenticationRequest)
    ensures GetField(r, Target(opt)) == Assigned(opt)
    ensures forall g :: g != Target(opt) ==> GetField(r, g) == GetField(req, g)
  {
    match opt
    case SetPublisherUserId(id) => req.(publisherUserId := id)
    case SetAge(years) => req.(age := years)
    case SetGender(code) => req.(gender := code)
    case SetText(t, text) => WithText(req, t, text)
    case SetIncentivized(flag) => req.(incentivized := flag)
  }

  /** The options run first to last. */
  function ApplyAll(req: AuthenticationRequest, opts: seq<RequestOption>): AuthenticationRequest
  {
    if opts == [] then req else Apply(ApplyAll(req, opts[..|opts| - 1]), opts[|opts| - 1])
  }

  /** The struct literal before the options run: every optional field nil. */
  function Initial(publisherUserId: string, age: int, gender: int): AuthenticationRequest {
    AuthenticationRequest(publisherUserId, age, gender,
      None, None, None, None, None, None, None, None, None, None, None, None, None, None, None, None, None)
  }

  /** A field that no option names keeps its earlier value. */
  lemma {:induction false} UnnamedFieldKept(req: AuthenticationRequest, opts: seq<RequestOption>, f: Field)
    requires forall i :: 0 <= i < |opts| ==> Target(opts[i]) != f
    ensures GetField(ApplyAll(req, opts), f) == GetField(req, f)
  {
    if opts != [] {
      UnnamedFieldKept(req, opts[..|opts| - 1], f);
    }
  }

  /** Last write wins: a field holds the value of the last option naming it. */
  lemma {:induction false} LastWriteWins(req: AuthenticationRequest, opts: seq<RequestOption>, i: nat)
    requires i < |opts|
    requires forall j :: i < j < |opts| ==> Target(opts[j]) != Target(opts[i])
    ensures GetField(ApplyAll(req, opts), Target(opts[i])) == Assigned(opts[i])
  {
    var n := |opts| - 1;
    if i < n {
      LastWriteWins(req, opts[..n], i);
    }
  }

  /** `NewAuthenticationRequest`: the three required values, then each
      option in order. */
  method NewAuthenticationRequest(publisherUserId: string, age: int, gender: int, opts: seq<RequestOption>)
    returns (req: AuthenticationRequest)
    ensures req == ApplyAll(Initial(publisherUserId, age, gender), opts)
    ensures opts == [] ==> req.publisherUserId == publisherUserId && req.age == age && req.gender == gender
    ensures opts == [] ==> req.incentivized.None? && forall t :: Text(req, t).None?
  {
    req := Initial(publisherUserId, age, gender);
    var i := 0;
    while i < |opts|
      invariant 0 <= i <= |opts|
      invariant req == ApplyAll(Initial(publisherUserId, age, gender), opts[..i])
    {
      assert opts[..i + 1][..i] == opts[..i];
      req := Apply(req, opts[i]);
      i := i + 1;
    }
    assert opts[..i] == opts;
  }

  // ---------------------------------------------------------------------
  // Validation: ValidateAuthenticationRequest
  // ---------------------------------------------------------------------

  /** The rules, in the order they are checked. */
  datatype Rule = NonEmptyPublisherUserId | NonNegativeAge | KnownGender | EmailFormat | PhoneFormat

  const RuleOrder: seq<Rule> := [NonEmptyPublisherUserId, NonNegativeAge, KnownGender, EmailFormat, PhoneFormat]

  /** What each rule demands; the formats are the languages of the source's
      regular expressions. */
  ghost predicate Holds(rule: Rule, req: AuthenticationRequest) {
    match rule
    case NonEmptyPublisherUserId => req.publisherUserId != ""
    case NonNegativeAge => req.age >= 0
    case KnownGender => req.gender == 1 || req.gender == 2
    case EmailFormat => req.email.None? || MatchesEmailPattern(req.email.value)
    case PhoneFormat => req.phoneNumber.None? || MatchesPhonePattern(req.phoneNumber.value)
  }

  function Message(rule: Rule): string {
    match rule
    case NonEmptyPublisherUserId => "publisher user ID cannot be empty and must be a string"
    case NonNegativeAge => "age must be a non-negative integer"
    case KnownGender => "gender must be either 1 (male) or 2 (female)"
    case EmailFormat => "invalid email format"
    case PhoneFormat => "invalid phone number format"
  }

  /** `ValidateAuthenticationRequest`: `Pass` exactly when every rule holds,
      otherwise the message of the first rule in `RuleOrder` that fails. The
      14 tag fields and `incentivized` take part in no rule. The run-time
      type checks that follow the phone check in the source cannot fail for
      fields whose types are fixed, so they are absent here. */
  function ValidateAuthenticationRequest(req: AuthenticationRequest): (r: Outcome)
    ensures r == Pass <==> forall rule :: Holds(rule, req)
    ensures forall i ::
              (0 <= i < |RuleOrder| && !Holds(RuleOrder[i], req) &&
               forall j :: 0 <= j < i ==> Holds(RuleOrder[j], req))
              ==> r == Fail(Message(RuleOrder[i]))
  {
    IsEmailIffPattern(if req.email.Some? then req.email.value else "");
    if req.publisherUserId == "" then
      assert !Holds(RuleOrder[0], req);
      Fail("publisher user ID cannot be empty and must be a string")
    else if req.age < 0 then
      assert Holds(RuleOrder[0], req) && !Holds(RuleOrder[1], req);
      Fail("age must be a non-negative integer")
    else if req.gender != 1 && req.gender != 2 then
      assert Holds(RuleOrder[0], req) && Holds(RuleOrder[1], req) && !Holds(RuleOrder[2], req);
      Fail("gender must be either 1 (male) or 2 (female)")
    else if req.email.Some? && !IsEmail(req.email.value) then
      assert Holds(RuleOrder[0], req) && Holds(RuleOrder[1], req) && Holds(RuleOrder[2], req);
      assert !Holds(RuleOrder[3], req);
      Fail("invalid email format")
    else if req.phoneNumber.Some? && !IsPhone(req.phoneNumber.value) then
      assert Holds(RuleOrder[0], req) && Holds(RuleOrder[1], req) && Holds(RuleOrder[2], req);
      assert Holds(RuleOrder[3], req) && !Holds(RuleOrder[4], req);
      Fail("invalid phone number format")
    else
      assert forall rule :: Holds(rule, req) by {
        forall rule ensures Holds(rule, req) { }
      }
      Pass
  }

  /** The first three rules on requests with no optional field. A gender
      of 0, which a struct literal that names no gender holds, is rejected. */
  lemma ValidationExamples()
    ensures ValidateAuthenticationRequest(Initial("user123", 25, 1)) == Pass
    ensures ValidateAuthenticationRequest(Initial("", 25, 1)) == Fail(Message(NonEmptyPublisherUserId))
    ensures ValidateAuthenticationRequest(Initial("user123", -1, 1)) == Fail(Message(NonNegativeAge))
    ensures ValidateAuthenticationRequest(Initial("user123", 25, 3)) == Fail(Message(KnownGender))
    ensures ValidateAuthenticationRequest(Initial("user123", 25, 0)) == Fail(Message(KnownGender))
  {
  }

  // ---------------------------------------------------------------------
  // Serialisation: GetParsedAuthenticationRequestData
  // ---------------------------------------------------------------------

  /** The fields the payload includes only when set. */
  datatype OptionalField = OptionalText(t: TextField) | OptionalIncentivized

  /** The optional fields in the order the source lists them. Go visits
      them in map order, which does not change the resulting map. */
  const OptionalFields: seq<OptionalField> := [
    OptionalText(Email), OptionalText(PhoneNumber),
    OptionalText(Sub1), OptionalText(Sub2), OptionalText(Sub3), OptionalText(Sub4), OptionalText(Sub5),
    OptionalText(UserGroup), OptionalText(MediaSourceName), OptionalText(MediaSourceId),
    OptionalText(MediaSubSourceId), OptionalIncentivized,
    OptionalText(MediaAdsetName), OptionalText(MediaAdsetId),
    OptionalText(MediaCreativeName), OptionalText(MediaCreativeId), OptionalText(MediaCampaignName)]

  /** The JSON key of each optional field. */
  function WireName(f: OptionalField): string {
    match f
    case OptionalIncentivized => "incentivized"
    case OptionalText(t) =>
      match t
      case Email => "email"
      case PhoneNumber => "phoneNumber"
      case Sub1 => "sub1"
      case Sub2 => "sub2"
      case Sub3 => "sub3"
      case Sub4 => "sub4"
      case Sub5 => "sub5"
      case UserGroup => "userGroup"
      case MediaSourceName => "mediaSourceName"
      case MediaSourceId => "mediaSourceId"
      case MediaSubSourceId => "mediaSubSourceId"
      case MediaAdsetName => "mediaAdsetName"
      case MediaAdsetId => "mediaAdsetId"
      case MediaCreativeName => "mediaCreativeName"
      case MediaCreativeId => "mediaCreativeId"
      case MediaCampaignName => "mediaCampaignName"
  }

  const RequiredKeys: set<string> := {"age", "gender", "publisherUserId"}

  /** No two optional fields share a key, and none uses a required key. */
  lemma WireNameDistinct(f: OptionalField, g: OptionalField)
    ensures WireName(f) == WireName(g) ==> f == g
    ensures WireName(f) !in RequiredKeys
  {
  }

  /** The source's type switch on one optional field: a string is sent when
      it is set and not empty, the boolean whenever it is set. */
  function Entry(req: AuthenticationRequest, f: OptionalField): Option<Json> {
    match f
    case OptionalText(t) =>
      if Text(req, t).Some? && Text(req, t).value != "" then Some(JStr(Text(req, t).value)) else None
    case OptionalIncentivized =>
      if req.incentivized.Some? then Some(JBool(req.incentivized.value)) else None
  }

  /** The map literal holding the required keys. */
  function Required(req: AuthenticationRequest): map<string, Json> {
    map["age" := JNum(req.age), "gender" := JNum(req.gender), "publisherUserId" := JStr(req.publisherUserId)]
  }

  /** The map after the loop has visited `fields`. */
  function Fill(req: AuthenticationRequest, fields: seq<OptionalField>): map<string, Json>
  {
    if fields == [] then Required(req)
    else
      var data := Fill(req, fields[..|fields| - 1]);
      var f := fields[|fields| - 1];
      match Entry(req, f)
      case Some(v) => data[WireName(f) := v]
      case None => data
  }

  /** The payload sent for `req`. Its meaning is stated by `PayloadContents`. */
  function Payload(req: AuthenticationRequest): map<string, Json> {
    Fill(req, OptionalFields)
  }

  lemma {:induction false} FillRequired(req: AuthenticationRequest, fields: seq<OptionalField>, k: string)
    requires k in RequiredKeys
    ensures k in Fill(req, fields) && Fill(req, fields)[k] == Required(req)[k]
  {
    if fields != [] {
      FillRequired(req, fields[..|fields| - 1], k);
      WireNameDistinct(fields[|fields| - 1], fields[|fields| - 1]);
    }
  }

  lemma {:induction false} FillOptional(req: AuthenticationRequest, fields: seq<OptionalField>, f: OptionalField)
    ensures WireName(f) in Fill(req, fields) <==> f in fields && Entry(req, f).Some?
    ensures WireName(f) in Fill(req, fields) ==> Fill(req, fields)[WireName(f)] == Entry(req, f).value
  {
    WireNameDistinct(f, f);
    if fields != [] {
      var init, last := fields[..|fields| - 1], fields[|fields| - 1];
      FillOptional(req, init, f);
      WireNameDistinct(f, last);
      assert fields == init + [last];
    }
  }

  lemma {:induction false} FillKeys(req: AuthenticationRequest, fields: seq<OptionalField>, k: string)
    requires k in Fill(req, fields)
    ensures k in RequiredKeys || exists f :: f in fields && k == WireName(f)
  {
    if fields != [] {
      var init, last := fields[..|fields| - 1], fields[|fields| - 1];
      if k != WireName(last) {
        FillKeys(req, init, k);
        assert forall f :: f in init ==> f in fields;
      }
    }
  }

  /** Every optional string field is on the list the loop visits. */
  lemma TextFieldListed(t: TextField)
    ensures OptionalText(t) in OptionalFields
  {
    match t
    case Email => assert OptionalFields[0] == OptionalText(t);
    case PhoneNumber => assert OptionalFields[1] == OptionalText(t);
    case Sub1 => assert OptionalFields[2] == OptionalText(t);
    case Sub2 => assert OptionalFields[3] == OptionalText(t);
    case Sub3 => assert OptionalFields[4] == OptionalText(t);
    case Sub4 => assert OptionalFields[5] == OptionalText(t);
    case Sub5 => assert OptionalFields[6] == OptionalText(t);
    case UserGroup => assert OptionalFields[7] == OptionalText(t);
    case MediaSourceName => assert OptionalFields[8] == OptionalText(t);
    case MediaSourceId => assert OptionalFields[9] == OptionalText(t);
    case MediaSubSourceId => assert OptionalFields[10] == OptionalText(t);
    case MediaAdsetName => assert OptionalFields[12] == OptionalText(t);
    case MediaAdsetId => assert OptionalFields[13] == OptionalText(t);
    case MediaCreativeName => assert OptionalFields[14] == OptionalText(t);
    case MediaCreativeId => assert OptionalFields[15] == OptionalText(t);
    case MediaCampaignName => assert OptionalFields[16] == OptionalText(t);
  }

  /** One optional string field in the payload: its key is there exactly
      when the field is set and non-empty, and then holds its text. */
  lemma PayloadText(req: AuthenticationRequest, t: TextField)
    ensures WireName(OptionalText(t)) in Payload(req) <==> Text(req, t).Some? && Text(req, t).value != ""
    ensures WireName(OptionalText(t)) in Payload(req) ==> Payload(req)[WireName(OptionalText(t))] == JStr(Text(req, t).value)
  {
    TextFieldListed(t);
    FillOptional(req, OptionalFields, OptionalText(t));
  }

  /** The payload holds the three required keys with the request's values,
      each optional key exactly when `Entry` says the field is sent (a set,
      non-empty string; a set boolean, even `false`) with that value, and
      no key besides these twenty names. */
  lemma PayloadContents(req: AuthenticationRequest)
    ensures "age" in Payload(req) && Payload(req)["age"] == JNum(req.age)
    ensures "gender" in Payload(req) && Payload(req)["gender"] == JNum(req.gender)
    ensures "publisherUserId" in Payload(req) && Payload(req)["publisherUserId"] == JStr(req.publisherUserId)
    ensures forall t :: WireName(OptionalText(t)) in Payload(req) <==> Text(req, t).Some? && Text(req, t).value != ""
    ensures forall t :: WireName(OptionalText(t)) in Payload(req) ==> Payload(req)[WireName(OptionalText(t))] == JStr(Text(req, t).value)
    ensures "incentivized" in Payload(req) <==> req.incentivized.Some?
    ensures "incentivized" in Payload(req) ==> Payload(req)["incentivized"] == JBool(req.incentivized.value)
    ensures forall k :: k in Payload(req) ==> k in RequiredKeys || exists f :: k == WireName(f)
  {
    FillRequired(req, OptionalFields, "age");
    FillRequired(req, OptionalFields, "gender");
    FillRequired(req, OptionalFields, "publisherUserId");
    forall t
      ensures WireName(OptionalText(t)) in Payload(req) <==> Text(req, t).Some? && Text(req, t).value != ""
      ensures WireName(OptionalText(t)) in Payload(req) ==> Payload(req)[WireName(OptionalText(t))] == JStr(Text(req, t).value)
    {
      PayloadText(req, t);
    }
    assert OptionalFields[11] == OptionalIncentivized;
    FillOptional(req, OptionalFields, OptionalIncentivized);
    forall k | k in Payload(req) ensures k in RequiredKeys || exists f :: k == WireName(f) {
      FillKeys(req, OptionalFields, k);
    }
  }

  /** Visiting fields none of which is sent leaves the required map. */
  lemma {:induction false} FillNothingSent(req: AuthenticationRequest, fields: seq<OptionalField>)
    requires forall i :: 0 <= i < |fields| ==> Entry(req, fields[i]).None?
    ensures Fill(req, fields) == Required(req)
  {
    if fields != [] {
      FillNothingSent(req, fields[..|fields| - 1]);
    }
  }

  /** A request with no optional field set is sent as the three required
      keys alone. */
  lemma PayloadExample()
    ensures Payload(Initial("user123", 25, 1)) ==
      map["age" := JNum(25), "gender" := JNum(1), "publisherUserId" := JStr("user123")]
  {
    FillNothingSent(Initial("user123", 25, 1), OptionalFields);
  }

  /** `GetParsedAuthenticationRequestData`: the required map literal, then
      one visit per optional field. It reads the request and changes nothing,
      so every call yields the same map. */
  method GetParsedAuthenticationRequestData(req: AuthenticationRequest) returns (data: map<string, Json>)
    ensures data == Payload(req)
  {
    data := map["age" := JNum(req.age), "gender" := JNum(req.gender), "publisherUserId" := JStr(req.publisherUserId)];
    var i := 0;
    while i < |OptionalFields|
      invariant 0 <= i <= |OptionalFields|
      invariant data == Fill(req, OptionalFields[..i])
    {
      var f := OptionalFields[i];
      assert OptionalFields[..i + 1][..i] == OptionalFields[..i];
      match f {
        case OptionalText(t) =>
          var v := Text(req, t);
          if v.Some? && v.value != "" {
            data := data[WireName(f) := JStr(v.value)];
          }
        case OptionalIncentivized =>
          if req.incentivized.Some? {
            data := data[WireName(f) := JBool(req.incentivized.value)];
          }
      }
      i := i + 1;
    }
    assert OptionalFields[..i] == OptionalFields;
  }
}
