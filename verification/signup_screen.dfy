/** The sign-up screen: the five-field form, the ordered validation of `handleSignup`, the
    check that the e-mail is not yet registered, and the loading flag around that check. */
module SignupScreen {
  import opened Js

  /** The inputs of the form, by the key `handleInputChange` is called with. */
  datatype Field = Name | Age | Phone | Email | Password

  /** `formData`: every input holds the text typed into it. */
  datatype Form = Form(name: string, age: string, phone: string, email: string, password: string)

  const EmptyForm: Form := Form("", "", "", "", "")

  /** The message with which the server says the e-mail is free. */
  const NewUserMessage: string := "User does not exists with that email"

  /** What a tap on Sign Up does first: a warning that a field is empty, a warning about the
      age, or the request that checks the e-mail, sent with the form as it is at that moment. */
  datatype Check = FillAllFields | InvalidAge | CheckUser(sent: Form)

  /** The reply to that request: an exception, or a parsed body with its `message`, if any. */
  datatype CheckReply = CheckFailed | CheckAnswered(message: Option<string>)

  /** How the request ends: on to the OTP screen with the five fields, the notice that the
      user is already registered, or the connection-error notice. */
  datatype Outcome = ToOtp(params: Form) | AlreadyRegistered | ConnectionError

  /** One input of the form. */
  function Get(f: Form, k: Field): string {
    match k
    case Name => f.name
    case Age => f.age
    case Phone => f.phone
    case Email => f.email
    case Password => f.password
  }

  /** `setFormData(prev => ({ ...prev, [field]: value }))`: the named input takes the value
      and the others keep theirs. */
  function SetField(f: Form, k: Field, v: string): (r: Form)
    ensures Get(r, k) == v
    ensures forall other :: other != k ==> Get(r, other) == Get(f, other)
  {
    match k
    case Name => f.(name := v)
    case Age => f.(age := v)
    case Phone => f.(phone := v)
    case Email => f.(email := v)
    case Password => f.(password := v)
  }

  /** Every input holds some text: none is the empty (falsy) string. */
  predicate Filled(f: Form) {
    f.email != "" && f.password != "" && f.name != "" && f.age != "" && f.phone != ""
  }

  /** `isNaN(age) || age < 13 || age > 120` is false: the age reads as a number from 13 to 120
      inclusive. */
  predicate AgeValid(age: string) {
    var n := ToNumber(age);
    n.Some? && 13.0 <= n.value <= 120.0
  }

  /** A whole-number age is accepted exactly from 13 to 120. */
  lemma WholeAge(n: nat)
    ensures AgeValid(NatToString(n)) <==> 13 <= n <= 120
  {
    ToNumberReadsDecimal(n);
  }

  /** The validation of `handleSignup`: the empty-field check comes first, the age check
      second, and only a form that passes both is sent. */
  function Validate(f: Form): (c: Check)
    ensures c == FillAllFields <==> !Filled(f)
    ensures c == InvalidAge <==> Filled(f) && !AgeValid(f.age)
    ensures c.CheckUser? <==> Filled(f) && AgeValid(f.age)
    ensures c.CheckUser? ==> c.sent == f
  {
    if f.email == "" || f.password == "" || f.name == "" || f.age == "" || f.phone == "" then FillAllFields
    else
      var n := ToNumber(f.age);
      if n.None? || n.value < 13.0 || n.value > 120.0 then InvalidAge
      else CheckUser(f)
  }

  /** The end of the e-mail check: on to the OTP screen with the form that was sent exactly
      when the message is the new-user message; any other reply means already registered, and
      an exception is a connection error. */
  function AfterCheck(sent: Form, reply: CheckReply): (o: Outcome)
    ensures o.ToOtp? <==> reply == CheckAnswered(Some(NewUserMessage))
    ensures o.ToOtp? ==> o.params == sent
    ensures o == ConnectionError <==> reply.CheckFailed?
  {
    match reply
    case CheckFailed => ConnectionError
    case CheckAnswered(message) =>
      if message == Some(NewUserMessage) then ToOtp(sent) else AlreadyRegistered
  }

  /** A form the validation sends reaches the OTP screen with every field filled in. */
  lemma SentFormIsFilled(f: Form, reply: CheckReply)
    requires Validate(f).CheckUser?
    ensures AfterCheck(Validate(f).sent, reply).ToOtp? ==> Filled(AfterCheck(Validate(f).sent, reply).params)
  {
  }

  class Screen {
    var form: Form
    var isLoading: bool
    var passwordVisible: bool

    constructor ()
      ensures form == EmptyForm && !isLoading && !passwordVisible
    {
      form := EmptyForm;
      isLoading := false;
      passwordVisible := false;
    }

    /** `handleInputChange`. */
    method HandleInputChange(k: Field, v: string)
      modifies this`form
      ensures form == SetField(old(form), k, v)
    {
      form := SetField(form, k, v);
    }

    /** The first part of `handleSignup`: a form that fails validation only brings a warning;
        one that passes sets the loading flag and is sent. */
    method HandleSignup() returns (c: Check)
      modifies this`isLoading
      ensures c == Validate(form)
      ensures c.CheckUser? ==> isLoading
      ensures !c.CheckUser? ==> isLoading == old(isLoading)
    {
      if form.email == "" || form.password == "" || form.name == "" || form.age == "" || form.phone == "" {
        return FillAllFields;
      }
      if !AgeValid(form.age) {
        return InvalidAge;
      }
      isLoading := true;
      c := CheckUser(form);
    }

    /** The rest of `handleSignup`: the outcome of the reply, and loading ends whatever it
        was. */
    method ReceiveCheckUser(sent: Form, reply: CheckReply) returns (o: Outcome)
      modifies this`isLoading
      ensures o == AfterCheck(sent, reply)
      ensures !isLoading
    {
      match reply {
        case CheckFailed =>
          o := ConnectionError;
        case CheckAnswered(message) =>
          o := if message == Some(NewUserMessage) then ToOtp(sent) else AlreadyRegistered;
      }
      isLoading := false;
    }

    method TogglePasswordVisibility()
      modifies this`passwordVisible
      ensures passwordVisible == !old(passwordVisible)
    {
      passwordVisible := !passwordVisible;
    }
  }
}
