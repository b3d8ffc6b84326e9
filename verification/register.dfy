/** The registration page (frontend/src/pages/register.js): the ordered validation of
    the form, the body of the registration request, and the mock wallet address. */
module Register {

  /** The page's form state. */
  datatype Form = Form(
    name: string,
    email: string,
    password: string,
    confirmPassword: string,
    role: string,
    walletAddress: string)

  /** The JSON body posted to the registration endpoint. */
  datatype RegisterBody = RegisterBody(
    name: string,
    email: string,
    password: string,
    role: string,
    wallet_address: string)

  /** Either the error shown on the page, or the request to send. */
  datatype Submission = Invalid(message: string) | Send(body: RegisterBody)

  const MissingFieldsMessage := "Please fill all required fields."
  const MismatchMessage := "Passwords do not match."
  const ShortPasswordMessage := "Password must be at least 6 characters."
  const MinPasswordLength := 6

  /** The form as the page first shows it. */
  function InitialForm(): Form
  {
    Form("", "", "", "", "buyer", "")
  }

  /** `handleRegister` up to the request: three checks in order, the first that fails
      decides the message; when all pass, the body carries the form's fields except
      `confirmPassword`, with `walletAddress` sent as `wallet_address`. */
  function Submit(f: Form): (r: Submission)
    ensures f.name == "" || f.email == "" || f.password == "" ==> r == Invalid(MissingFieldsMessage)
    ensures (f.name != "" && f.email != "" && f.password != "" && f.password != f.confirmPassword)
      ==> r == Invalid(MismatchMessage)
    ensures (f.name != "" && f.email != "" && f.password != "" && f.password == f.confirmPassword
             && |f.password| < MinPasswordLength) ==> r == Invalid(ShortPasswordMessage)
    ensures r.Send? <==>
      f.name != "" && f.email != "" && |f.password| >= MinPasswordLength && f.password == f.confirmPassword
    ensures r.Send? ==>
      && r.body.name == f.name && r.body.email == f.email && r.body.password == f.password
      && r.body.role == f.role && r.body.wallet_address == f.walletAddress
  {
    if f.name == "" || f.email == "" || f.password == "" then Invalid(MissingFieldsMessage)
    else if f.password != f.confirmPassword then Invalid(MismatchMessage)
    else if |f.password| < MinPasswordLength then Invalid(ShortPasswordMessage)
    else Send(RegisterBody(f.name, f.email, f.password, f.role, f.walletAddress))
  }

  const HexChars := "0123456789abcdef"

  /** `chars[Math.floor(r * chars.length)]` for a draw `r` of `Math.random()`. */
  function HexDigitOf(r: real): (c: char)
    requires 0.0 <= r < 1.0
    ensures c in HexChars
  {
    var k := (r * 16.0).Floor;
    assert 0 <= k < 16 by {
      assert k as real <= r * 16.0 < k as real + 1.0;
    }
    HexChars[k]
  }

  /** A mock wallet address: "0x" and forty lower-case hexadecimal digits. */
  predicate IsWalletAddress(s: string)
  {
    |s| == 42 && s[..2] == "0x" && forall i :: 2 <= i < 42 ==> s[i] in HexChars
  }

  /** `generateWalletAddress`: forty draws of `Math.random()` (given as `draws`) each append
      one hex digit to "0x"; only `walletAddress` of the form changes. */
  method GenerateWalletAddress(f: Form, draws: seq<real>) returns (f': Form)
    requires |draws| == 40
    requires forall i :: 0 <= i < |draws| ==> 0.0 <= draws[i] < 1.0
    ensures IsWalletAddress(f'.walletAddress)
    ensures forall i :: 0 <= i < 40 ==> f'.walletAddress[2 + i] == HexDigitOf(draws[i])
    ensures f' == f.(walletAddress := f'.walletAddress)
  {
    var address := "0x";
    for i := 0 to 40
      invariant |address| == 2 + i && address[..2] == "0x"
      invariant forall j :: 0 <= j < i ==> address[2 + j] == HexDigitOf(draws[j])
      invariant forall j :: 2 <= j < |address| ==> address[j] in HexChars
    {
      address := address + [HexDigitOf(draws[i])];
    }
    f' := f.(walletAddress := address);
  }

  /** Setting the wallet address, generated or typed, never changes whether the form
      passes validation, and a form that passes sends that address. */
  lemma GeneratedAddressIsSent(f: Form, address: string)
    ensures Submit(f.(walletAddress := address)).Send? == Submit(f).Send?
    ensures Submit(f.(walletAddress := address)).Send? ==>
      Submit(f.(walletAddress := address)).body.wallet_address == address
  {
  }

  /** The form as first shown is rejected for its missing fields, and so it stays
      once a wallet address is generated: the address is not a required field. */
  lemma FreshFormIsRejected(address: string)
    ensures Submit(InitialForm()) == Invalid(MissingFieldsMessage)
    ensures Submit(InitialForm().(walletAddress := address)) == Invalid(MissingFieldsMessage)
  {
  }
}
