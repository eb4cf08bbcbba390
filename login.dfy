/** commands/login.js: the input validators of the login prompt and the
    fallback for a missing or malformed credentials file. Prompting and the
    file write are foreign: answers and file contents are parameters. */
module Login {
  import opened Wrappers
  import opened JsText

  /** What an inquirer `validate` callback returns: `true`, or a message. */
  datatype Validation = Valid | Invalid(message: string)

  /** A character of `/^[a-z0-9\-\_]+$/i`. Without the `u` flag the `i` flag
      folds only ASCII letters. */
  predicate UserIdChar(c: char)
  {
    IsAsciiAlnum(c) || c == '-' || c == '_'
  }

  const InvalidCharacters: string := "Value contains invalid characters."

  /** The `userId` validator (lines 48-53). */
  function ValidateUserId(input: string): (v: Validation)
    ensures v == Valid <==> |input| > 0 && forall i :: 0 <= i < |input| ==> UserIdChar(input[i])
    ensures v != Valid ==> v == Invalid(InvalidCharacters)
  {
    if |input| > 0 && forall i :: 0 <= i < |input| ==> UserIdChar(input[i]) then Valid
    else Invalid(InvalidCharacters)
  }

  /** The `secretKey` validator (lines 59-66): characters first, then the
      length. */
  function ValidateSecretKey(input: string): (v: Validation)
    ensures v == Valid <==> |input| == 32 && forall i :: 0 <= i < |input| ==> IsAsciiAlnum(input[i])
    ensures (|input| == 0 || exists i :: 0 <= i < |input| && !IsAsciiAlnum(input[i])) ==>
              v == Invalid(InvalidCharacters)
    ensures (|input| > 0 && (forall i :: 0 <= i < |input| ==> IsAsciiAlnum(input[i])) && |input| != 32) ==>
              v == Invalid("Value is " + NatToString(|input|) + " characters long. Must be 32 characters.")
  {
    if !(|input| > 0 && forall i :: 0 <= i < |input| ==> IsAsciiAlnum(input[i])) then
      Invalid(InvalidCharacters)
    else if |input| != 32 then
      Invalid("Value is " + NatToString(|input|) + " characters long. Must be 32 characters.")
    else Valid
  }

  /** Every accepted secret key is a valid user id too, but not the other
      way round: a dash is fine in a user id and never in a key. */
  lemma SecretKeyIsUserIdShaped(key: string)
    ensures ValidateSecretKey(key) == Valid ==> ValidateUserId(key) == Valid
    ensures ValidateUserId("a-b") == Valid && ValidateSecretKey("a-b") == Invalid(InvalidCharacters)
  {
    assert !IsAsciiAlnum("a-b"[1]);
  }

  /** The parsed credentials file; only `userId` is read. */
  datatype Credentials = Credentials(userId: Option<string>)

  /** The result of `fs.readFile` followed by `JSON.parse`. */
  datatype CredentialsFile =
    | Unreadable
    | Unparsable
    | Parsed(json: Credentials)

  /** `readExistingCredentials`: the default offered for `userId`. An
      unreadable file is not an error, and text that is not JSON counts as
      `{}`. */
  function ExistingUserId(f: CredentialsFile): (r: Option<string>)
    ensures f.Unreadable? || f.Unparsable? ==> r == None
    ensures f.Parsed? ==> r == f.json.userId
  {
    match f
    case Unreadable => None
    case Unparsable => Credentials(None).userId
    case Parsed(json) => json.userId
  }

  /** The value inquirer hands to `validate` for one typed answer: an empty
      answer takes the question's default when it has one. */
  function WithDefault(typed: string, default: Option<string>): (v: string)
    ensures typed != [] ==> v == typed
    ensures typed == [] && default.Some? ==> v == default.value
  {
    if typed == [] && default.Some? then default.value else typed
  }

  /** The two questions of the prompt. */
  datatype Question = UserIdQuestion | SecretKeyQuestion

  function Validate(q: Question, input: string): Validation
  {
    match q
    case UserIdQuestion => ValidateUserId(input)
    case SecretKeyQuestion => ValidateSecretKey(input)
  }

  /** Index of the first typed answer the question's validator accepts, or
      the number of answers when it accepts none. inquirer asks again after
      each rejected answer. */
  function FirstAccepted(q: Question, default: Option<string>, typed: seq<string>): (k: nat)
    ensures k <= |typed|
    ensures forall j :: 0 <= j < k ==> Validate(q, WithDefault(typed[j], default)) != Valid
    ensures k < |typed| ==> Validate(q, WithDefault(typed[k], default)) == Valid
  {
    if typed == [] then 0
    else if Validate(q, WithDefault(typed[0], default)) == Valid then 0
    else 1 + FirstAccepted(q, default, typed[1..])
  }

  /** The answers the prompt gathers. */
  datatype Answers = Answers(userId: string, secretKey: string)

  /** The three steps in series: the default offered to the prompt and the
      object written to the `.aerobatic` file. */
  datatype LoginRun = LoginRun(defaultUserId: Option<string>, written: Answers)

  /** `readExistingCredentials`, `promptForInputs` and the file write, given
      what the user typed at each question. `None` when some question never
      got an acceptable answer: inquirer would go on asking, and nothing is
      written. */
  function RunLogin(f: CredentialsFile, typedUserIds: seq<string>, typedKeys: seq<string>): (r: Option<LoginRun>)
    ensures r.Some? <==>
              (exists i :: 0 <= i < |typedUserIds|
                 && ValidateUserId(WithDefault(typedUserIds[i], ExistingUserId(f))) == Valid)
              && (exists i :: 0 <= i < |typedKeys| && ValidateSecretKey(typedKeys[i]) == Valid)
    ensures r.Some? ==> r.value.defaultUserId == ExistingUserId(f)
    ensures r.Some? ==>
              exists i :: 0 <= i < |typedUserIds|
                && r.value.written.userId == WithDefault(typedUserIds[i], ExistingUserId(f))
                && ValidateUserId(r.value.written.userId) == Valid
                && forall j :: 0 <= j < i ==> ValidateUserId(WithDefault(typedUserIds[j], ExistingUserId(f))) != Valid
    ensures r.Some? ==>
              exists i :: 0 <= i < |typedKeys|
                && r.value.written.secretKey == typedKeys[i]
                && ValidateSecretKey(typedKeys[i]) == Valid
                && forall j :: 0 <= j < i ==> ValidateSecretKey(typedKeys[j]) != Valid
    ensures r.Some? ==> |r.value.written.secretKey| == 32
  {
    var dflt := ExistingUserId(f);
    var u := FirstAccepted(UserIdQuestion, dflt, typedUserIds);
    var k := FirstAccepted(SecretKeyQuestion, None, typedKeys);
    if u < |typedUserIds| && k < |typedKeys| then
      assert WithDefault(typedKeys[k], None) == typedKeys[k];
      Some(LoginRun(dflt, Answers(WithDefault(typedUserIds[u], dflt), typedKeys[k])))
    else
      None
  }

  /** Pressing enter at the first question accepts a valid stored user id. */
  lemma EnterKeepsStoredUserId(json: Credentials, typedUserIds: seq<string>, typedKeys: seq<string>)
    requires json.userId.Some? && ValidateUserId(json.userId.value) == Valid
    requires typedUserIds != [] && typedUserIds[0] == ""
    requires RunLogin(Parsed(json), typedUserIds, typedKeys).Some?
    ensures RunLogin(Parsed(json), typedUserIds, typedKeys).value.written.userId == json.userId.value
  {
    assert FirstAccepted(UserIdQuestion, json.userId, typedUserIds) == 0;
  }
}
