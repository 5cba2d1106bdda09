/**
 * The iOS side of the bridge (AppDelegate): the device email is whatever string the user
 * defaults hold under "device_email", and the handler is an if / else-if / else chain that
 * implements only the two email methods.
 */
module IosBridge {

  import opened Wrappers
  import opened Channel

  const CHANNEL_NAME := "RedHill.workshop_app/device_email"

  /** The user-defaults key the email is read from. */
  const DEVICE_EMAIL_KEY := "device_email"

  /**
   * The standard user defaults as `string(forKey:)` reads them, by key: string entries as
   * they are, number entries as their string form; keys that read as nil are absent.
   */
  type UserDefaults = map<string, string>

  /** `getDeviceEmail`: the string stored under "device_email", or nil. */
  function GetDeviceEmail(defaults: UserDefaults): (r: Option<string>)
    ensures r.Some? <==> DEVICE_EMAIL_KEY in defaults
    ensures r.Some? ==> r.value in defaults.Values
  {
    if DEVICE_EMAIL_KEY in defaults then Some(defaults[DEVICE_EMAIL_KEY]) else None
  }

  /** The reply the handler gives to `call`. */
  function Respond(call: MethodCall, defaults: UserDefaults): (r: Response)
    ensures !r.Error?
    ensures r.Success? <==> call.name == GET_DEVICE_EMAIL || call.name == HAS_DEVICE_EMAIL
    ensures call.name == HAS_DEVICE_EMAIL ==> r == Success(Flag(DEVICE_EMAIL_KEY in defaults))
  {
    if call.name == GET_DEVICE_EMAIL then
      Success(OptionalStr(GetDeviceEmail(defaults)))
    else if call.name == HAS_DEVICE_EMAIL then
      Success(Flag(GetDeviceEmail(defaults) != None))
    else
      NotImplemented
  }

  // ---------------------------------------------------------------------------------------
  // Reading the email back from the user defaults

  /** An email stored under "device_email" is exactly what `getDeviceEmail` gives back. */
  lemma StoredEmailIsRead(defaults: UserDefaults, email: string)
    ensures GetDeviceEmail(defaults[DEVICE_EMAIL_KEY := email]) == Some(email)
  {
  }

  /** Once "device_email" is removed, `getDeviceEmail` gives nil. */
  lemma RemovedEmailIsAbsent(defaults: UserDefaults)
    ensures GetDeviceEmail(defaults - {DEVICE_EMAIL_KEY}) == None
  {
  }

  /** No other user-defaults entry affects the email. */
  lemma OtherKeysIrrelevant(defaults: UserDefaults, key: string, value: string)
    requires key != DEVICE_EMAIL_KEY
    ensures GetDeviceEmail(defaults[key := value]) == GetDeviceEmail(defaults)
    ensures GetDeviceEmail(defaults - {key}) == GetDeviceEmail(defaults)
  {
  }

  // ---------------------------------------------------------------------------------------
  // The dispatcher

  /** Only the two email names are implemented; every other name, "getUriForFile" included, is not. */
  lemma DispatchIsExact(call: MethodCall, defaults: UserDefaults)
    ensures Respond(call, defaults).NotImplemented? <==>
      call.name != GET_DEVICE_EMAIL && call.name != HAS_DEVICE_EMAIL
    ensures call.name == GET_URI_FOR_FILE ==> Respond(call, defaults) == NotImplemented
  {
  }

  /** `getDeviceEmail` answers the stored value, or nil when the key is absent. */
  lemma GetEmailAnswersStoredValue(arg: Value, defaults: UserDefaults)
    ensures DEVICE_EMAIL_KEY in defaults ==>
      Respond(MethodCall(GET_DEVICE_EMAIL, arg), defaults) == Success(Str(defaults[DEVICE_EMAIL_KEY]))
    ensures DEVICE_EMAIL_KEY !in defaults ==>
      Respond(MethodCall(GET_DEVICE_EMAIL, arg), defaults) == Success(Null)
  {
  }

  /** `hasDeviceEmail` answers true exactly when a value is stored under "device_email". */
  lemma HasEmailIffStored(arg: Value, defaults: UserDefaults)
    ensures Respond(MethodCall(HAS_DEVICE_EMAIL, arg), defaults) == Success(Flag(DEVICE_EMAIL_KEY in defaults))
    ensures Respond(MethodCall(HAS_DEVICE_EMAIL, arg), defaults) ==
      Success(Flag(Respond(MethodCall(GET_DEVICE_EMAIL, arg), defaults).value != Null))
  {
  }
}
