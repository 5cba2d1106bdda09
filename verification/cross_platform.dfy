/**
 * The two platforms side by side: the same channel, the same answers to the email methods
 * whenever the two email sources agree, and different answers to "getUriForFile".
 */
module CrossPlatform {

  import opened Wrappers
  import opened Channel
  import AndroidBridge
  import IosBridge

  /** Both platforms register their handler on the same channel name. */
  lemma SameChannelName()
    ensures AndroidBridge.CHANNEL_NAME == IosBridge.CHANNEL_NAME
    ensures AndroidBridge.CHANNEL_NAME == "RedHill.workshop_app/device_email"
  {
  }

  /**
   * When the account store selects the same email as the user defaults hold, both platforms
   * answer every call other than "getUriForFile" identically.
   */
  lemma AgreeExceptUriForFile(call: MethodCall, store: AndroidBridge.AccountStore,
                              provider: string -> Option<string>, defaults: IosBridge.UserDefaults)
    requires AndroidBridge.DeviceEmail(store) == IosBridge.GetDeviceEmail(defaults)
    requires call.name != GET_URI_FOR_FILE
    ensures AndroidBridge.Respond(call, store, provider) == IosBridge.Respond(call, defaults)
  {
  }

  /** "getUriForFile" is implemented on Android and answered `notImplemented` on iOS. */
  lemma DifferOnUriForFile(arg: Value, store: AndroidBridge.AccountStore,
                           provider: string -> Option<string>, defaults: IosBridge.UserDefaults)
    ensures !AndroidBridge.Respond(MethodCall(GET_URI_FOR_FILE, arg), store, provider).NotImplemented?
    ensures IosBridge.Respond(MethodCall(GET_URI_FOR_FILE, arg), defaults) == NotImplemented
  {
  }
}
