/**
 * The Android side of the bridge (MainActivity): the device-email selection policy over the
 * accounts the account manager enumerates, the derived has-email flag, and the `when`
 * dispatcher that answers each method call with exactly one reply.
 */
module AndroidBridge {

  import opened Wrappers
  import opened Text
  import opened Channel

  const CHANNEL_NAME := "RedHill.workshop_app/device_email"

  /** The provider marker searched for, ignoring case, in an account's type. */
  const GOOGLE_MARKER := "google"

  /** An account registered with the system account manager; only its type and name are read. */
  datatype Account = Account(accountType: string, name: string)

  /**
   * What reading the account manager gives: the accounts in its enumeration order, or a
   * failure (no service, permission denied, any exception while reading).
   */
  datatype AccountStore = Readable(accounts: seq<Account>) | ReadFailed

  /** A Google account: its type contains "google" in any mix of cases. */
  predicate IsGoogle(a: Account)
    ensures IsGoogle(a) <==> ContainsSlice(LowerAll(a.accountType), GOOGLE_MARKER)
  {
    ContainsIgnoreCaseIsLowerCaseContains(a.accountType, GOOGLE_MARKER);
    assert LowerAll(GOOGLE_MARKER) == GOOGLE_MARKER;
    ContainsIgnoreCase(a.accountType, GOOGLE_MARKER)
  }

  /** The position of the first Google account in enumeration order, if there is one. */
  function FirstGoogleIndex(accounts: seq<Account>): (r: Option<nat>)
    ensures r.Some? ==> r.value < |accounts| && IsGoogle(accounts[r.value])
    ensures r.Some? ==> forall j :: 0 <= j < r.value ==> !IsGoogle(accounts[j])
    ensures r.None? <==> forall j :: 0 <= j < |accounts| ==> !IsGoogle(accounts[j])
  {
    if accounts == [] then None
    else if IsGoogle(accounts[0]) then Some(0)
    else
      match FirstGoogleIndex(accounts[1..])
      case None => None
      case Some(i) => Some(i + 1)
  }

  /**
   * The selection policy: the first Google account's name, else the first account's name,
   * else absent; a failed read is absent.
   */
  function DeviceEmail(store: AccountStore): (r: Option<string>)
    ensures store.ReadFailed? ==> r.None?
    ensures store.Readable? ==> (r.None? <==> store.accounts == [])
    ensures r.Some? ==>
      store.Readable? && exists i :: 0 <= i < |store.accounts| && store.accounts[i].name == r.value
  {
    match store
    case ReadFailed => None
    case Readable(accounts) =>
      match FirstGoogleIndex(accounts)
      case Some(i) => Some(accounts[i].name)
      case None => if accounts == [] then None else Some(accounts[0].name)
  }

  /** `getDeviceEmail`: scan for a Google account, return early on the first, else fall back. */
  method GetDeviceEmail(store: AccountStore) returns (email: Option<string>)
    ensures email == DeviceEmail(store)
  {
    match store {
      case ReadFailed =>
        // the catch-all handler: any exception reading the store gives null
        return None;
      case Readable(accounts) =>
        for i := 0 to |accounts|
          invariant forall j :: 0 <= j < i ==> !IsGoogle(accounts[j])
        {
          if IsGoogle(accounts[i]) {
            return Some(accounts[i].name);
          }
        }
        // `accounts.firstOrNull()?.name`
        if accounts == [] {
          return None;
        }
        return Some(accounts[0].name);
    }
  }

  /** `hasDeviceEmail`: a fresh `getDeviceEmail` on the same store, compared with null. */
  method HasDeviceEmail(store: AccountStore) returns (has: bool)
    ensures has <==> DeviceEmail(store).Some?
    ensures has <==> store.Readable? && store.accounts != []
  {
    var email := GetDeviceEmail(store);
    has := email != None;
  }

  /**
   * The reply the caller receives for `call`: the handler's reply, or the channel's error
   * reply when the handler throws. `provider` stands for the file provider's path-to-URI
   * conversion; `None` means it threw.
   */
  function Respond(call: MethodCall, store: AccountStore, provider: string -> Option<string>): (r: Response)
    ensures r.NotImplemented? <==>
      call.name != GET_DEVICE_EMAIL && call.name != HAS_DEVICE_EMAIL && call.name != GET_URI_FOR_FILE
    ensures r.Error? ==> call.name == GET_URI_FOR_FILE
    ensures call.name == HAS_DEVICE_EMAIL ==> r == Success(Flag(store.Readable? && store.accounts != []))
  {
    if call.name == GET_DEVICE_EMAIL then
      Success(OptionalStr(DeviceEmail(store)))
    else if call.name == HAS_DEVICE_EMAIL then
      Success(Flag(DeviceEmail(store).Some?))
    else if call.name == GET_URI_FOR_FILE then
      match call.argument
      case Str(path) =>
        (match provider(path)
         case Some(uri) => Success(Str(uri))
         case None => Error(PathNotShareable))
      case _ => Error(CastFailed)
    else
      NotImplemented
  }

  /**
   * The method-call handler. The email branches and a successful `getUriForFile` answer
   * through `result` once. When `call.arguments as String` or the file provider throws, the
   * handler returns the exception it throws and does not call `result` at all.
   */
  method OnMethodCall(call: MethodCall, store: AccountStore, provider: string -> Option<string>, result: ReplySink)
    returns (thrown: Option<Failure>)
    modifies result
    ensures thrown.None? ==> result.replies == old(result.replies) + [Respond(call, store, provider)]
    ensures thrown.Some? ==> result.replies == old(result.replies)
    ensures thrown.Some? <==> Respond(call, store, provider).Error?
    ensures thrown.Some? ==> Respond(call, store, provider) == Error(thrown.value)
  {
    thrown := None;
    if call.name == GET_DEVICE_EMAIL {
      var email := GetDeviceEmail(store);
      result.Success(OptionalStr(email));
    } else if call.name == HAS_DEVICE_EMAIL {
      var hasEmail := HasDeviceEmail(store);
      result.Success(Flag(hasEmail));
    } else if call.name == GET_URI_FOR_FILE {
      match call.argument {
        case Str(filePath) =>
          var uri := provider(filePath);
          if uri.Some? {
            result.Success(Str(uri.value));
          } else {
            thrown := Some(PathNotShareable);
          }
        case _ =>
          // `call.arguments as String` throws on null and on every non-string argument
          thrown := Some(CastFailed);
      }
    } else {
      result.NotImplemented();
    }
  }

  /**
   * The channel's side of one incoming call: it runs the handler and, when the handler
   * throws, sends the error reply itself. Either way the caller receives exactly one reply,
   * the dispatcher's answer.
   */
  method DeliverMethodCall(call: MethodCall, store: AccountStore, provider: string -> Option<string>, result: ReplySink)
    modifies result
    ensures result.replies == old(result.replies) + [Respond(call, store, provider)]
  {
    var thrown := OnMethodCall(call, store, provider, result);
    if thrown.Some? {
      result.Error(thrown.value);
    }
  }

  // ---------------------------------------------------------------------------------------
  // The selection policy

  /** The first Google account wins, whatever non-Google accounts come before it. */
  lemma GoogleAccountChosen(accounts: seq<Account>, k: nat)
    requires k < |accounts| && IsGoogle(accounts[k])
    requires forall j :: 0 <= j < k ==> !IsGoogle(accounts[j])
    ensures DeviceEmail(Readable(accounts)) == Some(accounts[k].name)
  {
  }

  /** With exactly one Google account, its name is chosen wherever it stands. */
  lemma SoleGoogleAccountChosen(accounts: seq<Account>, k: nat)
    requires k < |accounts| && IsGoogle(accounts[k])
    requires forall j :: 0 <= j < |accounts| && j != k ==> !IsGoogle(accounts[j])
    ensures DeviceEmail(Readable(accounts)) == Some(accounts[k].name)
  {
    GoogleAccountChosen(accounts, k);
  }

  /** Without any Google account, the first account's name is chosen. */
  lemma FallbackToFirstAccount(accounts: seq<Account>)
    requires accounts != []
    requires forall j :: 0 <= j < |accounts| ==> !IsGoogle(accounts[j])
    ensures DeviceEmail(Readable(accounts)) == Some(accounts[0].name)
  {
  }

  /** Non-Google accounts enumerated ahead of a store that holds a Google account change nothing. */
  lemma {:induction false} NonGooglePrefixIrrelevant(others: seq<Account>, accounts: seq<Account>)
    requires forall j :: 0 <= j < |others| ==> !IsGoogle(others[j])
    requires exists j :: 0 <= j < |accounts| && IsGoogle(accounts[j])
    ensures DeviceEmail(Readable(others + accounts)) == DeviceEmail(Readable(accounts))
  {
    var k := FirstGoogleIndex(accounts).value;
    var all := others + accounts;
    assert all[|others| + k] == accounts[k];
    forall j | 0 <= j < |others| + k ensures !IsGoogle(all[j]) {
      if j < |others| {
        assert all[j] == others[j];
      } else {
        assert all[j] == accounts[j - |others|];
      }
    }
    GoogleAccountChosen(all, |others| + k);
    GoogleAccountChosen(accounts, k);
  }

  /** A failed read and an empty store both give no email and a false flag. */
  lemma NoEmailWithoutAccounts(store: AccountStore, arg: Value, provider: string -> Option<string>)
    requires store.ReadFailed? || store.accounts == []
    ensures DeviceEmail(store) == None
    ensures Respond(MethodCall(GET_DEVICE_EMAIL, arg), store, provider) == Success(Null)
    ensures Respond(MethodCall(HAS_DEVICE_EMAIL, arg), store, provider) == Success(Flag(false))
  {
  }

  /** Two accounts, the Google one first: its name is chosen and the flag is true. */
  lemma GoogleFirstExample()
    ensures DeviceEmail(Readable([Account("com.google", "a@gmail.com"), Account("com.other", "b@other.com")]))
      == Some("a@gmail.com")
    ensures Respond(MethodCall(HAS_DEVICE_EMAIL, Null),
                    Readable([Account("com.google", "a@gmail.com"), Account("com.other", "b@other.com")]),
                    (p: string) => None) == Success(Flag(true))
  {
    var accounts := [Account("com.google", "a@gmail.com"), Account("com.other", "b@other.com")];
    assert RegionMatchesIgnoreCase(accounts[0].accountType, 4, GOOGLE_MARKER);
    GoogleAccountChosen(accounts, 0);
  }

  /** An upper-case Google type after a non-Google account is still found and wins. */
  lemma UpperCaseGoogleAfterOtherExample()
    ensures DeviceEmail(Readable([Account("com.other", "b@other.com"), Account("COM.GOOGLE", "a@gmail.com")]))
      == Some("a@gmail.com")
  {
    var accounts := [Account("com.other", "b@other.com"), Account("COM.GOOGLE", "a@gmail.com")];
    assert RegionMatchesIgnoreCase(accounts[1].accountType, 4, GOOGLE_MARKER);
    forall i | 0 <= i <= |accounts[0].accountType| - |GOOGLE_MARKER|
      ensures !RegionMatchesIgnoreCase(accounts[0].accountType, i, GOOGLE_MARKER)
    {
      assert !CharEqualsIgnoreCase(accounts[0].accountType[i], GOOGLE_MARKER[0]);
    }
    GoogleAccountChosen(accounts, 1);
  }

  // ---------------------------------------------------------------------------------------
  // The dispatcher

  /** Only the three exact names are implemented; every other name gets `notImplemented`. */
  lemma DispatchIsExact(call: MethodCall, store: AccountStore, provider: string -> Option<string>)
    ensures Respond(call, store, provider).NotImplemented? <==>
      call.name != GET_DEVICE_EMAIL && call.name != HAS_DEVICE_EMAIL && call.name != GET_URI_FOR_FILE
  {
  }

  /** The email methods always succeed, with the selected email or with whether there is one. */
  lemma EmailMethodsSucceed(arg: Value, store: AccountStore, provider: string -> Option<string>)
    ensures Respond(MethodCall(GET_DEVICE_EMAIL, arg), store, provider) == Success(OptionalStr(DeviceEmail(store)))
    ensures Respond(MethodCall(HAS_DEVICE_EMAIL, arg), store, provider) == Success(Flag(DeviceEmail(store).Some?))
  {
  }

  /** On the same store, `hasDeviceEmail` answers true exactly when `getDeviceEmail` answers non-null. */
  lemma HasEmailAgreesWithGetEmail(arg: Value, store: AccountStore, provider: string -> Option<string>)
    ensures Respond(MethodCall(HAS_DEVICE_EMAIL, arg), store, provider) ==
      Success(Flag(Respond(MethodCall(GET_DEVICE_EMAIL, arg), store, provider).value != Null))
  {
  }

  /**
   * `getUriForFile` is never `notImplemented`: a string argument the provider accepts gives
   * exactly the provider's URI, anything else a distinguishable error.
   */
  lemma UriForFileOutcome(arg: Value, store: AccountStore, provider: string -> Option<string>)
    ensures Respond(MethodCall(GET_URI_FOR_FILE, arg), store, provider).Success? <==>
      arg.Str? && provider(arg.s).Some?
    ensures arg.Str? && provider(arg.s).Some? ==>
      Respond(MethodCall(GET_URI_FOR_FILE, arg), store, provider) == Success(Str(provider(arg.s).value))
    ensures !arg.Str? ==> Respond(MethodCall(GET_URI_FOR_FILE, arg), store, provider) == Error(CastFailed)
    ensures arg.Str? && provider(arg.s).None? ==>
      Respond(MethodCall(GET_URI_FOR_FILE, arg), store, provider) == Error(PathNotShareable)
  {
  }

  /** Names are matched case-sensitively: any other capitalisation of a method name is not implemented. */
  lemma DispatchIsCaseSensitive(name: string, arg: Value, store: AccountStore, provider: string -> Option<string>)
    requires name != GET_DEVICE_EMAIL && name != HAS_DEVICE_EMAIL && name != GET_URI_FOR_FILE
    requires UpperAll(name) == UpperAll(GET_DEVICE_EMAIL) || UpperAll(name) == UpperAll(HAS_DEVICE_EMAIL) ||
             UpperAll(name) == UpperAll(GET_URI_FOR_FILE)
    ensures Respond(MethodCall(name, arg), store, provider) == NotImplemented
  {
  }

  /** Three capitalisations that differ from the method names are not implemented. */
  lemma CaseVariantExamples(store: AccountStore, provider: string -> Option<string>)
    ensures Respond(MethodCall("GetDeviceEmail", Null), store, provider) == NotImplemented
    ensures Respond(MethodCall("HASDEVICEEMAIL", Null), store, provider) == NotImplemented
    ensures Respond(MethodCall("getURIForFile", Str("/tmp/a")), store, provider) == NotImplemented
  {
    assert "GetDeviceEmail"[0] != GET_DEVICE_EMAIL[0];
    assert "HASDEVICEEMAIL"[1] != HAS_DEVICE_EMAIL[1];
    assert "getURIForFile"[4] != GET_URI_FOR_FILE[4];
  }
}
