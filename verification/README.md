# Device-email bridge, modelled in Dafny

The workshop app's Flutter UI talks to the host platform over one method channel,
`RedHill.workshop_app/device_email`. This project models the native half of that channel on
both platforms and proves what it answers.

- **Android** (`MainActivity`) picks the device email from the accounts that the account
  manager enumerates. It takes the first account whose type contains "google", ignoring case.
  If there is none, it takes the first account. If there are no accounts, or reading them
  fails, the email is absent. `hasDeviceEmail` re-runs that selection and compares the
  result with null. `getUriForFile` hands a path to the file provider.
- **iOS** (`AppDelegate`) reads the email from the user defaults under `device_email`. It
  implements only the two email methods.

Modules:

- `Wrappers`: `Option`.
- `Text`: Kotlin's `contains(other, ignoreCase = true)`. It tries every offset and compares
  character by character, the way `Char.equals(ignoreCase = true)` does, with ASCII case
  mapping.
- `Channel`: the wire values (null, string, boolean), `MethodCall` and `Response`
  (`Success`, `NotImplemented`, `Error`). It also holds `ReplySink`, which records the replies
  sent back to the caller. Those are the replies a handler sends through its callback
  (`MethodChannel.Result`), and the error reply the channel sends itself when a handler throws.
- `AndroidBridge`: the selection policy as a function (`DeviceEmail`) and as the source's
  loop with early return (`GetDeviceEmail`, proved equal to it). Also `HasDeviceEmail`, the
  answer the caller receives (`Respond`), and the handler `OnMethodCall`. The handler
  either replies once through the callback or throws without replying.
  `DeliverMethodCall` is the channel's side: it sends the error reply for a thrown
  exception. It is proved to deliver exactly one reply per call, and that reply is
  `Respond`'s answer.
- `IosBridge`: the user-defaults lookup and the if / else-if / else dispatcher as functions.
- `CrossPlatform`: the same channel name on both platforms, and the same answers wherever
  the two email sources agree. The one exception is `getUriForFile`.

The account store is an input: `Readable(accounts)` in enumeration order, or `ReadFailed`
for any exception thrown while reading it. The file provider is a parameter
`string -> Option<string>`, where `None` means it threw. The user defaults are a
`map<string, string>` of what `string(forKey:)` reads: string entries as they are, and
number entries as their string form.

On Android, `getUriForFile` can fail in two ways:

- `call.arguments as String` throws when the argument is not a string (null included).
- The file provider throws for a path outside its roots.

Neither exception is caught in `MainActivity`, so the handler throws without calling
`result`. The Flutter channel catches the exception and sends an error reply instead. So
`getUriForFile` can also be answered with an error reply: `Error(CastFailed)` or
`Error(PathNotShareable)` in the model.

## Model

| member | source | states |
|---|---|---|
| Text.CharEqualsIgnoreCaseIsLowerEquality | android/app/src/main/kotlin/RedHill/workshop_app/MainActivity.kt:47 | Two characters are equal ignoring case exactly when their lower-case forms are equal |
| Text.ContainsIgnoreCaseOfUpperAll | android/app/src/main/kotlin/RedHill/workshop_app/MainActivity.kt:47 | Whether the marker is found does not depend on the case of the account type |
| Text.ContainsIgnoreCase | android/app/src/main/kotlin/RedHill/workshop_app/MainActivity.kt:47 | The empty pattern is found in every text, and a pattern longer than the text is never found. Its full meaning is stated by ContainsIgnoreCaseIsLowerCaseContains |
| Text.ContainsIgnoreCaseIsLowerCaseContains | android/app/src/main/kotlin/RedHill/workshop_app/MainActivity.kt:47 | A case-insensitive match is exactly a plain, case-sensitive occurrence of the lower-cased pattern in the lower-cased text |
| Text.ContainsIgnoreCaseInContext | android/app/src/main/kotlin/RedHill/workshop_app/MainActivity.kt:47 | A type that contains the marker still contains it with any text added before or after |
| AndroidBridge.IsGoogle | android/app/src/main/kotlin/RedHill/workshop_app/MainActivity.kt:47 | An account is a Google account exactly when its lower-cased type contains "google" as a plain substring |
| AndroidBridge.FirstGoogleIndex | android/app/src/main/kotlin/RedHill/workshop_app/MainActivity.kt:46-50 | Gives the index of a Google account with no Google account before it, or absent exactly when no account is Google |
| AndroidBridge.DeviceEmail | android/app/src/main/kotlin/RedHill/workshop_app/MainActivity.kt:40-57 | A failed read gives absent; a readable store gives absent exactly when it is empty; a present result is the name of some account in the store |
| AndroidBridge.GetDeviceEmail | android/app/src/main/kotlin/RedHill/workshop_app/MainActivity.kt:40-57 | The loop with early return, and the catch, give exactly the selection policy |
| AndroidBridge.HasDeviceEmail | android/app/src/main/kotlin/RedHill/workshop_app/MainActivity.kt:59-61 | True exactly when a fresh selection is present, which means exactly when the store is readable and non-empty |
| AndroidBridge.Respond | android/app/src/main/kotlin/RedHill/workshop_app/MainActivity.kt:21-35 | The caller's answer to one call: notImplemented exactly when the name is none of the three method names; an error only for getUriForFile; hasDeviceEmail answers whether the store is readable and non-empty. DispatchIsExact, EmailMethodsSucceed and UriForFileOutcome state each branch |
| AndroidBridge.OnMethodCall | android/app/src/main/kotlin/RedHill/workshop_app/MainActivity.kt:21-35 | Each branch that does not throw replies exactly once through `result`, with the caller's answer. The two `getUriForFile` paths that throw (a failed cast or a refused path) reply nothing and return the exception |
| AndroidBridge.DeliverMethodCall | android/app/src/main/kotlin/RedHill/workshop_app/MainActivity.kt:18-37 | When the channel runs the handler and answers an escaped exception with an error reply, each call receives exactly one reply, the dispatcher's answer |
| AndroidBridge.GoogleAccountChosen | android/app/src/main/kotlin/RedHill/workshop_app/MainActivity.kt:46-49 | The first Google account's name is chosen, whatever non-Google accounts come before it |
| AndroidBridge.SoleGoogleAccountChosen | android/app/src/main/kotlin/RedHill/workshop_app/MainActivity.kt:46-49 | With exactly one Google account, its name is chosen at any position |
| AndroidBridge.FallbackToFirstAccount | android/app/src/main/kotlin/RedHill/workshop_app/MainActivity.kt:53 | With no Google account in a non-empty store, the first account's name is chosen |
| AndroidBridge.NonGooglePrefixIrrelevant | android/app/src/main/kotlin/RedHill/workshop_app/MainActivity.kt:46-50 | Adding non-Google accounts ahead of a store that holds a Google account does not change the choice |
| AndroidBridge.NoEmailWithoutAccounts | android/app/src/main/kotlin/RedHill/workshop_app/MainActivity.kt:40-61 | A failed read or an empty store gives no email. Then, for any argument and provider, getDeviceEmail answers null and hasDeviceEmail answers false |
| AndroidBridge.GoogleFirstExample | android/app/src/main/kotlin/RedHill/workshop_app/MainActivity.kt:46-49 | Store [com.google a@gmail.com, com.other b@other.com] gives a@gmail.com, and hasDeviceEmail answers true |
| AndroidBridge.UpperCaseGoogleAfterOtherExample | android/app/src/main/kotlin/RedHill/workshop_app/MainActivity.kt:46-49 | Store [com.other b@other.com, COM.GOOGLE a@gmail.com] gives a@gmail.com |
| AndroidBridge.DispatchIsExact | android/app/src/main/kotlin/RedHill/workshop_app/MainActivity.kt:21-35 | The answer is notImplemented exactly when the name is none of the three method names |
| AndroidBridge.EmailMethodsSucceed | android/app/src/main/kotlin/RedHill/workshop_app/MainActivity.kt:22-29 | getDeviceEmail succeeds with the selected email or null; hasDeviceEmail succeeds with whether there is one |
| AndroidBridge.HasEmailAgreesWithGetEmail | android/app/src/main/kotlin/RedHill/workshop_app/MainActivity.kt:26-28 | On the same store, with any argument, hasDeviceEmail answers true exactly when getDeviceEmail answers non-null |
| AndroidBridge.UriForFileOutcome | android/app/src/main/kotlin/RedHill/workshop_app/MainActivity.kt:30-34 | getUriForFile succeeds with exactly the provider's URI for a string argument the provider accepts; otherwise it gives a distinguishable error, never notImplemented |
| AndroidBridge.DispatchIsCaseSensitive | android/app/src/main/kotlin/RedHill/workshop_app/MainActivity.kt:21-35 | Every name other than the three method names that equals one of them up to case is answered notImplemented |
| AndroidBridge.CaseVariantExamples | android/app/src/main/kotlin/RedHill/workshop_app/MainActivity.kt:21-35 | "GetDeviceEmail", "HASDEVICEEMAIL" and "getURIForFile" are answered notImplemented |
| IosBridge.GetDeviceEmail | ios/Runner/AppDelegate.swift:34-38 | Present exactly when device_email is stored, and then one of the stored values. StoredEmailIsRead, RemovedEmailIsAbsent and OtherKeysIrrelevant pin it to that key |
| IosBridge.Respond | ios/Runner/AppDelegate.swift:16-28 | Never an error. Success exactly for getDeviceEmail and hasDeviceEmail, every other name notImplemented; hasDeviceEmail answers whether device_email is stored. DispatchIsExact, GetEmailAnswersStoredValue and HasEmailIffStored state each branch |
| IosBridge.StoredEmailIsRead | ios/Runner/AppDelegate.swift:34-38 | An email written under device_email is exactly what getDeviceEmail reads back |
| IosBridge.RemovedEmailIsAbsent | ios/Runner/AppDelegate.swift:37 | With device_email removed, getDeviceEmail gives nil |
| IosBridge.OtherKeysIrrelevant | ios/Runner/AppDelegate.swift:37 | Writing or removing any other key does not change the email |
| IosBridge.DispatchIsExact | ios/Runner/AppDelegate.swift:16-28 | The answer is notImplemented exactly when the name is neither email method; getUriForFile included |
| IosBridge.GetEmailAnswersStoredValue | ios/Runner/AppDelegate.swift:19-21 | getDeviceEmail succeeds with the stored value, or with nil when there is none |
| IosBridge.HasEmailIffStored | ios/Runner/AppDelegate.swift:22-24 | hasDeviceEmail answers true exactly when device_email is stored, which means exactly when getDeviceEmail answers non-nil |
| CrossPlatform.SameChannelName | ios/Runner/AppDelegate.swift:13 | Both platforms register on RedHill.workshop_app/device_email |
| CrossPlatform.AgreeExceptUriForFile | ios/Runner/AppDelegate.swift:16-28 | When both email sources yield the same email, both platforms answer every call except getUriForFile identically |
| CrossPlatform.DifferOnUriForFile | ios/Runner/AppDelegate.swift:25-27 | getUriForFile is never notImplemented on Android and always notImplemented on iOS |

## Left out

- Account enumeration through `getSystemService` / `AccountManager` is an OS call. The model takes its outcome as input: the accounts in enumeration order, or a read failure.
- `FileProvider.getUriForFile` and its `BuildConfig.APPLICATION_ID` authority belong to a foreign library. The model takes the path-to-URI conversion as a parameter and does not describe the URI format.
- `MainActivity.kt` constructs `File` without importing `java.io.File`. The model assumes the intended class.
- Persistence of `UserDefaults.standard` is external. The defaults are a map parameter that holds what `string(forKey:)` reads: strings, and numbers as their string form. Entries that read as nil are simply absent from the map.
- Channel construction and handler registration are not modelled: `configureFlutterEngine`, replacing the handler via `setMethodCallHandler`, `GeneratedPluginRegistrant`, and the force-cast of the root view controller.
- Threading and message transport are not modelled. Each call is answered synchronously.
- Case-insensitive matching uses ASCII case mapping only, not Kotlin's full Unicode case mapping.
- On the wire, both `Error` reasons are the channel's generic error reply with code "error". The model keeps the reason apart to show which exception caused the reply.
- The iOS handler is modelled as a function that returns its one reply. It is not modelled as a callback, because each branch calls `result` once and nothing else.
- Flutter's own channel code is not part of this model. `DeliverMethodCall` states only what that code does with one call: it runs the handler and, if the handler throws, sends a single error reply.
