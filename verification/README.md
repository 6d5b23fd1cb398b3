# Android platform value records and small state machines, in Dafny

This project models four small self-contained pieces of the Android platform
framework and proves properties of them:

- **DeviceInfo** (Wi-Fi shared connectivity): an immutable record of the device
  that shares its connectivity. It has a validating constructor, a Builder that
  defers validation to `build()`, field-wise `equals`/`hashCode`, and a Parcel
  codec. Proved: every object that can exist satisfies the enum and range rules;
  the Builder accepts anything and `build()` decides; decoding what was encoded
  gives the object back; a decoded parcel re-encodes to exactly what was read;
  equal objects hash alike.
- **AuthenticationStatsCollector** (biometrics): per-user counters of unlock
  attempts and rejections. After 150 attempts it compares the false rejection
  rate with a threshold, starts a new cycle, and may prompt the user to enrol
  the other modality. Proved: when calls are ignored; that counting happens
  below 150 and a reset from 150 on; the exact condition for each notification;
  when statistics are persisted; what a user removal does; and that a user
  receives at most one enrolment notification over any run of attempts,
  from any starting state and however the attempts of other users are
  interleaved with its own.
  Such a run holds no user removal: a removal that initialises the persister
  reloads stored counters, and a concrete case shows the bound then fails.
- **ContentRecordingController** (window manager): the one content recording
  session of the device and its handoff between displays. Proved: invalid and
  same-display sessions change nothing; otherwise the new session and its
  display are stored; the new display is set before the old one is paused and
  cleared; "session null iff display null" is kept; only one display holds a
  session afterwards, given that sessions on one virtual display are judged to
  be on the same display. A counterexample shows why that condition is needed.
- **BubbleBarUpdate** (WM Shell bubbles): a change record with an
  `anythingChanged` predicate and a Parcel codec. Proved: exactly which fields
  count as a change (`expanded` does not); a default update reports no change;
  decoding what was encoded gives every field back; the round trip keeps
  `anythingChanged`.

The Parcel is modelled as a sequence of typed tokens (`Parcel.Token`), not as
bytes. A reader takes values off the front and returns the rest. Lists are laid
out as Parcel lays them out: a count, then the elements. The platform's Parcel
class is not part of this model. Its two list readers (`readStringList`,
`readParcelableList`) are modelled on the platform's behaviour: overwrite the
destination, append, then truncate, with -1 meaning a null list. Nested
`BubbleInfo` and `RemovedBubble` objects are opaque values that travel as one
token.

Inputs from outside the modelled code are parameters:

- `AuthenticationStatsCollector.Platform` supplies the feature and enrolment
  queries and the persister's stored data.
- `ContentRecordingController.SessionRules` supplies the two static checks of
  `ContentRecordingSession`.
- Calls made on the persister, the notifier and `DisplayContent` objects are
  returned as ordered lists.

Files: `wrappers.dfy` (Option/Result), `parcel.dfy`, `device_info.dfy`,
`auth_stats.dfy`, `content_recording.dfy`, `bubble_bar_update.dfy`.

## Model

| member | source | states |
|---|---|---|
| DeviceInfo.Validate | wifi/java/src/android/net/wifi/sharedconnectivity/app/DeviceInfo.java:163-181 | `validate` accepts exactly the arguments that form a valid record with both names non-null, and it reports an illegal device type first. `DeviceInfo.Create` and `DeviceInfo.DecodeRejectsInvalid` relate it to construction and to decoding. |
| DeviceInfo.Create | wifi/java/src/android/net/wifi/sharedconnectivity/app/DeviceInfo.java:163-191 | Construction succeeds iff the device type is 0-3, both names are non-null, battery is 0-100 and strength is 0-3. On success the object is valid and its getters return exactly the arguments. On failure the reason is the first rule broken, in the order `validate` checks them. |
| DeviceInfo.ValidIsConstructible | wifi/java/src/android/net/wifi/sharedconnectivity/app/DeviceInfo.java:183-191 | A record satisfies the validity rules exactly when the constructor, given its own fields, builds that same record. So the rules describe precisely the objects that can exist. |
| DeviceInfo.NewBuilder | wifi/java/src/android/net/wifi/sharedconnectivity/app/DeviceInfo.java:82-89 | A fresh Builder has null names and zero numeric fields. |
| DeviceInfo.SetDeviceType | wifi/java/src/android/net/wifi/sharedconnectivity/app/DeviceInfo.java:98-101 | The setter stores any value unchecked and leaves the other fields alone. |
| DeviceInfo.SetDeviceName | wifi/java/src/android/net/wifi/sharedconnectivity/app/DeviceInfo.java:110-113 | The setter stores the name unchecked and leaves the other fields alone. |
| DeviceInfo.SetModelName | wifi/java/src/android/net/wifi/sharedconnectivity/app/DeviceInfo.java:122-125 | The setter stores the model name unchecked and leaves the other fields alone. |
| DeviceInfo.SetBatteryPercentage | wifi/java/src/android/net/wifi/sharedconnectivity/app/DeviceInfo.java:134-137 | The setter stores any value, in range or not, and leaves the other fields alone. |
| DeviceInfo.SetConnectionStrength | wifi/java/src/android/net/wifi/sharedconnectivity/app/DeviceInfo.java:146-149 | The setter stores any value, in range or not, and leaves the other fields alone. |
| DeviceInfo.Build | wifi/java/src/android/net/wifi/sharedconnectivity/app/DeviceInfo.java:157-160 | A successful build yields a valid object whose fields are exactly the builder's fields. |
| DeviceInfo.UnnamedBuilderFails | wifi/java/src/android/net/wifi/sharedconnectivity/app/DeviceInfo.java:157-171 | A fresh Builder fails to build. A builder with a valid type but no name set fails with "DeviceName must be set", whatever battery and strength hold. |
| DeviceInfo.BuilderDefersValidation | wifi/java/src/android/net/wifi/sharedconnectivity/app/DeviceInfo.java:98-160 | Setting all five fields accepts any values. The build then succeeds iff they obey the rules, and the result holds exactly those values. |
| DeviceInfo.EqualsContract | wifi/java/src/android/net/wifi/sharedconnectivity/app/DeviceInfo.java:244-258 | `equals` holds iff all five fields agree, so it is reflexive and symmetric. Equal objects have equal `hashCode`, where `hashCode` is Objects.hash over the same fields in 32-bit arithmetic. |
| DeviceInfo.Equals | wifi/java/src/android/net/wifi/sharedconnectivity/app/DeviceInfo.java:244-252 | Definition: `equals` compares all five fields. `DeviceInfo.EqualsContract` proves it is record equality and `DeviceInfo.EqualsDetectsSingleFieldChange` that each field matters. |
| DeviceInfo.HashCode | wifi/java/src/android/net/wifi/sharedconnectivity/app/DeviceInfo.java:254-258 | Definition: Objects.hash over the five fields, `31 * h + x` from 1 in wrapped 32-bit arithmetic, with String.hashCode for the names. `DeviceInfo.EqualsContract` proves equal objects hash alike. |
| DeviceInfo.EqualsDetectsSingleFieldChange | wifi/java/src/android/net/wifi/sharedconnectivity/app/DeviceInfo.java:244-252 | Changing any single one of the five fields makes the objects unequal exactly when the new value differs. |
| DeviceInfo.Encode | wifi/java/src/android/net/wifi/sharedconnectivity/app/DeviceInfo.java:260-266 | Definition: the five fields written as int, string, string, int, int. `DeviceInfo.RoundTrip` proves `Decode` inverts it, and `DeviceInfo.Decode` that every decoded object re-encodes to what was read. |
| DeviceInfo.Decode | wifi/java/src/android/net/wifi/sharedconnectivity/app/DeviceInfo.java:276-279 | Every decoded object is valid. The parcel it came from is exactly its encoding followed by the unread rest. |
| DeviceInfo.RoundTrip | wifi/java/src/android/net/wifi/sharedconnectivity/app/DeviceInfo.java:260-279 | Decoding the int, string, string, int, int that `writeToParcel` writes gives back the same object and consumes exactly those five values. |
| DeviceInfo.DecodeRejectsInvalid | wifi/java/src/android/net/wifi/sharedconnectivity/app/DeviceInfo.java:163-181 | A parcel of five well-typed values fails to decode exactly when `validate` rejects them, for example on a null name. |
| AuthenticationStatsCollector.IsSingleModalityDevice | services/core/java/com/android/server/biometrics/AuthenticationStatsCollector.java:200-203 | Definition: the device lacks the fingerprint feature or the face feature. `AuthenticationStatsCollector.Authenticate` proves such a device's attempts change nothing. |
| AuthenticationStatsCollector.Ignored | services/core/java/com/android/server/biometrics/AuthenticationStatsCollector.java:118-122 | Definition: the device is single-modality, or the user has both face and fingerprint enrolled. `AuthenticationStatsCollector.Authenticate` proves ignored attempts change nothing, and that every other attempt leaves the user with an entry. |
| AuthenticationStatsCollector.NewCollector | services/core/java/com/android/server/biometrics/AuthenticationStatsCollector.java:83-99 | A new collector has no statistics, an uninitialised persister, and the given threshold and modality. |
| AuthenticationStatsCollector.PutAll | services/core/java/com/android/server/biometrics/AuthenticationStatsCollector.java:104-107 | After loading stored entries, the map's keys are the old keys plus the stored user ids. Users not stored keep their entries. Each user maps to the last stored entry for it. |
| AuthenticationStatsCollector.InitializeUserAuthenticationStatsMap | services/core/java/com/android/server/biometrics/AuthenticationStatsCollector.java:101-114 | A persister failure changes nothing and makes no call. Otherwise the threshold is persisted and the collector becomes initialised. The map's keys become the old keys plus the stored user ids. Each stored user maps to its last stored entry, and users not stored keep their counters. Nothing else changes. |
| AuthenticationStatsCollector.SendNotificationIfNeeded | services/core/java/com/android/server/biometrics/AuthenticationStatsCollector.java:152-177 | Below 150 attempts nothing changes. From 150 on the counters reset, notification or not. The fingerprint prompt is sent iff FRR >= threshold, the count is below the maximum, and only face is enrolled; the face prompt mirrors this. The notification counter grows by the number of notifications sent. |
| AuthenticationStatsCollector.PersistDataIfNeeded | services/core/java/com/android/server/biometrics/AuthenticationStatsCollector.java:179-188 | The counters are persisted iff the attempt count is a multiple of 50, zero included. Exactly one call is then made, and it carries the user's current counters. |
| AuthenticationStatsCollector.Prepare | services/core/java/com/android/server/biometrics/AuthenticationStatsCollector.java:125-136 | Loading and adding: on an empty map the persister's initialisation runs and its calls are the only calls. Afterwards the map holds every loaded entry unchanged, plus the caller. A caller that was not loaded gets fresh counters. |
| AuthenticationStatsCollector.Authenticate | services/core/java/com/android/server/biometrics/AuthenticationStatsCollector.java:117-149 | On a single-modality device, or for a user with both modalities enrolled, nothing changes. Otherwise the counters it works on are the caller's entry after loading and adding (`Prepare`). If those are at the notification maximum, the result is just that step. If not, the caller's entry becomes the counters after the notification check. The calls are then exactly the loading calls, the notification sent, and one PersistFrrStats when the persister is initialised and the total is a multiple of 50. No other user's entry changes, and the keys are the loaded keys plus the caller. The persister is initialised only from an empty map. |
| AuthenticationStatsCollector.OnUserRemoved | services/core/java/com/android/server/biometrics/AuthenticationStatsCollector.java:190-197 | Initialisation is tried if needed, and its failure is non-fatal and changes nothing. If it succeeds, the stored entries are loaded: each stored user takes its last stored entry and other users keep their counters. The removed user is then dropped, and the calls are exactly PersistFrrThreshold then RemoveFrrStats. If the persister was already initialised, only the user's entry is dropped and its stored data removed. |
| AuthenticationStatsCollector.OnReceive | services/core/java/com/android/server/biometrics/AuthenticationStatsCollector.java:70-81 | Only ACTION_USER_REMOVED with a user other than USER_NULL acts, and then as `onUserRemoved`. A missing extra counts as USER_NULL. |
| AuthenticationStatsCollector.GetAuthenticationStatsForUser | services/core/java/com/android/server/biometrics/AuthenticationStatsCollector.java:219-223 | Returns the user's counters iff the user has an entry, and null otherwise. |
| AuthenticationStatsCollector.CountedAttempt | services/core/java/com/android/server/biometrics/AuthenticationStatsCollector.java:138-187 | For a counted attempt, whether the caller's counters were in memory, loaded from storage or fresh: below 150 the counters only grow and no notification is sent. From 150 on the counters restart at zero. The counters are persisted iff the persister is initialised and the new total is a multiple of 50. |
| AuthenticationStatsCollector.NewUserStartsFresh | services/core/java/com/android/server/biometrics/AuthenticationStatsCollector.java:125-136 | A user with no entry in memory, nor in what an empty map loads, starts on fresh counters that count the attempt, and is sent no notification. |
| AuthenticationStatsCollector.StoredNotificationIsRespected | services/core/java/com/android/server/biometrics/AuthenticationStatsCollector.java:138-140 | Concrete case: on a fresh collector, a user stored as already notified keeps its stored counters on its first attempt, and the only call stores the threshold. |
| AuthenticationStatsCollector.InitialisationOnlyOnEmptyMap | services/core/java/com/android/server/biometrics/AuthenticationStatsCollector.java:125-130 | Once the map has an entry, `authenticate` never retries a failed initialisation. A user removal does retry it. |
| AuthenticationStatsCollector.AuthenticateLedger | services/core/java/com/android/server/biometrics/AuthenticationStatsCollector.java:138-176 | An ignored attempt sends no notification. Otherwise each notification sent is recorded in the caller's counter, counted from the counters it started with (in memory, loaded or fresh). The counter never passes the maximum unless it already had. |
| AuthenticationStatsCollector.AtMostOneNotificationPerUser | services/core/java/com/android/server/biometrics/AuthenticationStatsCollector.java:51-53 | In any run of attempts of any users, interleaved, and however the platform answers, a known user is sent at most one enrolment notification, and each is recorded in its counter. None is sent once the user has had one. |
| AuthenticationStatsCollector.AtMostOneNotificationFromAnyState | services/core/java/com/android/server/biometrics/AuthenticationStatsCollector.java:51-53 | From any collector, a fresh one included, any user is sent at most one enrolment notification over any interleaved run of attempts. |
| AuthenticationStatsCollector.OwnRunNotifications | services/core/java/com/android/server/biometrics/AuthenticationStatsCollector.java:152-177 | In a run of one user's attempts only, the notifications counted as sent to that user are all the notifications in the run's call log. |
| AuthenticationStatsCollector.RemovalReloadsStaleCounters | services/core/java/com/android/server/biometrics/AuthenticationStatsCollector.java:104-107 | A concrete run: an uninitialised collector holds a user already notified. Removing another user loads stored counters from before the notification over the in-memory ones, and the user's next attempt is notified again. |
| ContentRecordingController.NewController | services/core/java/com/android/server/wm/ContentRecordingController.java:35-42 | The controller starts with no session and no display, which satisfies its invariant. |
| ContentRecordingController.GetContentRecordingSession | services/core/java/com/android/server/wm/ContentRecordingController.java:44-53 | Returns the stored session. It is null iff no display is recording, and otherwise the recording display is its virtual display. |
| ContentRecordingController.Ignores | services/core/java/com/android/server/wm/ContentRecordingController.java:77-91 | Definition: an incoming session is ignored when it is non-null and invalid, or judged to be on the display already recording. `ContentRecordingController.SetContentRecordingSessionLocked` proves an ignored session changes nothing. |
| ContentRecordingController.SetContentRecordingSessionLocked | services/core/java/com/android/server/wm/ContentRecordingController.java:75-116 | Invalid or same-display sessions change nothing and make no calls. Otherwise the stored session is the incoming one (possibly null) and the stored display is its virtual display (or null). The incoming display gets its session first; then the previous display is paused and cleared. "Session null iff display null" is preserved. The sessions the displays hold are exactly the effect of the calls made, in order. |
| ContentRecordingController.HandoffKeepsSingleSession | services/core/java/com/android/server/wm/ContentRecordingController.java:28-33 | If only the current display held the current session before, only the new session's display holds it afterwards. This assumes same-virtual-display sessions are judged to be on the same display. |
| ContentRecordingController.SameDisplayRuleIsNeeded | services/core/java/com/android/server/wm/ContentRecordingController.java:92-112 | Without that assumption, a second session on the recording display is set and then cleared, while the controller believes it is recording. |
| ContentRecordingController.StopPausesAndClears | services/core/java/com/android/server/wm/ContentRecordingController.java:105-112 | A null session stops recording: no session or display remains, and the old display is paused and then cleared. |
| BubbleBarUpdate.Empty | libs/WindowManager/Shell/src/com/android/wm/shell/common/bubbles/BubbleBarUpdate.java:36-59 | A default update has both flags false, all nullable fields null and all three lists empty, not null. |
| BubbleBarUpdate.AnythingChanged | libs/WindowManager/Shell/src/com/android/wm/shell/common/bubbles/BubbleBarUpdate.java:81-91 | Definition: any field other than `expanded` differs from its default. `BubbleBarUpdate.AnythingChangedIffNotDefault` and `BubbleBarUpdate.WhichFieldsCount` characterise it. |
| BubbleBarUpdate.AnythingChangedIffNotDefault | libs/WindowManager/Shell/src/com/android/wm/shell/common/bubbles/BubbleBarUpdate.java:78-91 | `anythingChanged()` is false exactly when the update equals a default one, ignoring `expanded`. In particular a default update reports no change. |
| BubbleBarUpdate.WhichFieldsCount | libs/WindowManager/Shell/src/com/android/wm/shell/common/bubbles/BubbleBarUpdate.java:81-91 | Setting `expanded` never changes `anythingChanged()`. Setting `expandedChanged`, any key or bubble field, or adding to any list makes it true. |
| BubbleBarUpdate.NullEntriesCount | libs/WindowManager/Shell/src/com/android/wm/shell/common/bubbles/BubbleBarUpdate.java:86-90 | A list that holds only a null entry still counts as a change, because only emptiness is tested. |
| BubbleBarUpdate.CastsUndoUpcasts | libs/WindowManager/Shell/src/com/android/wm/shell/common/bubbles/BubbleBarUpdate.java:65-68 | Reading a nested parcelable accepts objects of the requested class unchanged and rejects the other class. |
| BubbleBarUpdate.Encode | libs/WindowManager/Shell/src/com/android/wm/shell/common/bubbles/BubbleBarUpdate.java:113-125 | Definition: the seven single-valued fields in declaration order, then the three lists as a count followed by the entries. `BubbleBarUpdate.RoundTrip` proves `Decode` inverts it. |
| BubbleBarUpdate.Decode | libs/WindowManager/Shell/src/com/android/wm/shell/common/bubbles/BubbleBarUpdate.java:61-76 | Every decoded update has int-sized lists. `BubbleBarUpdate.RoundTrip` proves it inverts `Encode` for all updates. |
| BubbleBarUpdate.DecodeFlags | libs/WindowManager/Shell/src/com/android/wm/shell/common/bubbles/BubbleBarUpdate.java:62-64 | The first three reads change only `expandedChanged`, `expanded` and `selectedBubbleKey`. Every other field keeps its value. |
| BubbleBarUpdate.DecodeBubbles | libs/WindowManager/Shell/src/com/android/wm/shell/common/bubbles/BubbleBarUpdate.java:65-70 | The next four reads change only the added and updated bubbles and the suppressed and unsuppressed keys. |
| BubbleBarUpdate.DecodeFields | libs/WindowManager/Shell/src/com/android/wm/shell/common/bubbles/BubbleBarUpdate.java:61-70 | The first seven reads set only the seven single-valued fields. The three lists remain the freshly created empty ones. |
| BubbleBarUpdate.DecodeLists | libs/WindowManager/Shell/src/com/android/wm/shell/common/bubbles/BubbleBarUpdate.java:71-75 | The last three reads set only the three lists, each with an int-sized length. |
| BubbleBarUpdate.FlagsRoundTrip | libs/WindowManager/Shell/src/com/android/wm/shell/common/bubbles/BubbleBarUpdate.java:115-117 | Reading back the two written flags and the selected key returns them and consumes exactly those three tokens. |
| BubbleBarUpdate.BubblesRoundTrip | libs/WindowManager/Shell/src/com/android/wm/shell/common/bubbles/BubbleBarUpdate.java:118-121 | Reading back the two written bubbles and the two written keys returns them and consumes exactly those four tokens. |
| BubbleBarUpdate.FieldsRoundTrip | libs/WindowManager/Shell/src/com/android/wm/shell/common/bubbles/BubbleBarUpdate.java:115-121 | Reading back the seven written single-valued fields gives them all back, in order, and consumes exactly them. |
| BubbleBarUpdate.ListsRoundTrip | libs/WindowManager/Shell/src/com/android/wm/shell/common/bubbles/BubbleBarUpdate.java:122-124 | Reading the three written lists into fresh empty lists gives back exactly the written lists, including `bubbleKeysInOrder`, which is read into the field's own list. |
| BubbleBarUpdate.RoundTrip | libs/WindowManager/Shell/src/com/android/wm/shell/common/bubbles/BubbleBarUpdate.java:113-125 | Decoding an encoded update gives back an equal update with all ten fields, and consumes exactly its tokens. |
| BubbleBarUpdate.RoundTripPreservesAnythingChanged | libs/WindowManager/Shell/src/com/android/wm/shell/common/bubbles/BubbleBarUpdate.java:81-91 | An encoded update always decodes, and the receiver's `anythingChanged()` equals the sender's. |
| Parcel.IntRoundTrip | wifi/java/src/android/net/wifi/sharedconnectivity/app/DeviceInfo.java:277-278 | A written int reads back unchanged and leaves exactly what followed it. |
| Parcel.BooleanRoundTrip | libs/WindowManager/Shell/src/com/android/wm/shell/common/bubbles/BubbleBarUpdate.java:62-63 | A written boolean reads back unchanged and leaves exactly what followed it. |
| Parcel.StringRoundTrip | libs/WindowManager/Shell/src/com/android/wm/shell/common/bubbles/BubbleBarUpdate.java:64 | A written string, null included, reads back unchanged and leaves exactly what followed it. |
| Parcel.ReadStringList | libs/WindowManager/Shell/src/com/android/wm/shell/common/bubbles/BubbleBarUpdate.java:73 | A successful string-list read has as many entries as the count read. A negative count gives an empty list and is accepted only into an empty destination. |
| Parcel.ReadParcelableList | libs/WindowManager/Shell/src/com/android/wm/shell/common/bubbles/BubbleBarUpdate.java:71-72 | A successful parcelable-list read has as many entries as the count read. A count of -1 gives an empty list; other negative counts need an empty destination. |
| Parcel.ReadParcelable | libs/WindowManager/Shell/src/com/android/wm/shell/common/bubbles/BubbleBarUpdate.java:65-68 | A nested parcelable reads as null iff null was written. Otherwise it reads as the class check's view of the written object, and consumes exactly one value. |
| Parcel.ReadEachRoundTrip | libs/WindowManager/Shell/src/com/android/wm/shell/common/bubbles/BubbleBarUpdate.java:122-124 | If every element reads back as written, then a list of elements reads back as written and leaves exactly the following tokens. |
| Parcel.StringListRoundTrip | libs/WindowManager/Shell/src/com/android/wm/shell/common/bubbles/BubbleBarUpdate.java:123 | A written string list reads back equal whatever the destination held before, because the count overwrites or truncates it. |
| Parcel.ParcelableListRoundTrip | libs/WindowManager/Shell/src/com/android/wm/shell/common/bubbles/BubbleBarUpdate.java:122 | A written parcelable list reads back equal whatever the destination held before. |
| Parcel.NullListReadsEmpty | libs/WindowManager/Shell/src/com/android/wm/shell/common/bubbles/BubbleBarUpdate.java:71-75 | A null list (count -1) reads back empty, like a list with no elements. A count below -1 read into a non-empty destination fails. |

## Left out

- Parcel byte layout: the Parcel is a sequence of typed tokens. Reading the wrong kind of value, or reading past the end, fails in the model; the platform Parcel would return 0 or null instead.
- The platform Parcel class is not part of this model. `readStringList` and `readParcelableList` follow its overwrite/append/truncate behaviour. An element of the wrong class in `readParcelableList` is a failure here, while the platform makes an unchecked cast.
- `BubbleInfo` and `RemovedBubble`: their fields beyond a key and their own parcel codecs are not part of this model. Their round trip is taken as given, since they travel as single tokens.
- BubbleBarUpdate lists are never null in the model. The Java fields are public and could be set to null, which would make `anythingChanged()` throw.
- BubbleBarUpdate.Encode: needs every list to have at most 2^31-1 entries, because a Java list size is an `int`.
- `toString`, `describeContents`, `CREATOR.newArray` and `BUNDLE_KEY`: formatting and platform boilerplate with no behaviour to prove.
- DeviceInfo.EqualsContract: compares two DeviceInfo objects only; `equals` against another class (false) or null is not modelled.
- DeviceInfo.HashCode: `String.hashCode` is taken over Unicode code points. It differs from Java's UTF-16 code units for characters outside the Basic Multilingual Plane.
- AuthenticationStatsCollector.AtMostOneNotificationPerUser: the run holds `authenticate` calls only. A user removal that first initialises the persister loads stored counters over in-memory ones, and the bound then fails (`AuthenticationStatsCollector.RemovalReloadsStaleCounters`).
- AuthenticationStatsCollector.AtMostOneNotificationFromAnyState: the same restriction; its run also holds `authenticate` calls only.
- Logging (Slog, ProtoLog) is left out: it has no effect on state.
- AuthenticationStatsCollector.NewCollector: reading the threshold from resources and registering the broadcast receiver are not modelled. The threshold is a parameter.
- AuthenticationStatsCollector.SendNotificationIfNeeded: FRR and the threshold are exact rationals (`real`), not `float`. Float rounding at the boundary is not modelled.
- The AuthenticationStats class is not part of this model. Its counters are modelled from their use here: attempt, rejection, reset and notification count, with FRR = rejected/total, or -1 before any attempt. The counters are unbounded, so `int` overflow is not modelled.
- AuthenticationStatsCollector.InitializeUserAuthenticationStatsMap: a persister failure is all-or-nothing, thrown when the persister is opened. A failure after some entries were loaded is not modelled.
- PackageManager, FaceManager and FingerprintManager queries, and the persister's stored data, are the `Platform` input. SharedPreferences internals are left out; persister and notifier calls are recorded as `Call`s.
- `setAuthenticationStatsForUser` is a test-only hook that puts one map entry, so it is not modelled.
- ContentRecordingController.HandoffKeepsSingleSession: holds only for rules that judge sessions on the same virtual display to be on the same display. The bodies of `ContentRecordingSession.isValid` and `isProjectionOnSameDisplay` are not part of this model.
- DisplayContent is not part of this model. A display is its id, and the sessions displays hold are a map. `getDisplayContentOrCreate` always yields the display (its null return is not modelled), and `pauseRecording` is only recorded as a call.
- The window-manager lock (the `Locked` suffix) and all threading are left out: every operation is one atomic step.
