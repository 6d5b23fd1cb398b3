/** AuthenticationStatsCollector: on devices with both fingerprint and face
    hardware, counts each user's biometric unlock attempts and rejections. Once
    150 attempts have accumulated it compares the false rejection rate (FRR)
    with a configured threshold, starts a new counting cycle, and may prompt the
    user once to enrol the other modality.

    The platform queries (system features, enrolled templates, what the
    persister has stored) are an input `Platform`; calls to the persister and
    to the notifier are returned, in order, as a list of `Call`s. */
module AuthenticationStatsCollector {
  import opened Wrappers

  const MINIMUM_ATTEMPTS: nat := 150
  const AUTHENTICATION_UPLOAD_INTERVAL: nat := 50
  const MAXIMUM_ENROLLMENT_NOTIFICATIONS: nat := 1

  /** UserHandle.USER_NULL, the default of the EXTRA_USER_HANDLE extra. */
  const USER_NULL: int := -10000
  const ACTION_USER_REMOVED: string := "android.intent.action.USER_REMOVED"

  /** One user's counters. */
  datatype AuthenticationStats = AuthenticationStats(
    userId: int,
    totalAttempts: nat,
    rejectedAttempts: nat,
    enrollmentNotifications: nat,
    modality: int)
  {
    /** One more attempt, and one more rejection if it failed. */
    function Authenticate(authenticated: bool): AuthenticationStats {
      this.(totalAttempts := totalAttempts + 1,
            rejectedAttempts := if authenticated then rejectedAttempts else rejectedAttempts + 1)
    }

    /** Starts a new counting cycle; the notification count is kept. */
    function ResetData(): AuthenticationStats {
      this.(totalAttempts := 0, rejectedAttempts := 0)
    }

    function UpdateNotificationCounter(): AuthenticationStats {
      this.(enrollmentNotifications := enrollmentNotifications + 1)
    }

    /** Rejections per attempt, or -1 before any attempt. */
    function Frr(): real {
      if totalAttempts > 0 then rejectedAttempts as real / totalAttempts as real else -1.0
    }
  }

  function NewStats(userId: int, modality: int): AuthenticationStats {
    AuthenticationStats(userId, 0, 0, 0, modality)
  }

  /** What the platform answers when asked. `storedStats` is what the
      persister returns for this modality, or None when opening the persister
      throws IllegalStateException (its storage is not available yet). */
  datatype Platform = Platform(
    hasFingerprintFeature: bool,
    hasFaceFeature: bool,
    faceEnrolled: set<int>,
    fingerprintEnrolled: set<int>,
    storedStats: Option<seq<AuthenticationStats>>)

  /** Calls made on the persister and on the notifier. */
  datatype Call =
    | PersistFrrThreshold(threshold: real)
    | PersistFrrStats(userId: int, totalAttempts: nat, rejectedAttempts: nat,
                      enrollmentNotifications: nat, modality: int)
    | RemoveFrrStats(removedUserId: int)
    | SendFingerprintEnrollNotification
    | SendFaceEnrollNotification

  datatype Collector = Collector(
    threshold: real,
    modality: int,
    statsByUser: map<int, AuthenticationStats>,
    persisterInitialized: bool)

  /** A collector after an event, with the calls the event made. */
  datatype Step = Step(collector: Collector, calls: seq<Call>)

  /** Counters after the notification check, with the notification it sent. */
  datatype Notified = Notified(stats: AuthenticationStats, calls: seq<Call>)

  function NewCollector(threshold: real, modality: int): (c: Collector)
    ensures c.statsByUser == map[] && !c.persisterInitialized
    ensures c.threshold == threshold && c.modality == modality
  {
    Collector(threshold, modality, map[], false)
  }

  predicate IsSingleModalityDevice(pf: Platform) {
    !pf.hasFingerprintFeature || !pf.hasFaceFeature
  }

  /** Devices or users for which no data is collected. */
  predicate Ignored(pf: Platform, userId: int) {
    IsSingleModalityDevice(pf) || (userId in pf.faceEnrolled && userId in pf.fingerprintEnrolled)
  }

  function UserIds(stored: seq<AuthenticationStats>): set<int> {
    set i | 0 <= i < |stored| :: stored[i].userId
  }

  /** No later entry of `stored` is for the same user as entry `i`. */
  predicate LastForUser(stored: seq<AuthenticationStats>, i: int)
    requires 0 <= i < |stored|
  {
    forall j :: i < j < |stored| ==> stored[j].userId != stored[i].userId
  }

  /** Puts every stored entry into the map under its user id, in order. */
  function PutAll(m: map<int, AuthenticationStats>, stored: seq<AuthenticationStats>): (r: map<int, AuthenticationStats>)
    ensures r.Keys == m.Keys + UserIds(stored)
    ensures forall u :: u in m && u !in UserIds(stored) ==> r[u] == m[u]
    ensures forall i :: 0 <= i < |stored| && LastForUser(stored, i) ==> r[stored[i].userId] == stored[i]
    decreases |stored|
  {
    if stored == [] then m
    else
      var r := PutAll(m[stored[0].userId := stored[0]], stored[1..]);
      assert UserIds(stored) == {stored[0].userId} + UserIds(stored[1..]) by {
        forall u | u in UserIds(stored) ensures u in {stored[0].userId} + UserIds(stored[1..]) {
          var i :| 0 <= i < |stored| && stored[i].userId == u;
          if i > 0 { assert stored[1..][i - 1] == stored[i]; }
        }
      }
      assert forall i :: 1 <= i < |stored| && LastForUser(stored, i) ==> LastForUser(stored[1..], i - 1);
      assert LastForUser(stored, 0) ==> stored[0].userId !in UserIds(stored[1..]);
      r
  }

  /** initializeUserAuthenticationStatsMap: open the persister, load what it
      stored and store the threshold. A failure is logged and changes nothing. */
  function InitializeUserAuthenticationStatsMap(c: Collector, pf: Platform): (r: Step)
    ensures pf.storedStats.None? ==> r == Step(c, [])
    ensures pf.storedStats.Some? ==>
              && r.collector.persisterInitialized
              && r.calls == [PersistFrrThreshold(c.threshold)]
              && r.collector.statsByUser.Keys == c.statsByUser.Keys + UserIds(pf.storedStats.value)
              && (forall u :: u in c.statsByUser && u !in UserIds(pf.storedStats.value) ==>
                    r.collector.statsByUser[u] == c.statsByUser[u])
              && (forall i :: 0 <= i < |pf.storedStats.value| && LastForUser(pf.storedStats.value, i) ==>
                    r.collector.statsByUser[pf.storedStats.value[i].userId] == pf.storedStats.value[i])
              && r.collector == c.(statsByUser := r.collector.statsByUser, persisterInitialized := true)
  {
    match pf.storedStats
    case None => Step(c, [])
    case Some(stored) =>
      Step(c.(statsByUser := PutAll(c.statsByUser, stored), persisterInitialized := true),
           [PersistFrrThreshold(c.threshold)])
  }

  /** sendNotificationIfNeeded, on the counters just updated. */
  function SendNotificationIfNeeded(stats: AuthenticationStats, pf: Platform, userId: int, threshold: real): (r: Notified)
    ensures r.stats.userId == stats.userId && r.stats.modality == stats.modality
    ensures stats.totalAttempts < MINIMUM_ATTEMPTS ==> r == Notified(stats, [])
    ensures stats.totalAttempts >= MINIMUM_ATTEMPTS ==> r.stats.totalAttempts == 0 && r.stats.rejectedAttempts == 0
    ensures r.stats.enrollmentNotifications == stats.enrollmentNotifications + |r.calls|
    ensures r.calls == [SendFingerprintEnrollNotification] <==>
              && stats.totalAttempts >= MINIMUM_ATTEMPTS
              && stats.enrollmentNotifications < MAXIMUM_ENROLLMENT_NOTIFICATIONS
              && stats.Frr() >= threshold
              && userId in pf.faceEnrolled && userId !in pf.fingerprintEnrolled
    ensures r.calls == [SendFaceEnrollNotification] <==>
              && stats.totalAttempts >= MINIMUM_ATTEMPTS
              && stats.enrollmentNotifications < MAXIMUM_ENROLLMENT_NOTIFICATIONS
              && stats.Frr() >= threshold
              && userId !in pf.faceEnrolled && userId in pf.fingerprintEnrolled
    ensures r.calls == [] || r.calls == [SendFingerprintEnrollNotification] || r.calls == [SendFaceEnrollNotification]
  {
    if stats.totalAttempts < MINIMUM_ATTEMPTS then Notified(stats, [])
    else if stats.enrollmentNotifications >= MAXIMUM_ENROLLMENT_NOTIFICATIONS || stats.Frr() < threshold then
      Notified(stats.ResetData(), [])
    else
      var reset := stats.ResetData();
      var face := userId in pf.faceEnrolled;
      var fingerprint := userId in pf.fingerprintEnrolled;
      if face && !fingerprint then
        Notified(reset.UpdateNotificationCounter(), [SendFingerprintEnrollNotification])
      else if !face && fingerprint then
        Notified(reset.UpdateNotificationCounter(), [SendFaceEnrollNotification])
      else
        Notified(reset, [])
  }

  /** persistDataIfNeeded: store the counters on every multiple of 50 attempts,
      zero included. */
  function PersistDataIfNeeded(stats: AuthenticationStats): (calls: seq<Call>)
    ensures calls != [] <==> stats.totalAttempts % AUTHENTICATION_UPLOAD_INTERVAL == 0
    ensures |calls| <= 1
    ensures forall call <- calls ::
              call == PersistFrrStats(stats.userId, stats.totalAttempts, stats.rejectedAttempts,
                                      stats.enrollmentNotifications, stats.modality)
  {
    if stats.totalAttempts % AUTHENTICATION_UPLOAD_INTERVAL == 0 then
      [PersistFrrStats(stats.userId, stats.totalAttempts, stats.rejectedAttempts,
                       stats.enrollmentNotifications, stats.modality)]
    else []
  }

  /** The first part of `authenticate`: on an empty map the persister is
      initialised and what it stored is loaded; then a user seen for the first
      time is given fresh counters. */
  function Prepare(c: Collector, pf: Platform, userId: int): (r: Step)
    ensures var loaded := if c.statsByUser == map[] then InitializeUserAuthenticationStatsMap(c, pf) else Step(c, []);
            && r.calls == loaded.calls
            && r.collector == loaded.collector.(statsByUser := r.collector.statsByUser)
            && r.collector.statsByUser.Keys == loaded.collector.statsByUser.Keys + {userId}
            && (forall u :: u in loaded.collector.statsByUser ==>
                  r.collector.statsByUser[u] == loaded.collector.statsByUser[u])
            && (userId !in loaded.collector.statsByUser ==> r.collector.statsByUser[userId] == NewStats(userId, c.modality))
  {
    var loaded := if c.statsByUser == map[] then InitializeUserAuthenticationStatsMap(c, pf) else Step(c, []);
    if userId in loaded.collector.statsByUser then loaded
    else Step(loaded.collector.(statsByUser := loaded.collector.statsByUser[userId := NewStats(userId, c.modality)]),
              loaded.calls)
  }

  /** The counters `authenticate` works on: the caller's entry once the map
      is loaded and the caller is added to it. */
  function CountersBefore(c: Collector, pf: Platform, userId: int): AuthenticationStats {
    Prepare(c, pf, userId).collector.statsByUser[userId]
  }

  /** `authenticate(userId, authenticated)`. */
  function Authenticate(c: Collector, pf: Platform, userId: int, authenticated: bool): (r: Step)
    ensures Ignored(pf, userId) ==> r == Step(c, [])
    ensures !Ignored(pf, userId) ==>
              var prepared := Prepare(c, pf, userId);
              var before := prepared.collector.statsByUser[userId];
              && r.collector.statsByUser.Keys == prepared.collector.statsByUser.Keys
              && r.collector == prepared.collector.(statsByUser := r.collector.statsByUser)
              && (forall u :: u in prepared.collector.statsByUser && u != userId ==>
                    r.collector.statsByUser[u] == prepared.collector.statsByUser[u])
              && (before.enrollmentNotifications >= MAXIMUM_ENROLLMENT_NOTIFICATIONS ==> r == prepared)
              && (before.enrollmentNotifications < MAXIMUM_ENROLLMENT_NOTIFICATIONS ==>
                    var notified := SendNotificationIfNeeded(before.Authenticate(authenticated), pf, userId, c.threshold);
                    && r.collector.statsByUser[userId] == notified.stats
                    && r.calls == prepared.calls + notified.calls
                                  + (if r.collector.persisterInitialized then PersistDataIfNeeded(notified.stats) else []))
    ensures !Ignored(pf, userId) ==> userId in r.collector.statsByUser
    ensures userId in c.statsByUser && c.statsByUser[userId].enrollmentNotifications >= MAXIMUM_ENROLLMENT_NOTIFICATIONS
            ==> r == Step(c, [])
    ensures r.collector.threshold == c.threshold && r.collector.modality == c.modality
    ensures r.collector.persisterInitialized <==>
              c.persisterInitialized || (!Ignored(pf, userId) && c.statsByUser == map[] && pf.storedStats.Some?)
    ensures !Ignored(pf, userId) && c.statsByUser == map[] ==>
              var init := InitializeUserAuthenticationStatsMap(c, pf);
              && init.calls <= r.calls
              && r.collector.statsByUser.Keys == init.collector.statsByUser.Keys + {userId}
              && forall u :: u in init.collector.statsByUser && u != userId ==>
                   r.collector.statsByUser[u] == init.collector.statsByUser[u]
    ensures c.statsByUser != map[] ==>
              && r.collector.statsByUser.Keys <= c.statsByUser.Keys + {userId}
              && forall u :: u in c.statsByUser && u != userId ==>
                   u in r.collector.statsByUser && r.collector.statsByUser[u] == c.statsByUser[u]
  {
    if Ignored(pf, userId) then Step(c, [])
    else
      var prepared := Prepare(c, pf, userId);
      var stats := prepared.collector.statsByUser[userId];
      if stats.enrollmentNotifications >= MAXIMUM_ENROLLMENT_NOTIFICATIONS then prepared
      else
        var notified := SendNotificationIfNeeded(stats.Authenticate(authenticated), pf, userId, prepared.collector.threshold);
        var persisted := if prepared.collector.persisterInitialized then PersistDataIfNeeded(notified.stats) else [];
        Step(prepared.collector.(statsByUser := prepared.collector.statsByUser[userId := notified.stats]),
             prepared.calls + notified.calls + persisted)
  }

  /** onUserRemoved: initialise the persister if needed; once it is
      initialised, forget the user and remove what was stored for it. */
  function OnUserRemoved(c: Collector, pf: Platform, userId: int): (r: Step)
    ensures r.collector.persisterInitialized <==> c.persisterInitialized || pf.storedStats.Some?
    ensures r.collector.persisterInitialized ==>
              && userId !in r.collector.statsByUser
              && |r.calls| > 0 && r.calls[|r.calls| - 1] == RemoveFrrStats(userId)
    ensures !r.collector.persisterInitialized ==> r == Step(c, [])
    ensures forall u :: u in c.statsByUser && u != userId ==> u in r.collector.statsByUser
    ensures c.persisterInitialized ==>
              r == Step(c.(statsByUser := c.statsByUser - {userId}), [RemoveFrrStats(userId)])
    ensures !c.persisterInitialized && pf.storedStats.Some? ==>
              var stored := pf.storedStats.value;
              && r.calls == [PersistFrrThreshold(c.threshold), RemoveFrrStats(userId)]
              && r.collector == c.(statsByUser := r.collector.statsByUser, persisterInitialized := true)
              && r.collector.statsByUser.Keys == c.statsByUser.Keys + UserIds(stored) - {userId}
              && (forall u :: u in c.statsByUser && u !in UserIds(stored) && u != userId ==>
                    r.collector.statsByUser[u] == c.statsByUser[u])
              && (forall i :: 0 <= i < |stored| && LastForUser(stored, i) && stored[i].userId != userId ==>
                    r.collector.statsByUser[stored[i].userId] == stored[i])
  {
    var init := if !c.persisterInitialized then InitializeUserAuthenticationStatsMap(c, pf) else Step(c, []);
    if init.collector.persisterInitialized then
      Step(init.collector.(statsByUser := init.collector.statsByUser - {userId}), init.calls + [RemoveFrrStats(userId)])
    else init
  }

  /** The broadcast receiver: only ACTION_USER_REMOVED for a real user is acted on. */
  function OnReceive(c: Collector, pf: Platform, action: string, extraUserHandle: Option<int>): (r: Step)
    ensures extraUserHandle.None? || extraUserHandle == Some(USER_NULL) || action != ACTION_USER_REMOVED
            ==> r == Step(c, [])
    ensures extraUserHandle.Some? && extraUserHandle.value != USER_NULL && action == ACTION_USER_REMOVED
            ==> r == OnUserRemoved(c, pf, extraUserHandle.value)
  {
    var userId := extraUserHandle.GetOr(USER_NULL);
    if userId != USER_NULL && action == ACTION_USER_REMOVED then OnUserRemoved(c, pf, userId)
    else Step(c, [])
  }

  /** getAuthenticationStatsForUser: the user's counters, or null. */
  function GetAuthenticationStatsForUser(c: Collector, userId: int): (r: Option<AuthenticationStats>)
    ensures r.Some? <==> userId in c.statsByUser
    ensures r.Some? ==> r.value == c.statsByUser[userId]
  {
    if userId in c.statsByUser then Some(c.statsByUser[userId]) else None
  }

  // ---------------------------------------------------------------------------
  // Properties of a counted attempt

  /** A counted attempt, whether the caller's counters were in memory, loaded
      from storage on an empty map, or fresh: below 150 attempts the counters
      only grow; from 150 on they restart at zero whether or not a
      notification goes out; the counters are stored exactly when the new
      total is a multiple of 50 and the persister is initialised. */
  lemma CountedAttempt(c: Collector, pf: Platform, userId: int, authenticated: bool)
    requires !Ignored(pf, userId)
    requires CountersBefore(c, pf, userId).enrollmentNotifications < MAXIMUM_ENROLLMENT_NOTIFICATIONS
    ensures var before := CountersBefore(c, pf, userId);
            var r := Authenticate(c, pf, userId, authenticated);
            var after := r.collector.statsByUser[userId];
            && (before.totalAttempts + 1 < MINIMUM_ATTEMPTS ==>
                  && after == before.Authenticate(authenticated)
                  && SendFingerprintEnrollNotification !in r.calls && SendFaceEnrollNotification !in r.calls)
            && (before.totalAttempts + 1 >= MINIMUM_ATTEMPTS ==>
                  after.totalAttempts == 0 && after.rejectedAttempts == 0)
            && (PersistFrrStats(after.userId, after.totalAttempts, after.rejectedAttempts,
                                after.enrollmentNotifications, after.modality) in r.calls
                <==> r.collector.persisterInitialized && after.totalAttempts % AUTHENTICATION_UPLOAD_INTERVAL == 0)
  {
  }

  /** The first attempt of a user for whom nothing is held, in memory or in
      the storage loaded on an empty map, starts from fresh counters and sends
      no notification. */
  lemma NewUserStartsFresh(c: Collector, pf: Platform, userId: int, authenticated: bool)
    requires !Ignored(pf, userId)
    requires userId !in c.statsByUser
    requires c.statsByUser == map[] ==> pf.storedStats.None? || userId !in UserIds(pf.storedStats.value)
    ensures var r := Authenticate(c, pf, userId, authenticated);
            && r.collector.statsByUser[userId] == NewStats(userId, c.modality).Authenticate(authenticated)
            && CountNotifications(r.calls) == 0
  {
    assert CountersBefore(c, pf, userId) == NewStats(userId, c.modality);
    AuthenticateLedger(c, pf, userId, authenticated);
  }

  /** A user stored as already notified is left alone by the first attempt
      of a fresh collector: the only call is storing the threshold. */
  lemma StoredNotificationIsRespected()
    ensures var pf := Platform(true, true, {1}, {}, Some([AuthenticationStats(1, 149, 0, MAXIMUM_ENROLLMENT_NOTIFICATIONS, 0)]));
            var r := Authenticate(NewCollector(0.0, 0), pf, 1, true);
            && r.calls == [PersistFrrThreshold(0.0)]
            && r.collector.statsByUser == map[1 := AuthenticationStats(1, 149, 0, MAXIMUM_ENROLLMENT_NOTIFICATIONS, 0)]
  {
    assert LastForUser([AuthenticationStats(1, 149, 0, MAXIMUM_ENROLLMENT_NOTIFICATIONS, 0)], 0);
  }

  /** Once the statistics map holds an entry, `authenticate` never retries a
      failed persister initialisation; only a user removal does. */
  lemma InitialisationOnlyOnEmptyMap(c: Collector, pf: Platform, userId: int, authenticated: bool)
    requires c.statsByUser != map[] && !c.persisterInitialized
    ensures !Authenticate(c, pf, userId, authenticated).collector.persisterInitialized
    ensures pf.storedStats.Some? ==> OnUserRemoved(c, pf, userId).collector.persisterInitialized
  {
  }

  // ---------------------------------------------------------------------------
  // At most one enrolment notification per user

  function CountNotifications(calls: seq<Call>): nat
    decreases |calls|
  {
    if calls == [] then 0
    else (if calls[0].SendFingerprintEnrollNotification? || calls[0].SendFaceEnrollNotification? then 1 else 0)
         + CountNotifications(calls[1..])
  }

  lemma {:induction false} CountNotificationsAppend(a: seq<Call>, b: seq<Call>)
    ensures CountNotifications(a + b) == CountNotifications(a) + CountNotifications(b)
    decreases |a|
  {
    if a == [] {
      assert a + b == b;
    } else {
      assert (a + b)[1..] == a[1..] + b;
      CountNotificationsAppend(a[1..], b);
    }
  }

  /** The calls of the loading step hold no notification. */
  lemma PrepareSendsNoNotification(c: Collector, pf: Platform, userId: int)
    ensures CountNotifications(Prepare(c, pf, userId).calls) == 0
  {
    if c.statsByUser == map[] && pf.storedStats.Some? {
      assert Prepare(c, pf, userId).calls == [PersistFrrThreshold(c.threshold)];
    }
  }

  /** One `authenticate` call: an ignored one sends nothing; otherwise every
      notification it sends is recorded in the caller's counter, counted from
      the counters it started from (in memory, loaded or fresh), and the
      counter never passes the maximum unless it already had. */
  lemma AuthenticateLedger(c: Collector, pf: Platform, userId: int, authenticated: bool)
    ensures Ignored(pf, userId) ==> CountNotifications(Authenticate(c, pf, userId, authenticated).calls) == 0
    ensures var r := Authenticate(c, pf, userId, authenticated);
            var before := CountersBefore(c, pf, userId);
            !Ignored(pf, userId) ==>
              && userId in r.collector.statsByUser
              && CountNotifications(r.calls) + before.enrollmentNotifications
                 == r.collector.statsByUser[userId].enrollmentNotifications
              && r.collector.statsByUser[userId].enrollmentNotifications
                 <= if before.enrollmentNotifications > MAXIMUM_ENROLLMENT_NOTIFICATIONS
                    then before.enrollmentNotifications else MAXIMUM_ENROLLMENT_NOTIFICATIONS
  {
    var r := Authenticate(c, pf, userId, authenticated);
    if !Ignored(pf, userId) {
      var prepared := Prepare(c, pf, userId);
      var before := prepared.collector.statsByUser[userId];
      PrepareSendsNoNotification(c, pf, userId);
      if before.enrollmentNotifications < MAXIMUM_ENROLLMENT_NOTIFICATIONS {
        var notified := SendNotificationIfNeeded(before.Authenticate(authenticated), pf, userId, c.threshold);
        var persisted := if r.collector.persisterInitialized then PersistDataIfNeeded(notified.stats) else [];
        CountNotificationsAppend(prepared.calls + notified.calls, persisted);
        CountNotificationsAppend(prepared.calls, notified.calls);
        assert CountNotifications(persisted) == 0;
      }
    }
  }

  /** One `authenticate` call in a run: whose attempt it was, whether it
      succeeded, and what the platform answered at that moment. */
  datatype Attempt = Attempt(userId: int, platform: Platform, authenticated: bool)

  /** The collector driven by a sequence of attempts of any users, interleaved. */
  function Run(c: Collector, attempts: seq<Attempt>): Step
    decreases |attempts|
  {
    if attempts == [] then Step(c, [])
    else
      var a := attempts[0];
      var first := Authenticate(c, a.platform, a.userId, a.authenticated);
      var others := Run(first.collector, attempts[1..]);
      Step(others.collector, first.calls + others.calls)
  }

  /** The enrolment notifications of a run sent to user `u`: those made by
      the `authenticate` calls for `u`. */
  function NotificationsTo(c: Collector, u: int, attempts: seq<Attempt>): nat
    decreases |attempts|
  {
    if attempts == [] then 0
    else
      var a := attempts[0];
      var first := Authenticate(c, a.platform, a.userId, a.authenticated);
      (if a.userId == u then CountNotifications(first.calls) else 0) + NotificationsTo(first.collector, u, attempts[1..])
  }

  /** However the attempts of a known user are interleaved with other users'
      attempts, and however the platform answers meanwhile, the user is sent
      at most one enrolment notification in total, each recorded in the
      user's counter; none at all once one has been sent. */
  lemma {:induction false} AtMostOneNotificationPerUser(c: Collector, u: int, attempts: seq<Attempt>)
    requires u in c.statsByUser
    ensures var r := Run(c, attempts);
            && u in r.collector.statsByUser
            && NotificationsTo(c, u, attempts) + c.statsByUser[u].enrollmentNotifications
               == r.collector.statsByUser[u].enrollmentNotifications
            && NotificationsTo(c, u, attempts) <= MAXIMUM_ENROLLMENT_NOTIFICATIONS
            && (c.statsByUser[u].enrollmentNotifications >= MAXIMUM_ENROLLMENT_NOTIFICATIONS
                ==> NotificationsTo(c, u, attempts) == 0)
    decreases |attempts|
  {
    if attempts != [] {
      var a := attempts[0];
      var first := Authenticate(c, a.platform, a.userId, a.authenticated);
      if a.userId == u {
        AuthenticateLedger(c, a.platform, u, a.authenticated);
        assert CountersBefore(c, a.platform, u) == c.statsByUser[u];
      } else {
        assert first.collector.statsByUser[u] == c.statsByUser[u];
      }
      AtMostOneNotificationPerUser(first.collector, u, attempts[1..]);
    }
  }

  /** The bound holds from every state, a fresh collector included: a user
      the collector does not hold yet is loaded or created by the first
      attempt that concerns it, and from then on the bound above applies. */
  lemma {:induction false} AtMostOneNotificationFromAnyState(c: Collector, u: int, attempts: seq<Attempt>)
    ensures NotificationsTo(c, u, attempts) <= MAXIMUM_ENROLLMENT_NOTIFICATIONS
    decreases |attempts|
  {
    if u in c.statsByUser {
      AtMostOneNotificationPerUser(c, u, attempts);
    } else if attempts != [] {
      var a := attempts[0];
      var first := Authenticate(c, a.platform, a.userId, a.authenticated);
      if a.userId == u {
        AuthenticateLedger(c, a.platform, u, a.authenticated);
      }
      if u in first.collector.statsByUser {
        AtMostOneNotificationPerUser(first.collector, u, attempts[1..]);
      } else {
        AtMostOneNotificationFromAnyState(first.collector, u, attempts[1..]);
      }
    }
  }

  /** In a run of `u`'s attempts only, the notifications sent to `u` are all
      the notifications in the run's call log. */
  lemma {:induction false} OwnRunNotifications(c: Collector, u: int, attempts: seq<Attempt>)
    requires forall i :: 0 <= i < |attempts| ==> attempts[i].userId == u
    ensures NotificationsTo(c, u, attempts) == CountNotifications(Run(c, attempts).calls)
    decreases |attempts|
  {
    if attempts != [] {
      var a := attempts[0];
      var first := Authenticate(c, a.platform, a.userId, a.authenticated);
      CountNotificationsAppend(first.calls, Run(first.collector, attempts[1..]).calls);
      OwnRunNotifications(first.collector, u, attempts[1..]);
    }
  }

  /** A removal can undo the bound above. While the persister is not
      initialised, a user's counters live only in memory; the removal of any
      other user initialises the persister, and loading what was stored
      earlier replaces the in-memory counters of a user who has already been
      notified. That user's next qualifying attempt is notified again. */
  lemma RemovalReloadsStaleCounters()
    ensures var pf := Platform(true, true, {1}, {}, Some([AuthenticationStats(1, 149, 0, 0, 0)]));
            var c := Collector(0.0, 0, map[1 := AuthenticationStats(1, 149, 0, MAXIMUM_ENROLLMENT_NOTIFICATIONS, 0)], false);
            var removed := OnUserRemoved(c, pf, 2);
            var r := Authenticate(removed.collector, pf, 1, true);
            && CountNotifications(Authenticate(c, pf, 1, true).calls) == 0
            && r.calls[0] == SendFingerprintEnrollNotification
  {
    var pf := Platform(true, true, {1}, {}, Some([AuthenticationStats(1, 149, 0, 0, 0)]));
    var c := Collector(0.0, 0, map[1 := AuthenticationStats(1, 149, 0, MAXIMUM_ENROLLMENT_NOTIFICATIONS, 0)], false);
    assert LastForUser([AuthenticationStats(1, 149, 0, 0, 0)], 0);
    var removed := OnUserRemoved(c, pf, 2);
    assert removed.collector.statsByUser[1] == AuthenticationStats(1, 149, 0, 0, 0);
  }
}
