/** ContentRecordingController: keeps the one content recording session of the
    device and hands recording over between displays when the session changes.

    A DisplayContent is identified by its display id; which session each
    display holds, as far as this controller set it, is a map. The two static
    checks of ContentRecordingSession, whose bodies are not part of this model,
    are given as `SessionRules`. */
module ContentRecordingController {
  import opened Wrappers

  type DisplayId = int

  /** A recording session: the virtual display it records onto, and what it
      records (opaque here). */
  datatype ContentRecordingSession = ContentRecordingSession(virtualDisplayId: DisplayId, contentToRecord: int)

  /** ContentRecordingSession.isValid and isProjectionOnSameDisplay. */
  datatype SessionRules = SessionRules(
    isValid: ContentRecordingSession -> bool,
    isProjectionOnSameDisplay: (Option<ContentRecordingSession>, Option<ContentRecordingSession>) -> bool)

  /** The controller's two fields, mSession and mDisplayContent. */
  datatype Controller = Controller(session: Option<ContentRecordingSession>, displayContent: Option<DisplayId>)
  {
    /** The session is null exactly when the display is, and the display is the
        one the session records onto. */
    predicate Valid() {
      && (session.Some? <==> displayContent.Some?)
      && (session.Some? ==> displayContent.value == session.value.virtualDisplayId)
    }
  }

  /** Calls the controller makes on DisplayContent objects, in order. */
  datatype DisplayCall =
    | SetContentRecordingSession(display: DisplayId, session: Option<ContentRecordingSession>)
    | PauseRecording(pausedDisplay: DisplayId)

  /** The controller after a call, the sessions the displays hold, and the
      calls it made on them. */
  datatype Handoff = Handoff(
    controller: Controller,
    displaySessions: map<DisplayId, ContentRecordingSession>,
    calls: seq<DisplayCall>)

  /** The effect of one DisplayContent call on the sessions displays hold. */
  function ApplyCall(sessions: map<DisplayId, ContentRecordingSession>, call: DisplayCall): map<DisplayId, ContentRecordingSession> {
    match call
    case SetContentRecordingSession(d, None) => sessions - {d}
    case SetContentRecordingSession(d, Some(s)) => sessions[d := s]
    case PauseRecording(_) => sessions
  }

  function ApplyCalls(sessions: map<DisplayId, ContentRecordingSession>, calls: seq<DisplayCall>): map<DisplayId, ContentRecordingSession>
    decreases |calls|
  {
    if calls == [] then sessions else ApplyCalls(ApplyCall(sessions, calls[0]), calls[1..])
  }

  function NewController(): (c: Controller)
    ensures c.Valid() && c.session.None?
  {
    Controller(None, None)
  }

  /** getContentRecordingSessionLocked: the current session, null when
      nothing is recording. */
  function GetContentRecordingSession(c: Controller): (r: Option<ContentRecordingSession>)
    requires c.Valid()
    ensures r == c.session
    ensures r.None? <==> c.displayContent.None?
    ensures r.Some? ==> c.displayContent == Some(r.value.virtualDisplayId)
  {
    c.session
  }

  /** An incoming session the controller ignores: malformed, or judged to be
      on the display already recording. */
  predicate Ignores(rules: SessionRules, c: Controller, incoming: Option<ContentRecordingSession>) {
    || (incoming.Some? && !rules.isValid(incoming.value))
    || rules.isProjectionOnSameDisplay(c.session, incoming)
  }

  /** setContentRecordingSessionLocked. */
  function SetContentRecordingSessionLocked(rules: SessionRules, c: Controller,
                                           sessions: map<DisplayId, ContentRecordingSession>,
                                           incoming: Option<ContentRecordingSession>): (r: Handoff)
    requires c.Valid()
    ensures r.controller.Valid()
    ensures r.displaySessions == ApplyCalls(sessions, r.calls)
    ensures Ignores(rules, c, incoming) ==> r == Handoff(c, sessions, [])
    ensures !Ignores(rules, c, incoming) ==>
              && r.controller.session == incoming
              && r.controller.displayContent == (if incoming.Some? then Some(incoming.value.virtualDisplayId) else None)
    ensures !Ignores(rules, c, incoming) ==>
              r.calls == (if incoming.Some? then [SetContentRecordingSession(incoming.value.virtualDisplayId, incoming)] else [])
                         + (if c.session.Some? then [PauseRecording(c.displayContent.value),
                                                     SetContentRecordingSession(c.displayContent.value, None)] else [])
  {
    if incoming.Some? && !rules.isValid(incoming.value) then Handoff(c, sessions, [])
    else if rules.isProjectionOnSameDisplay(c.session, incoming) then Handoff(c, sessions, [])
    else
      // start: the incoming display gets its session first
      var started := if incoming.Some? then [SetContentRecordingSession(incoming.value.virtualDisplayId, incoming)] else [];
      var incomingDisplay := if incoming.Some? then Some(incoming.value.virtualDisplayId) else None;
      // takeover or stop: then the previous display is paused and cleared
      var stopped := if c.session.Some? then [PauseRecording(c.displayContent.value),
                                               SetContentRecordingSession(c.displayContent.value, None)] else [];
      Handoff(Controller(incoming, incomingDisplay), ApplyCalls(sessions, started + stopped), started + stopped)
  }

  /** The rules judge any two sessions on the same virtual display to be on
      the same display. */
  ghost predicate DetectsSameDisplay(rules: SessionRules) {
    forall a: ContentRecordingSession, b: ContentRecordingSession ::
      a.virtualDisplayId == b.virtualDisplayId ==> rules.isProjectionOnSameDisplay(Some(a), Some(b))
  }

  /** The displays hold exactly the controller's session, on its display, and
      nothing else. */
  predicate SingleSession(c: Controller, sessions: map<DisplayId, ContentRecordingSession>) {
    match c.session
    case None => sessions == map[]
    case Some(s) => sessions == map[s.virtualDisplayId := s]
  }

  lemma {:induction false} ApplyCallsAppend(sessions: map<DisplayId, ContentRecordingSession>, a: seq<DisplayCall>, b: seq<DisplayCall>)
    ensures ApplyCalls(sessions, a + b) == ApplyCalls(ApplyCalls(sessions, a), b)
    decreases |a|
  {
    if a == [] {
      assert a + b == b;
    } else {
      assert (a + b)[1..] == a[1..] + b;
      ApplyCallsAppend(ApplyCall(sessions, a[0]), a[1..], b);
    }
  }

  lemma ApplyCallsCons(sessions: map<DisplayId, ContentRecordingSession>, call: DisplayCall, rest: seq<DisplayCall>)
    ensures ApplyCalls(sessions, [call] + rest) == ApplyCalls(ApplyCall(sessions, call), rest)
  {
    assert ([call] + rest)[1..] == rest;
  }

  /** The sessions after the takeover or stop calls on display `d`. */
  lemma ApplyStop(sessions: map<DisplayId, ContentRecordingSession>, d: DisplayId)
    ensures ApplyCalls(sessions, [PauseRecording(d), SetContentRecordingSession(d, None)]) == sessions - {d}
  {
    ApplyCallsCons(sessions, PauseRecording(d), [SetContentRecordingSession(d, None)]);
    ApplyCallsCons(sessions, SetContentRecordingSession(d, None), []);
  }

  /** Only one recording session at a time: if the displays held just the
      controller's session before, they hold just the new one afterwards. The
      old display is cleared after the new one is set, so this needs the rules
      to ignore a second session on the same display. */
  lemma HandoffKeepsSingleSession(rules: SessionRules, c: Controller,
                                  sessions: map<DisplayId, ContentRecordingSession>,
                                  incoming: Option<ContentRecordingSession>)
    requires c.Valid() && SingleSession(c, sessions)
    requires DetectsSameDisplay(rules)
    ensures var r := SetContentRecordingSessionLocked(rules, c, sessions, incoming);
            SingleSession(r.controller, r.displaySessions)
  {
    var r := SetContentRecordingSessionLocked(rules, c, sessions, incoming);
    if !Ignores(rules, c, incoming) {
      var started := if incoming.Some? then [SetContentRecordingSession(incoming.value.virtualDisplayId, incoming)] else [];
      var stopped := if c.session.Some? then [PauseRecording(c.displayContent.value),
                                               SetContentRecordingSession(c.displayContent.value, None)] else [];
      assert r.displaySessions == ApplyCalls(sessions, started + stopped);
      ApplyCallsAppend(sessions, started, stopped);
      var mid := ApplyCalls(sessions, started);
      if incoming.Some? {
        ApplyCallsCons(sessions, started[0], []);
        assert mid == sessions[incoming.value.virtualDisplayId := incoming.value];
      } else {
        assert mid == sessions;
      }
      if c.session.Some? {
        var d := c.displayContent.value;
        ApplyStop(mid, d);
        if incoming.Some? {
          assert !rules.isProjectionOnSameDisplay(Some(c.session.value), Some(incoming.value));
          assert d != incoming.value.virtualDisplayId;
          assert r.displaySessions == map[incoming.value.virtualDisplayId := incoming.value];
        } else {
          assert r.displaySessions == map[];
        }
      } else {
        assert r.displaySessions == mid;
      }
    }
  }

  /** Without that rule the handoff can lose the new session: a second valid
      session on the recording display is set on it and then cleared, while the
      controller believes it is recording. */
  lemma SameDisplayRuleIsNeeded()
    ensures var rules := SessionRules(s => true, (a, b) => false);
            var previous := ContentRecordingSession(7, 0);
            var incoming := ContentRecordingSession(7, 1);
            var r := SetContentRecordingSessionLocked(rules, Controller(Some(previous), Some(7)), map[7 := previous], Some(incoming));
            && r.controller.session == Some(incoming)
            && 7 !in r.displaySessions
  {
    var previous := ContentRecordingSession(7, 0);
    var incoming := ContentRecordingSession(7, 1);
    var stop := [PauseRecording(7), SetContentRecordingSession(7, None)];
    ApplyCallsCons(map[7 := previous], SetContentRecordingSession(7, Some(incoming)), stop);
    ApplyStop(map[7 := incoming], 7);
    assert [SetContentRecordingSession(7, Some(incoming))] + stop
           == [SetContentRecordingSession(7, Some(incoming)), PauseRecording(7), SetContentRecordingSession(7, None)];
  }

  /** Stopping: a null session ends recording, pausing and clearing the
      display that was recording. */
  lemma StopPausesAndClears(rules: SessionRules, c: Controller, sessions: map<DisplayId, ContentRecordingSession>)
    requires c.Valid() && c.session.Some?
    requires !rules.isProjectionOnSameDisplay(c.session, None)
    ensures var r := SetContentRecordingSessionLocked(rules, c, sessions, None);
            && r.controller == Controller(None, None)
            && r.calls == [PauseRecording(c.displayContent.value), SetContentRecordingSession(c.displayContent.value, None)]
            && r.displaySessions == sessions - {c.displayContent.value}
  {
    var d := c.displayContent.value;
    ApplyStop(sessions, d);
    assert [] + [PauseRecording(d), SetContentRecordingSession(d, None)]
           == [PauseRecording(d), SetContentRecordingSession(d, None)];
  }
}
