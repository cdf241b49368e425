/**
 * The keep-alive hook of src/hooks/useSessionRefresh.ts.
 *
 * While the context reports a session, the hook keeps one 45-minute timer armed and
 * listens for the page becoming visible; either event asks the context to refresh the
 * session if enough time has passed since `lastRefresh`. Timers and the visibility
 * event become explicit method calls carrying `now`; the value the refresh call
 * resolves to is an argument, `refreshed`.
 */
module SessionRefresh {
  import opened Wrappers
  import AuthContext

  /** The timer period: 45 minutes. */
  const TimerPeriodMs: int := 45 * 60 * 1000
  /** A firing timer refreshes only after 30 minutes. */
  const TimerThrottleMs: int := 30 * 60 * 1000
  /** Regaining visibility refreshes only after 10 minutes. */
  const VisibleThrottleMs: int := 10 * 60 * 1000

  /**
   * The hook's refs and effects: `lastRefreshRef`, the due time of the one pending
   * timer, whether the visibility listener is installed, and how many refreshes it asked for.
   */
  datatype RefreshState = RefreshState(lastRefresh: int, timerDue: Option<int>, listening: bool, refreshes: nat)

  function Initial(): RefreshState
  {
    RefreshState(0, None, false, 0)
  }

  /** `scheduleRefresh`: cancel the pending timer, arm a new one. */
  function Scheduled(s: RefreshState, now: int): RefreshState
  {
    s.(timerDue := Some(now + TimerPeriodMs))
  }

  /** The effect: nothing without a session; otherwise arm the timer and install the listener. */
  function Mounted(s: RefreshState, session: bool, now: int): RefreshState
  {
    if !session then s else Scheduled(s, now).(listening := true)
  }

  /** Ask for a refresh; `lastRefresh` moves to `now` only when the call resolved truthy. */
  function Refreshed(s: RefreshState, now: int, refreshed: bool): RefreshState
  {
    s.(refreshes := s.refreshes + 1, lastRefresh := if refreshed then now else s.lastRefresh)
  }

  /** A timer is pending and its time has come; a cleared or never-armed timer never runs. */
  predicate TimerDue(s: RefreshState, now: int)
  {
    s.timerDue.Some? && s.timerDue.value <= now
  }

  /** The callback of the pending timer, which always re-arms. */
  function TimerFired(s: RefreshState, now: int, refreshed: bool): RefreshState
  {
    if !TimerDue(s, now) then s
    else
      var s1 := if now - s.lastRefresh > TimerThrottleMs then Refreshed(s, now, refreshed) else s;
      Scheduled(s1, now)
  }

  /** `handleVisibilityChange`, which runs only while installed (and so only with a session). */
  function VisibilityChanged(s: RefreshState, hidden: bool, now: int, refreshed: bool): RefreshState
  {
    if s.listening && !hidden && now - s.lastRefresh > VisibleThrottleMs then Refreshed(s, now, refreshed) else s
  }

  /** The effect's cleanup. */
  function CleanedUp(s: RefreshState): RefreshState
  {
    s.(timerDue := None, listening := false)
  }

  // ---------------------------------------------------------------- rules

  /** With a falsy session nothing is armed and no listener is added. */
  lemma NoSessionNoEffect(s: RefreshState, now: int)
    ensures Mounted(s, false, now) == s
  {
  }

  /** The context passes `session: null`, so the hook as wired never arms a timer nor listens. */
  lemma AsWiredNeverArms(now: int)
    ensures var s := Mounted(Initial(), AuthContext.ContextSessionTruthy, now);
      s.timerDue.None? && !s.listening
  {
  }

  /**
   * Only a pending timer fires. It asks for a refresh exactly when more than 30 minutes
   * have passed, and afterwards exactly one timer is pending, due 45 minutes later.
   */
  lemma TimerRule(s: RefreshState, now: int, refreshed: bool)
    ensures !TimerDue(s, now) ==> TimerFired(s, now, refreshed) == s
    ensures TimerDue(s, now) ==> var r := TimerFired(s, now, refreshed);
      && (r.refreshes == s.refreshes + 1 <==> now - s.lastRefresh > TimerThrottleMs)
      && (r.refreshes == s.refreshes <==> now - s.lastRefresh <= TimerThrottleMs)
      && r.timerDue == Some(now + TimerPeriodMs)
      && r.listening == s.listening
  {
  }

  /** Regaining visibility asks for a refresh exactly when listening, visible, and more than 10 minutes have passed. */
  lemma VisibilityRule(s: RefreshState, hidden: bool, now: int, refreshed: bool)
    ensures var r := VisibilityChanged(s, hidden, now, refreshed);
      && (r.refreshes == s.refreshes + 1 <==> s.listening && !hidden && now - s.lastRefresh > VisibleThrottleMs)
      && (r.refreshes == s.refreshes <==> !(s.listening && !hidden && now - s.lastRefresh > VisibleThrottleMs))
      && r.timerDue == s.timerDue
  {
  }

  /** Cleanup cancels the timer and removes the listener; after it, neither a timer nor a visibility change does anything. */
  lemma CleanupSilences(s: RefreshState, hidden: bool, now: int, refreshed: bool)
    ensures CleanedUp(s).timerDue.None? && !CleanedUp(s).listening
    ensures VisibilityChanged(CleanedUp(s), hidden, now, refreshed) == CleanedUp(s)
    ensures TimerFired(CleanedUp(s), now, refreshed) == CleanedUp(s)
  {
  }

  // ---------------------------------------------------------------- runs

  /** What can happen to the hook after mounting. */
  datatype Event =
    | TimerFires(now: int, refreshed: bool)
    | VisibilityChanges(hidden: bool, now: int, refreshed: bool)

  function Step(s: RefreshState, e: Event): RefreshState
  {
    match e
    case TimerFires(now, refreshed) => TimerFired(s, now, refreshed)
    case VisibilityChanges(hidden, now, refreshed) => VisibilityChanged(s, hidden, now, refreshed)
  }

  function Run(s: RefreshState, events: seq<Event>): RefreshState
    decreases |events|
  {
    if events == [] then s else Run(Step(s, events[0]), events[1..])
  }

  /** After cleanup, any run of timer and visibility events leaves the hook as it is: no refresh is asked for. */
  lemma {:induction false} CleanedUpStaysSilent(s: RefreshState, events: seq<Event>)
    ensures Run(CleanedUp(s), events) == CleanedUp(s)
    decreases |events|
  {
    if events != [] {
      var e := events[0];
      CleanupSilences(s, if e.VisibilityChanges? then e.hidden else false, e.now, e.refreshed);
      assert Step(CleanedUp(s), e) == CleanedUp(s);
      CleanedUpStaysSilent(s, events[1..]);
    }
  }

  /** `lastRefresh` moves only on an event whose refresh resolved truthy, and then only to that event's time. */
  lemma {:induction false} LastRefreshOnlyOnSuccess(s: RefreshState, events: seq<Event>)
    ensures Run(s, events).lastRefresh == s.lastRefresh
      || exists k :: 0 <= k < |events| && events[k].refreshed && Run(s, events).lastRefresh == events[k].now
    decreases |events|
  {
    if events != [] {
      LastRefreshOnlyOnSuccess(Step(s, events[0]), events[1..]);
      var r := Run(s, events);
      if r.lastRefresh != s.lastRefresh {
        if r.lastRefresh == Step(s, events[0]).lastRefresh {
          assert events[0].refreshed && r.lastRefresh == events[0].now;
        } else {
          var k :| 0 <= k < |events[1..]| && events[1..][k].refreshed && r.lastRefresh == events[1..][k].now;
          assert events[k + 1] == events[1..][k];
        }
      }
    }
  }

  /** As wired, every refresh resolves to `undefined`, so `lastRefresh` never moves. */
  lemma {:induction false} AsWiredLastRefreshFixed(s: RefreshState, events: seq<Event>)
    requires forall k :: 0 <= k < |events| ==> events[k].refreshed == AuthContext.RefreshSessionIfNeeded(true).returnsTruthy
    ensures Run(s, events).lastRefresh == s.lastRefresh
    decreases |events|
  {
    if events != [] {
      AsWiredLastRefreshFixed(Step(s, events[0]), events[1..]);
    }
  }

  /**
   * Finding, as written: with `lastRefresh` stuck at 0, the throttles never hold back a
   * refresh. Two visibility changes one second apart both ask for one. The defect is
   * latent: it shows once the hook is given a truthy session, which the provider as
   * wired never passes (`AsWiredNeverArms`).
   */
  lemma ThrottleIneffectiveAsWired()
    ensures var falsy := AuthContext.RefreshSessionIfNeeded(true).returnsTruthy;
      var s0 := Mounted(Initial(), true, 1000000);
      var s2 := Run(s0, [VisibilityChanges(false, 1000000, falsy), VisibilityChanges(false, 1001000, falsy)]);
      s2.refreshes == 2
  {
    var falsy := AuthContext.RefreshSessionIfNeeded(true).returnsTruthy;
    var s0 := Mounted(Initial(), true, 1000000);
    var s1 := Step(s0, VisibilityChanges(false, 1000000, falsy));
    assert s1.refreshes == 1 && s1.lastRefresh == 0;
    assert Run(s0, [VisibilityChanges(false, 1000000, falsy), VisibilityChanges(false, 1001000, falsy)])
      == Run(s1, [VisibilityChanges(false, 1001000, falsy)]);
  }

  /** The refresh call the hook evidently expects: it resolves truthy exactly when a session was refreshed without error. */
  function RefreshReportingSuccess(hasSession: bool, refreshError: bool): (ok: bool)
    ensures ok ==> hasSession
  {
    hasSession && !refreshError
  }

  /**
   * Finding, corrected: once a refresh reports success at time `t`, neither event asks
   * for another within the throttle windows (10 minutes for visibility, 30 for the timer).
   */
  lemma ThrottleHoldsWhenSuccessReported(s: RefreshState, t: int, hidden: bool, later: int, refreshed: bool)
    requires s.listening
    requires t - s.lastRefresh > VisibleThrottleMs
    requires t <= later
    ensures var r := VisibilityChanged(s, false, t, RefreshReportingSuccess(true, false));
      && r.lastRefresh == t
      && (later - t <= VisibleThrottleMs ==> VisibilityChanged(r, hidden, later, refreshed).refreshes == r.refreshes)
      && (later - t <= TimerThrottleMs ==> TimerFired(r, later, refreshed).refreshes == r.refreshes)
  {
  }

  // ---------------------------------------------------------------- the hook

  class SessionRefresher {
    var lastRefresh: int
    var timerDue: Option<int>
    var listening: bool
    var refreshes: nat

    function State(): RefreshState
      reads this
    {
      RefreshState(lastRefresh, timerDue, listening, refreshes)
    }

    constructor()
      ensures State() == Initial()
    {
      lastRefresh := 0;
      timerDue := None;
      listening := false;
      refreshes := 0;
    }

    method ScheduleRefresh(now: int)
      modifies this
      ensures State() == Scheduled(old(State()), now)
    {
      if timerDue.Some? {
        timerDue := None;
      }
      timerDue := Some(now + TimerPeriodMs);
    }

    method Mount(session: bool, now: int)
      modifies this
      ensures State() == Mounted(old(State()), session, now)
    {
      if !session {
        return;
      }
      ScheduleRefresh(now);
      listening := true;
    }

    /** The callback of the pending timer; a cleared or not yet due timer does not run. */
    method TimerCallback(now: int, refreshed: bool)
      modifies this
      ensures State() == TimerFired(old(State()), now, refreshed)
    {
      if timerDue.None? || now < timerDue.value {
        return;
      }
      if now - lastRefresh > TimerThrottleMs {
        refreshes := refreshes + 1;
        if refreshed {
          lastRefresh := now;
        }
      }
      ScheduleRefresh(now);
    }

    method HandleVisibilityChange(hidden: bool, now: int, refreshed: bool)
      modifies this
      ensures State() == VisibilityChanged(old(State()), hidden, now, refreshed)
    {
      if !listening {
        return;
      }
      if !hidden && now - lastRefresh > VisibleThrottleMs {
        refreshes := refreshes + 1;
        if refreshed {
          lastRefresh := now;
        }
      }
    }

    method Cleanup()
      modifies this
      ensures State() == CleanedUp(old(State()))
    {
      timerDue := None;
      listening := false;
    }
  }
}
