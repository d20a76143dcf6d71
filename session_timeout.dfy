/**
 * The session-timeout component of components/session-timeout.tsx: a
 * once-a-second tick that computes the time left before the session
 * expires, raises a warning in the last minutes, and clears the session
 * when no time is left; and the "minutes:seconds" countdown it displays.
 * Time is an explicit parameter `now`, in milliseconds.
 */
module SessionTimeout {
  import opened Wrappers
  import opened Text
  import opened Store

  const MinuteMs: nat := 60000
  const SecondMs: nat := 1000
  /** The warning shows while the whole minutes left are at most this many. */
  const WarningMinutes: nat := 5

  /** `Math.max(0, expiry - now)` */
  function Remaining(expiry: int, now: int): (r: nat)
    ensures r == 0 <==> expiry <= now
    ensures r > 0 ==> r == expiry - now
  {
    if expiry - now > 0 then expiry - now else 0
  }

  /** Whole minutes of `t` (`Math.floor(t / 60000)`; `t` is never negative). */
  function Minutes(t: nat): nat {
    t / MinuteMs
  }

  /** Whole seconds of `t` beyond its whole minutes. */
  function Seconds(t: nat): nat {
    (t % MinuteMs) / SecondMs
  }

  /** `minutes <= 5 && remaining > 0` */
  predicate ShowWarning(remaining: nat) {
    Minutes(remaining) <= WarningMinutes && remaining > 0
  }

  /** The warning is up exactly while less than six minutes, and more than nothing, are left. */
  lemma WarningWindow(remaining: nat)
    ensures ShowWarning(remaining) <==> 0 < remaining < (WarningMinutes + 1) * MinuteMs
  {
  }

  /** What one tick computes from the expiry its interval captured and the current time. */
  datatype TickResult = TickResult(timeLeft: nat, showWarning: bool, expired: bool)

  function TickAt(expiry: int, now: int): (r: TickResult)
    ensures r.expired <==> expiry <= now
    ensures r.expired ==> r.timeLeft == 0
    ensures !r.expired ==> r.timeLeft == expiry - now
    ensures r.showWarning <==> now < expiry < now + (WarningMinutes + 1) * MinuteMs
  {
    var remaining := Remaining(expiry, now);
    WarningWindow(remaining);
    TickResult(remaining, ShowWarning(remaining), remaining <= 0)
  }

  /**
   * A session started at `start` is still active at any tick before
   * `start + 30min` and is cleared at any tick from then on; the warning is
   * up strictly between `start + 24min` and `start + 30min`.
   */
  lemma SessionLifecycle(start: int, now: int)
    ensures var r := TickAt(start + SessionDurationMs, now);
      && (now < start + SessionDurationMs <==> !r.expired)
      && (r.showWarning <==> start + 24 * MinuteMs < now < start + SessionDurationMs)
  {
  }

  /** The text "M:SS" the warning shows. */
  datatype Countdown = Countdown(minutes: nat, seconds: nat, text: string)

  /**
   * The rendered countdown: nothing when the warning is off or no time is
   * left; otherwise the minutes and the seconds, zero-padded to two places.
   */
  function CountdownOf(showWarning: bool, timeLeft: int): (c: Option<Countdown>)
    ensures c.None? <==> !showWarning || timeLeft <= 0
    ensures c.Some? ==>
      && c.value.seconds < 60
      && c.value.minutes * MinuteMs + c.value.seconds * SecondMs <= timeLeft
      && timeLeft < c.value.minutes * MinuteMs + c.value.seconds * SecondMs + SecondMs
    ensures c.Some? ==>
      c.value.text == NatToString(c.value.minutes) + [':']
                      + [DigitChar(c.value.seconds / 10), DigitChar(c.value.seconds % 10)]
  {
    if !showWarning || timeLeft <= 0 then None
    else
      var m, s := Minutes(timeLeft), Seconds(timeLeft);
      TwoDigits(s);
      Some(Countdown(m, s, NatToString(m) + [':'] + PadStart(NatToString(s), 2, '0')))
  }

  /**
   * The component's state: the time left and the warning flag as of the last
   * tick, and the running interval, which holds the expiry its callback
   * captured (None: no interval).
   */
  class SessionTimer {
    const store: AppStore
    var timeLeft: int
    var showWarning: bool
    var interval: Option<int>

    ghost predicate Valid()
      reads this
    {
      timeLeft >= 0 && (showWarning ==> 0 < timeLeft < (WarningMinutes + 1) * MinuteMs)
    }

    constructor (store: AppStore)
      ensures Valid()
      ensures this.store == store && timeLeft == 0 && !showWarning && interval == None
    {
      this.store := store;
      timeLeft := 0;
      showWarning := false;
      interval := None;
    }

    /**
     * The effect that runs whenever the store's expiry changes: the previous
     * interval is cancelled, and a new one starts only when an expiry is set.
     */
    method SyncWithExpiry()
      requires Valid()
      modifies this
      ensures Valid()
      ensures interval == store.sessionExpiry
      ensures timeLeft == old(timeLeft) && showWarning == old(showWarning)
    {
      interval := store.sessionExpiry;
    }

    /** One firing of the interval callback at time `now`. */
    method Tick(now: int)
      requires Valid()
      modifies this, store
      ensures Valid()
      ensures old(interval).None? ==>
        && timeLeft == old(timeLeft) && showWarning == old(showWarning) && interval == None
        && store.State() == old(store.State())
      ensures old(interval).Some? ==>
        var r := TickAt(old(interval).value, now);
        && timeLeft == r.timeLeft && showWarning == r.showWarning
        && (r.expired ==> interval == None && store.State() == Cleared(old(store.State())))
        && (!r.expired ==> interval == old(interval) && store.State() == old(store.State()))
    {
      if interval.None? {
        return;
      }
      var remaining := Remaining(interval.value, now);
      var minutes := Minutes(remaining);
      timeLeft := remaining;
      showWarning := minutes <= WarningMinutes && remaining > 0;
      WarningWindow(remaining);
      if remaining <= 0 {
        store.ClearSession();
        interval := None;
      }
    }

    /** What the component renders; while shown, at most five whole minutes are left. */
    function Display(): (c: Option<Countdown>)
      requires Valid()
      reads this
      ensures c.Some? ==> c.value.minutes <= WarningMinutes && c.value.seconds < 60
      ensures c.Some? <==> showWarning
    {
      CountdownOf(showWarning, timeLeft)
    }
  }

  /**
   * A session begun at `start`: a tick 29 minutes later leaves it active; a
   * tick 30 minutes later clears it and stops the interval.
   */
  method ExpiryAfterThirtyMinutes(start: int) returns (activeAt29: bool, clearedAt30: bool)
    ensures activeAt29 && clearedAt30
  {
    var store := new AppStore();
    store.InitSession(start);
    var timer := new SessionTimer(store);
    timer.SyncWithExpiry();
    timer.Tick(start + 29 * MinuteMs);
    activeAt29 := store.sessionExpiry.Some? && timer.interval.Some?;
    timer.Tick(start + 30 * MinuteMs);
    clearedAt30 := store.sessionExpiry.None? && timer.interval.None? && timer.timeLeft == 0;
  }

  /**
   * "Logout Now" pressed during the warning: the session is cleared by the
   * button rather than by a tick. The effect re-runs, cancels the interval
   * and sets nothing else, so the warning stays on screen with the countdown
   * frozen at the value of the last tick, and a later clock reading changes
   * nothing.
   */
  method FrozenCountdownAfterLogout(start: int) returns (frozen: bool)
    ensures frozen
  {
    var store := new AppStore();
    store.InitSession(start);
    var timer := new SessionTimer(store);
    timer.SyncWithExpiry();
    timer.Tick(start + 27 * MinuteMs);
    var before := timer.Display();
    store.ClearSession();
    timer.SyncWithExpiry();
    timer.Tick(start + 40 * MinuteMs);
    frozen := store.sessionExpiry.None? && timer.interval.None?
      && before.Some? && timer.Display() == before && timer.timeLeft == 3 * MinuteMs;
  }
}
