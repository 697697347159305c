/**
 * What the control loop guarantees across messages: the effects of the
 * manual step keys, the monotone override flags, the dimming rule and its
 * timing, the restore on activity, the tick's ambient update, the keyboard
 * level bound, and the keyboard watcher's reading of a raw record.
 */
module AppProperties {
  import opened Types
  import opened Helpers
  import opened Input
  import opened App

  // ---------------------------------------------------------------------
  // Per-channel views of the state
  // ---------------------------------------------------------------------

  /** The tracked level of a channel. */
  function Level(s: State, ch: Channel): U32 {
    match ch
    case Display => s.dspVal
    case Keyboard => s.kbdVal
  }

  /** Whether a channel has been set by hand. */
  predicate Overridden(s: State, ch: Channel) {
    match ch
    case Display => s.dspOverride
    case Keyboard => s.kbdOverride
  }

  function Device(c: Config, ch: Channel): BacklightDevice {
    match ch
    case Display => c.dsp
    case Keyboard => c.kbd
  }

  function Other(ch: Channel): Channel {
    match ch
    case Display => Keyboard
    case Keyboard => Display
  }

  /** The level the ambient policy asks of a channel for reading `a`. */
  function Target(c: Config, a: U32, ch: Channel): U32 {
    match ch
    case Display => c.policy.alsToDsp(a, c.dsp.max)
    case Keyboard => AlsToKb(a, c.kbd.max, c.policy)
  }

  /** The two manual step keys of a channel. */
  predicate StepsChannel(m: Message, ch: Channel) {
    match ch
    case Display => m == DspUp || m == DspDown
    case Keyboard => m == KbdUp || m == KbdDown
  }

  predicate IsUp(m: Message) {
    m == DspUp || m == KbdUp
  }

  // ---------------------------------------------------------------------
  // Manual steps
  // ---------------------------------------------------------------------

  /**
   * A step key moves its own channel by one step and nothing else: one write
   * of the new level to that channel, its override flag set, activity
   * recorded; the other channel, its flag and the ambient reading are kept.
   * A step up fails exactly when the `u32` sum would overflow.
   */
  lemma StepKeyEffects(c: Config, s: State, m: Message, ch: Channel, env: Env)
    requires StepsChannel(m, ch)
    ensures var o := Step(c, s, m, env);
      o.fatal.Some? <==> IsUp(m) && !AddFits(Level(s, ch), Device(c, ch).step)
    ensures var o := Step(c, s, m, env);
      o.fatal.None? ==>
        && Level(o.state, Other(ch)) == Level(s, Other(ch))
        && Overridden(o.state, Other(ch)) == Overridden(s, Other(ch))
        && o.state.als == s.als
        && Overridden(o.state, ch) && !o.state.idle && o.state.idleTime == 0
        && o.writes == [Write(ch, Level(o.state, ch))]
        && (!IsUp(m) ==> Level(o.state, ch) == StepDown(Level(s, ch), Device(c, ch).step))
        && (IsUp(m) ==> AddFits(Level(s, ch), Device(c, ch).step)
                        && Level(o.state, ch) == StepUp(Level(s, ch), Device(c, ch).step, Device(c, ch).max))
  {
  }

  // ---------------------------------------------------------------------
  // Overrides
  // ---------------------------------------------------------------------

  /** No message clears an override flag. */
  lemma StepKeepsOverrides(c: Config, s: State, m: Message, env: Env, ch: Channel)
    requires Overridden(s, ch)
    ensures Overridden(Step(c, s, m, env).state, ch)
  {
  }

  /** Once a channel is overridden it stays overridden for the rest of the run. */
  lemma {:induction false} OverridesMonotone(c: Config, s: State, ds: seq<Delivery>, ch: Channel)
    requires Overridden(s, ch)
    ensures Overridden(Process(c, s, ds).state, ch)
    decreases |ds|
  {
    if ds != [] {
      var o := Step(c, s, ds[0].msg, ds[0].env);
      ProcessFirst(c, s, ds, o);
      StepKeepsOverrides(c, s, ds[0].msg, ds[0].env, ch);
      if o.fatal.None? {
        OverridesMonotone(c, o.state, ds[1..], ch);
      }
    }
  }

  /** Only a channel's own step keys change the level of an overridden channel; in particular no tick does. */
  lemma OverriddenLevelSurvives(c: Config, s: State, m: Message, env: Env, ch: Channel)
    requires Overridden(s, ch) && !StepsChannel(m, ch)
    ensures Level(Step(c, s, m, env).state, ch) == Level(s, ch)
    ensures Overridden(Step(c, s, m, env).state, ch)
  {
  }

  /** Over a run with none of a channel's step keys, an overridden channel keeps its level. */
  lemma {:induction false} OverriddenLevelFixed(c: Config, s: State, ds: seq<Delivery>, ch: Channel)
    requires Overridden(s, ch)
    requires forall d :: d in ds ==> !StepsChannel(d.msg, ch)
    ensures Level(Process(c, s, ds).state, ch) == Level(s, ch)
    decreases |ds|
  {
    if ds != [] {
      var o := Step(c, s, ds[0].msg, ds[0].env);
      ProcessFirst(c, s, ds, o);
      OverriddenLevelSurvives(c, s, ds[0].msg, ds[0].env, ch);
      if o.fatal.None? {
        OverriddenLevelFixed(c, o.state, ds[1..], ch);
      }
    }
  }

  // ---------------------------------------------------------------------
  // Activity
  // ---------------------------------------------------------------------

  /** A second activity message right after a first one changes nothing and writes nothing. */
  lemma InputIdempotent(c: Config, s: State, e1: Env, e2: Env)
    ensures Process(c, s, [Delivery(Input, e1), Delivery(Input, e2)]) == Process(c, s, [Delivery(Input, e1)])
  {
    var ds := [Delivery(Input, e1), Delivery(Input, e2)];
    var o := Step(c, s, Input, e1);
    ProcessFirst(c, s, ds, o);
    assert ds[1..] == [Delivery(Input, e2)];
    ProcessFirst(c, o.state, ds[1..], Step(c, o.state, Input, e2));
    assert [Delivery(Input, e1)][1..] == [];
    ProcessFirst(c, s, [Delivery(Input, e1)], o);
  }

  /**
   * Dimming keeps the tracked levels, so the activity that follows writes
   * back exactly the levels from before the dim, display first.
   */
  lemma DimThenActivityRestores(c: Config, s: State, e1: Env, e2: Env)
    requires DimsNow(c, s, e1)
    ensures Process(c, s, [Delivery(Tick, e1), Delivery(Input, e2)])
            == Outcome(s.(idleTime := 0),
                       [Write(Display, c.policy.dim(s.dspVal)), Write(Keyboard, 0),
                        Write(Display, s.dspVal), Write(Keyboard, s.kbdVal)],
                       None)
  {
    var ds := [Delivery(Tick, e1), Delivery(Input, e2)];
    var o := Step(c, s, Tick, e1);
    ProcessFirst(c, s, ds, o);
    assert ds[1..] == [Delivery(Input, e2)];
    var o2 := Step(c, o.state, Input, e2);
    ProcessFirst(c, o.state, ds[1..], o2);
    assert ds[1..][1..] == [];
  }

  // ---------------------------------------------------------------------
  // Ticks
  // ---------------------------------------------------------------------

  /**
   * After a tick the loop is idle exactly when it was already idle or the
   * dimming condition held; a dimming tick writes the dimmed display level
   * and 0 to the keyboard and keeps both tracked levels.
   */
  lemma TickDimsExactlyWhenTimedOut(c: Config, s: State, env: Env)
    ensures Step(c, s, Tick, env).state.idle <==> s.idle || DimsNow(c, s, env)
    ensures DimsNow(c, s, env) <==> !s.idle && Step(c, s, Tick, env).state.idle
    ensures DimsNow(c, s, env) ==>
      Step(c, s, Tick, env) == Outcome(s.(idle := true, idleTime := s.idleTime + c.tickTime),
                                       [Write(Display, c.policy.dim(s.dspVal)), Write(Keyboard, 0)], None)
  {
  }

  /** An idle tick ignores the sensor and the media flag, writes nothing and cannot fail. */
  lemma IdleTickIsQuiet(c: Config, s: State, e1: Env, e2: Env)
    requires s.idle
    ensures Step(c, s, Tick, e1) == Step(c, s, Tick, e2)
    ensures Step(c, s, Tick, e1) == Outcome(s.(idleTime := s.idleTime + c.tickTime), [], None)
  {
  }

  /**
   * Every tick that completes adds the tick length to the idle clock; a tick
   * fails only when the loop is active, not dimming, and the sensor text
   * does not parse.
   */
  lemma EveryTickAddsTickTime(c: Config, s: State, env: Env)
    ensures var o := Step(c, s, Tick, env);
      o.fatal.None? ==> o.state.idleTime == s.idleTime + c.tickTime
    ensures var o := Step(c, s, Tick, env);
      o.fatal.Some? <==> !s.idle && !DimsNow(c, s, env) && ReadU32(env.sensor).None?
  {
  }

  /**
   * An active tick with a readable sensor records the reading; a channel
   * moves to its target only when the reading changed and the channel is
   * not overridden; and the writes are exactly the channels whose level
   * changed, each with its new level, display first.
   */
  lemma ActiveTickFollowsSensor(c: Config, s: State, env: Env, a: U32)
    requires !s.idle && !DimsNow(c, s, env) && ReadU32(env.sensor) == Some(a)
    ensures var o := Step(c, s, Tick, env);
      && o.fatal.None? && !o.state.idle && o.state.als == a
      && o.state.idleTime == s.idleTime + c.tickTime
      && o.state.dspOverride == s.dspOverride && o.state.kbdOverride == s.kbdOverride
    ensures var o := Step(c, s, Tick, env);
      forall ch :: Level(o.state, ch)
                   == if a != s.als && !Overridden(s, ch) then Target(c, a, ch) else Level(s, ch)
    ensures var o := Step(c, s, Tick, env);
      forall w :: w in o.writes <==> Level(o.state, w.channel) != Level(s, w.channel)
                                     && w.value == Level(o.state, w.channel)
    ensures var o := Step(c, s, Tick, env);
      |o.writes| <= 2 && (|o.writes| == 2 ==> o.writes[0].channel == Display && o.writes[1].channel == Keyboard)
    ensures a == s.als ==> Step(c, s, Tick, env) == Outcome(s.(idleTime := s.idleTime + c.tickTime), [], None)
  {
    var o := Step(c, s, Tick, env);
    var (s1, w) := Ambient(c, s, a);
    assert o == Outcome(s1.(idleTime := s.idleTime + c.tickTime), w, None);
    if a != s.als {
      var nd := Target(c, a, Display);
      var nk := Target(c, a, Keyboard);
      var dspChanges := !s.dspOverride && nd != s.dspVal;
      var kbdChanges := !s.kbdOverride && nk != s.kbdVal;
      assert w == (if dspChanges then [Write(Display, nd)] else []) + (if kbdChanges then [Write(Keyboard, nk)] else []);
      forall x
        ensures x in w <==> Level(o.state, x.channel) != Level(s, x.channel) && x.value == Level(o.state, x.channel)
      {
        assert x in w <==> (dspChanges && x == Write(Display, nd)) || (kbdChanges && x == Write(Keyboard, nk));
      }
    }
  }

  /** Handling a concatenation is handling the first part, then (unless it failed) the second. */
  lemma {:induction false} ProcessAppend(c: Config, s: State, ds1: seq<Delivery>, ds2: seq<Delivery>)
    ensures var o1 := Process(c, s, ds1);
      Process(c, s, ds1 + ds2) == if o1.fatal.Some? then o1 else After(o1.writes, Process(c, o1.state, ds2))
    decreases |ds1|
  {
    if ds1 == [] {
      assert ds1 + ds2 == ds2;
    } else {
      var o := Step(c, s, ds1[0].msg, ds1[0].env);
      assert (ds1 + ds2)[0] == ds1[0] && (ds1 + ds2)[1..] == ds1[1..] + ds2;
      ProcessFirst(c, s, ds1 + ds2, o);
      ProcessFirst(c, s, ds1, o);
      if o.fatal.None? {
        ProcessAppend(c, o.state, ds1[1..], ds2);
        var o1 := Process(c, o.state, ds1[1..]);
        if o1.fatal.None? {
          AfterAfter(o.writes, o1.writes, Process(c, o1.state, ds2));
        }
      }
    }
  }

  /** A tick that does not dim: media off and a sensor text that parses. */
  predicate QuietTick(d: Delivery) {
    d.msg == Tick && !d.env.mediaPlaying && ReadU32(d.env.sensor).Some?
  }

  lemma MulStep(n: nat, t: nat)
    requires n > 0
    ensures (n - 1) * t + t == n * t && t <= n * t
  {
  }

  /** A quiet tick before the timeout neither dims nor fails, and advances the clock. */
  lemma QuietTickStep(c: Config, s: State, d: Delivery)
    requires !s.idle && QuietTick(d) && s.idleTime <= c.idleTimeout
    ensures var o := Step(c, s, d.msg, d.env);
      o.fatal.None? && !o.state.idle && o.state.idleTime == s.idleTime + c.tickTime
  {
  }

  /**
   * Quiet ticks from an active state whose clock stays, before each tick,
   * at most the timeout: none of them dims or fails, and the clock advances
   * by one tick length each.
   */
  lemma {:induction false} QuietTicksStayActive(c: Config, s: State, ds: seq<Delivery>)
    requires !s.idle
    requires forall d :: d in ds ==> QuietTick(d)
    requires s.idleTime + |ds| * c.tickTime <= c.idleTimeout + c.tickTime
    ensures var o := Process(c, s, ds);
      o.fatal.None? && !o.state.idle && o.state.idleTime == s.idleTime + |ds| * c.tickTime
    decreases |ds|
  {
    if ds != [] {
      var n: nat, t: nat := |ds|, c.tickTime;
      var rest := ds[1..];
      MulStep(n, t);
      assert |rest| == n - 1 && ds[0] in ds;
      QuietTickStep(c, s, ds[0]);
      var o := Step(c, s, ds[0].msg, ds[0].env);
      ProcessFirst(c, s, ds, o);
      assert o.state.idleTime + |rest| * t == s.idleTime + n * t;
      QuietTicksStayActive(c, o.state, rest);
    }
  }

  lemma MulMonotone(a: nat, b: nat, t: nat)
    requires a <= b
    ensures a * t <= b * t
  {
  }

  /** The number of the first dimming tick, and the clock before it and before its predecessor. */
  lemma FirstDimArithmetic(T: nat, t: nat)
    requires t > 0
    ensures T < (T / t + 1) * t <= T + t
  {
    QuotientBounds(T, t);
  }

  /**
   * From activity with a zeroed clock and a positive tick length, a run of
   * quiet ticks first dims on tick number `idleTimeout / tickTime + 2`: the
   * dimming test sees the clock before that tick adds to it.
   */
  lemma FirstDimTick(c: Config, s: State, ds: seq<Delivery>)
    requires c.tickTime > 0 && !s.idle && s.idleTime == 0
    requires forall d :: d in ds ==> QuietTick(d)
    requires |ds| == c.idleTimeout / c.tickTime + 2
    ensures forall k :: 0 <= k < |ds| ==> Process(c, s, ds[..k]).fatal.None? && !Process(c, s, ds[..k]).state.idle
    ensures Process(c, s, ds).fatal.None? && Process(c, s, ds).state.idle
  {
    forall k | 0 <= k < |ds|
      ensures Process(c, s, ds[..k]).fatal.None? && !Process(c, s, ds[..k]).state.idle
    {
      PrefixStaysActive(c, s, ds, k);
    }
    DimsOnLastTick(c, s, ds);
  }

  /** No tick before the last of such a run dims. */
  lemma PrefixStaysActive(c: Config, s: State, ds: seq<Delivery>, k: nat)
    requires c.tickTime > 0 && !s.idle && s.idleTime == 0
    requires forall d :: d in ds ==> QuietTick(d)
    requires |ds| == c.idleTimeout / c.tickTime + 2 && k < |ds|
    ensures Process(c, s, ds[..k]).fatal.None? && !Process(c, s, ds[..k]).state.idle
  {
    var T: nat, t: nat := c.idleTimeout, c.tickTime;
    var q := T / t;
    FirstDimArithmetic(T, t);
    MulMonotone(k, q + 1, t);
    var pre := ds[..k];
    assert |pre| == k && forall d :: d in pre ==> d in ds;
    QuietTicksStayActive(c, s, pre);
  }

  /** The last tick of such a run dims: the clock before it is past the timeout. */
  lemma DimsOnLastTick(c: Config, s: State, ds: seq<Delivery>)
    requires c.tickTime > 0 && !s.idle && s.idleTime == 0
    requires forall d :: d in ds ==> QuietTick(d)
    requires |ds| == c.idleTimeout / c.tickTime + 2
    ensures Process(c, s, ds).fatal.None? && Process(c, s, ds).state.idle
  {
    var T: nat, t: nat := c.idleTimeout, c.tickTime;
    var q := T / t;
    FirstDimArithmetic(T, t);
    var pre := ds[..q + 1];
    assert |pre| == q + 1 && forall d :: d in pre ==> d in ds;
    QuietTicksStayActive(c, s, pre);
    var o1 := Process(c, s, pre);
    assert o1.state.idleTime == (q + 1) * t;
    var last := [ds[q + 1]];
    assert ds[q + 1] in ds && pre + last == ds;
    ProcessAppend(c, s, pre, last);
    DimOnSingleTick(c, o1.state, ds[q + 1]);
  }

  /** A lone quiet tick past the timeout dims. */
  lemma DimOnSingleTick(c: Config, s: State, d: Delivery)
    requires !s.idle && QuietTick(d) && s.idleTime > c.idleTimeout
    ensures Process(c, s, [d]).fatal.None? && Process(c, s, [d]).state.idle
  {
    ProcessFirst(c, s, [d], Step(c, s, d.msg, d.env));
    assert [d][1..] == [];
  }

  /** With a 60-second timeout and 5-second ticks, the thirteenth quiet tick leaves the loop active and the fourteenth dims. */
  lemma FirstDimOnFourteenthTick(c: Config, s: State, ds: seq<Delivery>)
    requires c.idleTimeout == 60 && c.tickTime == 5 && !s.idle && s.idleTime == 0
    requires |ds| == 14 && forall d :: d in ds ==> QuietTick(d)
    ensures !Process(c, s, ds[..13]).state.idle && Process(c, s, ds[..13]).state.idleTime == 65
    ensures Process(c, s, ds).fatal.None? && Process(c, s, ds).state.idle
  {
    FirstDimTick(c, s, ds);
    QuietTicksStayActive(c, s, ds[..13]);
  }

  // ---------------------------------------------------------------------
  // The keyboard level bound
  // ---------------------------------------------------------------------

  /** The initial keyboard level is within the keyboard maximum when the policy's tenth is. */
  lemma InitialKeyboardWithinMax(c: Config, a: U32)
    requires TenthWithin(c.policy)
    ensures Initial(c, a).kbdVal <= c.kbd.max
  {
  }

  lemma StepKeepsKeyboardWithinMax(c: Config, s: State, m: Message, env: Env)
    requires TenthWithin(c.policy) && s.kbdVal <= c.kbd.max
    ensures Step(c, s, m, env).state.kbdVal <= c.kbd.max
  {
  }

  /** The keyboard's tracked level never exceeds its maximum once it starts there. */
  lemma {:induction false} KeyboardWithinMax(c: Config, s: State, ds: seq<Delivery>)
    requires TenthWithin(c.policy) && s.kbdVal <= c.kbd.max
    ensures Process(c, s, ds).state.kbdVal <= c.kbd.max
    decreases |ds|
  {
    if ds != [] {
      var o := Step(c, s, ds[0].msg, ds[0].env);
      ProcessFirst(c, s, ds, o);
      StepKeepsKeyboardWithinMax(c, s, ds[0].msg, ds[0].env);
      if o.fatal.None? {
        KeyboardWithinMax(c, o.state, ds[1..]);
      }
    }
  }

  // ---------------------------------------------------------------------
  // Scenarios and the keyboard watcher
  // ---------------------------------------------------------------------

  /**
   * A display of maximum 255 split into 10 steps has step 25; one step up
   * from 100 writes the text "125".
   */
  lemma ManualStepScenario(c: Config, s: State, env: Env)
    requires BuildDevice(255, 10).Some? && c.dsp == BuildDevice(255, 10).value && s.dspVal == 100
    ensures c.dsp.step == 25
    ensures Step(c, s, DspUp, env).state.dspVal == 125
    ensures Step(c, s, DspUp, env).writes == [Write(Display, 125)]
    ensures ToDecimal(125) == "125"
  {
    assert ToDecimal(1) == "1";
    assert ToDecimal(12) == "12";
  }

  /** The watcher's reaction to the record the kernel writes for an event is decided by its type, code and value alone. */
  lemma KeyboardReadOfRecord(e: InputEvent)
    ensures KeyboardRead(Encode(e)) == match KeyMessage(e.eventType, e.code, e.value)
                                      case None => Dropped
                                      case Some(m) => Send(m)
  {
    DecodeEncode(e);
  }
}
