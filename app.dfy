/**
 * The brightness control loop: the classification of keyboard records into
 * messages, the state machine that consumes messages one at a time, and the
 * controller object that owns the loop's state and performs its writes.
 *
 * `Step` and `Process` are the specification of the loop as functions of
 * the state; `Controller` is the loop itself, with one method per message,
 * each proved to do what `Step` says.
 */
module App {
  import opened Types
  import opened Helpers
  import opened Input

  // ---------------------------------------------------------------------
  // Keyboard watcher: raw record -> message
  // ---------------------------------------------------------------------

  /**
   * The message a keyboard event produces: only key presses produce one;
   * the four brightness keys select a step, every other key is activity.
   */
  function KeyMessage(eventType: U16, code: U16, value: I32): (r: Option<Message>)
    ensures r.Some? <==> eventType == 1 && value == 1
    ensures r == Some(DspDown) <==> r.Some? && code == 224
    ensures r == Some(DspUp) <==> r.Some? && code == 225
    ensures r == Some(KbdDown) <==> r.Some? && code == 229
    ensures r == Some(KbdUp) <==> r.Some? && code == 230
    ensures r == Some(Input) <==> r.Some? && code != 224 && code != 225 && code != 229 && code != 230
    ensures r != Some(Tick)
  {
    if IsKeyEvent(eventType) && IsKeyPress(value) then
      Some(match code
           case 224 => DspDown
           case 225 => DspUp
           case 229 => KbdDown
           case 230 => KbdUp
           case _ => Input)
    else
      None
  }

  /** What the keyboard watcher does with one read: die on a short read, drop it, or send a message. */
  datatype KeyRead = ShortRead | Dropped | Send(msg: Message)

  function KeyboardRead(chunk: seq<Byte>): (r: KeyRead)
    ensures r.ShortRead? <==> |chunk| != EVENT_SIZE
    ensures r.Send? <==> |chunk| == EVENT_SIZE && chunk[16] == 1 && chunk[17] == 0
                         && chunk[20] == 1 && chunk[21] == 0 && chunk[22] == 0 && chunk[23] == 0
    ensures r.Dropped? ==> Decode(chunk).Some?
                           && KeyMessage(Decode(chunk).value.eventType, Decode(chunk).value.code,
                                         Decode(chunk).value.value).None?
    ensures r.Send? ==> Decode(chunk).Some?
                        && KeyMessage(Decode(chunk).value.eventType, Decode(chunk).value.code,
                                      Decode(chunk).value.value) == Some(r.msg)
  {
    match Decode(chunk)
    case None => ShortRead
    case Some(e) =>
      match KeyMessage(e.eventType, e.code, e.value)
      case None => Dropped
      case Some(m) => Send(m)
  }

  // ---------------------------------------------------------------------
  // State machine
  // ---------------------------------------------------------------------

  datatype Channel = Display | Keyboard

  /** One write of a decimal level to a channel's brightness file. */
  datatype Write = Write(channel: Channel, value: U32)

  /** The preferences and the two devices the loop is started with. */
  datatype Config = Config(idleTimeout: U64, tickTime: U64, policy: FloatPolicy,
                           kbd: BacklightDevice, dsp: BacklightDevice)

  /** The loop's mutable state; the elapsed idle time is an unbounded count of seconds. */
  datatype State = State(idle: bool, idleTime: nat, als: U32, dspVal: U32, kbdVal: U32,
                         dspOverride: bool, kbdOverride: bool)

  /** What the world answers while a message is handled: the sensor file's text and whether audio is playing. */
  datatype Env = Env(sensor: string, mediaPlaying: bool)

  /** One message together with the world it is handled in. */
  datatype Delivery = Delivery(msg: Message, env: Env)

  /** The conditions under which the loop panics. */
  datatype Fatal = SensorUnreadable | AddOverflow

  /**
   * The effect of handling messages: the new state, the writes performed in
   * order, and the fatal error that ended the process, if any. A fatal
   * error happens before any write of the message that caused it.
   */
  datatype Outcome = Outcome(state: State, writes: seq<Write>, fatal: Option<Fatal>)

  /** The state right after the initial sensor read. */
  function Initial(c: Config, als: U32): State {
    State(false, 0, als, c.policy.alsToDsp(als, c.dsp.max), AlsToKb(als, c.kbd.max, c.policy), false, false)
  }

  /** The two writes performed before the loop starts: display, then keyboard. */
  function InitialWrites(c: Config, als: U32): seq<Write> {
    var s := Initial(c, als);
    [Write(Display, s.dspVal), Write(Keyboard, s.kbdVal)]
  }

  /** The predicate of the dimming branch of a tick. */
  predicate DimsNow(c: Config, s: State, env: Env) {
    !s.idle && s.idleTime > c.idleTimeout && !env.mediaPlaying
  }

  /** The response to a changed ambient reading `a`: retarget every channel not overridden. */
  function Ambient(c: Config, s: State, a: U32): (State, seq<Write>) {
    if a == s.als then (s, [])
    else
      var nd := c.policy.alsToDsp(a, c.dsp.max);
      var nk := AlsToKb(a, c.kbd.max, c.policy);
      var dspChanges := !s.dspOverride && nd != s.dspVal;
      var kbdChanges := !s.kbdOverride && nk != s.kbdVal;
      (s.(als := a,
          dspVal := if dspChanges then nd else s.dspVal,
          kbdVal := if kbdChanges then nk else s.kbdVal),
       (if dspChanges then [Write(Display, nd)] else []) + (if kbdChanges then [Write(Keyboard, nk)] else []))
  }

  function TickStep(c: Config, s: State, env: Env): Outcome {
    var later := s.idleTime + c.tickTime;
    if DimsNow(c, s, env) then
      Outcome(s.(idle := true, idleTime := later), [Write(Display, c.policy.dim(s.dspVal)), Write(Keyboard, 0)], None)
    else if !s.idle then
      match ReadU32(env.sensor)
      case None => Outcome(s, [], Some(SensorUnreadable))
      case Some(a) =>
        var (s1, w) := Ambient(c, s, a);
        Outcome(s1.(idleTime := later), w, None)
    else
      Outcome(s.(idleTime := later), [], None)
  }

  /** The effect of one message. */
  function Step(c: Config, s: State, m: Message, env: Env): Outcome {
    match m
    case DspDown =>
      var v := StepDown(s.dspVal, c.dsp.step);
      Outcome(s.(dspVal := v, idle := false, idleTime := 0, dspOverride := true), [Write(Display, v)], None)
    case DspUp =>
      if !AddFits(s.dspVal, c.dsp.step) then Outcome(s, [], Some(AddOverflow))
      else
        var v := StepUp(s.dspVal, c.dsp.step, c.dsp.max);
        Outcome(s.(dspVal := v, idle := false, idleTime := 0, dspOverride := true), [Write(Display, v)], None)
    case KbdDown =>
      var v := StepDown(s.kbdVal, c.kbd.step);
      Outcome(s.(kbdVal := v, idle := false, idleTime := 0, kbdOverride := true), [Write(Keyboard, v)], None)
    case KbdUp =>
      if !AddFits(s.kbdVal, c.kbd.step) then Outcome(s, [], Some(AddOverflow))
      else
        var v := StepUp(s.kbdVal, c.kbd.step, c.kbd.max);
        Outcome(s.(kbdVal := v, idle := false, idleTime := 0, kbdOverride := true), [Write(Keyboard, v)], None)
    case Input =>
      if s.idle then
        Outcome(s.(idle := false, idleTime := 0), [Write(Display, s.dspVal), Write(Keyboard, s.kbdVal)], None)
      else
        Outcome(s.(idleTime := 0), [], None)
    case Tick =>
      TickStep(c, s, env)
  }

  /** `writes` happened before the outcome `o`. */
  function After(writes: seq<Write>, o: Outcome): Outcome {
    Outcome(o.state, writes + o.writes, o.fatal)
  }

  /** Handling a sequence of deliveries in order, stopping at the first fatal error. */
  function Process(c: Config, s: State, ds: seq<Delivery>): Outcome
    decreases |ds|
  {
    if ds == [] then Outcome(s, [], None)
    else
      var o := Step(c, s, ds[0].msg, ds[0].env);
      if o.fatal.Some? then o else After(o.writes, Process(c, o.state, ds[1..]))
  }

  /** A fatal step changes nothing and writes nothing. */
  lemma FatalStepIsQuiet(c: Config, s: State, m: Message, env: Env)
    ensures var o := Step(c, s, m, env); o.fatal.Some? ==> o.state == s && o.writes == []
  {
  }

  /** Processing a non-empty sequence is its first step followed by the rest. */
  lemma ProcessFirst(c: Config, s: State, ds: seq<Delivery>, o: Outcome)
    requires ds != [] && o == Step(c, s, ds[0].msg, ds[0].env)
    ensures o.fatal.Some? ==> o.state == s && Process(c, s, ds) == Outcome(s, [], o.fatal)
    ensures o.fatal.None? ==> Process(c, s, ds) == After(o.writes, Process(c, o.state, ds[1..]))
  {
    FatalStepIsQuiet(c, s, ds[0].msg, ds[0].env);
  }

  /**
   * One more step of a run whose overall outcome is `total`, which has
   * written `written` so far and reached `s` with `ds[i..]` still to handle:
   * a fatal step ends the run where it stands, any other step extends it.
   */
  lemma StepThenRest(c: Config, total: Outcome, ds: seq<Delivery>, i: nat, written: seq<Write>, s: State, o: Outcome)
    requires i < |ds| && o == Step(c, s, ds[i].msg, ds[i].env)
    requires total == After(written, Process(c, s, ds[i..]))
    ensures o.fatal.Some? ==> o.state == s && total == Outcome(s, written, o.fatal)
    ensures o.fatal.None? ==> total == After(written + o.writes, Process(c, o.state, ds[i + 1..]))
  {
    assert ds[i..][0] == ds[i] && ds[i..][1..] == ds[i + 1..];
    ProcessFirst(c, s, ds[i..], o);
    AfterAfter(written, o.writes, Process(c, o.state, ds[i + 1..]));
  }

  lemma AppendAssoc(a: seq<Write>, b: seq<Write>, c: seq<Write>)
    ensures a + b + c == a + (b + c)
  {
  }

  /** Writes prepended in two batches are the two batches prepended at once. */
  lemma AfterAfter(w1: seq<Write>, w2: seq<Write>, o: Outcome)
    ensures After(w1, After(w2, o)) == After(w1 + w2, o)
  {
    assert w1 + (w2 + o.writes) == w1 + w2 + o.writes;
  }

  // ---------------------------------------------------------------------
  // The loop
  // ---------------------------------------------------------------------

  /** The consumer: owns the loop's state and logs every write it performs. */
  class Controller {
    const config: Config
    var idle: bool
    var idleTime: nat
    var als: U32
    var dspVal: U32
    var kbdVal: U32
    var dspOverride: bool
    var kbdOverride: bool
    /** Every brightness write performed so far, in order. */
    ghost var log: seq<Write>

    function Current(): State
      reads this
    {
      State(idle, idleTime, als, dspVal, kbdVal, dspOverride, kbdOverride)
    }

    /** Initialise from the first sensor reading and write both levels, display first. */
    constructor (c: Config, reading: U32)
      ensures config == c
      ensures !idle && idleTime == 0 && !dspOverride && !kbdOverride && als == reading
      ensures dspVal == c.policy.alsToDsp(reading, c.dsp.max) && kbdVal == AlsToKb(reading, c.kbd.max, c.policy)
      ensures log == [Write(Display, dspVal), Write(Keyboard, kbdVal)]
      ensures Current() == Initial(c, reading) && log == InitialWrites(c, reading)
    {
      config := c;
      idle, idleTime := false, 0;
      kbdOverride, dspOverride := false, false;
      als := reading;
      dspVal := c.policy.alsToDsp(reading, c.dsp.max);
      kbdVal := AlsToKb(reading, c.kbd.max, c.policy);
      log := [Write(Display, dspVal), Write(Keyboard, kbdVal)];
    }

    method OnDspDown()
      modifies this
      ensures Current() == old(Current()).(dspVal := StepDown(old(dspVal), config.dsp.step),
                                           idle := false, idleTime := 0, dspOverride := true)
      ensures log == old(log) + [Write(Display, dspVal)]
    {
      dspVal := StepDown(dspVal, config.dsp.step);
      log := log + [Write(Display, dspVal)];
      idle := false;
      idleTime := 0;
      dspOverride := true;
    }

    /** Fails, changing nothing, when the unchecked `u32` sum would overflow. */
    method OnDspUp() returns (fatal: Option<Fatal>)
      modifies this
      ensures fatal.Some? <==> !AddFits(old(dspVal), config.dsp.step)
      ensures fatal.Some? ==> fatal == Some(AddOverflow) && Current() == old(Current()) && log == old(log)
      ensures fatal.None? ==>
                && AddFits(old(dspVal), config.dsp.step)
                && Current() == old(Current()).(dspVal := StepUp(old(dspVal), config.dsp.step, config.dsp.max),
                                                idle := false, idleTime := 0, dspOverride := true)
                && log == old(log) + [Write(Display, dspVal)]
    {
      if !AddFits(dspVal, config.dsp.step) {
        return Some(AddOverflow);
      }
      dspVal := StepUp(dspVal, config.dsp.step, config.dsp.max);
      log := log + [Write(Display, dspVal)];
      idle := false;
      idleTime := 0;
      dspOverride := true;
      fatal := None;
    }

    method OnKbdDown()
      modifies this
      ensures Current() == old(Current()).(kbdVal := StepDown(old(kbdVal), config.kbd.step),
                                           idle := false, idleTime := 0, kbdOverride := true)
      ensures log == old(log) + [Write(Keyboard, kbdVal)]
    {
      kbdVal := StepDown(kbdVal, config.kbd.step);
      log := log + [Write(Keyboard, kbdVal)];
      idle := false;
      idleTime := 0;
      kbdOverride := true;
    }

    /** Fails, changing nothing, when the unchecked `u32` sum would overflow. */
    method OnKbdUp() returns (fatal: Option<Fatal>)
      modifies this
      ensures fatal.Some? <==> !AddFits(old(kbdVal), config.kbd.step)
      ensures fatal.Some? ==> fatal == Some(AddOverflow) && Current() == old(Current()) && log == old(log)
      ensures fatal.None? ==>
                && AddFits(old(kbdVal), config.kbd.step)
                && Current() == old(Current()).(kbdVal := StepUp(old(kbdVal), config.kbd.step, config.kbd.max),
                                                idle := false, idleTime := 0, kbdOverride := true)
                && log == old(log) + [Write(Keyboard, kbdVal)]
    {
      if !AddFits(kbdVal, config.kbd.step) {
        return Some(AddOverflow);
      }
      kbdVal := StepUp(kbdVal, config.kbd.step, config.kbd.max);
      log := log + [Write(Keyboard, kbdVal)];
      idle := false;
      idleTime := 0;
      kbdOverride := true;
      fatal := None;
    }

    /** Activity: restore both tracked levels when idle, otherwise only restart the idle clock. */
    method OnInput()
      modifies this
      ensures Current() == old(Current()).(idle := false, idleTime := 0)
      ensures old(idle) ==> log == old(log) + [Write(Display, dspVal), Write(Keyboard, kbdVal)]
      ensures !old(idle) ==> log == old(log)
    {
      if idle {
        log := log + [Write(Display, dspVal), Write(Keyboard, kbdVal)];
        idle := false;
        idleTime := 0;
      } else {
        idleTime := 0;
      }
    }

    /** A timer tick, given the sensor file's text and whether audio is playing. */
    method OnTick(sensor: string, mediaPlaying: bool) returns (fatal: Option<Fatal>)
      modifies this
      ensures var o := TickStep(config, old(Current()), Env(sensor, mediaPlaying));
        Current() == o.state && log == old(log) + o.writes && fatal == o.fatal
    {
      if !idle && idleTime > config.idleTimeout && !mediaPlaying {
        log := log + [Write(Display, config.policy.dim(dspVal)), Write(Keyboard, 0)];
        idle := true;
      } else if !idle {
        var reading := ReadU32(sensor);
        if reading.None? {
          return Some(SensorUnreadable);
        }
        var newAls := reading.value;
        if newAls != als {
          als := newAls;
          if !dspOverride {
            var newDsp := config.policy.alsToDsp(als, config.dsp.max);
            if newDsp != dspVal {
              dspVal := newDsp;
              log := log + [Write(Display, dspVal)];
            }
          }
          if !kbdOverride {
            var newKbd := AlsToKb(als, config.kbd.max, config.policy);
            if newKbd != kbdVal {
              kbdVal := newKbd;
              log := log + [Write(Keyboard, kbdVal)];
            }
          }
        }
      }
      idleTime := idleTime + config.tickTime;
      fatal := None;
    }

    /** Dispatch one message to its handler. */
    method Handle(m: Message, env: Env) returns (fatal: Option<Fatal>)
      modifies this
      ensures var o := Step(config, old(Current()), m, env);
        Current() == o.state && log == old(log) + o.writes && fatal == o.fatal
    {
      match m
      case DspDown =>
        OnDspDown();
        fatal := None;
      case DspUp =>
        fatal := OnDspUp();
      case KbdDown =>
        OnKbdDown();
        fatal := None;
      case KbdUp =>
        fatal := OnKbdUp();
      case Input =>
        OnInput();
        fatal := None;
      case Tick =>
        fatal := OnTick(env.sensor, env.mediaPlaying);
    }

    /**
     * Handle `ds[i]`, the next delivery of a run whose overall outcome is
     * `total` and which has written `written` so far.
     */
    method HandleNext(ds: seq<Delivery>, i: nat, ghost total: Outcome, ghost written: seq<Write>)
        returns (fatal: Option<Fatal>, ghost w: seq<Write>)
      requires i < |ds| && total == After(written, Process(config, Current(), ds[i..]))
      modifies this
      ensures log == old(log) + w
      ensures fatal.Some? ==> w == [] && total == Outcome(Current(), written, fatal)
      ensures fatal.None? ==> total == After(written + w, Process(config, Current(), ds[i + 1..]))
    {
      ghost var before := Current();
      fatal := Handle(ds[i].msg, ds[i].env);
      ghost var o := Step(config, before, ds[i].msg, ds[i].env);
      StepThenRest(config, total, ds, i, written, before, o);
      w := o.writes;
    }

    /** The message loop: handle every delivery in order until one is fatal. */
    method Run(ds: seq<Delivery>) returns (fatal: Option<Fatal>)
      modifies this
      ensures var o := Process(config, old(Current()), ds);
        Current() == o.state && log == old(log) + o.writes && fatal == o.fatal
    {
      ghost var total := Process(config, old(Current()), ds);
      ghost var written: seq<Write> := [];
      assert [] + total.writes == total.writes && ds[0..] == ds;
      var i := 0;
      while i < |ds|
        invariant 0 <= i <= |ds|
        invariant log == old(log) + written
        invariant total == After(written, Process(config, Current(), ds[i..]))
        decreases |ds| - i
      {
        ghost var w;
        fatal, w := HandleNext(ds, i, total, written);
        if fatal.Some? {
          return;
        }
        AppendAssoc(old(log), written, w);
        written := written + w;
        i := i + 1;
      }
      assert ds[i..] == [];
      fatal := None;
    }
  }
}
