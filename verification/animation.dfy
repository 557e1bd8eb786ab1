/** The tween engine of poppy/animations.py.

    An `Anim` is one Animation object: its configuration (start and end values,
    duration, delay, frame rate, which property its getter and setter touch, its
    callbacks) and its timer state (idle, waiting on the delay timer, or ticking).
    Every operation is a pure function returning a `Step`: the new record, the
    setter calls and callbacks it made, in order, and the exception it raised.
    The getter's current reading is passed in, and wall-clock time becomes the
    integer number of milliseconds elapsed since the animation started. */
module Animation {
  import opened Wrappers

  /** The Python values an animation moves between: int and float scalars,
      QPoint, QSize, QColor, and any other type (named by its type name), for
      which there is no interpolation rule. */
  datatype Value =
    | IntNum(i: int)
    | FloatNum(f: real)
    | Point(x: int, y: int)
    | Size(w: int, h: int)
    | Color(r: int, g: int, b: int, a: int)
    | Other(typeName: string)

  /** `type(v)`, which the start procedure compares for start and end. */
  datatype Kind = IntKind | FloatKind | PointKind | SizeKind | ColorKind | OtherKind(typeName: string)

  function KindOf(v: Value): Kind {
    match v
    case IntNum(_) => IntKind
    case FloatNum(_) => FloatKind
    case Point(_, _) => PointKind
    case Size(_, _) => SizeKind
    case Color(_, _, _, _) => ColorKind
    case Other(n) => OtherKind(n)
  }

  /** The exceptions the engine raises: the start/end TypeError, a frame rate
      of zero in `1000 / framerate` (or a zero duration in the tick's division),
      and the RuntimeError wrapping a failed interpolation. */
  datatype Error = TypeMismatch | ZeroDivision | InterpolationFailed

  /** Python's `int()` on a float: truncation toward zero. */
  function Trunc(x: real): (r: int)
    ensures x >= 0.0 ==> r as real <= x < r as real + 1.0
    ensures x < 0.0 ==> r as real - 1.0 < x <= r as real
  {
    if x >= 0.0 then x.Floor else -((-x).Floor)
  }

  lemma TruncOfInt(n: int)
    ensures Trunc(n as real) == n
  {
  }

  lemma TruncMonotone(x: real, y: real)
    requires x <= y
    ensures Trunc(x) <= Trunc(y)
  {
  }

  lemma TruncBetween(x: real, lo: int, hi: int)
    requires lo as real <= x <= hi as real
    ensures lo <= Trunc(x) <= hi
  {
  }

  lemma MulPositive(a: real, b: real)
    requires 0.0 < a && 0.0 < b
    ensures 0.0 < a * b
  {
  }

  lemma MulNonNegative(a: real, b: real)
    requires 0.0 <= a && 0.0 <= b
    ensures 0.0 <= a * b
  {
  }

  /** `(e - s) * p` for an integer span `d`: with progress in [0, 1] it lies
      between 0 and the span. */
  function Scale(d: int, p: real): (r: real)
    ensures 0.0 <= p <= 1.0 && 0 <= d ==> 0.0 <= r <= d as real
    ensures 0.0 <= p <= 1.0 && d <= 0 ==> d as real <= r <= 0.0
  {
    d as real * p
  }

  lemma ScaleMonotone(d: int, p: real, q: real)
    requires p <= q
    ensures 0 <= d ==> Scale(d, p) <= Scale(d, q)
    ensures d <= 0 ==> Scale(d, q) <= Scale(d, p)
  {
    var x := d as real;
    MulNonNegative(if 0 <= d then x else -x, q - p);
    assert x * (q - p) == x * q - x * p;
    assert (-x) * (q - p) == x * p - x * q;
  }

  /** One integer component: `int(s + (e - s) * p)`. */
  function Lerp(s: int, e: int, p: real): int {
    Trunc(s as real + Scale(e - s, p))
  }

  lemma LerpEndpoints(s: int, e: int)
    ensures Lerp(s, e, 0.0) == s
    ensures Lerp(s, e, 1.0) == e
  {
    TruncOfInt(s);
    TruncOfInt(e);
  }

  lemma LerpConstant(c: int, p: real)
    ensures Lerp(c, c, p) == c
  {
    TruncOfInt(c);
  }

  /** With progress in [0, 1] a component never leaves the range spanned by
      its endpoints, although the source does not clamp. */
  lemma LerpWithin(s: int, e: int, p: real)
    requires 0.0 <= p <= 1.0
    ensures s <= e ==> s <= Lerp(s, e, p) <= e
    ensures e <= s ==> e <= Lerp(s, e, p) <= s
  {
    var m := Scale(e - s, p);
    if s <= e {
      TruncBetween(s as real + m, s, e);
    } else {
      TruncBetween(s as real + m, e, s);
    }
  }

  /** Growing progress moves a component monotonically toward its end. */
  lemma LerpMonotone(s: int, e: int, p: real, q: real)
    requires p <= q
    ensures s <= e ==> Lerp(s, e, p) <= Lerp(s, e, q)
    ensures e <= s ==> Lerp(s, e, q) <= Lerp(s, e, p)
  {
    ScaleMonotone(e - s, p, q);
    if s <= e {
      TruncMonotone(s as real + Scale(e - s, p), s as real + Scale(e - s, q));
    } else {
      TruncMonotone(s as real + Scale(e - s, q), s as real + Scale(e - s, p));
    }
  }

  /** The scalar reading of an int or float, None for anything else. */
  function Numeric(v: Value): Option<real> {
    match v
    case IntNum(i) => Some(i as real)
    case FloatNum(f) => Some(f)
    case _ => None
  }

  /** `_interpolate`: scalars stay exact (an int scalar comes back as a float,
      since progress is a float), points, sizes and colours are truncated per
      component; anything else, or an end of another shape, fails. */
  function Interpolate(s: Value, e: Value, p: real): Result<Value, Error> {
    if Numeric(s).Some? then
      if Numeric(e).Some? then
        Success(FloatNum(Numeric(s).value + (Numeric(e).value - Numeric(s).value) * p))
      else Failure(InterpolationFailed)
    else
      match (s, e)
      case (Point(x0, y0), Point(x1, y1)) => Success(Point(Lerp(x0, x1, p), Lerp(y0, y1, p)))
      case (Size(w0, h0), Size(w1, h1)) => Success(Size(Lerp(w0, w1, p), Lerp(h0, h1, p)))
      case (Color(r0, g0, b0, a0), Color(r1, g1, b1, a1)) =>
        Success(Color(Lerp(r0, r1, p), Lerp(g0, g1, p), Lerp(b0, b1, p), Lerp(a0, a1, p)))
      case _ => Failure(InterpolationFailed)
  }

  /** How a value comes back from interpolation unchanged: ints turn into floats. */
  function AsInterpolated(v: Value): Value {
    match v
    case IntNum(i) => FloatNum(i as real)
    case _ => v
  }

  predicate Interpolable(v: Value) {
    !v.Other?
  }

  /** Progress 0 yields the start value and progress 1 the end value. */
  lemma InterpolateEndpoints(s: Value, e: Value)
    requires Interpolable(s) && KindOf(s) == KindOf(e)
    ensures Interpolate(s, e, 0.0) == Success(AsInterpolated(s))
    ensures Interpolate(s, e, 1.0) == Success(AsInterpolated(e))
  {
    match s
    case IntNum(_) =>
    case FloatNum(_) =>
    case Point(x0, y0) =>
      LerpEndpoints(x0, e.x);
      LerpEndpoints(y0, e.y);
    case Size(w0, h0) =>
      LerpEndpoints(w0, e.w);
      LerpEndpoints(h0, e.h);
    case Color(r0, g0, b0, a0) =>
      LerpEndpoints(r0, e.r);
      LerpEndpoints(g0, e.g);
      LerpEndpoints(b0, e.b);
      LerpEndpoints(a0, e.a);
  }

  /** Interpolating a value to itself yields it back at every progress. */
  lemma InterpolateConstant(c: Value, p: real)
    requires Interpolable(c)
    ensures Interpolate(c, c, p) == Success(AsInterpolated(c))
  {
    match c
    case IntNum(_) =>
    case FloatNum(_) =>
    case Point(x, y) =>
      LerpConstant(x, p);
      LerpConstant(y, p);
    case Size(w, h) =>
      LerpConstant(w, p);
      LerpConstant(h, p);
    case Color(r, g, b, a) =>
      LerpConstant(r, p);
      LerpConstant(g, p);
      LerpConstant(b, p);
      LerpConstant(a, p);
  }

  /** Interpolation succeeds exactly on two values of one interpolable shape
      (two scalars of either kind count as one shape). */
  lemma InterpolateSucceeds(s: Value, e: Value, p: real)
    ensures Interpolate(s, e, p).Success? <==>
      (Numeric(s).Some? && Numeric(e).Some?) || (Interpolable(s) && !s.IntNum? && !s.FloatNum? && KindOf(s) == KindOf(e))
  {
  }

  /** `min(elapsed / duration, 1.0)`. */
  function Progress(elapsed: nat, duration: int): (p: real)
    requires duration != 0
    ensures p <= 1.0
    ensures duration > 0 ==> 0.0 <= p
    ensures duration > 0 ==> (p == 1.0 <==> elapsed >= duration)
  {
    var q := elapsed as real / duration as real;
    if q < 1.0 then q else 1.0
  }

  lemma ProgressMonotone(e1: nat, e2: nat, duration: int)
    requires duration > 0 && e1 <= e2
    ensures Progress(e1, duration) <= Progress(e2, duration)
  {
    assert e1 as real / duration as real <= e2 as real / duration as real;
  }

  /** `max(1, int(1000 / framerate))`, the frame rate being the float Qt
      reports (or the animation's own). */
  function TickInterval(framerate: real): (ms: int)
    requires framerate != 0.0
    ensures ms >= 1
    ensures 0.0 < framerate <= 1000.0 ==> ms as real <= 1000.0 / framerate < ms as real + 1.0
    ensures framerate > 1000.0 || framerate < 0.0 ==> ms == 1
  {
    var q := 1000.0 / framerate;
    if framerate > 0.0 then
      assert q * framerate == 1000.0;
      assert framerate <= 1000.0 ==> q >= 1.0 by {
        if framerate <= 1000.0 && q < 1.0 {
          MulPositive(1.0 - q, framerate);
        }
      }
      assert framerate > 1000.0 ==> q < 1.0 by {
        if framerate > 1000.0 && q >= 1.0 {
          MulNonNegative(q - 1.0, framerate);
        }
      }
      var t := Trunc(q);
      if t < 1 then 1 else t
    else
      assert q < 0.0;
      var t := Trunc(q);
      if t < 1 then 1 else t
  }

  /** For a whole frame rate the interval is integer division. */
  lemma TickIntervalWhole(n: int)
    requires n > 0
    ensures TickInterval(n as real) == if 1000 / n < 1 then 1 else 1000 / n
  {
    TruncDivPositive(1000, n);
  }

  /** A fractional rate is not rounded first: 40.5 Hz gives 24 ms where
      40 Hz gives 25, and 59.94 Hz gives 16. */
  lemma TickIntervalFractional()
    ensures TickInterval(40.5) == 24 && TickInterval(40.0) == 25
    ensures TickInterval(59.94) == 16
  {
  }

  /** For non-negative operands true division truncated is integer division. */
  lemma TruncDivPositive(n: int, d: int)
    requires n >= 0 && d > 0
    ensures Trunc(n as real / d as real) == n / d
  {
    var q := n / d;
    var r := n % d;
    assert n == q * d + r && 0 <= r < d;
    assert n as real / d as real == q as real + r as real / d as real;
    assert 0.0 <= r as real / d as real < 1.0;
  }

  /** The animation's timers: none, the single-shot delay timer, or the tick
      timer with its interval (`_running` is true exactly in this state). */
  datatype Phase = Idle | Delaying | Running(interval: int)

  /** Which widget property the getter reads and the setter writes; `Unbound`
      is the default getter returning 0.0 and the setter doing nothing. */
  datatype Prop = Unbound | WindowOpacity | WindowPos

  /** The finish callbacks the popups install. */
  datatype Callback = ShowAnimationEnd | HideWindow

  datatype Anim = Anim(
    startValue: Option<Value>,
    endValue: Option<Value>,
    duration: int,
    delay: int,
    framerate: Option<real>,
    prop: Prop,
    onStarted: bool,
    onFinished: Option<Callback>,
    startOnRun: bool,
    endOnRun: bool,
    phase: Phase)
  {
    predicate IsRunning() {
      phase.Running?
    }

    predicate IsDelaying() {
      phase.Delaying?
    }
  }

  /** A freshly constructed `Animation()`. */
  const Fresh: Anim := Anim(None, None, 0, 0, None, Unbound, false, None, false, false, Idle)

  /** One setter call, the onStarted callback, or the onFinished callback. */
  datatype Effect = Applied(v: Value) | Started | Finished(cb: Callback)

  /** What an operation does to the class-wide set of live animations. */
  datatype Membership = Keep | Register | Unregister

  datatype Step = Step(anim: Anim, effects: seq<Effect>, membership: Membership, raised: Option<Error>)

  function CountFinished(effects: seq<Effect>): nat {
    if effects == [] then 0
    else (if effects[0].Finished? then 1 else 0) + CountFinished(effects[1..])
  }

  lemma CountFinishedAppend(a: seq<Effect>, b: seq<Effect>)
    ensures CountFinished(a + b) == CountFinished(a) + CountFinished(b)
  {
    if a == [] {
      assert a + b == b;
    } else {
      assert (a + b)[0] == a[0];
      assert (a + b)[1..] == a[1..] + b;
      CountFinishedAppend(a[1..], b);
    }
  }

  /** `stop(with_onFinished)`: cancels both timers, leaves the live set and
      fires onFinished only when the animation was running and asked to. */
  function Stop(a: Anim, withFinished: bool): (s: Step)
    ensures !s.anim.IsRunning() && !s.anim.IsDelaying()
    ensures s.anim.(phase := a.phase) == a
    ensures s.membership == Unregister && s.raised == None
    ensures |s.effects| <= 1
    ensures s.effects != [] <==> a.IsRunning() && withFinished && a.onFinished.Some?
    ensures forall e :: e in s.effects ==> a.onFinished.Some? && e == Finished(a.onFinished.value)
  {
    var fired := if a.IsRunning() && withFinished && a.onFinished.Some? then [Finished(a.onFinished.value)] else [];
    Step(a.(phase := Idle), fired, Unregister, None)
  }

  /** A second stop never fires anything and changes nothing more. */
  lemma StopIdempotent(a: Anim, f: bool, g: bool)
    ensures Stop(Stop(a, f).anim, g).effects == []
    ensures Stop(Stop(a, f).anim, g).anim == Stop(a, f).anim
  {
  }

  /** `_start_animation_core`, given the getter's current reading and the
      primary screen's refresh rate (None when there is no screen). */
  function StartCore(a: Anim, got: Value, screenRate: Option<real>): Step {
    var a1 := if a.IsDelaying() then a.(phase := Idle) else a;
    var sv := if a1.startValue.None? || a1.startOnRun then got else a1.startValue.value;
    var ev := if a1.endValue.None? || a1.endOnRun then got else a1.endValue.value;
    var a2 := a1.(startValue := Some(sv), endValue := Some(ev));
    if KindOf(sv) != KindOf(ev) then
      Step(a2, [], Keep, Some(TypeMismatch))
    else if a2.duration <= 0 then
      var st := Stop(a2, true);
      Step(st.anim, [Applied(ev)] + st.effects, Unregister, None)
    else
      var fr := a2.framerate.GetOr(screenRate.GetOr(60.0));
      if fr == 0.0 then Step(a2, [], Keep, Some(ZeroDivision))
      else Step(a2.(phase := Running(TickInterval(fr))), if a2.onStarted then [Started] else [], Register, None)
  }

  /** `run()`: always stops the previous run first (without its finish
      callback), then waits for the delay or starts at once. */
  function Run(a: Anim, got: Value, screenRate: Option<real>): (s: Step)
    ensures CountFinished(s.effects) == 0
    ensures a.delay > 0 ==> s.anim.IsDelaying() && s.effects == [] && s.raised == None
    ensures s.anim.IsDelaying() ==> s.membership == Unregister
    ensures s.anim.IsRunning() <==> s.membership == Register
  {
    var stopped := Stop(a, false).anim;
    if stopped.delay > 0 then Step(stopped.(phase := Delaying), [], Unregister, None)
    else
      var st := StartCore(stopped, got, screenRate);
      Step(st.anim, st.effects, if st.membership == Keep then Unregister else st.membership, st.raised)
  }

  /** The delay timer firing: only a pending delay has a timer that can fire. */
  function DelayElapsed(a: Anim, got: Value, screenRate: Option<real>): (s: Step)
    ensures !a.IsDelaying() ==> s == Step(a, [], Keep, None)
    ensures CountFinished(s.effects) == 0
  {
    if a.IsDelaying() then StartCore(a, got, screenRate) else Step(a, [], Keep, None)
  }

  /** The value the setter receives from interpolation, if any. */
  function Current(a: Anim, p: real): Result<Value, Error> {
    if a.startValue.Some? && a.endValue.Some? then Interpolate(a.startValue.value, a.endValue.value, p)
    else Failure(InterpolationFailed)
  }

  /** `_update`, `elapsed` milliseconds after the start. */
  function Tick(a: Anim, elapsed: nat): (s: Step)
    ensures !a.IsRunning() ==> s == Step(a, [], Keep, None)
    ensures CountFinished(s.effects) <= 1
    ensures CountFinished(s.effects) == 1 ==> !s.anim.IsRunning()
  {
    if !a.IsRunning() then Step(a, [], Keep, None)
    else if a.duration == 0 then Step(a, [], Keep, Some(ZeroDivision))
    else
      var p := Progress(elapsed, a.duration);
      match Current(a, p)
      case Failure(_) => Step(Stop(a, false).anim, [], Unregister, Some(InterpolationFailed))
      case Success(v) =>
        if p >= 1.0 then
          var st := Stop(a, true);
          CountFinishedAppend([Applied(v)], st.effects);
          Step(st.anim, [Applied(v)] + st.effects, Unregister, None)
        else Step(a, [Applied(v)], Keep, None)
  }

  /** An animation in the state `Run` leaves it in: resolved values of one
      interpolable kind and a positive duration. */
  predicate Ticking(a: Anim) {
    && a.IsRunning() && a.duration > 0
    && a.startValue.Some? && a.endValue.Some?
    && Interpolable(a.startValue.value) && KindOf(a.startValue.value) == KindOf(a.endValue.value)
  }

  lemma RunTicks(a: Anim, got: Value, screenRate: Option<real>)
    requires Run(a, got, screenRate).anim.IsRunning() && Interpolable(got)
    requires a.startValue.Some? && !a.startOnRun ==> Interpolable(a.startValue.value)
    ensures Ticking(Run(a, got, screenRate).anim)
  {
  }

  /** A tick before the duration has passed applies the interpolated value and
      keeps running; the first tick at or past it applies the end value and
      finishes, firing onFinished. */
  lemma TickReachesEnd(a: Anim, elapsed: nat)
    requires Ticking(a)
    ensures elapsed < a.duration ==> Tick(a, elapsed).anim == a && |Tick(a, elapsed).effects| == 1
    ensures elapsed >= a.duration ==>
      && !Tick(a, elapsed).anim.IsRunning()
      && Tick(a, elapsed).effects[0] == Applied(AsInterpolated(a.endValue.value))
      && (CountFinished(Tick(a, elapsed).effects) == 1 <==> a.onFinished.Some?)
  {
    InterpolateEndpoints(a.startValue.value, a.endValue.value);
    var p := Progress(elapsed, a.duration);
    var s := a.startValue.value;
    var e := a.endValue.value;
    if Numeric(s).None? {
      InterpolateSucceeds(s, e, p);
    }
    if elapsed >= a.duration {
      var st := Stop(a, true);
      CountFinishedAppend([Applied(AsInterpolated(e))], st.effects);
    }
  }

  /** Feeding a sequence of tick times to one animation. */
  function Ticks(a: Anim, times: seq<nat>): Step
    decreases |times|
  {
    if times == [] then Step(a, [], Keep, None)
    else
      var s := Tick(a, times[0]);
      var rest := Ticks(s.anim, times[1..]);
      Step(rest.anim, s.effects + rest.effects, rest.membership, rest.raised)
  }

  lemma {:induction false} TicksWhenStopped(a: Anim, times: seq<nat>)
    requires !a.IsRunning()
    ensures Ticks(a, times).effects == [] && Ticks(a, times).anim == a
    decreases |times|
  {
    if times != [] {
      TicksWhenStopped(a, times[1..]);
    }
  }

  /** However many ticks arrive, onFinished fires at most once: the finishing
      tick stops the animation and later ticks are ignored. */
  lemma {:induction false} FinishedAtMostOnce(a: Anim, times: seq<nat>)
    ensures CountFinished(Ticks(a, times).effects) <= 1
    decreases |times|
  {
    if times != [] {
      var s := Tick(a, times[0]);
      CountFinishedAppend(s.effects, Ticks(s.anim, times[1..]).effects);
      if CountFinished(s.effects) == 1 {
        TicksWhenStopped(s.anim, times[1..]);
      } else {
        FinishedAtMostOnce(s.anim, times[1..]);
      }
    }
  }

  /** With a duration of zero or less, a run without delay calls the setter
      exactly once, with the end value, and ends stopped without firing
      onFinished (the preceding stop already cleared the running flag). */
  lemma ZeroDurationRun(a: Anim, got: Value, screenRate: Option<real>)
    requires a.duration <= 0 && a.delay <= 0
    requires KindOf(Run(a, got, screenRate).anim.startValue.value) == KindOf(Run(a, got, screenRate).anim.endValue.value)
    ensures Run(a, got, screenRate).effects == [Applied(Run(a, got, screenRate).anim.endValue.value)]
    ensures !Run(a, got, screenRate).anim.IsRunning()
    ensures Run(a, got, screenRate).raised == None
    ensures a.endValue.None? || a.endOnRun ==> Run(a, got, screenRate).effects == [Applied(got)]
  {
  }

  /** A start or end value that is missing or marked get-on-run is re-read
      from the getter, before the type check. */
  lemma RunResolvesValues(a: Anim, got: Value, screenRate: Option<real>)
    requires a.delay <= 0
    ensures Run(a, got, screenRate).anim.startValue == (if a.startValue.None? || a.startOnRun then Some(got) else a.startValue)
    ensures Run(a, got, screenRate).anim.endValue == (if a.endValue.None? || a.endOnRun then Some(got) else a.endValue)
  {
  }

  /** Mismatched start and end kinds raise TypeError and never call the setter. */
  lemma RunRejectsMismatch(a: Anim, got: Value, screenRate: Option<real>)
    requires a.delay <= 0
    requires KindOf(Run(a, got, screenRate).anim.startValue.value) != KindOf(Run(a, got, screenRate).anim.endValue.value)
    ensures Run(a, got, screenRate).raised == Some(TypeMismatch)
    ensures Run(a, got, screenRate).effects == []
    ensures !Run(a, got, screenRate).anim.IsRunning()
  {
  }

  /** The class-wide `_animations` set beside the animation records it names. */
  datatype Engine = Engine(anims: map<nat, Anim>, live: set<nat>)

  /** An animation is in the live set exactly while it is running. */
  ghost predicate Consistent(g: Engine) {
    && g.live <= g.anims.Keys
    && forall id :: id in g.anims ==> (id in g.live <==> g.anims[id].IsRunning())
  }

  function Apply(g: Engine, id: nat, s: Step): Engine {
    Engine(
      g.anims[id := s.anim],
      match s.membership
      case Keep => g.live
      case Register => g.live + {id}
      case Unregister => g.live - {id})
  }

  function EngineRun(g: Engine, id: nat, got: Value, screenRate: Option<real>): Engine
    requires id in g.anims
  {
    Apply(g, id, Run(g.anims[id], got, screenRate))
  }

  function EngineTick(g: Engine, id: nat, elapsed: nat): Engine
    requires id in g.anims
  {
    Apply(g, id, Tick(g.anims[id], elapsed))
  }

  function EngineStop(g: Engine, id: nat, withFinished: bool): Engine
    requires id in g.anims
  {
    Apply(g, id, Stop(g.anims[id], withFinished))
  }

  function EngineDelayElapsed(g: Engine, id: nat, got: Value, screenRate: Option<real>): Engine
    requires id in g.anims
  {
    Apply(g, id, DelayElapsed(g.anims[id], got, screenRate))
  }

  lemma StartCoreMembership(a: Anim, got: Value, screenRate: Option<real>)
    requires !a.IsRunning()
    ensures StartCore(a, got, screenRate).membership == Keep ==> !StartCore(a, got, screenRate).anim.IsRunning()
    ensures StartCore(a, got, screenRate).membership == Register <==> StartCore(a, got, screenRate).anim.IsRunning()
  {
  }

  /** Applying a step keeps the live set equal to the running animations
      whenever the step's membership change matches its resulting phase. */
  lemma ApplyKeepsConsistent(g: Engine, id: nat, s: Step)
    requires Consistent(g) && id in g.anims
    requires s.membership == Register ==> s.anim.IsRunning()
    requires s.membership == Unregister ==> !s.anim.IsRunning()
    requires s.membership == Keep ==> s.anim.IsRunning() == g.anims[id].IsRunning()
    ensures Consistent(Apply(g, id, s))
  {
    var r := Apply(g, id, s);
    forall k | k in r.anims
      ensures k in r.live <==> r.anims[k].IsRunning()
    {
      if k != id {
        assert r.anims[k] == g.anims[k];
      }
    }
  }

  /** Every engine operation keeps the live set equal to the running animations. */
  lemma OperationsKeepConsistent(g: Engine, id: nat, got: Value, screenRate: Option<real>, elapsed: nat, f: bool)
    requires Consistent(g) && id in g.anims
    ensures Consistent(EngineRun(g, id, got, screenRate))
    ensures Consistent(EngineTick(g, id, elapsed))
    ensures Consistent(EngineStop(g, id, f))
    ensures Consistent(EngineDelayElapsed(g, id, got, screenRate))
  {
    var a := g.anims[id];
    ApplyKeepsConsistent(g, id, Run(a, got, screenRate));
    ApplyKeepsConsistent(g, id, Tick(a, elapsed));
    ApplyKeepsConsistent(g, id, Stop(a, f));
    if a.IsDelaying() {
      StartCoreMembership(a, got, screenRate);
    }
    ApplyKeepsConsistent(g, id, DelayElapsed(a, got, screenRate));
  }

  /** `stop_all`: stops, without callbacks, every animation in the live set. */
  function StopAll(g: Engine): (r: Engine)
    ensures r.live == {}
    ensures r.anims.Keys == g.anims.Keys
  {
    Engine(map id | id in g.anims :: if id in g.live then Stop(g.anims[id], false).anim else g.anims[id], {})
  }

  /** After `stop_all` nothing is running, but an animation still waiting on
      its delay timer is not in the live set and keeps waiting. */
  lemma StopAllEffect(g: Engine)
    requires Consistent(g)
    ensures Consistent(StopAll(g))
    ensures forall id :: id in g.anims ==> !StopAll(g).anims[id].IsRunning()
    ensures forall id :: id in g.anims && g.anims[id].IsDelaying() ==> StopAll(g).anims[id] == g.anims[id]
  {
  }
}
