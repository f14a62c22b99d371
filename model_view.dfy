/**
 * The rotating model's view logic: the default-view test, the spin ("dizzy")
 * detector with its cooldown, the camera reset and the error boundary that
 * swaps in the placeholder sphere. Two copies of the detector exist, with
 * different constants; both are instances of one class here.
 */
module ModelView {
  import opened JsBuiltins

  /** The bot message sent when the user spins the model too fast. */
  const DizzyMessage: string := "Penitent One, the spinning... please..."

  /** The limits written inline in the main app: 2 per second, 10 seconds apart. */
  const InlineSpinThreshold: real := 2.0
  const InlineCooldown: real := 10000.0
  /** SPIN_THRESHOLD and DIZZY_COOLDOWN of the shared constants: 3.5 per second, 20 seconds apart. */
  const SpinThreshold: real := 3.5
  const DizzyCooldown: real := 20000.0

  /** The camera looks at the front: both angles within 0.1 of azimuth 0 and polar angle pi/2. */
  predicate IsDefaultView(azimuth: real, polar: real)
  {
    Abs(azimuth) < 0.1 && Abs(polar - Pi / 2.0) < 0.1
  }

  /**
   * The camera's starting place, azimuth 0 and polar angle pi/2, is the
   * default view; the band around it is symmetric left and right; and a turn
   * of 0.1 either way already leaves it.
   */
  lemma DefaultViewAroundFront(azimuth: real, polar: real)
    ensures IsDefaultView(0.0, Pi / 2.0)
    ensures IsDefaultView(azimuth, polar) <==> IsDefaultView(-azimuth, polar)
    ensures !IsDefaultView(0.1, polar) && !IsDefaultView(-0.1, polar)
  {
  }

  /** Angle change per second over an interval of `timeDelta` milliseconds. */
  function RotationSpeed(angleDelta: real, timeDelta: real): (speed: real)
    requires timeDelta > 0.0
    ensures speed >= 0.0
    ensures speed == 0.0 <==> angleDelta == 0.0
  {
    var d := Abs(angleDelta);
    PositiveQuotient(d, timeDelta);
    d / timeDelta * 1000.0
  }

  lemma PositiveQuotient(d: real, t: real)
    requires d >= 0.0 && t > 0.0
    ensures d / t >= 0.0 && (d / t == 0.0 <==> d == 0.0)
  {
    if d > 0.0 {
      assert d / t * t == d;
    }
  }

  /** Every two entries of `times` lie more than `gap` apart, later ones later. */
  predicate Spaced(times: seq<real>, gap: real)
  {
    forall i, j :: 0 <= i < j < |times| ==> times[j] - times[i] > gap
  }

  /** A time more than `gap` after the last entry keeps a non-negatively spaced sequence spaced. */
  lemma SpacedExtend(times: seq<real>, gap: real, t: real)
    requires gap >= 0.0 && Spaced(times, gap)
    requires times != [] ==> t - times[|times| - 1] > gap
    ensures Spaced(times + [t], gap)
  {
    var s := times + [t];
    forall i, j | 0 <= i < j < |s|
      ensures s[j] - s[i] > gap
    {
      if j == |times| && i < |times| - 1 {
        assert times[|times| - 1] - times[i] > gap;
      }
    }
  }

  class SpinDetector {
    const threshold: real
    const cooldown: real
    var isDefaultView: bool
    var lastRotation: real
    var lastTime: real
    var rotationSpeed: real
    var lastDizzy: real
    /** The times at which the dizzy message was posted, oldest first. */
    var dizzyTimes: seq<real>

    /** The cooldown separates every two posts, and the last post is the one remembered. */
    predicate Valid()
      reads this
    {
      && cooldown >= 0.0
      && Spaced(dizzyTimes, cooldown)
      && (dizzyTimes != [] ==> dizzyTimes[|dizzyTimes| - 1] == lastDizzy)
    }

    /** The main app's detector, mounted at time `now`. */
    constructor Inline(now: real)
      ensures Valid()
      ensures threshold == InlineSpinThreshold && cooldown == InlineCooldown
      ensures isDefaultView && lastRotation == 0.0 && lastTime == now && rotationSpeed == 0.0
      ensures lastDizzy == 0.0 && dizzyTimes == []
    {
      threshold := InlineSpinThreshold;
      cooldown := InlineCooldown;
      isDefaultView := true;
      lastRotation := 0.0;
      lastTime := now;
      rotationSpeed := 0.0;
      lastDizzy := 0.0;
      dizzyTimes := [];
    }

    /** The model component's detector, using the shared constants, mounted at time `now`. */
    constructor Shared(now: real)
      ensures Valid()
      ensures threshold == SpinThreshold && cooldown == DizzyCooldown
      ensures isDefaultView && lastRotation == 0.0 && lastTime == now && rotationSpeed == 0.0
      ensures lastDizzy == 0.0 && dizzyTimes == []
    {
      threshold := SpinThreshold;
      cooldown := DizzyCooldown;
      isDefaultView := true;
      lastRotation := 0.0;
      lastTime := now;
      rotationSpeed := 0.0;
      lastDizzy := 0.0;
      dizzyTimes := [];
    }

    /**
     * The controls' change handler at time `now` (milliseconds) with the
     * camera at `azimuth`, `polar`. The speed and the remembered angle and
     * time change only when time has advanced; the message is posted exactly
     * when the speed exceeds the threshold and the cooldown has passed.
     */
    method HandleCameraChange(azimuth: real, polar: real, now: real)
      requires Valid()
      modifies this
      ensures Valid()
      ensures isDefaultView == IsDefaultView(azimuth, polar)
      ensures ShowsResetButton() <==> !IsDefaultView(azimuth, polar)
      ensures now - old(lastTime) <= 0.0 ==>
        && lastRotation == old(lastRotation) && lastTime == old(lastTime)
        && rotationSpeed == old(rotationSpeed) && lastDizzy == old(lastDizzy) && dizzyTimes == old(dizzyTimes)
      ensures now - old(lastTime) > 0.0 ==>
        && rotationSpeed == RotationSpeed(azimuth - old(lastRotation), now - old(lastTime))
        && lastRotation == azimuth && lastTime == now
        && (if rotationSpeed > threshold && now - old(lastDizzy) > cooldown
            then lastDizzy == now && dizzyTimes == old(dizzyTimes) + [now]
            else lastDizzy == old(lastDizzy) && dizzyTimes == old(dizzyTimes))
    {
      isDefaultView := IsDefaultView(azimuth, polar);
      var currentTime := now;
      var timeDelta := currentTime - lastTime;
      if timeDelta > 0.0 {
        rotationSpeed := RotationSpeed(azimuth - lastRotation, timeDelta);
        if rotationSpeed > threshold && currentTime - lastDizzy > cooldown {
          SpacedExtend(dizzyTimes, cooldown, currentTime);
          dizzyTimes := dizzyTimes + [currentTime];
          lastDizzy := currentTime;
        }
        lastRotation := azimuth;
        lastTime := currentTime;
      }
    }

    /**
     * `resetCamera`: `controls.reset()` returns the camera to where it started,
     * azimuth 0 and polar angle pi/2, and its 'change' event runs the change
     * handler there at time `now`; then the view is marked as the default one.
     */
    method ResetCamera(now: real)
      requires Valid()
      modifies this
      ensures Valid()
      ensures isDefaultView && !ShowsResetButton()
      ensures now - old(lastTime) <= 0.0 ==>
        && lastRotation == old(lastRotation) && lastTime == old(lastTime)
        && rotationSpeed == old(rotationSpeed) && lastDizzy == old(lastDizzy) && dizzyTimes == old(dizzyTimes)
      ensures now - old(lastTime) > 0.0 ==>
        && rotationSpeed == RotationSpeed(0.0 - old(lastRotation), now - old(lastTime))
        && lastRotation == 0.0 && lastTime == now
        && (if rotationSpeed > threshold && now - old(lastDizzy) > cooldown
            then lastDizzy == now && dizzyTimes == old(dizzyTimes) + [now]
            else lastDizzy == old(lastDizzy) && dizzyTimes == old(dizzyTimes))
    {
      HandleCameraChange(0.0, Pi / 2.0, now);
      isDefaultView := true;
    }

    /** The reset button is rendered while the view is not the default one. */
    predicate ShowsResetButton()
      reads this
    {
      !isDefaultView
    }
  }

  /**
   * A reset can post the dizzy message: after a turn to azimuth 1.5, a reset
   * 500 ms later swings the camera back at 3 per second, above the threshold.
   */
  method ResetAfterFastTurnPostsDizzy() returns (d: SpinDetector)
    ensures d.isDefaultView && d.dizzyTimes == [11000.0] && d.lastRotation == 0.0
  {
    d := new SpinDetector.Inline(0.0);
    d.HandleCameraChange(1.5, Pi / 2.0, 10500.0);
    assert d.dizzyTimes == [];
    d.ResetCamera(11000.0);
  }

  /** Any two dizzy messages of a valid detector were posted more than the cooldown apart. */
  lemma DizzyMessagesSpacedOut(d: SpinDetector, i: nat, j: nat)
    requires d.Valid() && i < j < |d.dizzyTimes|
    ensures d.dizzyTimes[j] - d.dizzyTimes[i] > d.cooldown
  {
  }

  /** What the boundary renders. */
  datatype View = Children | Fallback

  /** The error boundary around the model: once a render error is caught it shows the placeholder for good. */
  class ErrorBoundary {
    var hasError: bool

    /** A new boundary renders its children. */
    constructor ()
      ensures !hasError && Render() == Children
    {
      hasError := false;
    }

    /** `getDerivedStateFromError`: from now on the placeholder is rendered. */
    method CatchError()
      modifies this
      ensures hasError && Render() == Fallback
    {
      hasError := true;
    }

    function Render(): View
      reads this
    {
      if hasError then Fallback else Children
    }
  }
}
