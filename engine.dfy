/** The watch face Engine as a state machine: the host runtime's lifecycle callbacks,
    the time-zone receiver registration, the ambient and low-bit-ambient flags, the
    anti-alias flag of the primary text paint, and the handler queue that drives the
    once-a-second redraw. */
module WatchFaceEngine {
  import RedrawSchedule

  /** The property key under which the host reports low-bit ambient hardware
      (WatchFaceService.PROPERTY_LOW_BIT_AMBIENT). */
  const PROPERTY_LOW_BIT_AMBIENT: string := "low_bit_ambient"

  /** A value held in an android.os.Bundle: a boolean, or a value of some other type. */
  datatype BundleValue = BoolValue(b: bool) | OtherValue
  type Bundle = map<string, BundleValue>

  /** Bundle.getBoolean(key, default): the default when the key is absent or holds a
      value that is not a boolean. */
  function GetBoolean(bundle: Bundle, key: string, default: bool): bool {
    if key in bundle && bundle[key].BoolValue? then bundle[key].b else default
  }

  /** An MSG_UPDATE_TIME message in the handler queue, with the delay it was posted with
      (0 for sendEmptyMessage). */
  datatype Message = UpdateTime(delayMs: int)

  /** A call the engine makes on the OS to register or unregister the time-zone receiver. */
  datatype ReceiverCall = RegisterCall | UnregisterCall

  /** The OS calls alternate, starting with a registration: the receiver is never
      registered twice or unregistered while not registered. */
  predicate Alternates(calls: seq<ReceiverCall>) {
    forall i :: 0 <= i < |calls| ==> calls[i] == if i % 2 == 0 then RegisterCall else UnregisterCall
  }

  class Engine {
    /** isVisible(), as the host reports it. */
    var visible: bool
    /** isInAmbientMode(), as the host reports it. */
    var inAmbientMode: bool
    /** mRegisteredTimeZoneReceiver */
    var registeredTimeZoneReceiver: bool
    /** mAmbient */
    var ambient: bool
    /** mLowBitAmbient */
    var lowBitAmbient: bool
    /** The anti-alias flag of mPrimaryTextPaint. */
    var antiAlias: bool
    /** The MSG_UPDATE_TIME messages waiting in mUpdateTimeHandler's queue. */
    var pending: seq<Message>
    /** Every registerReceiver/unregisterReceiver call made on the OS, in order. */
    var receiverCalls: seq<ReceiverCall>
    /** How many times invalidate() has asked the host for a redraw. */
    var invalidations: nat
    /** Whether onDestroy has run. */
    var destroyed: bool

    /** registeredTimeZoneReceiver says whether the OS currently holds the receiver. */
    ghost predicate ReceiverValid()
      reads this
    {
      Alternates(receiverCalls) && registeredTimeZoneReceiver == (|receiverCalls| % 2 == 1)
    }

    /** shouldTimerBeRunning() */
    predicate ShouldTimerBeRunning()
      reads this
    {
      RedrawSchedule.ShouldTimerBeRunning(visible, inAmbientMode)
    }

    /** At most one update message is pending; one is pending only while the timer
        should run, and until onDestroy one is pending whenever it should. */
    ghost predicate TimerValid()
      reads this
    {
      && |pending| <= 1
      && (|pending| == 1 ==> ShouldTimerBeRunning())
      && (!destroyed && ShouldTimerBeRunning() ==> |pending| == 1)
    }

    ghost predicate Valid()
      reads this
    {
      ReceiverValid() && TimerValid() && ambient == inAmbientMode
    }

    /** `new Engine()` followed by onCreate, which creates the primary text paint with
        anti-aliasing on. */
    constructor ()
      ensures Valid()
      ensures !visible && !inAmbientMode && !registeredTimeZoneReceiver
      ensures !ambient && !lowBitAmbient && antiAlias
      ensures pending == [] && receiverCalls == [] && invalidations == 0 && !destroyed
    {
      visible, inAmbientMode := false, false;
      registeredTimeZoneReceiver := false;
      ambient, lowBitAmbient, antiAlias := false, false, true;
      pending, receiverCalls := [], [];
      invalidations, destroyed := 0, false;
    }

    /** invalidate(): ask the host to redraw. */
    method Invalidate()
      modifies this`invalidations
      ensures invalidations == old(invalidations) + 1
    {
      invalidations := invalidations + 1;
    }

    /** registerReceiver(): registers with the OS only when not yet registered. */
    method RegisterReceiver()
      requires ReceiverValid()
      modifies this`registeredTimeZoneReceiver, this`receiverCalls
      ensures ReceiverValid() && registeredTimeZoneReceiver
      ensures receiverCalls ==
        if old(registeredTimeZoneReceiver) then old(receiverCalls) else old(receiverCalls) + [RegisterCall]
    {
      if registeredTimeZoneReceiver {
        return;
      }
      registeredTimeZoneReceiver := true;
      receiverCalls := receiverCalls + [RegisterCall];
    }

    /** unregisterReceiver(): unregisters from the OS only when registered. */
    method UnregisterReceiver()
      requires ReceiverValid()
      modifies this`registeredTimeZoneReceiver, this`receiverCalls
      ensures ReceiverValid() && !registeredTimeZoneReceiver
      ensures receiverCalls ==
        if old(registeredTimeZoneReceiver) then old(receiverCalls) + [UnregisterCall] else old(receiverCalls)
    {
      if !registeredTimeZoneReceiver {
        return;
      }
      registeredTimeZoneReceiver := false;
      receiverCalls := receiverCalls + [UnregisterCall];
    }

    /** updateTimer(): drops every pending update message, then posts one for immediate
        delivery when the timer should run. */
    method UpdateTimer()
      modifies this`pending
      ensures pending == if ShouldTimerBeRunning() then [UpdateTime(0)] else []
    {
      pending := [];
      if ShouldTimerBeRunning() {
        pending := pending + [UpdateTime(0)];
      }
    }

    /** onVisibilityChanged(visible): the host records the visibility, the receiver is
        registered exactly while visible, a visible face is redrawn, and the timer is
        restarted or stopped. */
    method OnVisibilityChanged(isVisible: bool)
      requires Valid()
      modifies this`visible, this`registeredTimeZoneReceiver, this`receiverCalls
      modifies this`invalidations, this`pending
      ensures Valid()
      ensures visible == isVisible && registeredTimeZoneReceiver == isVisible
      ensures receiverCalls == old(receiverCalls) +
        if isVisible == old(registeredTimeZoneReceiver) then []
        else if isVisible then [RegisterCall] else [UnregisterCall]
      ensures invalidations == old(invalidations) + if isVisible then 1 else 0
      ensures pending == if isVisible && !ambient then [UpdateTime(0)] else []
    {
      visible := isVisible;
      if isVisible {
        RegisterReceiver();
        Invalidate();
      } else {
        UnregisterReceiver();
      }
      UpdateTimer();
    }

    /** onPropertiesChanged(properties): reads the low-bit-ambient capability, false
        when the host does not report it. */
    method OnPropertiesChanged(properties: Bundle)
      requires Valid()
      modifies this`lowBitAmbient
      ensures Valid()
      ensures lowBitAmbient ==
        (PROPERTY_LOW_BIT_AMBIENT in properties && properties[PROPERTY_LOW_BIT_AMBIENT] == BoolValue(true))
    {
      lowBitAmbient := GetBoolean(properties, PROPERTY_LOW_BIT_AMBIENT, false);
    }

    /** onAmbientModeChanged(inAmbientMode): the host records the mode; on a change the
        engine records it, turns anti-aliasing off for ambient on low-bit hardware (and
        back on when leaving it), and redraws; in every case the timer is re-evaluated. */
    method OnAmbientModeChanged(isAmbient: bool)
      requires Valid()
      modifies this`inAmbientMode, this`ambient, this`antiAlias, this`invalidations, this`pending
      ensures Valid()
      ensures inAmbientMode == isAmbient && ambient == isAmbient
      ensures antiAlias ==
        if old(ambient) != isAmbient && lowBitAmbient then !isAmbient else old(antiAlias)
      ensures invalidations == old(invalidations) + if old(ambient) != isAmbient then 1 else 0
      ensures pending == if visible && !isAmbient then [UpdateTime(0)] else []
    {
      inAmbientMode := isAmbient;
      if ambient != isAmbient {
        ambient := isAmbient;
        if lowBitAmbient {
          antiAlias := !isAmbient;
        }
        Invalidate();
      }
      UpdateTimer();
    }

    /** The handler delivers the pending update message (taking it off the queue) and
        handleUpdateTimeMessage runs with the clock reading `timeMs`: it redraws and, while
        the timer should run, posts the next message for the next whole second. Since a
        message is only ever pending while the timer should run, the timer keeps itself
        going with exactly one message in flight. */
    method HandleUpdateTimeMessage(timeMs: int)
      requires Valid() && |pending| >= 1
      modifies this`pending, this`invalidations
      ensures Valid()
      ensures invalidations == old(invalidations) + 1
      ensures pending == [UpdateTime(RedrawSchedule.RedrawDelay(timeMs))]
      ensures timeMs >= 0 ==> 1 <= pending[0].delayMs <= RedrawSchedule.INTERACTIVE_UPDATE_RATE_MS
    {
      pending := pending[1..];
      Invalidate();
      if ShouldTimerBeRunning() {
        pending := pending + [UpdateTime(RedrawSchedule.RedrawDelay(timeMs))];
      }
    }

    /** onTimeTick(): the host's once-a-minute tick redraws. */
    method OnTimeTick()
      requires Valid()
      modifies this`invalidations
      ensures Valid() && invalidations == old(invalidations) + 1
    {
      Invalidate();
    }

    /** onTapCommand(tapType, x, y, eventTime): every tap event redraws; the toast shown
        for a completed tap is not part of this model. */
    method OnTapCommand(tapType: int, x: int, y: int, eventTime: int)
      requires Valid()
      modifies this`invalidations
      ensures Valid() && invalidations == old(invalidations) + 1
    {
      Invalidate();
    }

    /** The time-zone receiver's onReceive, which the OS delivers only to a registered
        receiver: the face is redrawn. The source also resets the calendar's time zone,
        which this model does not hold, so that step is not modelled. */
    method OnTimeZoneChanged()
      requires Valid() && registeredTimeZoneReceiver
      modifies this`invalidations
      ensures Valid() && invalidations == old(invalidations) + 1
    {
      Invalidate();
    }

    /** onDestroy(): drops every pending update message. It does not unregister the
        time-zone receiver; that happens only when the face becomes invisible. */
    method OnDestroy()
      requires Valid()
      modifies this`pending, this`destroyed
      ensures Valid() && pending == [] && destroyed
    {
      pending := [];
      destroyed := true;
    }
  }
}
