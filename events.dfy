/**
 * The state of a scripting event (the Event interface of section 1.4 of
 * DOM Level 2 Events, as Event and UIEvent hold it): its type, the bubbles
 * and cancelable flags, the phase, the propagation and default-action
 * flags, and the per-thread stack of events being fired.
 */
module Events {
  import opened Wrappers
  import opened Strings

  const TypeChange: string := "change"
  const TypeLoad: string := "load"

  /** Values of `eventPhase`. */
  const NoPhase: int := 0
  const CapturingPhase: int := 1
  const AtTarget: int := 2
  const BubblingPhase: int := 3

  /** The phases setEventPhase accepts. */
  predicate ValidPhase(phase: int) {
    phase == CapturingPhase || phase == AtTarget || phase == BubblingPhase
  }

  /** Whether a new event of this type bubbles: all but `load`. */
  predicate BubblesByDefault(eventType: string) {
    eventType != TypeLoad
  }

  /**
   * Whether a new event of this type is cancelable: all but `change`, and
   * `load` too when EVENT_ONLOAD_CANCELABLE_FALSE is set.
   */
  predicate CancelableByDefault(eventType: string, onloadCancelableFalse: bool) {
    eventType != TypeChange && !(eventType == TypeLoad && onloadCancelableFalse)
  }

  /**
   * One entry of that dictionary as the Java code reads it: absent (missing,
   * `undefined` or `null`, which the dictionary's map view all gives back as
   * `null`), a boolean, or any other value, which the cast to Boolean rejects.
   */
  datatype InitEntry = Absent | BoolEntry(b: bool) | OtherEntry

  /**
   * The optional dictionary handed to the script constructor: absent
   * (`null` or `undefined`) or present with its two entries.
   */
  datatype EventInit = EventInit(bubbles: InitEntry, cancelable: InitEntry)

  class Event {
    var eventType: string
    var keyCode: Option<int>
    var stopPropagation: bool
    var stopImmediatePropagation: bool
    var preventDefault: bool
    var eventPhase: int
    var bubbles: bool
    var cancelable: bool

    /** `Event(target, type)`: the defaults of the type, nothing stopped or prevented. */
    constructor(eventType: string, onloadCancelableFalse: bool)
      ensures this.eventType == eventType
      ensures bubbles == BubblesByDefault(eventType)
      ensures cancelable == CancelableByDefault(eventType, onloadCancelableFalse)
      ensures eventPhase == NoPhase && keyCode == None
      ensures !stopPropagation && !stopImmediatePropagation && !preventDefault
    {
      this.eventType := eventType;
      keyCode := None;
      stopPropagation := false;
      stopImmediatePropagation := false;
      preventDefault := false;
      eventPhase := NoPhase;
      bubbles := true;
      cancelable := true;
      if eventType == TypeChange {
        cancelable := false;
      } else if eventType == TypeLoad {
        bubbles := false;
        if onloadCancelableFalse {
          cancelable := false;
        }
      }
    }

    /** `Event()`, the prototype instance: the field initialisers alone. */
    constructor Prototype()
      ensures eventType == "" && bubbles && cancelable
      ensures eventPhase == NoPhase && keyCode == None
      ensures !stopPropagation && !stopImmediatePropagation && !preventDefault
    {
      eventType := "";
      keyCode := None;
      stopPropagation := false;
      stopImmediatePropagation := false;
      preventDefault := false;
      eventPhase := NoPhase;
      bubbles := true;
      cancelable := true;
    }

    /** `eventCreated()`: an event made by `document.createEvent` neither bubbles nor can be cancelled. */
    method EventCreated()
      modifies this
      ensures !bubbles && !cancelable
      ensures eventType == old(eventType) && eventPhase == old(eventPhase) && keyCode == old(keyCode)
      ensures stopPropagation == old(stopPropagation) && stopImmediatePropagation == old(stopImmediatePropagation)
      ensures preventDefault == old(preventDefault)
    {
      bubbles := false;
      cancelable := false;
    }

    /**
     * `initEvent(type, bubbles, cancelable)`: the three attributes become
     * exactly the arguments; the phase and the stop and prevent flags stay.
     */
    method InitEvent(eventType: string, bubbles: bool, cancelable: bool)
      modifies this
      ensures this.eventType == eventType && this.bubbles == bubbles && this.cancelable == cancelable
      ensures eventPhase == old(eventPhase) && keyCode == old(keyCode)
      ensures stopPropagation == old(stopPropagation) && stopImmediatePropagation == old(stopImmediatePropagation)
      ensures preventDefault == old(preventDefault)
    {
      this.eventType := eventType;
      this.bubbles := bubbles;
      this.cancelable := cancelable;
    }

    /**
     * `jsConstructor(type, details)`: initEvent with the dictionary's
     * entries, each false when the dictionary or the entry is missing; an
     * entry that is not a boolean fails the cast before anything is set.
     */
    method JsConstructor(eventType: string, details: Option<EventInit>) returns (o: Outcome)
      modifies this
      ensures o.Fail? <==> details.Some? && (details.value.bubbles.OtherEntry? || details.value.cancelable.OtherEntry?)
      ensures o.Fail? ==> o.error == ClassCast
      ensures o.Fail? ==> this.eventType == old(this.eventType) && bubbles == old(bubbles) && cancelable == old(cancelable)
      ensures o.Pass? ==> this.eventType == eventType
      ensures o.Pass? ==> (bubbles <==> details.Some? && details.value.bubbles == BoolEntry(true))
      ensures o.Pass? ==> (cancelable <==> details.Some? && details.value.cancelable == BoolEntry(true))
      ensures eventPhase == old(eventPhase) && keyCode == old(keyCode)
      ensures stopPropagation == old(stopPropagation) && stopImmediatePropagation == old(stopImmediatePropagation)
      ensures preventDefault == old(preventDefault)
    {
      var b := false;
      var c := false;
      if details.Some? {
        match details.value.bubbles {
          case OtherEntry => return Fail(ClassCast);
          case BoolEntry(v) => b := v;
          case Absent =>
        }
        match details.value.cancelable {
          case OtherEntry => return Fail(ClassCast);
          case BoolEntry(v) => c := v;
          case Absent =>
        }
      }
      InitEvent(eventType, b, c);
      return Pass;
    }

    /** `setType(type)`. */
    method SetType(eventType: string)
      modifies this
      ensures this.eventType == eventType
      ensures bubbles == old(bubbles) && cancelable == old(cancelable) && eventPhase == old(eventPhase)
      ensures keyCode == old(keyCode) && preventDefault == old(preventDefault)
      ensures stopPropagation == old(stopPropagation) && stopImmediatePropagation == old(stopImmediatePropagation)
    {
      this.eventType := eventType;
    }

    /** `setKeyCode(keyCode)`. */
    method SetKeyCode(code: int)
      modifies this
      ensures keyCode == Some(code)
      ensures eventType == old(eventType) && bubbles == old(bubbles) && cancelable == old(cancelable)
      ensures eventPhase == old(eventPhase) && preventDefault == old(preventDefault)
      ensures stopPropagation == old(stopPropagation) && stopImmediatePropagation == old(stopImmediatePropagation)
    {
      keyCode := Some(code);
    }

    /** `getKeyCode()`: the key code set, or 0 when none was. */
    function KeyCode(): (r: int)
      reads this
      ensures keyCode.None? ==> r == 0
      ensures keyCode.Some? ==> r == keyCode.value
    {
      keyCode.GetOr(0)
    }

    /**
     * `setEventPhase(phase)`: only the capturing, at-target and bubbling
     * phases are accepted; any other value is refused and the phase kept.
     */
    method SetEventPhase(phase: int) returns (o: Outcome)
      modifies this
      ensures o.Pass? <==> ValidPhase(phase)
      ensures o.Pass? ==> eventPhase == phase
      ensures o.Fail? ==> o.error.IllegalArgument? && eventPhase == old(eventPhase)
      ensures eventType == old(eventType) && bubbles == old(bubbles) && cancelable == old(cancelable)
      ensures keyCode == old(keyCode) && preventDefault == old(preventDefault)
      ensures stopPropagation == old(stopPropagation) && stopImmediatePropagation == old(stopImmediatePropagation)
    {
      if phase != CapturingPhase && phase != AtTarget && phase != BubblingPhase {
        return Fail(IllegalArgument("Illegal phase specified: " + IntToString(phase)));
      }
      eventPhase := phase;
      o := Pass;
    }

    /** `getDefaultPrevented()`: a default action counts as prevented only on a cancelable event. */
    function DefaultPrevented(): (r: bool)
      reads this
      ensures r ==> preventDefault
      ensures !cancelable ==> !r
      ensures cancelable && preventDefault ==> r
    {
      cancelable && preventDefault
    }

    /** `setCancelBubble(v)` of Event: the propagation flag becomes v. */
    method SetCancelBubble(v: bool)
      modifies this
      ensures stopPropagation == v
      ensures eventType == old(eventType) && bubbles == old(bubbles) && cancelable == old(cancelable)
      ensures eventPhase == old(eventPhase) && keyCode == old(keyCode) && preventDefault == old(preventDefault)
      ensures stopImmediatePropagation == old(stopImmediatePropagation)
    {
      stopPropagation := v;
    }

    /** `stopPropagation()`: the propagation flag alone is set. */
    method StopPropagation()
      modifies this
      ensures stopPropagation
      ensures stopImmediatePropagation == old(stopImmediatePropagation)
      ensures eventType == old(eventType) && bubbles == old(bubbles) && cancelable == old(cancelable)
      ensures eventPhase == old(eventPhase) && keyCode == old(keyCode) && preventDefault == old(preventDefault)
    {
      stopPropagation := true;
    }

    /** `stopImmediatePropagation()`: both the immediate flag and the propagation flag are set. */
    method StopImmediatePropagation()
      modifies this
      ensures stopImmediatePropagation && stopPropagation
      ensures eventType == old(eventType) && bubbles == old(bubbles) && cancelable == old(cancelable)
      ensures eventPhase == old(eventPhase) && keyCode == old(keyCode) && preventDefault == old(preventDefault)
    {
      stopImmediatePropagation := true;
      StopPropagation();
    }

    /**
     * `preventDefault()`: the flag is set whatever the event; it shows as
     * prevented exactly when the event is cancelable.
     */
    method PreventDefault()
      modifies this
      ensures preventDefault
      ensures DefaultPrevented() == cancelable
      ensures eventType == old(eventType) && bubbles == old(bubbles) && cancelable == old(cancelable)
      ensures eventPhase == old(eventPhase) && keyCode == old(keyCode)
      ensures stopPropagation == old(stopPropagation) && stopImmediatePropagation == old(stopImmediatePropagation)
    {
      preventDefault := true;
    }

    /**
     * `isAborted(result)`: `resultIsFalse` stands for ScriptResult.isFalse,
     * true when the handler returned the boolean false. Cancelability plays
     * no part.
     */
    function IsAborted(resultIsFalse: bool): (r: bool)
      reads this
      ensures r <==> resultIsFalse || preventDefault
      ensures preventDefault ==> r
    {
      resultIsFalse || preventDefault
    }

    /** `startFire()`: the event is pushed on the current thread's list, created when missing. */
    method StartFire(context: CurrentEvents)
      modifies context
      ensures context.events == Some(old(context.events).GetOr([]) + [this])
    {
      var events := context.events.GetOr([]);
      context.events := Some(events + [this]);
    }

    /**
     * `endFire()`: the last event of the list is removed, whichever it is;
     * with no list the call fails with a null dereference, with an empty
     * one with NoSuchElementException.
     */
    method EndFire(context: CurrentEvents) returns (o: Outcome)
      modifies context
      ensures old(context.events).None? ==> o == Fail(NullPointer) && context.events == None
      ensures old(context.events) == Some([]) ==> o == Fail(NoSuchElement) && context.events == Some([])
      ensures old(context.events).Some? && old(context.events).value != [] ==>
        o == Pass && context.events == Some(old(context.events).value[..|old(context.events).value| - 1])
    {
      if context.events.None? {
        return Fail(NullPointer);
      }
      var events := context.events.value;
      if events == [] {
        return Fail(NoSuchElement);
      }
      context.events := Some(events[..|events| - 1]);
      o := Pass;
    }
  }

  /** The thread-local `Event#current` slot: no list yet, or the events being fired, innermost last. */
  class CurrentEvents {
    var events: Option<seq<Event>>

    constructor()
      ensures events == None
    {
      events := None;
    }
  }

  /**
   * Nested firing is last in, first out: while an inner event is fired the
   * outer one is below it, and when both end the list is as it was.
   */
  method NestedFiring(context: CurrentEvents, outer: Event, inner: Event)
    modifies context
    ensures context.events == Some(old(context.events).GetOr([]))
  {
    ghost var before := context.events.GetOr([]);
    outer.StartFire(context);
    inner.StartFire(context);
    assert context.events == Some(before + [outer] + [inner]);
    var o := inner.EndFire(context);
    assert o == Pass && context.events == Some(before + [outer]);
    o := outer.EndFire(context);
    assert o == Pass;
    assert (before + [outer])[..|before|] == before;
  }

  /** UIEvent: an Event with a detail, a meta-key flag and its own cancel-bubble flag. */
  class UIEvent {
    const event: Event
    var detail: int
    var metaKey: bool
    var cancelBubble: bool

    /** `UIEvent(target, type)`: detail 0 and metaKey false until set. */
    constructor(event: Event)
      ensures this.event == event
      ensures detail == 0 && !metaKey && !cancelBubble
    {
      this.event := event;
      detail := 0;
      metaKey := false;
      cancelBubble := false;
    }

    method SetDetail(detail: int)
      modifies this
      ensures this.detail == detail && metaKey == old(metaKey) && cancelBubble == old(cancelBubble)
    {
      this.detail := detail;
    }

    method SetMetaKey(metaKey: bool)
      modifies this
      ensures this.metaKey == metaKey && detail == old(detail) && cancelBubble == old(cancelBubble)
    {
      this.metaKey := metaKey;
    }

    /**
     * `getCancelBubble()`: the event's own flag under EVENT_CANCEL_BUBBLE,
     * the inherited propagation flag otherwise.
     */
    function CancelBubble(cancelBubbleFeature: bool): (r: bool)
      reads this, event
      ensures cancelBubbleFeature ==> r == cancelBubble
      ensures !cancelBubbleFeature ==> r == event.stopPropagation
    {
      if cancelBubbleFeature then cancelBubble else event.stopPropagation
    }

    /** `setCancelBubble(v)`: both the inherited propagation flag and the own flag become v. */
    method SetCancelBubble(v: bool)
      modifies this, event
      ensures event.stopPropagation == v && cancelBubble == v
      ensures CancelBubble(true) == v && CancelBubble(false) == v
      ensures detail == old(detail) && metaKey == old(metaKey)
      ensures event.eventType == old(event.eventType) && event.bubbles == old(event.bubbles)
      ensures event.cancelable == old(event.cancelable) && event.eventPhase == old(event.eventPhase)
      ensures event.keyCode == old(event.keyCode) && event.preventDefault == old(event.preventDefault)
      ensures event.stopImmediatePropagation == old(event.stopImmediatePropagation)
    {
      event.SetCancelBubble(v);
      cancelBubble := v;
    }

    /**
     * `initUIEvent(type, bubbles, cancelable, view, detail)`: initEvent with
     * the first three, then the detail; the view is ignored.
     */
    method InitUIEvent(eventType: string, bubbles: bool, cancelable: bool, detail: int)
      modifies this, event
      ensures event.eventType == eventType && event.bubbles == bubbles && event.cancelable == cancelable
      ensures this.detail == detail && metaKey == old(metaKey) && cancelBubble == old(cancelBubble)
      ensures event.eventPhase == old(event.eventPhase) && event.keyCode == old(event.keyCode)
      ensures event.stopPropagation == old(event.stopPropagation)
      ensures event.stopImmediatePropagation == old(event.stopImmediatePropagation)
      ensures event.preventDefault == old(event.preventDefault)
    {
      event.InitEvent(eventType, bubbles, cancelable);
      SetDetail(detail);
    }
  }
}
