/**
 * The button event path of src/Events.cpp: the button interrupt handlers put
 * a `WATCHY_EVENT_ID` into a 10-slot queue without waiting, and the event
 * handler task takes them out one at a time, in order, and calls the matching
 * method of the active screen.
 *
 * The FreeRTOS queue is a bounded FIFO of event ids; the handler task's
 * endless loop is run for a given number of receives, and the screen calls it
 * makes are returned in order.
 */
module Events {

  import opened Watchy

  // The `WATCHY_EVENT_ID` enumeration (src/Events.h:7-14).
  const WATCHY_EVENT := 0
  const WATCHY_EVENT_MENU_BTN_DOWN := 1
  const WATCHY_EVENT_BACK_BTN_DOWN := 2
  const WATCHY_EVENT_UP_BTN_DOWN := 3
  const WATCHY_EVENT_DOWN_BTN_DOWN := 4
  const WATCHY_EVENT_MAX := 5

  /** The capacity given to `xQueueCreate`. */
  const QueueLength := 10

  /** The four screen methods an event can be routed to. */
  datatype Capability = Menu | Back | Up | Down

  /** The four buttons, each with its own interrupt handler. */
  datatype Button = MenuButton | BackButton | UpButton | DownButton

  /**
   * The dispatch `switch` of `eventHandlerTask` (src/Events.cpp:82-88):
   * exactly the ids strictly between the `WATCHY_EVENT` and
   * `WATCHY_EVENT_MAX` sentinels reach a screen method.
   */
  function Dispatch(id: int): (r: Option<Capability>)
    ensures r.Some? <==> WATCHY_EVENT < id < WATCHY_EVENT_MAX
  {
    if id == WATCHY_EVENT_MENU_BTN_DOWN then Some(Menu)
    else if id == WATCHY_EVENT_BACK_BTN_DOWN then Some(Back)
    else if id == WATCHY_EVENT_UP_BTN_DOWN then Some(Up)
    else if id == WATCHY_EVENT_DOWN_BTN_DOWN then Some(Down)
    else None
  }

  /** The id each button's interrupt handler enqueues (src/Events.cpp:69-72): one the dispatch routes to that button's method. */
  function IsrEvent(b: Button): (id: int)
    ensures WATCHY_EVENT < id < WATCHY_EVENT_MAX
    ensures Dispatch(id) == Some(CapabilityOf(b))
  {
    match b
    case MenuButton => WATCHY_EVENT_MENU_BTN_DOWN
    case BackButton => WATCHY_EVENT_BACK_BTN_DOWN
    case UpButton => WATCHY_EVENT_UP_BTN_DOWN
    case DownButton => WATCHY_EVENT_DOWN_BTN_DOWN
  }

  /** The screen method that belongs to each button. */
  function CapabilityOf(b: Button): Capability
  {
    match b
    case MenuButton => Menu
    case BackButton => Back
    case UpButton => Up
    case DownButton => Down
  }

  /**
   * Routing is exactly the inverse of the interrupt handlers: a button's id
   * reaches that button's screen method, and every id that no button sends
   * (`WATCHY_EVENT`, `WATCHY_EVENT_MAX`, anything else) reaches none.
   */
  lemma RoutingInvertsIsr(id: int)
    ensures forall b :: Dispatch(IsrEvent(b)) == Some(CapabilityOf(b))
    ensures Dispatch(id).Some? <==> exists b :: IsrEvent(b) == id
    ensures Dispatch(WATCHY_EVENT) == None && Dispatch(WATCHY_EVENT_MAX) == None
  {
    if Dispatch(id).Some? {
      var b := match Dispatch(id).value
        case Menu => MenuButton case Back => BackButton case Up => UpButton case Down => DownButton;
      assert IsrEvent(b) == id;
    }
  }

  /** The screen calls made for a run of received ids, in order. */
  function DispatchAll(ids: seq<int>): seq<Capability>
    decreases |ids|
  {
    if ids == [] then []
    else
      var c := Dispatch(ids[|ids| - 1]);
      DispatchAll(ids[..|ids| - 1]) + (if c.Some? then [c.value] else [])
  }

  function IsrEvents(bs: seq<Button>): (ids: seq<int>)
    ensures |ids| == |bs|
    decreases |bs|
  {
    if bs == [] then [] else IsrEvents(bs[..|bs| - 1]) + [IsrEvent(bs[|bs| - 1])]
  }

  function Capabilities(bs: seq<Button>): seq<Capability>
    decreases |bs|
  {
    if bs == [] then [] else Capabilities(bs[..|bs| - 1]) + [CapabilityOf(bs[|bs| - 1])]
  }

  /**
   * Button presses queued by the interrupt handlers are dispatched in the
   * order they were pressed, one screen call per press.
   */
  lemma {:induction false} PressesDispatchInOrder(bs: seq<Button>)
    ensures DispatchAll(IsrEvents(bs)) == Capabilities(bs)
    decreases |bs|
  {
    if bs != [] {
      var init := bs[..|bs| - 1];
      PressesDispatchInOrder(init);
      var ids := IsrEvents(bs);
      assert ids[..|ids| - 1] == IsrEvents(init);
      RoutingInvertsIsr(ids[|ids| - 1]);
    }
  }

  lemma DispatchAllSnoc(ids: seq<int>, i: nat)
    requires i < |ids|
    ensures DispatchAll(ids[..i + 1]) == DispatchAll(ids[..i]) + (if Dispatch(ids[i]).Some? then [Dispatch(ids[i]).value] else [])
  {
    assert ids[..i + 1][..i] == ids[..i];
  }

  class EventQueue {
    /** Whether `xEventQueue` has been created (it is 0 before). */
    var created: bool
    /** The ids waiting in the queue, oldest first. */
    var items: seq<int>
    /** Whether the four button interrupts are attached. */
    var interruptsAttached: bool

    predicate Valid()
      reads this
    {
      |items| <= QueueLength && (!created ==> items == [])
    }

    constructor ()
      ensures Valid() && !created && items == [] && !interruptsAttached
    {
      created := false;
      items := [];
      interruptsAttached := false;
    }

    /**
     * `send_event` (src/Events.cpp:92-94) and the interrupt-side send of
     * `btnISR` (src/Events.cpp:60-67): neither waits, so an id sent into a
     * full queue is dropped.
     */
    method SendEvent(id: int)
      requires Valid() && created
      modifies this
      ensures Valid() && created == old(created) && interruptsAttached == old(interruptsAttached)
      ensures items == if |old(items)| < QueueLength then old(items) + [id] else old(items)
    {
      if |items| < QueueLength {
        items := items + [id];
      }
    }

    /** `btnMenuISR`, `btnBackISR`, `btnUpISR`, `btnDownISR`: each sends its own button's id. */
    method ButtonIsr(b: Button)
      requires Valid() && created
      modifies this
      ensures Valid() && created == old(created) && interruptsAttached == old(interruptsAttached)
      ensures items == if |old(items)| < QueueLength then old(items) + [IsrEvent(b)] else old(items)
    {
      SendEvent(IsrEvent(b));
    }

    /**
     * `start_event_handler` (src/Events.cpp:96-122): a new, empty queue of 10
     * slots, the debugging `WATCHY_EVENT_MAX` sent into it, and the button
     * interrupts attached.
     */
    method StartEventHandler()
      modifies this
      ensures Valid() && created && items == [WATCHY_EVENT_MAX] && interruptsAttached
    {
      created := true;
      items := [];
      SendEvent(WATCHY_EVENT_MAX);
      interruptsAttached := true;
    }

    /**
     * `eventHandlerTask` (src/Events.cpp:74-90) for `receives` turns of its
     * endless loop.  Each turn resets the id to `WATCHY_EVENT_MAX`, receives
     * the oldest id if there is one, and dispatches it; a turn on an empty
     * queue therefore calls nothing.  Without a queue the task returns at once.
     */
    method HandlerTask(receives: nat) returns (calls: seq<Capability>)
      requires Valid()
      modifies this
      ensures Valid() && created == old(created) && interruptsAttached == old(interruptsAttached)
      ensures !created ==> calls == [] && items == old(items)
      ensures created ==>
                var n := if receives < |old(items)| then receives else |old(items)|;
                items == old(items)[n..] && calls == DispatchAll(old(items)[..n])
    {
      calls := [];
      if !created {
        return;
      }
      var i := 0;
      var taken := 0;
      while i < receives
        invariant taken <= i <= receives && taken <= |old(items)|
        invariant taken < i ==> taken == |old(items)|
        invariant items == old(items)[taken..]
        invariant calls == DispatchAll(old(items)[..taken])
        invariant created && interruptsAttached == old(interruptsAttached)
      {
        var eventId := WATCHY_EVENT_MAX;
        if |items| > 0 {
          eventId := items[0];
          items := items[1..];
          DispatchAllSnoc(old(items), taken);
          taken := taken + 1;
        }
        var c := Dispatch(eventId);
        if c.Some? {
          calls := calls + [c.value];
        }
        i := i + 1;
      }
    }
  }
}
