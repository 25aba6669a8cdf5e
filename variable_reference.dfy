/**
 * VariableReference<T>: a value view over an EventSO<T> channel. Reading gives the stored
 * constant or the channel's last raised value; writing stores the value and raises it. The
 * channel is a serialized field that may be left unassigned (null): then a non-constant read
 * and every write throw NullReferenceException, a write only after storing the value.
 */
module VariableReferences {
  import opened Engine
  import opened EventChannel

  class VariableReference<T> {
    const event: EventSO?<T>
    const isConstant: bool
    var value: T

    constructor (event: EventSO?<T>, isConstant: bool, value: T)
      ensures this.event == event && this.isConstant == isConstant && this.value == value
    {
      this.event := event;
      this.isConstant := isConstant;
      this.value := value;
    }

    /** The Value getter: a non-constant read dereferences the channel. */
    function Value(): (r: Result<T>)
      reads this, event
      ensures isConstant ==> r == Ok(value)
      ensures !isConstant && event == null ==> r == Err(NullReference)
      ensures !isConstant && event != null ==> r == Ok(event.LastValueRaised)
    {
      if isConstant then Ok(value)
      else if event == null then Err(NullReference)
      else Ok(event.LastValueRaised)
    }

    /**
     * The Value setter: stores `v`, then raises it on the channel once; `ok` is false when a
     * NullReferenceException propagates, from an unassigned channel or from a null slot met
     * by the raise. When the raise completes the channel has raised and a read gives back `v`
     * in both modes.
     */
    method SetValue(v: T) returns (ok: bool)
      modifies this`value, if event == null then {} else {event, event.base}
      ensures value == v
      ensures event == null ==> !ok
      ensures event != null ==>
                && event.subscribers == old(event.subscribers)
                && event.base.subscribers == Compacted(old(event.base.subscribers))
                && ok == NullFree(event.subscribers)
                && event.invoked == old(event.invoked) + RaiseCalls(event.subscribers, v).calls
      ensures event != null && ok ==> event.HasRaised() && event.LastValueRaised == v && value == v && Value() == Ok(v)
      ensures event != null && !ok ==>
                event.LastValueRaised == old(event.LastValueRaised) && event.HasRaised() == old(event.HasRaised())
    {
      value := v;
      if event == null {
        ok := false;
      } else {
        ok := event.Raise(v);
      }
    }
  }

  /**
   * A reference over a fresh channel with one subscriber: setting the value reaches that
   * subscriber once with `v`, and reading it back gives `v`, constant or not.
   */
  method SetThenRead<T>(isConstant: bool, initial: T, defaultValue: T, v: T, origin: Obj, response: Response)
    returns (ok: bool, read: Result<T>, calls: seq<Invocation<T>>)
    ensures ok && read == Ok(v) && calls == [Invocation(response, v)]
  {
    var channel := new EventSO<T>(defaultValue, initial, [], [], false, false);
    channel.Subscribe(origin, origin.name, response);
    var reference := new VariableReference<T>(channel, isConstant, initial);
    assert NullFree(channel.subscribers);
    RaiseReachesEverySubscriber(channel.subscribers, v);
    ok := reference.SetValue(v);
    read := reference.Value();
    calls := channel.invoked;
  }

  /**
   * A reference whose channel was never assigned: the write throws after storing `v`, so a
   * constant reference reads `v` back and a non-constant one throws on the read as well.
   */
  method SetUnassignedThenRead<T>(isConstant: bool, initial: T, v: T) returns (ok: bool, read: Result<T>)
    ensures !ok
    ensures isConstant ==> read == Ok(v)
    ensures !isConstant ==> read == Err(NullReference)
  {
    var reference := new VariableReference<T>(null, isConstant, initial);
    ok := reference.SetValue(v);
    read := reference.Value();
  }
}
