/** Control events and the parameters they set (VulkanBackend::apply_control_event, daemon/worker.cpp). */
module Control {
  import opened Base

  datatype ControlEvent = ControlEvent(parameterId: nat, value: real)

  datatype Params = Params(gain: real, threshold: real, param1: real, param2: real, algoId: nat)

  function Defaults(): (p: Params) {
    Params(1.0, 0.95, 0.5, 0.5, 0)
  }

  /** `static_cast<uint32_t>(value)` truncates; out of range it is undefined, and 0 here. */
  function ToUint32(value: real): (n: nat)
    ensures n < 0x1_0000_0000
    ensures 0.0 <= value < 4294967296.0 ==> n as real <= value < n as real + 1.0
  {
    if 0.0 <= value < 4294967296.0 then value.Floor else 0
  }

  function ApplyEvent(p: Params, e: ControlEvent): (p': Params) {
    if e.parameterId == 1 then p.(gain := e.value)
    else if e.parameterId == 2 then p.(threshold := e.value)
    else if e.parameterId == 3 then p.(param1 := e.value)
    else if e.parameterId == 4 then p.(param2 := e.value)
    else if e.parameterId == 5 then p.(algoId := ToUint32(e.value))
    else p
  }

  /** The parameters after a sequence of events, applied in order. */
  function ApplyFrom(p: Params, es: seq<ControlEvent>): (p': Params) {
    if es == [] then p else ApplyEvent(ApplyFrom(p, es[..|es| - 1]), es[|es| - 1])
  }

  /** What the worker's parameters are after every event it has ever applied. */
  function ApplyAll(es: seq<ControlEvent>): (p: Params) {
    ApplyFrom(Defaults(), es)
  }

  /** One more event, at either end. */
  lemma ApplyOneMore(p: Params, es: seq<ControlEvent>, e: ControlEvent)
    ensures ApplyFrom(p, es + [e]) == ApplyEvent(ApplyFrom(p, es), e)
  {
    assert (es + [e])[..|es|] == es;
  }

  lemma {:induction false} ApplyFirst(p: Params, e: ControlEvent, es: seq<ControlEvent>)
    ensures ApplyFrom(p, [e] + es) == ApplyFrom(ApplyEvent(p, e), es)
    decreases |es|
  {
    if es == [] {
      assert [e] + es == [] + [e];
      ApplyOneMore(p, [], e);
    } else {
      var front, last := es[..|es| - 1], es[|es| - 1];
      assert [e] + es == ([e] + front) + [last];
      ApplyOneMore(p, [e] + front, last);
      ApplyFirst(p, e, front);
    }
  }

  /** Event i is the last one for a parameter. */
  predicate IsLast(es: seq<ControlEvent>, id: nat, i: int) {
    0 <= i < |es| && es[i].parameterId == id && forall j | i < j < |es| :: es[j].parameterId != id
  }

  /** The value of the last event for a parameter, if there is one. */
  function LastValue(es: seq<ControlEvent>, id: nat): (v: Option<real>)
    ensures v.None? <==> forall i | 0 <= i < |es| :: es[i].parameterId != id
    ensures v.Some? ==> exists i :: IsLast(es, id, i) && es[i].value == v.value
  {
    if es == [] then None
    else if es[|es| - 1].parameterId == id then
      assert IsLast(es, id, |es| - 1);
      Some(es[|es| - 1].value)
    else
      var v := LastValue(es[..|es| - 1], id);
      assert v.Some? ==> exists i :: IsLast(es, id, i) && es[i].value == v.value by {
        if v.Some? {
          var i :| IsLast(es[..|es| - 1], id, i) && es[..|es| - 1][i].value == v.value;
          assert IsLast(es, id, i);
        }
      }
      v
  }

  function Or(v: Option<real>, initial: real): (r: real) {
    if v.Some? then v.value else initial
  }

  /** Each parameter has the value of the last event that names it, whatever came in between, and its
      old value if no event does. */
  lemma {:induction false} LastEventWins(p: Params, es: seq<ControlEvent>)
    ensures ApplyFrom(p, es).gain == Or(LastValue(es, 1), p.gain)
    ensures ApplyFrom(p, es).threshold == Or(LastValue(es, 2), p.threshold)
    ensures ApplyFrom(p, es).param1 == Or(LastValue(es, 3), p.param1)
    ensures ApplyFrom(p, es).param2 == Or(LastValue(es, 4), p.param2)
    ensures ApplyFrom(p, es).algoId == if LastValue(es, 5).Some? then ToUint32(LastValue(es, 5).value) else p.algoId
  {
    if es != [] {
      LastEventWins(p, es[..|es| - 1]);
    }
  }
}
