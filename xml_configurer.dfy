/**
 * The listener side of `XMLConfigurer`: the registry of check-initialisation
 * listeners, the thread-local slot `fromXML` installs them in while parsing, and
 * the two converter hooks that hand every produced check to the installed
 * listeners. The XML library's own walk over a document is abstracted as the
 * sequence of converter calls it makes, followed by its outcome.
 */
module XmlConfigurer {
  import opened Wrappers
  import opened XmlTree
  import opened AssertConverter

  /** A `CheckInitializationListener`; two listeners are the same exactly when equal. */
  datatype Listener = Listener(id: nat)

  /** A check produced while parsing: an `assert` rule, or any other check built by reflection. */
  datatype Check =
    | AssertRule(assertCheck: AssertCheck)
    | ReflectedCheck(typeName: string, fields: map<string, string>)

  /** What the reflection converter's `super.unmarshal` built. */
  datatype Unmarshalled = CheckObject(check: Check) | OtherObject(typeName: string)

  /** One `listener.onCheckInitialized(check)` call. */
  datatype Delivery = Delivery(listener: Listener, check: Check)

  /** The parsed configuration a successful `fromXML` installs (its contents are foreign). */
  datatype PojoConfigurer = PojoConfigurer(classConfigurations: seq<string>, constraintSetConfigurations: seq<string>)

  const EMPTY_POJO_CONFIGURER := PojoConfigurer([], [])

  /** One converter invocation during a parse: the `assert` converter on an element, or the reflection converter. */
  datatype ConverterCall =
    | AssertConversion(node: Node)
    | ReflectionConversion(result: Result<Unmarshalled, XmlError>)

  /** An abstract `xStream.fromXML(input)`: the converter calls it makes, then what it returns or throws. */
  datatype XStreamRun = XStreamRun(calls: seq<ConverterCall>, outcome: Result<PojoConfigurer, XmlError>)

  predicate NoDuplicates<T(==)>(s: seq<T>) {
    forall i, j :: 0 <= i < j < |s| ==> s[i] != s[j]
  }

  // ------------------------------------------------------- notification spec

  /** The calls `onCheckInitialized(check)` makes: every installed listener, in registration order; none without a set. */
  function Broadcast(current: Option<seq<Listener>>, check: Check): (ds: seq<Delivery>)
    ensures current.None? ==> ds == []
    ensures current.Some? ==>
      |ds| == |current.value| && forall i :: 0 <= i < |ds| ==> ds[i] == Delivery(current.value[i], check)
  {
    match current
    case None => []
    case Some(ls) => seq(|ls|, i requires 0 <= i < |ls| => Delivery(ls[i], check))
  }

  /** The calls made for `checks` produced one after another while `listeners` is installed. */
  function Deliveries(listeners: seq<Listener>, checks: seq<Check>): seq<Delivery> {
    if checks == [] then []
    else Deliveries(listeners, checks[..|checks| - 1]) + Broadcast(Some(listeners), checks[|checks| - 1])
  }

  /** The checks a converter call produces, or the exception it raises. */
  function ConverterResult(call: ConverterCall): Result<Option<Check>, XmlError> {
    match call
    case AssertConversion(node) =>
      (match UnmarshalAssert(node)
       case Err(e) => Err(e)
       case Ok(c) => Ok(Some(AssertRule(c))))
    case ReflectionConversion(result) =>
      (match result
       case Err(e) => Err(e)
       case Ok(CheckObject(c)) => Ok(Some(c))
       case Ok(OtherObject(_)) => Ok(None))
  }

  /** The state of a parse after some converter calls: the checks produced so far and the exception, if one was raised. */
  datatype Progress = Progress(checks: seq<Check>, failure: Option<XmlError>)

  /** One converter call made after `before`: nothing happens once a converter has raised. */
  function Step(before: Progress, call: ConverterCall): Progress {
    if before.failure.Some? then before
    else
      match ConverterResult(call)
      case Err(e) => Progress(before.checks, Some(e))
      case Ok(None) => before
      case Ok(Some(c)) => Progress(before.checks + [c], None)
  }

  /** Replaying converter calls in order; the first exception ends the parse. */
  function Replay(calls: seq<ConverterCall>): Progress {
    if calls == [] then Progress([], None)
    else Step(Replay(calls[..|calls| - 1]), calls[|calls| - 1])
  }

  /** What `xStream.fromXML` does overall: a converter exception, or else the run's own outcome. */
  function RunOutcome(run: XStreamRun): Result<PojoConfigurer, XmlError> {
    var p := Replay(run.calls);
    if p.failure.Some? then Err(p.failure.value) else run.outcome
  }

  // ------------------------------------------------------------ the slot

  /**
   * `CURRENT_LISTENERS`, the thread-local listener set shared by every configurer
   * (one thread), with the log of listener calls made through it.
   */
  class ListenerSlot {
    var current: Option<seq<Listener>>
    var delivered: seq<Delivery>

    constructor()
      ensures current.None? && delivered == []
    {
      current := None;
      delivered := [];
    }
  }

  /** `onCheckInitialized`: each installed listener is called once with the check, in registration order. */
  method OnCheckInitialized(slot: ListenerSlot, check: Check)
    modifies slot
    ensures slot.current == old(slot.current)
    ensures slot.delivered == old(slot.delivered) + Broadcast(old(slot.current), check)
  {
    var listeners := slot.current;
    if listeners.Some? {
      var ls := listeners.value;
      for i := 0 to |ls|
        invariant slot.current == listeners
        invariant slot.delivered == old(slot.delivered) + Broadcast(Some(ls[..i]), check)
      {
        assert Broadcast(Some(ls[..i + 1]), check) == Broadcast(Some(ls[..i]), check) + [Delivery(ls[i], check)];
        slot.delivered := slot.delivered + [Delivery(ls[i], check)];
      }
      assert ls[..|ls|] == ls;
    }
  }

  /** `AssertCheckConverter.unmarshal`: build the check, then announce it once it is fully populated. */
  method AssertConverterUnmarshal(slot: ListenerSlot, n: Node) returns (r: Result<AssertCheck, XmlError>)
    modifies slot
    ensures r == UnmarshalAssert(n)
    ensures slot.current == old(slot.current)
    ensures slot.delivered == old(slot.delivered) + if r.Ok? then Broadcast(old(slot.current), AssertRule(r.value)) else []
  {
    r := Unmarshal(n);
    if r.Ok? {
      OnCheckInitialized(slot, AssertRule(r.value));
    }
  }

  /**
   * The reflection converter's `unmarshal` hook: `built` is what `super.unmarshal`
   * returned or threw; only a `Check` is announced.
   */
  method ReflectionConverterUnmarshal(slot: ListenerSlot, built: Result<Unmarshalled, XmlError>) returns (r: Result<Unmarshalled, XmlError>)
    modifies slot
    ensures r == built
    ensures slot.current == old(slot.current)
    ensures slot.delivered == old(slot.delivered) + if built.Ok? && built.value.CheckObject? then Broadcast(old(slot.current), built.value.check) else []
  {
    r := built;
    if r.Ok? && r.value.CheckObject? {
      OnCheckInitialized(slot, r.value.check);
    }
  }

  /** The XML library handing one element to the converter registered for it. */
  method Convert(slot: ListenerSlot, call: ConverterCall) returns (r: Result<Option<Check>, XmlError>)
    modifies slot
    ensures r == ConverterResult(call)
    ensures slot.current == old(slot.current)
    ensures slot.delivered == old(slot.delivered) + if r.Ok? && r.value.Some? then Broadcast(old(slot.current), r.value.value) else []
  {
    match call {
      case AssertConversion(node) =>
        var a := AssertConverterUnmarshal(slot, node);
        r := if a.Ok? then Ok(Some(AssertRule(a.value))) else Err(a.error);
      case ReflectionConversion(built) =>
        var o := ReflectionConverterUnmarshal(slot, built);
        r := if o.Err? then Err(o.error) else if o.value.CheckObject? then Ok(Some(o.value.check)) else Ok(None);
    }
  }

  /**
   * The XML library's walk over a document: the converter calls in order, ending at
   * the first exception, with the listener set installed in the slot.
   */
  method Parse(slot: ListenerSlot, calls: seq<ConverterCall>) returns (checks: seq<Check>, failure: Option<XmlError>)
    requires slot.current.Some?
    modifies slot
    ensures slot.current == old(slot.current)
    ensures Progress(checks, failure) == Replay(calls)
    ensures slot.delivered == old(slot.delivered) + Deliveries(old(slot.current).value, checks)
  {
    var listeners := slot.current.value;
    checks := [];
    failure := None;
    var i := 0;
    while i < |calls| && failure.None?
      invariant 0 <= i <= |calls|
      invariant slot.current == Some(listeners)
      invariant Replay(calls[..i]) == Progress(checks, failure)
      invariant slot.delivered == old(slot.delivered) + Deliveries(listeners, checks)
    {
      ReplaySnoc(calls, i);
      var r := Convert(slot, calls[i]);
      if r.Err? {
        failure := Some(r.error);
      } else if r.value.Some? {
        DeliveriesSnoc(listeners, checks, r.value.value);
        checks := checks + [r.value.value];
      }
      i := i + 1;
    }
    if failure.Some? {
      ReplayStops(calls[..i], calls[i..]);
      assert calls[..i] + calls[i..] == calls;
    } else {
      assert calls[..i] == calls;
    }
  }

  // -------------------------------------------------------- the configurer

  /** Removing `x`; all other elements keep their order. */
  function Without(s: seq<Listener>, x: Listener): (r: seq<Listener>)
    ensures x !in r
    ensures forall y :: y != x ==> (y in r <==> y in s)
  {
    if s == [] then []
    else if s[0] == x then Without(s[1..], x)
    else [s[0]] + Without(s[1..], x)
  }

  class XmlConfigurer {
    /** The thread-local slot, shared by every configurer. */
    const slot: ListenerSlot
    /** The `LinkedHashSet` of listeners, in insertion order. */
    var listeners: seq<Listener>
    var pojoConfigurer: PojoConfigurer

    predicate Valid()
      reads this
    {
      NoDuplicates(listeners)
    }

    constructor(slot: ListenerSlot)
      ensures Valid() && this.slot == slot
      ensures listeners == [] && pojoConfigurer == EMPTY_POJO_CONFIGURER
    {
      this.slot := slot;
      listeners := [];
      pojoConfigurer := EMPTY_POJO_CONFIGURER;
    }

    /** `addCheckInitializationListener`: `null` is rejected; a listener already registered is not added again. */
    method AddCheckInitializationListener(listener: Option<Listener>) returns (r: Result<bool, XmlError>)
      requires Valid()
      modifies this
      ensures Valid()
      ensures listener.None? ==> r == Err(IllegalArgument("listener")) && listeners == old(listeners)
      ensures listener.Some? ==>
        r == Ok(listener.value !in old(listeners)) &&
        listeners == if listener.value in old(listeners) then old(listeners) else old(listeners) + [listener.value]
      ensures pojoConfigurer == old(pojoConfigurer)
    {
      if listener.None? {
        return Err(IllegalArgument("listener"));
      }
      var l := listener.value;
      if l in listeners {
        return Ok(false);
      }
      listeners := listeners + [l];
      r := Ok(true);
    }

    /** `removeCheckInitializationListener`: whether the listener was registered; it no longer is. */
    method RemoveCheckInitializationListener(listener: Option<Listener>) returns (removed: bool)
      requires Valid()
      modifies this
      ensures Valid()
      ensures listener.None? ==> !removed && listeners == old(listeners)
      ensures listener.Some? ==>
        removed == (listener.value in old(listeners)) &&
        listeners == Without(old(listeners), listener.value)
      ensures pojoConfigurer == old(pojoConfigurer)
    {
      if listener.None? {
        return false;
      }
      removed := listener.value in listeners;
      WithoutKeepsDistinct(listeners, listener.value);
      listeners := Without(listeners, listener.value);
    }

    /**
     * `fromXML`: install this configurer's listeners in the slot, run the parse,
     * keep its result only if it succeeded, and clear the slot whatever happened.
     */
    method FromXml(run: XStreamRun) returns (failure: Option<XmlError>)
      requires Valid()
      modifies this, slot
      ensures Valid() && listeners == old(listeners)
      ensures slot.current.None?
      ensures slot.delivered == old(slot.delivered) + Deliveries(listeners, Replay(run.calls).checks)
      ensures failure == if RunOutcome(run).Err? then Some(RunOutcome(run).error) else None
      ensures pojoConfigurer == if RunOutcome(run).Ok? then RunOutcome(run).value else old(pojoConfigurer)
    {
      slot.current := Some(listeners);
      var checks, raised := Parse(slot, run.calls);
      failure := raised;
      if failure.None? {
        match run.outcome {
          case Ok(p) => pojoConfigurer := p;
          case Err(e) => failure := Some(e);
        }
      }
      slot.current := None;
    }
  }

  // ----------------------------------------------------------------- proofs

  lemma ReplaySnoc(calls: seq<ConverterCall>, i: nat)
    requires i < |calls|
    ensures Replay(calls[..i + 1]) == Step(Replay(calls[..i]), calls[i])
  {
    assert calls[..i + 1][..i] == calls[..i];
  }

  lemma DeliveriesSnoc(listeners: seq<Listener>, checks: seq<Check>, c: Check)
    ensures Deliveries(listeners, checks + [c]) == Deliveries(listeners, checks) + Broadcast(Some(listeners), c)
  {
    assert (checks + [c])[..|checks|] == checks;
  }

  /** Once a converter has raised, later converter calls change nothing. */
  lemma {:induction false} ReplayStops(done: seq<ConverterCall>, later: seq<ConverterCall>)
    requires Replay(done).failure.Some?
    ensures Replay(done + later) == Replay(done)
    decreases |later|
  {
    if later != [] {
      var shorter := later[..|later| - 1];
      assert (done + later)[..|done + later| - 1] == done + shorter;
      ReplayStops(done, shorter);
    } else {
      assert done + later == done;
    }
  }

  lemma {:induction false} DeliveriesLength(listeners: seq<Listener>, checks: seq<Check>)
    ensures |Deliveries(listeners, checks)| == |checks| * |listeners|
  {
    if checks != [] {
      var m := |checks|;
      var n := |listeners|;
      DeliveriesLength(listeners, checks[..m - 1]);
      assert (m - 1) * n + n == m * n;
    }
  }

  /** The calls for the last check form the last block of `Deliveries`. */
  lemma DeliveryInLast(listeners: seq<Listener>, checks: seq<Check>, k: nat, i: nat)
    requires k == |checks| - 1 && i < |listeners|
    ensures k * |listeners| + i < |Deliveries(listeners, checks)|
    ensures Deliveries(listeners, checks)[k * |listeners| + i] == Delivery(listeners[i], checks[k])
  {
    var front := checks[..k];
    var before := Deliveries(listeners, front);
    DeliveriesLength(listeners, front);
    assert |before| == k * |listeners|;
    assert Deliveries(listeners, checks) == before + Broadcast(Some(listeners), checks[k]);
  }

  /** A call made for an earlier check keeps its position once a check is appended. */
  lemma DeliveryInFront(listeners: seq<Listener>, checks: seq<Check>, p: nat)
    requires checks != [] && p < |Deliveries(listeners, checks[..|checks| - 1])|
    ensures p < |Deliveries(listeners, checks)|
    ensures Deliveries(listeners, checks)[p] == Deliveries(listeners, checks[..|checks| - 1])[p]
  {
    var before := Deliveries(listeners, checks[..|checks| - 1]);
    assert Deliveries(listeners, checks) == before + Broadcast(Some(listeners), checks[|checks| - 1]);
  }

  /** The call at position `k * |listeners| + i` is listener `i` receiving check `k`. */
  lemma {:induction false} DeliveryAt(listeners: seq<Listener>, checks: seq<Check>, k: nat, i: nat)
    requires k < |checks| && i < |listeners|
    ensures k * |listeners| + i < |Deliveries(listeners, checks)|
    ensures Deliveries(listeners, checks)[k * |listeners| + i] == Delivery(listeners[i], checks[k])
  {
    if k < |checks| - 1 {
      var front := checks[..|checks| - 1];
      DeliveryAt(listeners, front, k, i);
      DeliveryInFront(listeners, checks, k * |listeners| + i);
      assert front[k] == checks[k];
    } else {
      DeliveryInLast(listeners, checks, k, i);
    }
  }

  /**
   * Exactly once: with no duplicate listeners, every installed listener receives
   * each check as many times as it was produced, and nobody else receives anything.
   */
  lemma {:induction false} DeliveriesExactlyOnce(listeners: seq<Listener>, checks: seq<Check>, l: Listener, c: Check)
    requires NoDuplicates(listeners)
    ensures multiset(Deliveries(listeners, checks))[Delivery(l, c)] == if l in listeners then multiset(checks)[c] else 0
  {
    if checks != [] {
      var front := checks[..|checks| - 1];
      var last := checks[|checks| - 1];
      var b := Broadcast(Some(listeners), last);
      assert multiset(Deliveries(listeners, checks)) == multiset(Deliveries(listeners, front)) + multiset(b);
      assert multiset(checks)[c] == multiset(front)[c] + (if c == last then 1 else 0) by {
        assert checks == front + [last];
      }
      assert multiset(b)[Delivery(l, c)] == if l in listeners && c == last then 1 else 0 by {
        if c == last {
          BroadcastExactlyOnce(listeners, last, l);
        } else {
          assert Delivery(l, c) !in b;
        }
      }
      DeliveriesExactlyOnce(listeners, front, l, c);
    }
  }

  /** The inductive step of `DeliveriesAppend`: one more check at the end of `later`. */
  lemma DeliveriesAppendLast(listeners: seq<Listener>, earlier: seq<Check>, front: seq<Check>, last: Check)
    requires Deliveries(listeners, earlier + front) == Deliveries(listeners, earlier) + Deliveries(listeners, front)
    ensures Deliveries(listeners, earlier + (front + [last])) == Deliveries(listeners, earlier) + Deliveries(listeners, front + [last])
  {
    AppendAssoc(earlier, front, [last]);
    DeliveriesSnoc(listeners, earlier + front, last);
    DeliveriesSnoc(listeners, front, last);
    AppendAssoc(Deliveries(listeners, earlier), Deliveries(listeners, front), Broadcast(Some(listeners), last));
  }

  lemma AppendEmpty<T>(s: seq<T>)
    ensures s + [] == s
  {
  }

  lemma LastSplit<T>(s: seq<T>)
    requires s != []
    ensures s[..|s| - 1] + [s[|s| - 1]] == s
  {
  }

  lemma AppendAssoc<T>(a: seq<T>, b: seq<T>, c: seq<T>)
    ensures a + (b + c) == (a + b) + c
  {
  }

  /** In production order: the calls for checks produced later come after those for checks produced earlier. */
  lemma {:induction false} DeliveriesAppend(listeners: seq<Listener>, earlier: seq<Check>, later: seq<Check>)
    ensures Deliveries(listeners, earlier + later) == Deliveries(listeners, earlier) + Deliveries(listeners, later)
    decreases |later|
  {
    if later == [] {
      AppendEmpty(earlier);
    } else {
      var front := later[..|later| - 1];
      DeliveriesAppend(listeners, earlier, front);
      DeliveriesAppendLast(listeners, earlier, front, later[|later| - 1]);
      LastSplit(later);
    }
  }

  /** Only installed listeners are called, and only with produced checks. */
  lemma {:induction false} DeliveriesOnlyTo(listeners: seq<Listener>, checks: seq<Check>)
    ensures forall d :: d in Deliveries(listeners, checks) ==> d.listener in listeners && d.check in checks
  {
    if checks != [] {
      var front := checks[..|checks| - 1];
      DeliveriesOnlyTo(listeners, front);
      forall d | d in Deliveries(listeners, checks)
        ensures d.listener in listeners && d.check in checks
      {
        if d in Deliveries(listeners, front) {
          assert d.check in front;
          var k :| 0 <= k < |front| && front[k] == d.check;
          assert checks[k] == d.check;
        }
      }
    }
  }

  /** With no duplicate listeners, one announcement calls each registered listener exactly once and no other. */
  lemma BroadcastExactlyOnce(listeners: seq<Listener>, check: Check, l: Listener)
    requires NoDuplicates(listeners)
    ensures multiset(Broadcast(Some(listeners), check))[Delivery(l, check)] == if l in listeners then 1 else 0
  {
    var ds := Broadcast(Some(listeners), check);
    if l in listeners {
      var i :| 0 <= i < |listeners| && listeners[i] == l;
      assert ds == ds[..i] + [ds[i]] + ds[i + 1..];
      assert forall j :: 0 <= j < |ds| && j != i ==> ds[j] != Delivery(l, check);
      assert Delivery(l, check) !in ds[..i];
      assert Delivery(l, check) !in ds[i + 1..];
      assert multiset(ds) == multiset(ds[..i]) + multiset{ds[i]} + multiset(ds[i + 1..]);
    } else {
      assert Delivery(l, check) !in ds;
    }
  }

  /** Registering a new listener and removing it again leaves the registry as it was. */
  lemma {:induction false} AddThenRemove(listeners: seq<Listener>, l: Listener)
    requires l !in listeners
    ensures Without(listeners + [l], l) == listeners
  {
    if listeners == [] {
      assert [l][1..] == [];
    } else {
      assert (listeners + [l])[1..] == listeners[1..] + [l];
      AddThenRemove(listeners[1..], l);
    }
  }

  /** A removal keeps the other listeners in their registration order: it deletes one position. */
  lemma WithoutSplices(listeners: seq<Listener>, i: nat)
    requires NoDuplicates(listeners) && i < |listeners|
    ensures Without(listeners, listeners[i]) == listeners[..i] + listeners[i + 1..]
  {
    var x := listeners[i];
    assert x !in listeners[..i] by {
      forall j | 0 <= j < i ensures listeners[..i][j] != x {
        assert listeners[..i][j] == listeners[j];
      }
    }
    assert x !in listeners[i + 1..] by {
      forall j | i < j < |listeners| ensures listeners[j] != x {}
    }
    WithoutAt(listeners, i);
  }

  lemma {:induction false} WithoutAt(listeners: seq<Listener>, i: nat)
    requires i < |listeners|
    requires listeners[i] !in listeners[..i] && listeners[i] !in listeners[i + 1..]
    ensures Without(listeners, listeners[i]) == listeners[..i] + listeners[i + 1..]
  {
    var x := listeners[i];
    var tail := listeners[1..];
    if i == 0 {
      assert tail == listeners[i + 1..];
      WithoutAbsent(tail, x);
      assert listeners[..0] + tail == tail;
    } else {
      assert listeners[0] in listeners[..i];
      assert tail[i - 1] == x;
      assert tail[..i - 1] == listeners[1..i] && tail[i..] == listeners[i + 1..];
      assert x !in tail[..i - 1] by {
        assert listeners[..i] == [listeners[0]] + listeners[1..i];
      }
      WithoutAt(tail, i - 1);
      assert listeners[..i] == [listeners[0]] + tail[..i - 1];
    }
  }

  /** Removal keeps the registry free of duplicates and shrinks it by one exactly when the listener was there. */
  lemma {:induction false} WithoutKeepsDistinct(listeners: seq<Listener>, x: Listener)
    requires NoDuplicates(listeners)
    ensures NoDuplicates(Without(listeners, x))
    ensures |Without(listeners, x)| == if x in listeners then |listeners| - 1 else |listeners|
  {
    if x in listeners {
      var i :| 0 <= i < |listeners| && listeners[i] == x;
      WithoutSplices(listeners, i);
      var r := listeners[..i] + listeners[i + 1..];
      forall a, b | 0 <= a < b < |r| ensures r[a] != r[b] {
        var a' := if a < i then a else a + 1;
        var b' := if b < i then b else b + 1;
        assert r[a] == listeners[a'] && r[b] == listeners[b'];
      }
    } else {
      WithoutAbsent(listeners, x);
    }
  }

  /** Removing an absent listener changes nothing. */
  lemma {:induction false} WithoutAbsent(listeners: seq<Listener>, x: Listener)
    requires x !in listeners
    ensures Without(listeners, x) == listeners
  {
    if listeners != [] {
      WithoutAbsent(listeners[1..], x);
    }
  }
}
