/**
 * The engine-side value node (`DbgEngineValueNodeImpl`): a node of the debugger's
 * variables tree that wraps a raw .NET value node, snapshots its value once, and
 * dispatches formatting to up to four output sinks.
 *
 * Every effect the node has on its collaborators (a sink write, a formatter call, a
 * callback, a close call) is an `Event` appended to a `Trace`. The pure functions
 * `FormatTrace` and `CloseTrace` give the events one call produces; the lemmas below
 * state what those events are; the class methods are proved to append exactly them.
 */
module Engine {
  import opened Wrappers
  import opened DotNet

  /** The engine value (`DbgEngineValueImpl`): owns exactly one runtime value. */
  class EngineValue {
    const dotNetValue: DotNetValue

    constructor (dotNetValue: DotNetValue)
      ensures this.dotNetValue == dotNetValue
    {
      this.dotNetValue := dotNetValue;
    }
  }

  /** The outcome of an assignment (`DbgEngineValueNodeAssignmentResult`). */
  datatype AssignmentResult = Assigned | AssignmentFailed(error: string)

  /** The exception the constructor throws for a null argument. */
  datatype ArgumentNullException = ArgumentNullException(paramName: string)

  /** The four outputs of a format request, in the order `FormatCore` visits them. */
  datatype Sink = NameOutput | ExpectedTypeOutput | ActualTypeOutput | ValueOutput

  function Rank(s: Sink): nat {
    match s
    case NameOutput => 0
    case ExpectedTypeOutput => 1
    case ActualTypeOutput => 2
    case ValueOutput => 3
  }

  /** What is written to one sink. `WriteError` is a write in the Error text colour. */
  datatype SinkCall =
    | WriteName(name: string)
    | FormatType(dmdType: DmdType, bound: Option<DotNetValue>, typeOptions: TypeFormatterOptions)
    | FormatValue(value: DotNetValue, valueOptions: ValueFormatterOptions)
    | WriteError(text: string)

  /** One effect on a collaborator, as it would be observed from outside the node. */
  datatype Event =
    | Write(sink: Sink, writer: TextWriter, call: SinkCall)
    | FormatCompleted
    | ChildrenDelivered(children: seq<EngineValueNode>)
    | AssignCompleted(result: AssignmentResult)
    | CloseNode(node: DotNetValueNode, nodeDispatcher: Dispatcher)
    | CloseValue(value: EngineValue, valueDispatcher: Dispatcher)

  /** The log of effects, shared by everything that observes the node. */
  class Trace {
    var events: seq<Event>

    constructor ()
      ensures events == []
    {
      events := [];
    }
  }

  /** What `FormatCore` reads: the underlying node's name, expected type and error message, and the snapshot value. */
  datatype NodeView = NodeView(
    name: string,
    expectedType: Option<DmdType>,
    errorMessage: Option<string>,
    dnValue: Option<DotNetValue>)

  /** The text written in place of a missing value: the error message, or "???" when there is none. */
  function ErrorText(errorMessage: Option<string>): string {
    errorMessage.GetOr("???")
  }

  /** The bound value passed with the expected type: the value itself only for an array type equal to the value's type. */
  function ExpectedTypeBound(expectedType: DmdType, dnValue: Option<DotNetValue>): Option<DotNetValue> {
    if expectedType.isArray && dnValue.Some? && dnValue.value.valueType == Some(expectedType) then dnValue else None
  }

  function NameWrites(v: NodeView, p: FormatParameters): seq<Event> {
    if p.nameOutput.Some? then [Write(NameOutput, p.nameOutput.value, WriteName(v.name))] else []
  }

  function ExpectedTypeWrites(v: NodeView, p: FormatParameters): seq<Event> {
    if p.expectedTypeOutput.Some? && v.expectedType.Some? then
      [Write(ExpectedTypeOutput, p.expectedTypeOutput.value,
             FormatType(v.expectedType.value, ExpectedTypeBound(v.expectedType.value, v.dnValue),
                        p.expectedTypeFormatterOptions))]
    else []
  }

  function ActualTypeWrites(v: NodeView, p: FormatParameters): seq<Event> {
    if p.actualTypeOutput.Some? && v.dnValue.Some? && v.dnValue.value.valueType.Some? then
      [Write(ActualTypeOutput, p.actualTypeOutput.value,
             FormatType(v.dnValue.value.valueType.value, v.dnValue, p.actualTypeFormatterOptions))]
    else []
  }

  function ValueWrites(v: NodeView, p: FormatParameters): seq<Event> {
    if p.valueOutput.Some? then
      if v.dnValue.Some? then [Write(ValueOutput, p.valueOutput.value, FormatValue(v.dnValue.value, p.valueFormatterOptions))]
      else [Write(ValueOutput, p.valueOutput.value, WriteError(ErrorText(v.errorMessage)))]
    else []
  }

  /** The events of one `FormatCore` call: the four sinks, each when requested, in order. */
  function FormatTrace(v: NodeView, p: FormatParameters): seq<Event> {
    NameWrites(v, p) + ExpectedTypeWrites(v, p) + ActualTypeWrites(v, p) + ValueWrites(v, p)
  }

  /** The events of the asynchronous `Format`: `FormatCore`, then the callback. */
  function FormatAsyncTrace(v: NodeView, p: FormatParameters): seq<Event> {
    FormatTrace(v, p) + [FormatCompleted]
  }

  /** The events of one `CloseCore` call. */
  function CloseTrace(node: DotNetValueNode, value: Option<EngineValue>, dispatcher: Dispatcher): seq<Event> {
    [CloseNode(node, dispatcher)] + if value.Some? then [CloseValue(value.value, dispatcher)] else []
  }

  /** The events of a trace that were written to sink `s`, in order. */
  function Only(trace: seq<Event>, s: Sink): seq<Event> {
    if trace == [] then []
    else (if trace[0].Write? && trace[0].sink == s then [trace[0]] else []) + Only(trace[1..], s)
  }

  /** Every event is a sink write, and the sinks' ranks strictly increase along the trace. */
  predicate SinkOrdered(trace: seq<Event>) {
    (forall e :: e in trace ==> e.Write?) &&
    forall i, j :: 0 <= i < j < |trace| ==> Rank(trace[i].sink) < Rank(trace[j].sink)
  }

  lemma {:induction false} OnlyAppend(a: seq<Event>, b: seq<Event>, s: Sink)
    ensures Only(a + b, s) == Only(a, s) + Only(b, s)
  {
    if a == [] {
      assert a + b == b;
    } else {
      assert (a + b)[0] == a[0];
      assert (a + b)[1..] == a[1..] + b;
      OnlyAppend(a[1..], b, s);
    }
  }

  /** A trace of at most one event keeps that event exactly when it is a write to `s`. */
  lemma OnlyShort(t: seq<Event>, s: Sink)
    requires |t| <= 1
    ensures Only(t, s) == if t != [] && t[0].Write? && t[0].sink == s then t else []
  {
    if t != [] {
      assert t[1..] == [];
    }
  }

  /** A segment of at most one event, every event of which is a write to sink `s`. */
  predicate WritesOnlyTo(t: seq<Event>, s: Sink) {
    |t| <= 1 && forall e :: e in t ==> e.Write? && e.sink == s
  }

  /** Each of the four segments of a format trace writes to its own sink only. */
  lemma SegmentSinks(v: NodeView, p: FormatParameters)
    ensures WritesOnlyTo(NameWrites(v, p), NameOutput)
    ensures WritesOnlyTo(ExpectedTypeWrites(v, p), ExpectedTypeOutput)
    ensures WritesOnlyTo(ActualTypeWrites(v, p), ActualTypeOutput)
    ensures WritesOnlyTo(ValueWrites(v, p), ValueOutput)
  {
  }

  /** A segment that writes to sink `s'` only projects on `s` to itself or to nothing. */
  lemma OnlyOfSegment(t: seq<Event>, s': Sink, s: Sink)
    requires WritesOnlyTo(t, s')
    ensures Only(t, s) == if s == s' then t else []
  {
    OnlyShort(t, s);
  }

  /** Four single-sink segments, one per sink: projecting their concatenation on a sink gives that sink's segment. */
  lemma OnlyOfSegments(n: seq<Event>, x: seq<Event>, a: seq<Event>, w: seq<Event>, s: Sink)
    requires WritesOnlyTo(n, NameOutput) && WritesOnlyTo(x, ExpectedTypeOutput)
    requires WritesOnlyTo(a, ActualTypeOutput) && WritesOnlyTo(w, ValueOutput)
    ensures Only(n + x + a + w, s) ==
      match s
      case NameOutput => n
      case ExpectedTypeOutput => x
      case ActualTypeOutput => a
      case ValueOutput => w
  {
    OnlyAppend(n + x + a, w, s);
    OnlyAppend(n + x, a, s);
    OnlyAppend(n, x, s);
    OnlyOfSegment(n, NameOutput, s);
    OnlyOfSegment(x, ExpectedTypeOutput, s);
    OnlyOfSegment(a, ActualTypeOutput, s);
    OnlyOfSegment(w, ValueOutput, s);
    assert Only(n + x + a + w, s) == Only(n, s) + Only(x, s) + Only(a, s) + Only(w, s);
    match s
    case NameOutput => assert Only(n + x + a + w, s) == n + [] + [] + [];
    case ExpectedTypeOutput => assert Only(n + x + a + w, s) == [] + x + [] + [];
    case ActualTypeOutput => assert Only(n + x + a + w, s) == [] + [] + a + [];
    case ValueOutput => assert Only(n + x + a + w, s) == [] + [] + [] + w;
  }

  /** Four single-sink segments in the order name, expected type, actual type, value are sink-ordered. */
  lemma OrderedSegments(n: seq<Event>, x: seq<Event>, a: seq<Event>, w: seq<Event>)
    requires WritesOnlyTo(n, NameOutput) && WritesOnlyTo(x, ExpectedTypeOutput)
    requires WritesOnlyTo(a, ActualTypeOutput) && WritesOnlyTo(w, ValueOutput)
    ensures SinkOrdered(n + x + a + w)
  {
    var t := n + x + a + w;
    forall i, j | 0 <= i < j < |t| ensures Rank(t[i].sink) < Rank(t[j].sink) {
      assert |n| <= j && i < |n| + |x| + |a|;
      var ri := if i < |n| then 0 else if i < |n| + |x| then 1 else 2;
      var rj := if j < |n| + |x| then 1 else if j < |n| + |x| + |a| then 2 else 3;
      assert Rank(t[i].sink) == ri by {
        if i < |n| { assert t[i] in n; }
        else if i < |n| + |x| { assert t[i] == x[i - |n|]; }
        else { assert t[i] == a[i - |n| - |x|]; }
      }
      assert Rank(t[j].sink) == rj by {
        if j < |n| + |x| { assert t[j] == x[j - |n|]; }
        else if j < |n| + |x| + |a| { assert t[j] == a[j - |n| - |x|]; }
        else { assert t[j] == w[j - |n| - |x| - |a|]; }
      }
    }
    forall e | e in t ensures e.Write? {
      assert e in n || e in x || e in a || e in w;
    }
  }

  /** Projecting the format trace on one sink gives that sink's own writes. */
  lemma OnlyFormatTrace(v: NodeView, p: FormatParameters, s: Sink)
    ensures Only(FormatTrace(v, p), s) ==
      match s
      case NameOutput => NameWrites(v, p)
      case ExpectedTypeOutput => ExpectedTypeWrites(v, p)
      case ActualTypeOutput => ActualTypeWrites(v, p)
      case ValueOutput => ValueWrites(v, p)
  {
    SegmentSinks(v, p);
    OnlyOfSegments(NameWrites(v, p), ExpectedTypeWrites(v, p), ActualTypeWrites(v, p), ValueWrites(v, p), s);
  }

  /** The name sink receives exactly one write, of the node's name, when it is requested, and nothing otherwise. */
  lemma NameSinkRule(v: NodeView, p: FormatParameters)
    ensures Only(FormatTrace(v, p), NameOutput) ==
      if p.nameOutput.Some? then [Write(NameOutput, p.nameOutput.value, WriteName(v.name))] else []
  {
    OnlyFormatTrace(v, p, NameOutput);
  }

  /** The expected-type sink gets one type-format call, of the declared expected type, exactly when it is requested and a type is declared. */
  lemma ExpectedTypeSinkRule(v: NodeView, p: FormatParameters)
    ensures var es := Only(FormatTrace(v, p), ExpectedTypeOutput);
      |es| == (if p.expectedTypeOutput.Some? && v.expectedType.Some? then 1 else 0) &&
      forall e :: e in es ==>
        e.Write? && e.call.FormatType? && Some(e.writer) == p.expectedTypeOutput &&
        Some(e.call.dmdType) == v.expectedType && e.call.typeOptions == p.expectedTypeFormatterOptions
  {
    OnlyFormatTrace(v, p, ExpectedTypeOutput);
  }

  /**
   * The expected type is formatted with the value as its bound exactly when that type is an
   * array type equal to the value's type; otherwise with no bound.
   */
  lemma ArrayBoundRule(v: NodeView, p: FormatParameters)
    ensures forall e :: e in Only(FormatTrace(v, p), ExpectedTypeOutput) ==>
      e.Write? && e.call.FormatType? &&
      (e.call.bound.Some? <==>
         e.call.dmdType.isArray && v.dnValue.Some? && v.dnValue.value.valueType == Some(e.call.dmdType)) &&
      (e.call.bound.Some? ==> e.call.bound == v.dnValue)
  {
    OnlyFormatTrace(v, p, ExpectedTypeOutput);
  }

  /** The actual-type sink gets one type-format call exactly when it is requested and a typed value is present: that type, bound to that value. */
  lemma ActualTypeSinkRule(v: NodeView, p: FormatParameters)
    ensures var es := Only(FormatTrace(v, p), ActualTypeOutput);
      |es| == (if p.actualTypeOutput.Some? && v.dnValue.Some? && v.dnValue.value.valueType.Some? then 1 else 0) &&
      forall e :: e in es ==>
        e.Write? && e.call.FormatType? && Some(e.writer) == p.actualTypeOutput &&
        e.call.bound == v.dnValue && e.call.bound.Some? &&
        e.call.bound.value.valueType == Some(e.call.dmdType) &&
        e.call.typeOptions == p.actualTypeFormatterOptions
  {
    OnlyFormatTrace(v, p, ActualTypeOutput);
  }

  /**
   * The value sink gets exactly one write when requested: the value formatted when it is
   * present, otherwise the error message (or "???") in the Error colour.
   */
  lemma ValueSinkRule(v: NodeView, p: FormatParameters)
    ensures var es := Only(FormatTrace(v, p), ValueOutput);
      |es| == (if p.valueOutput.Some? then 1 else 0) &&
      forall e :: e in es ==>
        e.Write? && Some(e.writer) == p.valueOutput &&
        (v.dnValue.Some? ==> e.call == FormatValue(v.dnValue.value, p.valueFormatterOptions)) &&
        (v.dnValue.None? ==> e.call == WriteError(v.errorMessage.GetOr("???")))
  {
    OnlyFormatTrace(v, p, ValueOutput);
  }

  /** The formatter's value path is only ever called on the value sink, with the snapshot value; so never when there is none. */
  lemma FormatValueOnlyWithValue(v: NodeView, p: FormatParameters)
    ensures forall e :: e in FormatTrace(v, p) && e.Write? && e.call.FormatValue? ==>
      e.sink == ValueOutput && v.dnValue == Some(e.call.value)
    ensures v.dnValue.None? ==> forall e :: e in FormatTrace(v, p) ==> !(e.Write? && e.call.FormatValue?)
  {
  }

  /** `FormatCore` only writes to sinks, at most once each, in the order name, expected type, actual type, value. */
  lemma FormatSinkOrder(v: NodeView, p: FormatParameters)
    ensures SinkOrdered(FormatTrace(v, p))
  {
    SegmentSinks(v, p);
    OrderedSegments(NameWrites(v, p), ExpectedTypeWrites(v, p), ActualTypeWrites(v, p), ValueWrites(v, p));
  }

  /** The asynchronous `Format` invokes its callback exactly once, after every sink write. */
  lemma FormatCallbackLast(v: NodeView, p: FormatParameters)
    ensures var t := FormatAsyncTrace(v, p);
      forall i :: 0 <= i < |t| ==> (t[i] == FormatCompleted <==> i == |t| - 1) && (i < |t| - 1 ==> t[i].Write?)
  {
  }

  /** `CloseCore` closes the underlying node first, then the value only if there is one, each once, with the given dispatcher. */
  lemma CloseOrder(node: DotNetValueNode, value: Option<EngineValue>, dispatcher: Dispatcher)
    ensures var t := CloseTrace(node, value, dispatcher);
      |t| == (if value.Some? then 2 else 1) &&
      t[0] == CloseNode(node, dispatcher) &&
      forall i :: 0 < i < |t| ==> value == Some(t[i].value) && t[i] == CloseValue(value.value, dispatcher)
  {
  }

  /** The engine-side node. Its fields are C# `readonly`, so they are `const` here. */
  class EngineValueNode {
    const formatter: Formatter
    const dnValueNode: DotNetValueNode
    /** The snapshot of the underlying node's value, taken once by the constructor. */
    const value: Option<EngineValue>

    // The accessors below read the raw node's property at the time of the call; only
    // `Value` returns the snapshot taken by the constructor.

    function ErrorMessage(): (r: Option<string>) reads dnValueNode
      ensures r == dnValueNode.errorMessage
    { dnValueNode.errorMessage }

    function Value(): (r: Option<EngineValue>)
      ensures r == value
    { value }

    function Expression(): (r: string) reads dnValueNode
      ensures r == dnValueNode.expression
    { dnValueNode.expression }

    function ImageName(): (r: string) reads dnValueNode
      ensures r == dnValueNode.imageName
    { dnValueNode.imageName }

    function IsReadOnly(): (r: bool) reads dnValueNode
      ensures r == dnValueNode.isReadOnly
    { dnValueNode.isReadOnly }

    function CausesSideEffects(): (r: bool) reads dnValueNode
      ensures r == dnValueNode.causesSideEffects
    { dnValueNode.causesSideEffects }

    function HasChildren(): (r: Option<bool>) reads dnValueNode
      ensures r == dnValueNode.hasChildren
    { dnValueNode.hasChildren }

    function ChildCount(): (r: u64) reads dnValueNode
      ensures r == dnValueNode.childCount
    { dnValueNode.childCount }

    /** The runtime value behind the snapshot (`value?.DotNetValue`): absent exactly when the snapshot is. */
    function DotNetValueOf(): (r: Option<DotNetValue>)
      ensures r.None? <==> value.None?
      ensures r.Some? ==> r.value == value.value.dotNetValue
    {
      if value.Some? then Some(value.value.dotNetValue) else None
    }

    /** What `FormatCore` reads: the raw node's name, expected type and error message at the time of the call, and the snapshot value. */
    function View(): (r: NodeView) reads dnValueNode
      ensures r.name == dnValueNode.name && r.expectedType == dnValueNode.expectedType
      ensures r.errorMessage == ErrorMessage() && r.dnValue == DotNetValueOf()
    {
      NodeView(dnValueNode.name, dnValueNode.expectedType, ErrorMessage(), DotNetValueOf())
    }

    /** Wraps the underlying node's current value, if any, in a new engine value. */
    constructor (formatter: Formatter, dnValueNode: DotNetValueNode)
      ensures this.formatter == formatter && this.dnValueNode == dnValueNode
      ensures value.None? <==> dnValueNode.value.None?
      ensures value.Some? ==> fresh(value.value) && Some(value.value.dotNetValue) == dnValueNode.value
      ensures DotNetValueOf() == dnValueNode.value
    {
      this.formatter := formatter;
      var dnValue := dnValueNode.value;
      if dnValue.Some? {
        var wrapped := new EngineValue(dnValue.value);
        value := Some(wrapped);
      } else {
        value := None;
      }
      this.dnValueNode := dnValueNode;
    }

    /** The constructor with its argument checks: a null node is reported before a null formatter. */
    static method Create(formatter: Formatter?, dnValueNode: DotNetValueNode?)
      returns (r: Result<EngineValueNode, ArgumentNullException>)
      ensures r.Failure? <==> formatter == null || dnValueNode == null
      ensures dnValueNode == null ==> r == Failure(ArgumentNullException("dnValueNode"))
      ensures dnValueNode != null && formatter == null ==> r == Failure(ArgumentNullException("formatter"))
      ensures r.Success? ==> fresh(r.value) && r.value.formatter == formatter && r.value.dnValueNode == dnValueNode
      ensures r.Success? ==> r.value.DotNetValueOf() == dnValueNode.value
    {
      if dnValueNode == null {
        return Failure(ArgumentNullException("dnValueNode"));
      }
      if formatter == null {
        return Failure(ArgumentNullException("formatter"));
      }
      var node := new EngineValueNode(formatter, dnValueNode);
      r := Success(node);
    }

    /** Children are not implemented: the result is empty whatever the index and count. */
    method GetChildren(index: u64, count: i32) returns (children: seq<EngineValueNode>)
      ensures |children| == 0
    {
      children := [];
    }

    /** The asynchronous form hands the same empty array to its callback. */
    method GetChildrenAsync(index: u64, count: i32, trace: Trace)
      modifies trace
      ensures trace.events == old(trace.events) + [ChildrenDelivered([])]
    {
      trace.events := trace.events + [ChildrenDelivered([])];
    }

    /** Writes the requested sinks, in order, from the snapshot value and the underlying node. */
    method FormatCore(p: FormatParameters, trace: Trace)
      modifies trace
      ensures trace.events == old(trace.events) + FormatTrace(View(), p)
    {
      ghost var before, v := trace.events, View();
      var name, declaredType, errorMessage := dnValueNode.name, dnValueNode.expectedType, ErrorMessage();
      var dnValue := if value.Some? then Some(value.value.dotNetValue) else None;
      // `written` is what this call has appended so far, as a prefix of the format trace.
      ghost var written: seq<Event> := [];
      assert v == NodeView(name, declaredType, errorMessage, dnValue);
      if p.nameOutput.Some? {
        var event := Write(NameOutput, p.nameOutput.value, WriteName(name));
        trace.events := trace.events + [event];
        assert NameWrites(v, p) == [event];
      }
      written := NameWrites(v, p);
      assert trace.events == before + written;
      if p.expectedTypeOutput.Some? && declaredType.Some? {
        var expectedType := declaredType.value;
        var bound := if expectedType.isArray && dnValue.Some? && dnValue.value.valueType == Some(expectedType) then dnValue else None;
        var event := Write(ExpectedTypeOutput, p.expectedTypeOutput.value,
                           FormatType(expectedType, bound, p.expectedTypeFormatterOptions));
        trace.events := trace.events + [event];
        assert ExpectedTypeWrites(v, p) == [event];
      }
      written := written + ExpectedTypeWrites(v, p);
      assert trace.events == before + written;
      if p.actualTypeOutput.Some? && dnValue.Some? && dnValue.value.valueType.Some? {
        var actualType := dnValue.value.valueType.value;
        var event := Write(ActualTypeOutput, p.actualTypeOutput.value,
                           FormatType(actualType, dnValue, p.actualTypeFormatterOptions));
        trace.events := trace.events + [event];
        assert ActualTypeWrites(v, p) == [event];
      }
      written := written + ActualTypeWrites(v, p);
      assert trace.events == before + written;
      if p.valueOutput.Some? {
        var event;
        if dnValue.Some? {
          event := Write(ValueOutput, p.valueOutput.value, FormatValue(dnValue.value, p.valueFormatterOptions));
        } else {
          var text := if errorMessage.Some? then errorMessage.value else "???";
          event := Write(ValueOutput, p.valueOutput.value, WriteError(text));
        }
        trace.events := trace.events + [event];
        assert ValueWrites(v, p) == [event];
      }
      written := written + ValueWrites(v, p);
      assert trace.events == before + written;
      assert written == FormatTrace(v, p) && View() == v;
    }

    /** The blocking `Format`: runs `FormatCore` on the dispatcher and waits for it. */
    method Format(p: FormatParameters, trace: Trace)
      modifies trace
      ensures trace.events == old(trace.events) + FormatTrace(View(), p)
    {
      FormatCore(p, trace);
    }

    /** The asynchronous `Format`: runs `FormatCore`, then the callback. */
    method FormatAsync(p: FormatParameters, trace: Trace)
      modifies trace
      ensures trace.events == old(trace.events) + FormatAsyncTrace(View(), p)
    {
      FormatCore(p, trace);
      trace.events := trace.events + [FormatCompleted];
    }

    /** Assignment is not implemented: every expression gets the failure "NYI". */
    method Assign(expression: string) returns (r: AssignmentResult)
      ensures r.AssignmentFailed? && r.error == "NYI"
    {
      r := AssignmentFailed("NYI");
    }

    /** The asynchronous form hands the same failure to its callback. */
    method AssignAsync(expression: string, trace: Trace)
      modifies trace
      ensures trace.events == old(trace.events) + [AssignCompleted(AssignmentFailed("NYI"))]
    {
      trace.events := trace.events + [AssignCompleted(AssignmentFailed("NYI"))];
    }

    /** Closes the underlying node, then the snapshot value if there is one. */
    method CloseCore(dispatcher: Dispatcher, trace: Trace)
      modifies trace
      ensures trace.events == old(trace.events) + CloseTrace(dnValueNode, value, dispatcher)
    {
      trace.events := trace.events + [CloseNode(dnValueNode, dispatcher)];
      if Value().Some? {
        trace.events := trace.events + [CloseValue(Value().value, dispatcher)];
      }
    }
  }
}
