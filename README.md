# Engine-side debugger value node

This project models `DbgEngineValueNodeImpl`, the node of dnSpy's variables tree that the .NET
debugger engine hands to the host. The node wraps a raw `DbgDotNetValueNode`. It takes one
snapshot of that node's value when it is constructed, passes the other properties through, and
decides which of the four output sinks of a format request (name, expected type, actual type,
value) it writes, with what, and in what order. Children and assignment are stubs. Closing the
node closes the raw node and then the snapshot value.

Layout:

- `wrappers.dfy`: `Option`, which stands for a C# nullable reference, and `Result`, which stands
  for a constructor that may throw.
- `dotnet.dfy`: the collaborators, as the node sees them. A `DmdType` is only an identity and an
  array flag. A `DotNetValue` only has a type, which may be unknown. The `DotNetValueNode` is a
  class of mutable fields, standing for properties that may change between reads.
- `engine.dfy`: the engine value and the node itself. Every effect on a collaborator is an
  `Event` appended to a shared `Trace`: a write to a sink, a formatter call, a callback or a close
  call. The pure functions `FormatTrace`, `FormatAsyncTrace` and `CloseTrace` give the events of
  one call. The lemmas state what those events are. The class methods are proved to append exactly
  them and to change nothing else.

The node's fields are C# `readonly`, so they are `const` here. The snapshot `value` therefore
can never be reassigned. The delegating accessors (`ErrorMessage`, `Expression`, `ImageName`,
`IsReadOnly`, `CausesSideEffects`, `HasChildren`, `ChildCount`; source lines 33-40) are
functions that read the underlying node's fields at call time, so they follow its changes. `Value`
returns the frozen snapshot.

## Model

| member | source | states |
|---|---|---|
| Engine.EngineValueNode.ErrorMessage | Extensions/dnSpy.Debugger/dnSpy.Debugger.DotNet/Evaluation/Engine/DbgEngineValueNodeImpl.cs:33 | reads the raw node's error message at the time of the call |
| Engine.EngineValueNode.Value | Extensions/dnSpy.Debugger/dnSpy.Debugger.DotNet/Evaluation/Engine/DbgEngineValueNodeImpl.cs:34 | returns the snapshot taken at construction, a `const` that nothing reassigns |
| Engine.EngineValueNode.Expression | Extensions/dnSpy.Debugger/dnSpy.Debugger.DotNet/Evaluation/Engine/DbgEngineValueNodeImpl.cs:35 | reads the raw node's expression at the time of the call |
| Engine.EngineValueNode.ImageName | Extensions/dnSpy.Debugger/dnSpy.Debugger.DotNet/Evaluation/Engine/DbgEngineValueNodeImpl.cs:36 | reads the raw node's image name at the time of the call |
| Engine.EngineValueNode.IsReadOnly | Extensions/dnSpy.Debugger/dnSpy.Debugger.DotNet/Evaluation/Engine/DbgEngineValueNodeImpl.cs:37 | reads the raw node's read-only flag at the time of the call |
| Engine.EngineValueNode.CausesSideEffects | Extensions/dnSpy.Debugger/dnSpy.Debugger.DotNet/Evaluation/Engine/DbgEngineValueNodeImpl.cs:38 | reads the raw node's side-effect flag at the time of the call |
| Engine.EngineValueNode.HasChildren | Extensions/dnSpy.Debugger/dnSpy.Debugger.DotNet/Evaluation/Engine/DbgEngineValueNodeImpl.cs:39 | reads the raw node's three-state children flag (null is unknown) at the time of the call |
| Engine.EngineValueNode.ChildCount | Extensions/dnSpy.Debugger/dnSpy.Debugger.DotNet/Evaluation/Engine/DbgEngineValueNodeImpl.cs:40 | reads the raw node's 64-bit child count at the time of the call |
| Engine.EngineValueNode.DotNetValueOf | Extensions/dnSpy.Debugger/dnSpy.Debugger.DotNet/Evaluation/Engine/DbgEngineValueNodeImpl.cs:77 | the runtime value behind the snapshot is absent exactly when the snapshot is, and otherwise is the value the engine value wraps |
| Engine.EngineValueNode.View | Extensions/dnSpy.Debugger/dnSpy.Debugger.DotNet/Evaluation/Engine/DbgEngineValueNodeImpl.cs:75-89 | what a format call reads: the raw node's name, expected type and error message at the time of the call, and the snapshot's runtime value |
| Engine.EngineValueNode.constructor | Extensions/dnSpy.Debugger/dnSpy.Debugger.DotNet/Evaluation/Engine/DbgEngineValueNodeImpl.cs:46-53 | the node keeps the formatter and the raw node; its value is absent exactly when the raw node's value was null at construction; otherwise it is a fresh engine value wrapping that same runtime value |
| Engine.EngineValueNode.Create | Extensions/dnSpy.Debugger/dnSpy.Debugger.DotNet/Evaluation/Engine/DbgEngineValueNodeImpl.cs:46-49 | a null raw node is rejected with ArgumentNullException("dnValueNode"), checked before a null formatter, which is rejected with ArgumentNullException("formatter"); with both present a fresh node is built whose snapshot is the raw node's value |
| Engine.EngineValueNode.GetChildren | Extensions/dnSpy.Debugger/dnSpy.Debugger.DotNet/Evaluation/Engine/DbgEngineValueNodeImpl.cs:55-57 | the synchronous form returns no children, whatever the index and count |
| Engine.EngineValueNode.GetChildrenAsync | Extensions/dnSpy.Debugger/dnSpy.Debugger.DotNet/Evaluation/Engine/DbgEngineValueNodeImpl.cs:59-61 | the asynchronous form's only effect is one callback with an empty array |
| Engine.EngineValueNode.FormatCore | Extensions/dnSpy.Debugger/dnSpy.Debugger.DotNet/Evaluation/Engine/DbgEngineValueNodeImpl.cs:73-90 | appends exactly the events of FormatTrace for the node as it is at the call, and changes nothing but the trace |
| Engine.EngineValueNode.Format | Extensions/dnSpy.Debugger/dnSpy.Debugger.DotNet/Evaluation/Engine/DbgEngineValueNodeImpl.cs:63-64 | the blocking form has exactly the effects of FormatCore |
| Engine.EngineValueNode.FormatAsync | Extensions/dnSpy.Debugger/dnSpy.Debugger.DotNet/Evaluation/Engine/DbgEngineValueNodeImpl.cs:66-71 | the asynchronous form has the effects of FormatCore followed by one callback, provided every collaborator call returns normally |
| Engine.EngineValueNode.Assign | Extensions/dnSpy.Debugger/dnSpy.Debugger.DotNet/Evaluation/Engine/DbgEngineValueNodeImpl.cs:93-95 | every expression gets a failed assignment whose error is "NYI" |
| Engine.EngineValueNode.AssignAsync | Extensions/dnSpy.Debugger/dnSpy.Debugger.DotNet/Evaluation/Engine/DbgEngineValueNodeImpl.cs:97-99 | the asynchronous form's only effect is one callback with that same "NYI" failure |
| Engine.EngineValueNode.CloseCore | Extensions/dnSpy.Debugger/dnSpy.Debugger.DotNet/Evaluation/Engine/DbgEngineValueNodeImpl.cs:101-104 | appends exactly the events of CloseTrace for the raw node and the snapshot value, and changes nothing else, provided the close calls return normally |
| Engine.NameSinkRule | Extensions/dnSpy.Debugger/dnSpy.Debugger.DotNet/Evaluation/Engine/DbgEngineValueNodeImpl.cs:75-76 | the name sink receives exactly one write, of the node's name, when it is requested, and nothing when it is not |
| Engine.ExpectedTypeSinkRule | Extensions/dnSpy.Debugger/dnSpy.Debugger.DotNet/Evaluation/Engine/DbgEngineValueNodeImpl.cs:78-82 | the expected-type sink gets one FormatType call exactly when it is requested and the raw node declares an expected type; that call carries the declared type, the requested writer and the expected-type options |
| Engine.ArrayBoundRule | Extensions/dnSpy.Debugger/dnSpy.Debugger.DotNet/Evaluation/Engine/DbgEngineValueNodeImpl.cs:79-81 | the expected type is passed with the value as bound exactly when it is an array type equal to the value's type, and with no bound otherwise |
| Engine.ActualTypeSinkRule | Extensions/dnSpy.Debugger/dnSpy.Debugger.DotNet/Evaluation/Engine/DbgEngineValueNodeImpl.cs:83-84 | the actual-type sink gets one FormatType call exactly when it is requested and a value with a known type is present; the call formats that type with the value as bound |
| Engine.ValueSinkRule | Extensions/dnSpy.Debugger/dnSpy.Debugger.DotNet/Evaluation/Engine/DbgEngineValueNodeImpl.cs:85-90 | when the value sink is requested it gets exactly one write: FormatValue of the snapshot when there is one, otherwise an Error-coloured write of the error message, or of "???" when there is none |
| Engine.FormatValueOnlyWithValue | Extensions/dnSpy.Debugger/dnSpy.Debugger.DotNet/Evaluation/Engine/DbgEngineValueNodeImpl.cs:85-90 | FormatValue is only ever called on the value sink with the snapshot value, so never when no value is present |
| Engine.FormatSinkOrder | Extensions/dnSpy.Debugger/dnSpy.Debugger.DotNet/Evaluation/Engine/DbgEngineValueNodeImpl.cs:73-90 | a format call only writes to sinks, each at most once, in the order name, expected type, actual type, value |
| Engine.FormatCallbackLast | Extensions/dnSpy.Debugger/dnSpy.Debugger.DotNet/Evaluation/Engine/DbgEngineValueNodeImpl.cs:66-71 | in the asynchronous form, when every collaborator call returns normally, the callback happens exactly once, as the last event, after every sink write |
| Engine.CloseOrder | Extensions/dnSpy.Debugger/dnSpy.Debugger.DotNet/Evaluation/Engine/DbgEngineValueNodeImpl.cs:101-104 | the raw node is closed first, once; when that close returns normally, the value is closed after it, once, only if it is present; both get the same dispatcher |

## Left out

- Dispatcher thread affinity (`Dispatcher.Invoke`, `BeginInvoke` and `VerifyAccess`, lines 64, 67 and 74) is a concurrency guard. It is not modelled; `Format` and `FormatAsync` simply run `FormatCore`.
- The evaluation context and the cancellation token are only passed through to the formatter or ignored, so they are not parameters of the model. The same holds for the evaluation options of `GetChildren` and `Assign`.
- The formatter's own output and `Name.WriteTo` render text that this file never sees. They appear only as opaque events, and the node's display name is a plain string.
- `DmdType` is only an identity and an array flag. The metadata type system is not part of this model.
- Text colours other than the Error colour are not modelled.
- Closing the engine value (`DbgEngineValueImpl.Close`) is recorded as one event. What it does in turn is not part of this model.
- There is no guard against a second close, because the source has none. Calling `CloseCore` twice appends the close events twice.
- Children enumeration and assignment are modelled as the stubs the code contains: always empty, and always the "NYI" failure. The `//TODO:` comments at DbgEngineValueNodeImpl.cs:56, 60, 94 and 98 mark these as unfinished.
- Exceptions from collaborators are not modelled: every collaborator call is assumed to return normally. These calls are `Name.WriteTo`, `FormatType`, `FormatValue`, `Write`, `dnValueNode.Close` and `Value.Close`.
- FormatAsync: if a call inside `FormatCore` throws (for instance `FormatValue` when its cancellation token fires), the source's asynchronous lambda stops. Later sinks are not written, and the callback at line 69 never runs. The model does not capture this.
- FormatCallbackLast: "exactly once, last" holds only when every collaborator call inside `FormatCore` returns.
- CloseCore: if `dnValueNode.Close` at line 102 throws, the source never closes the value at line 103. The model does not capture this.
- CloseOrder: "each closed once" holds only when the first close returns.
