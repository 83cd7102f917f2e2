# xk6-protobuffer message layer, modelled in Dafny

This project models the runtime-typed protobuf message layer of xk6-protobuffer
(`protobuffer.go`). It has two parts:

- **The registry (`ProtoBuffer`).** It holds a schema compiler and a map from message-type name to handle.
  - `Load` compiles one schema file and looks the type up among the top-level messages of the first compiled file only.
  - On success it registers a fresh zero-valued handle under that name. Any earlier handle of that name is overwritten.
  - It fails on a compiler error, on an empty file list and on an unknown type. A failed `Load` leaves the map unchanged.
- **The handle (`ProtoMessage`).** It pairs a message descriptor with one dynamic instance.
  - `SetField` resolves the field name. It then dispatches on the field's kind (int64, int32, string, anything else) and on the Go type of the input. It either refuses, or writes the coerced value into that field. For the fields the model covers (singular, outside any oneof, no explicit default), no other field changes.
  - `GetField` reads a field without changing anything.
  - `Encode` and `Decode` fail with `NilMessage` when the handle has no instance. Otherwise they hand over to the wire codec.

Modules:

- `Errors` (errors.dfy) holds the error kinds and the result wrappers.
- `GoTypes` (go_types.dfy) holds the Go values that reach `SetField` through `interface{}`, and Go's integer conversions on a 64-bit platform. `int` is 64 bits wide, so `int64(v)` is the identity and `int32(v)` wraps modulo 2^32.
- `ProtoLib` (proto_lib.dfy) holds the library interfaces the layer calls: descriptors, the dynamic instance, the compiler and the codec. The compiler and the codec appear as function values.
- `Protobuffer` (protobuffer.dfy) holds the core: the dispatch table, the handle and the registry. It also gives a specification of a sequence of `SetField` calls (`AfterSets`) with lemmas about it.
- `Example` (example.dfy) holds the host script's flow: load twice, set, encode, decode, get. It is proved against any codec that round-trips.

The compiler is a parameter of the registry, a function from source path to compilation result. The codec is a parameter of `Encode` and `Decode`. Their own behaviour is not modelled. The encode/decode round trip is the hypothesis `RoundTrips`, not a theorem.

A 32-bit field accepts an `int`, an `int32` or a `float64`, but not an `int64`, while a 64-bit field accepts an `int64` (protobuffer.go:94-104). The model keeps this asymmetry.

## Model

| member | source | states |
|---|---|---|
| GoTypes.Int32Of | protobuffer.go:97 | `int32(v)` of an int gives an int32 congruent to `v` modulo 2^32, equal to `v` when `v` already fits |
| GoTypes.Int32OfIsUnique | protobuffer.go:97 | the wrapped value is the only int32 congruent to the input modulo 2^32, so two's-complement narrowing is fully determined |
| GoTypes.Int64OfFloat | protobuffer.go:89 | `int64(f)` is an int64, and equals the truncated value when that fits |
| GoTypes.Int32OfFloat | protobuffer.go:101 | `int32(f)` is an int32, and equals the truncated value when that fits |
| ProtoLib.Zero | protobuffer.go:53 | the zero value of every kind is a value of that kind |
| ProtoLib.ZeroInstance | protobuffer.go:53 | a new instance holds every field of its type, and only those, each at its kind's zero value |
| ProtoLib.DynamicMessage.constructor | protobuffer.go:53 | `dynamicpb.NewMessage` gives a well-typed zero-valued instance of the descriptor |
| ProtoLib.DynamicMessage.Get | protobuffer.go:126 | reading a field yields a value of the field's kind |
| ProtoLib.DynamicMessage.Set | protobuffer.go:117 | writing replaces exactly the named field and keeps the instance well-typed |
| Protobuffer.Coerce | protobuffer.go:81-115 | an input is accepted exactly when its Go type is in the kind's accepted set (int64: int/int64/float64; int32: int/int32/float64; string: string; any other kind: none); a refusal is TypeMismatch, or Unsupported for other kinds; an accepted value fits the kind; int and int64 go into int64 fields unchanged; an int goes into an int32 field congruent modulo 2^32 and unchanged when in range; an int32 and a string are stored verbatim; a finite float is stored as its truncation when that fits |
| Protobuffer.ProtoValue | protobuffer.go:75-115 | SetField succeeds exactly when the field exists and its kind accepts the input's type; an unknown field is FieldNotFound; the value written fits the field's kind |
| Protobuffer.AfterSet | protobuffer.go:117 | after one call the instance stays well-typed; a failed call changes nothing; a successful one gives the named field the coerced value and leaves every other field as it was |
| Protobuffer.AfterSets | protobuffer.go:74-119 | a sequence of SetField calls keeps the instance well-typed |
| Protobuffer.UntouchedFieldKept | protobuffer.go:117 | a field that no successful call in a sequence names keeps its value; calls naming it that fail leave it alone |
| Protobuffer.NeverSetReadsZero | protobuffer.go:53 | on a freshly loaded handle, a field no successful call has set reads as its kind's zero value |
| Protobuffer.LastSuccessfulSetWins | protobuffer.go:117 | a field holds the value of the last successful call that named it, whatever later calls naming it that failed |
| Protobuffer.FailedSetsChangeNothing | protobuffer.go:75-115 | calls that all fail leave the instance unchanged |
| Protobuffer.UnsupportedFieldNeverChanges | protobuffer.go:113-114 | a field of a kind other than int64, int32 or string keeps its value under any sequence of calls |
| Protobuffer.ProtoMessage.constructor | protobuffer.go:51-54 | a new handle has the found descriptor and a fresh zero-valued instance of it |
| Protobuffer.ProtoMessage.Encode | protobuffer.go:60-65 | fails with NilMessage exactly when there is no instance; otherwise returns the codec's bytes, or CodecFailed when the codec fails |
| Protobuffer.ProtoMessage.Decode | protobuffer.go:67-72 | fails with NilMessage exactly when there is no instance; otherwise the instance holds what the codec read and the call passes exactly when the codec succeeded |
| Protobuffer.ProtoMessage.GetField | protobuffer.go:121-127 | succeeds exactly for the fields of the type, with FieldNotFound otherwise; returns the field's current value, a value of its kind; changes nothing |
| Protobuffer.ProtoMessage.SetField | protobuffer.go:74-119 | passes exactly when ProtoValue succeeds and fails with its error otherwise; the new instance is AfterSet of the old one, so a failure changes nothing and a success changes only the named field; a following GetField returns the stored value |
| Protobuffer.LookUpMessage | protobuffer.go:38-49 | succeeds exactly when compilation succeeds with at least one file and the first compiled file's top-level messages include the type, and returns that descriptor; otherwise CompileFailed, NoFiles or TypeNotFound, in that order |
| Protobuffer.ProtoBuffer.constructor | protobuffer.go:23-30 | a new registry has the given compiler and no handles |
| Protobuffer.ProtoBuffer.Load | protobuffer.go:37-58 | fails exactly when LookUpMessage does, with its error, leaving the registry unchanged; on success returns a fresh valid zero-valued handle of the found descriptor and registers it under the type name, overwriting any earlier entry and keeping every other entry |
| Example.WrongTypedSetKeepsEarlierValue | protobuffer.go:106-117 | an int32 field set to 30 and then given a string still holds 30 |
| Example.ExampleScript | example.js:4-17 | with a codec that round-trips, the values set on one handle are read back from a second handle of the same type after encode and decode |

## Left out

- Module registration with the k6 host (protobuffer.go:14-16) is host plumbing.
- The schema compiler's parsing and import resolution are a foreign library. The compiler is a function from path to result over a file system that does not change. The context argument is dropped.
- The wire format is not modelled. `proto.Marshal` and `proto.Unmarshal` are the function values of `Codec`. The round trip is the hypothesis `RoundTrips` about a codec, which `Example.ExampleScript` requires.
- Protobuffer.ProtoMessage.Decode: the codec's failure cases are opaque. After a failed decode the instance holds whatever the codec left in it.
- GoTypes.Int64OfFloat, GoTypes.Int32OfFloat: a float64 is kept only as its truncation toward zero. NaN, the infinities and out-of-range values convert to an implementation-dependent value in Go. The model picks the most negative integer of the target width and promises only that the result fits.
- Error message texts and their `%T` formatting are out of scope. Errors are kinds.
- Protobuffer.ProtoMessage.GetField: when the handle has no instance, Go dereferences nil and panics. The model requires an instance.
- Protobuffer.ProtoMessage.SetField: Go panics when it writes to a handle with no instance. The model requires an instance on the paths that reach the write, and allows its absence on every path that fails before it.
- Field presence is not modelled. In proto3, writing a zero value clears presence, but a read still returns the zero value.
- Field numbers and full names of descriptors are not modelled. No operation of the layer looks at them.
- Protobuffer.ProtoMessage.SetField: covers only singular fields outside any oneof. A repeated field of kind int64, int32 or string reaches the scalar branches at protobuffer.go:81-111, and the library's `Set` then panics on the scalar value; the model instead stores the value. Writing to a member of a oneof clears the other members in the library; the model keeps them.
- ProtoLib.DynamicMessage.Set: a descriptor is only a map from field name to kind, so oneof membership and repeated cardinality are absent. The "every other field keeps its value" frame holds only for singular, non-oneof fields.
- ProtoLib.ZeroInstance: a never-set proto2 field with an explicit `[default = …]` reads as that default in the library; the model reads it as the kind's zero value. Fields with explicit defaults are not modelled.
- GoTypes.GoValue: a Go string is a byte string, but a Dafny `string` holds only Unicode scalar values, so a string that is not valid UTF-8 cannot be given. This is also why `RoundTrips` can require every well-typed instance to marshal, although proto3 marshalling rejects invalid UTF-8.
- How the host turns script values into Go values is not modelled. Every Go type other than int, int32, int64, float64 and string is `GoOther`.
- Loading a whole file or a directory, rejecting duplicate names, and a lookup of a registered handle by name have no code in protobuffer.go, so they are not modelled.
- The registry keeps no invariant over the handles it already holds. `Load` proves the validity of the handle it creates.
