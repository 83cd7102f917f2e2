/**
  The protobuf libraries the message layer calls into, as the layer sees them:
  compiled descriptors, the dynamic message instance, the schema compiler and the
  wire codec. The compiler and the codec are opaque and appear as function values.
*/
module ProtoLib {
  import opened Errors
  import opened GoTypes

  type Byte = bv8

  /** A field's declared kind; every kind other than int64, int32 and string is OtherKind. */
  datatype Kind = Int64Kind | Int32Kind | StringKind | OtherKind(name: string)

  /** A field value as the reflection layer stores it. */
  datatype Value =
    | Int64Value(n: int)
    | Int32Value(n: int)
    | StringValue(s: string)
    | OtherValue(kindName: string, raw: seq<Byte>)   // a value of an OtherKind field, kept opaque

  /** A compiled message type: its fields by name. */
  datatype MessageDescriptor = MessageDescriptor(fields: map<string, Kind>)

  /** A compiled schema file: its top-level message types by name. */
  datatype FileDescriptor = FileDescriptor(messages: map<string, MessageDescriptor>)

  /** `v` is a value a field of kind `kind` can hold. */
  predicate Fits(kind: Kind, v: Value)
  {
    match kind
    case Int64Kind => v.Int64Value? && InInt64(v.n)
    case Int32Kind => v.Int32Value? && InInt32(v.n)
    case StringKind => v.StringValue?
    case OtherKind(name) => v.OtherValue? && v.kindName == name
  }

  /** The value a field of kind `kind` reads as before anything is written to it. */
  function Zero(kind: Kind): (v: Value)
    ensures Fits(kind, v)
  {
    match kind
    case Int64Kind => Int64Value(0)
    case Int32Kind => Int32Value(0)
    case StringKind => StringValue("")
    case OtherKind(name) => OtherValue(name, [])
  }

  /** `fields` gives every field of `desc`, and only those, a value of the field's kind. */
  predicate WellTyped(desc: MessageDescriptor, fields: map<string, Value>)
  {
    && fields.Keys == desc.fields.Keys
    && forall f :: f in fields ==> Fits(desc.fields[f], fields[f])
  }

  /** The contents of a freshly created instance of `desc`. */
  function ZeroInstance(desc: MessageDescriptor): (fields: map<string, Value>)
    ensures WellTyped(desc, fields)
    ensures forall f :: f in fields ==> fields[f] == Zero(desc.fields[f])
  {
    map f | f in desc.fields :: Zero(desc.fields[f])
  }

  /** A dynamic message: one mutable instance of a message type known only at run time. */
  class DynamicMessage {
    const desc: MessageDescriptor
    var fields: map<string, Value>

    ghost predicate Valid()
      reads this
    {
      WellTyped(desc, fields)
    }

    /** A new zero-valued instance of `desc`. */
    constructor (desc: MessageDescriptor)
      ensures Valid() && this.desc == desc && fields == ZeroInstance(desc)
    {
      this.desc := desc;
      fields := ZeroInstance(desc);
    }

    function Get(field: string): (v: Value)
      reads this
      requires Valid() && field in desc.fields
      ensures Fits(desc.fields[field], v)
    {
      fields[field]
    }

    /** Writes `v` to `field`; the library refuses a value of the wrong kind. */
    method Set(field: string, v: Value)
      requires Valid() && field in desc.fields && Fits(desc.fields[field], v)
      modifies this
      ensures Valid() && fields == old(fields)[field := v]
    {
      fields := fields[field := v];
    }
  }

  /** What the schema compiler returns for one source path. */
  datatype Compilation = Compiled(files: seq<FileDescriptor>) | CompileError

  /** The schema compiler with its source resolver, over a file system that does not change. */
  type Compiler = string -> Compilation

  /** The contents an instance is left with after unmarshalling, and whether that succeeded. */
  datatype Unmarshalled = Unmarshalled(fields: map<string, Value>, ok: bool)

  /** The binary wire codec. */
  datatype Codec = Codec(
    marshal: (MessageDescriptor, map<string, Value>) -> Option<seq<Byte>>,
    unmarshal: (MessageDescriptor, seq<Byte>) -> Unmarshalled)

  /** Unmarshalling always leaves an instance of the requested type. */
  ghost predicate DecodesWellTyped(codec: Codec)
  {
    forall desc, data :: WellTyped(desc, codec.unmarshal(desc, data).fields)
  }

  /**
    What the model assumes of the codec for the round trip: every well-typed instance
    marshals, and unmarshalling its bytes gives back the same field values.
  */
  ghost predicate RoundTrips(codec: Codec)
  {
    && DecodesWellTyped(codec)
    && forall desc, fields :: WellTyped(desc, fields) ==>
         && codec.marshal(desc, fields).Some?
         && codec.unmarshal(desc, codec.marshal(desc, fields).value) == Unmarshalled(fields, true)
  }
}
