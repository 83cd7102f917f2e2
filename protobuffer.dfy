/**
  The runtime-typed message layer: a registry from message-type name to handle
  (ProtoBuffer), and a handle pairing one message descriptor with one dynamic
  instance (ProtoMessage) whose fields are set through a kind-dispatch table.
*/
module Protobuffer {
  import opened Errors
  import opened GoTypes
  import opened ProtoLib

  // ---------------------------------------------------------------------------
  // The SetField dispatch table
  // ---------------------------------------------------------------------------

  /** The Go types SetField accepts for a field of each kind; no type for any other kind. */
  function AcceptedTypes(kind: Kind): set<GoType>
  {
    match kind
    case Int64Kind => {IntType, Int64Type, Float64Type}
    case Int32Kind => {IntType, Int32Type, Float64Type}
    case StringKind => {StringType}
    case OtherKind(_) => {}
  }

  /** The value SetField writes for input `v` into a field of kind `kind`, or why it refuses. */
  function Coerce(kind: Kind, v: GoValue): (r: Result<Value>)
    ensures r.Ok? <==> TypeOf(v) in AcceptedTypes(kind)
    ensures r.Err? ==> r.error == if kind.OtherKind? then Unsupported else TypeMismatch
    ensures r.Ok? ==> Fits(kind, r.value)
    // an int or an int64 goes into an int64 field unchanged
    ensures kind == Int64Kind && v.GoInt? ==> r == Ok(Int64Value(v.i))
    ensures kind == Int64Kind && v.GoInt64? ==> r == Ok(Int64Value(v.i64))
    // an int goes into an int32 field as the int32 congruent to it modulo 2^32, an int32 unchanged
    ensures kind == Int32Kind && v.GoInt? ==> r.Ok? && r.value.n % TWO_TO_32 == v.i % TWO_TO_32
    ensures kind == Int32Kind && v.GoInt? && InInt32(v.i) ==> r == Ok(Int32Value(v.i))
    ensures kind == Int32Kind && v.GoInt32? ==> r == Ok(Int32Value(v.i32))
    // a finite float64 goes into an integer field as its truncation when that fits
    ensures kind == Int64Kind && v.GoFloat64? && v.f.Finite? && InInt64(v.f.truncated)
            ==> r == Ok(Int64Value(v.f.truncated))
    ensures kind == Int32Kind && v.GoFloat64? && v.f.Finite? && InInt32(v.f.truncated)
            ==> r == Ok(Int32Value(v.f.truncated))
    // a string goes into a string field verbatim
    ensures kind == StringKind && v.GoString? ==> r == Ok(StringValue(v.s))
  {
    match kind
    case Int64Kind =>
      (match v
       case GoInt(i) => Ok(Int64Value(i))
       case GoInt64(i) => Ok(Int64Value(i))
       case GoFloat64(f) => Ok(Int64Value(Int64OfFloat(f)))
       case _ => Err(TypeMismatch))
    case Int32Kind =>
      (match v
       case GoInt(i) => Ok(Int32Value(Int32Of(i)))
       case GoInt32(i) => Ok(Int32Value(i))
       case GoFloat64(f) => Ok(Int32Value(Int32OfFloat(f)))
       case _ => Err(TypeMismatch))
    case StringKind =>
      if v.GoString? then Ok(StringValue(v.s)) else Err(TypeMismatch)
    case OtherKind(_) =>
      Err(Unsupported)
  }

  /** SetField's lookup and coercion: the value it would write to `field` of `desc`, or its error. */
  function ProtoValue(desc: MessageDescriptor, field: string, v: GoValue): (r: Result<Value>)
    ensures r.Ok? <==> field in desc.fields && TypeOf(v) in AcceptedTypes(desc.fields[field])
    ensures field !in desc.fields ==> r == Err(FieldNotFound)
    ensures r.Ok? ==> Fits(desc.fields[field], r.value)
  {
    if field !in desc.fields then Err(FieldNotFound) else Coerce(desc.fields[field], v)
  }

  // ---------------------------------------------------------------------------
  // The effect of SetField on an instance, alone and in sequence
  // ---------------------------------------------------------------------------

  /** One SetField call. */
  datatype SetCall = SetCall(field: string, value: GoValue)

  /** The instance contents after one SetField call. */
  function AfterSet(desc: MessageDescriptor, fields: map<string, Value>, c: SetCall): (r: map<string, Value>)
    requires WellTyped(desc, fields)
    ensures WellTyped(desc, r)
    ensures ProtoValue(desc, c.field, c.value).Err? ==> r == fields
    ensures ProtoValue(desc, c.field, c.value).Ok? ==> r[c.field] == ProtoValue(desc, c.field, c.value).value
    ensures forall f :: f in fields && f != c.field ==> r[f] == fields[f]
  {
    match ProtoValue(desc, c.field, c.value)
    case Ok(v) => fields[c.field := v]
    case Err(_) => fields
  }

  /** The instance contents after the SetField calls `calls`, in order. */
  function AfterSets(desc: MessageDescriptor, fields: map<string, Value>, calls: seq<SetCall>): (r: map<string, Value>)
    requires WellTyped(desc, fields)
    ensures WellTyped(desc, r)
    decreases |calls|
  {
    if calls == [] then fields else AfterSets(desc, AfterSet(desc, fields, calls[0]), calls[1..])
  }

  /** A field that no successful call names keeps its value: calls naming it that fail leave it alone. */
  lemma {:induction false} UntouchedFieldKept(desc: MessageDescriptor, fields: map<string, Value>, calls: seq<SetCall>, f: string)
    requires WellTyped(desc, fields) && f in fields
    requires forall k :: 0 <= k < |calls| && calls[k].field == f ==> ProtoValue(desc, f, calls[k].value).Err?
    ensures AfterSets(desc, fields, calls)[f] == fields[f]
    decreases |calls|
  {
    if calls != [] {
      UntouchedFieldKept(desc, AfterSet(desc, fields, calls[0]), calls[1..], f);
    }
  }

  /** On a fresh instance, a field that no successful call names reads as its kind's zero value. */
  lemma NeverSetReadsZero(desc: MessageDescriptor, calls: seq<SetCall>, f: string)
    requires f in desc.fields
    requires forall k :: 0 <= k < |calls| && calls[k].field == f ==> ProtoValue(desc, f, calls[k].value).Err?
    ensures AfterSets(desc, ZeroInstance(desc), calls)[f] == Zero(desc.fields[f])
  {
    UntouchedFieldKept(desc, ZeroInstance(desc), calls, f);
  }

  /** A field holds the value of the last call that named it and succeeded; later calls naming it all failed. */
  lemma {:induction false} LastSuccessfulSetWins(desc: MessageDescriptor, fields: map<string, Value>, calls: seq<SetCall>, k: nat)
    requires WellTyped(desc, fields) && k < |calls|
    requires ProtoValue(desc, calls[k].field, calls[k].value).Ok?
    requires forall j :: k < j < |calls| && calls[j].field == calls[k].field ==>
               ProtoValue(desc, calls[j].field, calls[j].value).Err?
    ensures AfterSets(desc, fields, calls)[calls[k].field] == ProtoValue(desc, calls[k].field, calls[k].value).value
    decreases k
  {
    var next := AfterSet(desc, fields, calls[0]);
    if k == 0 {
      UntouchedFieldKept(desc, next, calls[1..], calls[0].field);
    } else {
      LastSuccessfulSetWins(desc, next, calls[1..], k - 1);
    }
  }

  /** Calls that all fail leave the instance as it was. */
  lemma {:induction false} FailedSetsChangeNothing(desc: MessageDescriptor, fields: map<string, Value>, calls: seq<SetCall>)
    requires WellTyped(desc, fields)
    requires forall k :: 0 <= k < |calls| ==> ProtoValue(desc, calls[k].field, calls[k].value).Err?
    ensures AfterSets(desc, fields, calls) == fields
    decreases |calls|
  {
    if calls != [] {
      FailedSetsChangeNothing(desc, fields, calls[1..]);
    }
  }

  /** A field whose kind is outside int64, int32 and string keeps its value whatever is set. */
  lemma {:induction false} UnsupportedFieldNeverChanges(desc: MessageDescriptor, fields: map<string, Value>, calls: seq<SetCall>, f: string)
    requires WellTyped(desc, fields) && f in desc.fields && desc.fields[f].OtherKind?
    ensures AfterSets(desc, fields, calls)[f] == fields[f]
    decreases |calls|
  {
    if calls != [] {
      UnsupportedFieldNeverChanges(desc, AfterSet(desc, fields, calls[0]), calls[1..], f);
    }
  }

  // ---------------------------------------------------------------------------
  // The handle
  // ---------------------------------------------------------------------------

  /** A message handle: a descriptor fixed at creation and the dynamic instance it describes. */
  class ProtoMessage {
    const messageDesc: MessageDescriptor
    var message: DynamicMessage?

    /** The instance, when present, is of the handle's type. */
    ghost predicate Valid()
      reads this, message
    {
      message != null ==> message.desc == messageDesc && message.Valid()
    }

    /** A handle holding a fresh zero-valued instance of `desc`. */
    constructor (desc: MessageDescriptor)
      ensures Valid() && messageDesc == desc
      ensures message != null && fresh(message) && message.fields == ZeroInstance(desc)
    {
      messageDesc := desc;
      message := new DynamicMessage(desc);
    }

    /** The wire encoding of the instance; fails on a missing instance or when the codec does. */
    method Encode(codec: Codec) returns (r: Result<seq<Byte>>)
      ensures r == Err(NilMessage) <==> message == null
      ensures message != null ==>
                match codec.marshal(message.desc, message.fields)
                case Some(data) => r == Ok(data)
                case None => r == Err(CodecFailed)
    {
      if message == null {
        return Err(NilMessage);
      }
      var data := codec.marshal(message.desc, message.fields);
      if data.None? {
        return Err(CodecFailed);
      }
      return Ok(data.value);
    }

    /** Replaces the instance's contents by the codec's reading of `protoData`. */
    method Decode(codec: Codec, protoData: seq<Byte>) returns (r: Outcome)
      requires Valid() && DecodesWellTyped(codec)
      modifies message
      ensures Valid()
      ensures r == Fail(NilMessage) <==> message == null
      ensures message != null ==>
                && message.fields == codec.unmarshal(messageDesc, protoData).fields
                && (r.Pass? <==> codec.unmarshal(messageDesc, protoData).ok)
                && (r.Fail? ==> r.error == CodecFailed)
    {
      if message == null {
        return Fail(NilMessage);
      }
      var result := codec.unmarshal(message.desc, protoData);
      message.fields := result.fields;
      r := if result.ok then Pass else Fail(CodecFailed);
    }

    /**
      The current value of `field`. The lookup goes through the instance's own
      descriptor, which Valid() ties to the handle's.
    */
    function GetField(field: string): (r: Result<Value>)
      reads this, message
      requires Valid() && message != null
      ensures r.Ok? <==> field in messageDesc.fields
      ensures r.Err? ==> r.error == FieldNotFound
      ensures r.Ok? ==> Fits(messageDesc.fields[field], r.value) && r.value == message.fields[field]
    {
      if field in message.desc.fields then Ok(message.Get(field)) else Err(FieldNotFound)
    }

    /**
      Writes `value`, coerced to the field's kind, into `field`. The instance is
      dereferenced only for the write, so a missing instance is allowed on every
      path that fails before it.
    */
    method SetField(field: string, value: GoValue) returns (r: Outcome)
      requires Valid()
      requires message == null ==> ProtoValue(messageDesc, field, value).Err?
      modifies message
      ensures Valid()
      ensures r.Pass? <==> ProtoValue(messageDesc, field, value).Ok?
      ensures r.Fail? ==> r.error == ProtoValue(messageDesc, field, value).error
      ensures message != null ==> message.fields == AfterSet(messageDesc, old(message.fields), SetCall(field, value))
      ensures r.Pass? ==> GetField(field) == Ok(ProtoValue(messageDesc, field, value).value)
    {
      var protoValue := ProtoValue(messageDesc, field, value);
      if protoValue.Err? {
        return Fail(protoValue.error);
      }
      message.Set(field, protoValue.value);
      return Pass;
    }
  }

  // ---------------------------------------------------------------------------
  // The registry
  // ---------------------------------------------------------------------------

  /**
    Load's lookup: the descriptor of `messageType` among the top-level messages of
    the first compiled file only.
  */
  function LookUpMessage(compiled: Compilation, messageType: string): (r: Result<MessageDescriptor>)
    ensures r.Ok? <==> compiled.Compiled? && |compiled.files| > 0 && messageType in compiled.files[0].messages
    ensures r.Ok? ==> r.value == compiled.files[0].messages[messageType]
    ensures compiled.CompileError? ==> r == Err(CompileFailed)
    ensures compiled.Compiled? && compiled.files == [] ==> r == Err(NoFiles)
    ensures compiled.Compiled? && compiled.files != [] && r.Err? ==> r.error == TypeNotFound
  {
    match compiled
    case CompileError => Err(CompileFailed)
    case Compiled(files) =>
      if |files| == 0 then Err(NoFiles)
      else if messageType !in files[0].messages then Err(TypeNotFound)
      else Ok(files[0].messages[messageType])
  }

  /** The registry: a compiler and the handles loaded so far, by message-type name. */
  class ProtoBuffer {
    const compiler: Compiler
    var messages: map<string, ProtoMessage>

    /** An empty registry over `compiler`. */
    constructor (compiler: Compiler)
      ensures this.compiler == compiler && messages == map[]
    {
      this.compiler := compiler;
      messages := map[];
    }

    /**
      Compiles `protoFilePath`, finds `messageType` in the first file, and registers
      a fresh zero-valued handle for it, replacing any handle of that name.
    */
    method Load(protoFilePath: string, messageType: string) returns (r: Result<ProtoMessage>)
      modifies this
      ensures r.Ok? <==> LookUpMessage(compiler(protoFilePath), messageType).Ok?
      ensures r.Err? ==> r.error == LookUpMessage(compiler(protoFilePath), messageType).error
      ensures r.Err? ==> messages == old(messages)
      ensures r.Ok? ==>
                && fresh(r.value) && fresh(r.value.message)
                && r.value.Valid() && r.value.message != null
                && r.value.messageDesc == LookUpMessage(compiler(protoFilePath), messageType).value
                && r.value.message.fields == ZeroInstance(r.value.messageDesc)
                && messages == old(messages)[messageType := r.value]
    {
      var found := LookUpMessage(compiler(protoFilePath), messageType);
      if found.Err? {
        return Err(found.error);
      }
      var protoMessage := new ProtoMessage(found.value);
      messages := messages[messageType := protoMessage];
      return Ok(protoMessage);
    }
  }
}
