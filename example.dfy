/**
  The host script's use of the layer: load a type twice, set two fields on the
  first handle, encode it, decode the bytes into the second handle and read the
  fields back. The schema file is taken to declare
  `message ExampleMessage { string field1 = 1; int64 field2 = 2; }`.
*/
module Example {
  import opened Errors
  import opened GoTypes
  import opened ProtoLib
  import opened Protobuffer

  const EXAMPLE_DESC: MessageDescriptor := MessageDescriptor(map["field1" := StringKind, "field2" := Int64Kind])

  /** A compiler whose file system holds only example.proto. */
  function ExampleCompiler(path: string): Compilation
  {
    if path == "example.proto" then Compiled([FileDescriptor(map["ExampleMessage" := EXAMPLE_DESC])])
    else CompileError
  }

  /** With a codec that round-trips, the second handle reads back what was set on the first. */
  method ExampleScript(codec: Codec) returns (field1: Result<Value>, field2: Result<Value>)
    requires RoundTrips(codec)
    ensures field1 == Ok(StringValue("test1"))
    ensures field2 == Ok(Int64Value(123))
  {
    var protobuf := new ProtoBuffer(ExampleCompiler);
    var loaded := protobuf.Load("example.proto", "ExampleMessage");
    assert loaded.Ok?;
    var exampleMessage := loaded.value;
    var set1 := exampleMessage.SetField("field1", GoString("test1"));
    var set2 := exampleMessage.SetField("field2", GoInt64(123));
    assert set1.Pass? && set2.Pass?;
    var encoded := exampleMessage.Encode(codec);
    assert encoded.Ok?;

    loaded := protobuf.Load("example.proto", "ExampleMessage");
    assert loaded.Ok? && protobuf.messages["ExampleMessage"] == loaded.value;
    var exampleMessage2 := loaded.value;
    var decoded := exampleMessage2.Decode(codec, encoded.value);
    assert decoded.Pass?;
    field1 := exampleMessage2.GetField("field1");
    field2 := exampleMessage2.GetField("field2");
  }

  /** A later SetField of the wrong type does not undo an earlier successful one. */
  lemma WrongTypedSetKeepsEarlierValue()
    ensures var desc := MessageDescriptor(map["age" := Int32Kind]);
            var calls := [SetCall("age", GoInt(30)), SetCall("age", GoString("x"))];
            AfterSets(desc, ZeroInstance(desc), calls)["age"] == Int32Value(30)
  {
  }
}
