/** Clients of the model: worked uses of a JE and of an ErrorCollection,
    checked from the contracts alone. Opaque errors here are plain strings. */
module Scenarios {
  import opened Decimal
  import opened JsonError
  import opened Collection

  method RenderScenario(now: int) {
    var j := New(1, "bad_input", "value must be positive", [], now);
    assert IntToString(1) == "1";
    assert j.Render() == map["code" := "1", "error" := "bad_input", "message" := "value must be positive"];
    assert j.domain == "";
  }

  method IgnoreTimestampScenario(t1: int, t2: int) {
    var c := new ErrorCollection<string>([RejectDuplicatesIgnoreTimestamp]);
    var a := New(5, "x", "y", ["domainA"], t1);
    var b := New(5, "x", "y", ["domainA"], t2);
    c.AddError(Some(Structured(a)));
    assert c.errors == [Structured(a)];
    c.AddError(Some(Structured(b)));
    assert IsDuplicate(c.duplication, c.errors[0], Structured(b));
    assert |c.errors| == 1;
  }

  method StrictScenario(t1: int, t2: int)
    requires t1 != t2
  {
    var c := new ErrorCollection<string>([RejectDuplicates]);
    var a := New(5, "x", "y", ["domainA"], t1);
    c.AddErrors([Some(Structured(a)), Some(Structured(a))]);
    AddedIdempotent<string>(RejectDuplicates, [], Some(Structured(a)));
    assert c.errors == [Structured(a)];
    var b := a.(time := t2);
    c.AddError(Some(Structured(b)));
    assert c.errors == [Structured(a), Structured(b)];
  }

  method OpaqueScenario() {
    var c := new ErrorCollection<string>([RejectDuplicates]);
    c.AddError(Some(Opaque("io")));
    c.AddError(None);
    c.AddError(Some(Opaque("io")));
    assert IsDuplicate(RejectDuplicates, c.errors[0], Opaque("io"));
    c.AddError(Some(Opaque("eof")));
    assert c.errors == [Opaque("io"), Opaque("eof")];
  }

  method MergeScenario(x: Err<string>, y: Err<string>, z: Err<string>) {
    var source := new ErrorCollection<string>([]);
    source.AddError(Some(x));
    source.AddError(Some(y));
    source.AddError(Some(z));
    assert source.errors == [x, y, z];
    var target := new ErrorCollection<string>([]);
    assert IsNil(CollectionError(target));
    target.AddErrorCollection(source);
    MergeIntoEmpty(source.errors);
    assert target.errors == [x, y, z];
    assert !IsNil(CollectionError(target));
  }

  method ErrorTextScenario() {
    var c := new ErrorCollection<string>([]);
    var empty := c.Error(s => s);
    assert empty == "";
    c.formatter := NilFormatter;
    c.AddError(Some(Opaque("boom")));
    var none := c.Error(s => s);
    assert none == "";
  }
}
