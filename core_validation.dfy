/** Validation results of the core: each failed check is recorded as an error with a message
    and the manifest location it concerns, and a result is valid when nothing was recorded.
    The core's own `ValidationPath` has the same two kinds of part as a manifest path, so it
    is `ManifestPath.Part` here. */
module Core {
  import opened Wrappers
  import opened ManifestPath

  const SchemaMissing: string := "could not find schema information"

  datatype ValidationError = ValidationError(message: string, path: seq<Part>)

  /** `ValidationError::id`: the locator of the error, written part by part into a string
      that grows on each iteration. It agrees with the fold of `Display for Path`. */
  method Id(error: ValidationError) returns (id: string)
    ensures id == Render(Path(error.path))
    ensures error.path == [] ==> id == "."
  {
    if error.path == [] {
      return ".";
    }
    var result := "";
    for i := 0 to |error.path|
      invariant result == Concat(error.path[..i])
    {
      var part := error.path[i];
      ghost var written := result;
      match part {
        case Name(name) =>
          if ' ' in name {
            result := result + ".'" + name + "'";
            Regroup(written, ".'", name, "'");
          } else {
            result := result + "." + name;
          }
        case Index(index) =>
          result := result + "[" + Decimal(index) + "]";
          Regroup(written, "[", Decimal(index), "]");
      }
      assert result == written + RenderPart(part);
      ConcatStep(error.path, i);
    }
    assert error.path[..|error.path|] == error.path;
    id := result;
  }

  /** One more part written after the text of the parts before it. */
  lemma ConcatStep(parts: seq<Part>, i: nat)
    requires i < |parts|
    ensures Concat(parts[..i + 1]) == Concat(parts[..i]) + RenderPart(parts[i])
  {
    ConcatSnoc(parts[..i], parts[i]);
    assert parts[..i + 1] == parts[..i] + [parts[i]];
  }

  /** Proof helper: string concatenation regrouped. */
  lemma Regroup(w: string, a: string, b: string, c: string)
    ensures w + a + b + c == w + (a + b + c)
  {
  }

  class ValidationResult {
    var origin: Option<string>
    var errors: seq<ValidationError>

    /** `From<ValidationResult> for bool`: valid exactly when no error was recorded. */
    predicate IsValid()
      reads this
    {
      errors == []
    }

    /** `ValidationResult::new`: named after its origin, with no errors, hence valid. */
    constructor(origin: string)
      ensures this.origin == Some(origin)
      ensures errors == []
      ensures IsValid()
    {
      this.origin := Some(origin);
      errors := [];
    }

    /** `add`: appends the error after the earlier ones, which stay as they were. */
    method Add(error: ValidationError)
      modifies this
      ensures errors == old(errors) + [error]
      ensures origin == old(origin)
      ensures !IsValid()
    {
      errors := errors + [error];
    }

    /** `fail`: records an error with the message and the empty path. */
    method Fail(message: string)
      modifies this
      ensures errors == old(errors) + [ValidationError(message, [])]
      ensures origin == old(origin)
      ensures !IsValid()
    {
      Add(ValidationError(message, []));
    }

    /** `merge`: appends the other result's errors in their order. The path to prepend is
        accepted but not used, so the merged errors keep their own paths. */
    method Merge(result: ValidationResult, path: seq<Part>)
      requires result != this
      modifies this
      ensures errors == old(errors) + result.errors
      ensures origin == old(origin)
      ensures IsValid() <==> old(IsValid()) && result.IsValid()
    {
      for i := 0 to |result.errors|
        invariant errors == old(errors) + result.errors[..i]
        invariant origin == old(origin)
      {
        Add(result.errors[i]);
        assert result.errors[..i + 1] == result.errors[..i] + [result.errors[i]];
      }
      assert result.errors[..|result.errors|] == result.errors;
    }
  }

  /** The two tests of the result: a new result is valid, one that failed is not. */
  method FreshValidFailedInvalid(origin: string, message: string) returns (before: bool, after: bool)
    ensures before && !after
  {
    var result := new ValidationResult(origin);
    before := result.IsValid();
    result.Fail(message);
    after := result.IsValid();
  }

  datatype Schema = Schema(name: Option<string>, data: Option<string>)

  /** `Schema::check`: a result named after the schema, which fails once, with the missing
      schema message, when the schema has no data. The name must be present (it is unwrapped). */
  method Check(schema: Schema) returns (result: ValidationResult)
    requires schema.name.Some?
    ensures fresh(result)
    ensures result.origin == schema.name
    ensures schema.data.None? ==> result.errors == [ValidationError(SchemaMissing, [])]
    ensures schema.data.Some? ==> result.errors == []
  {
    result := new ValidationResult(schema.name.value);
    if schema.data.None? {
      result.Fail(SchemaMissing);
    }
  }

  /** `Schema::validate`: a valid result named after the schema; the target is not looked at. */
  method Validate(schema: Schema, target: Schema) returns (result: ValidationResult)
    requires schema.name.Some?
    ensures fresh(result)
    ensures result.origin == schema.name
    ensures result.errors == []
  {
    result := new ValidationResult(schema.name.value);
  }

  /** Checking a schema gives a valid result exactly when the schema has data, and an
      invalid one records only the missing schema message. */
  method CheckedValid(schema: Schema) returns (valid: bool, messages: seq<string>)
    requires schema.name.Some?
    ensures valid <==> schema.data.Some?
    ensures valid ==> messages == []
    ensures !valid ==> messages == [SchemaMissing]
  {
    var result := Check(schema);
    valid := result.IsValid();
    messages := if result.errors == [] then [] else [result.errors[0].message];
  }

  /** Validating against two different targets gives the same answer: valid, named after the
      schema. */
  method ValidateIgnoresTarget(schema: Schema, first: Schema, second: Schema)
    returns (origins: (Option<string>, Option<string>), valid: (bool, bool))
    requires schema.name.Some?
    ensures origins == (schema.name, schema.name)
    ensures valid == (true, true)
  {
    var a := Validate(schema, first);
    var b := Validate(schema, second);
    origins := (a.origin, b.origin);
    valid := (a.IsValid(), b.IsValid());
  }
}
