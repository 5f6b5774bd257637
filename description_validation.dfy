/** Validation results of a manifest description: errors carry a full manifest path, and
    their id is that path's rendering. */
module DescriptionValidation {
  import ManifestPath
  import Core

  datatype Error = Error(message: string, path: ManifestPath.Path)

  /** `Error::id`: the locator of the error's path, never empty; the empty path gives ".". */
  function Id(error: Error): (id: string)
    ensures id == ManifestPath.ToString(error.path)
    ensures |id| >= 1
    ensures error.path.parts == [] ==> id == "."
  {
    ManifestPath.ToString(error.path)
  }

  /** The two kinds of validation error name the same location the same way: the core's loop
      and the description's format of the path give one string. */
  method IdsAgree(message: string, parts: seq<ManifestPath.Part>) returns (core: string, description: string)
    ensures core == description
    ensures description == ManifestPath.Render(ManifestPath.Path(parts))
  {
    core := Core.Id(Core.ValidationError(message, parts));
    description := Id(Error(message, ManifestPath.New(parts)));
  }

  class Result {
    var errors: seq<Error>

    /** `From<Result> for bool`: valid exactly when no error was recorded. */
    predicate IsValid()
      reads this
    {
      errors == []
    }

    /** `Result::new`: no errors, hence valid. */
    constructor()
      ensures errors == []
      ensures IsValid()
    {
      errors := [];
    }

    /** `add_error`: appends the error after the earlier ones; the result is then invalid. */
    method AddError(error: Error)
      modifies this
      ensures errors == old(errors) + [error]
      ensures !IsValid()
    {
      errors := errors + [error];
    }
  }

  /** The two tests of the result: a new result is valid, one with an added error is not. */
  method FreshValidAddedInvalid(error: Error) returns (before: bool, after: bool)
    ensures before && !after
  {
    var result := new Result();
    before := result.IsValid();
    result.AddError(error);
    after := result.IsValid();
  }
}
