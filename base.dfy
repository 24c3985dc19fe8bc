/** Failure-carrying wrappers and the error taxonomy shared by every module.
    The source raises Python exceptions; here an operation that may raise
    returns a `Result`, whose `Err` names the exception that would escape. */
module Base {

  datatype Option<+T> = None | Some(value: T)

  datatype Result<+T> = Ok(value: T) | Err(error: Error) {
    predicate IsFailure() { Err? }
    function PropagateFailure<U>(): Result<U>
      requires Err?
    {
      Err(error)
    }
    function Extract(): T
      requires Ok?
    {
      value
    }
  }

  /** A path is the list of its components below the filesystem root:
      `/a/b` is `["a", "b"]` and the root itself is `[]`. */
  type Path = seq<string>

  /** Why a `WrapperError` was raised. */
  datatype Reason =
    | FileNotFound(path: Path)          // "Environment file not found" / "Commands file not found"
    | InvalidJson(path: Path)           // json.JSONDecodeError re-raised as WrapperError
    | ReadFailure(path: Path)           // any other exception wrapped by an `except Exception`
    | NotObjectOrArray(path: Path)      // top level neither object nor array
    | NotObject(path: Path)             // top level not an object
    | BadPair(path: Path, index: nat)   // a list entry that is not a [key, value] pair
    | BadEnvironmentField(path: Path)   // "environment" neither list nor dict
    | ConfigNotFound(path: Path)        // bundle config file missing
    | BadConfigShape                    // bundle config neither object nor array

  datatype Error =
    | WrapperError(reason: Reason)
    /** An exception that the source does not catch (TypeError, AttributeError, OSError). */
    | Uncaught(path: Option<Path>)
    | CommandNotFound(command: string)
    | EnvironmentBuildError(cause: BuildCause)
    | ValueError(message: string)
    | CalledProcessError(returnCode: int, executable: string)

  datatype BuildCause =
    | ResolutionFailed(command: string)      // resolve_environment raised WrapperError
    | NoEnvoyEnvDir(command: string)         // legacy mode with no envoy_env directory
    | MissingEnvFile(path: Path)             // legacy mode, referenced file absent
    | PreparationFailed(command: string)     // prepare_environment raised WrapperError
    | ExecutableNotFound(executable: string) // resolving the executable raised WrapperError
}
