/**
 * The error values the service returns, and the (value, error) pair that
 * its Go functions return.
 */
module Errors {
  import opened Results

  /** What the gorm layer reports: gorm.ErrRecordNotFound, or a driver's error text. */
  datatype DbError =
    | RecordNotFound
    | DriverError(text: string)
  {
    /** The text `Error()` gives. */
    function Text(): string {
      match this
      case RecordNotFound => "record not found"
      case DriverError(t) => t
    }
  }

  datatype Error =
    | NoRecordsFound       // repository.ErrNoRecordsFound
    | AppDuplicated        // repository.ErrAppDuplicated
    | DefaultInsertApp     // repository.ErrDefaultInsertApp
    | IdToUpdateNil        // repository.ErrIdToUpdateNill
    | RoleDuplicated       // repository.ErrRoleDuplicated
    | DefaultInsertRole    // repository.ErrDefaultInsertRole
    | NotAllowedChar       // usecase.ErrNotAllowedChar
    | AppRepositoryNil     // services.ErrAppRepositoryNil
    | RoleRepositoryNil    // services.ErrRoleRepositoryNil
    | Db(cause: DbError)   // an error of the gorm layer, passed through unchanged
    | Msg(text: string)    // an error built on the spot with errors.New

  /** A Go `(T, error)` result: the value is returned even when the error is set. */
  datatype Reply<+T> = Reply(value: T, err: Option<Error>)
}
