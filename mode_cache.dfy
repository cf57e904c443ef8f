/** The cached container filtering mode (internal/managers/mode.go). */
module ModeCache {
  import opened Common

  /** A `models.Mode` row. */
  datatype Mode = Mode(value: string)

  /** The error `First` reports on a table without rows. */
  const RecordNotFound: Error := Failed("record not found")

  /** What `First` reads from the table: its first row, or an error. */
  function First(table: Result<seq<Mode>>): Result<Mode>
  {
    if table.Failure? then Failure(table.error)
    else if table.value == [] then Failure(RecordNotFound)
    else Success(table.value[0])
  }

  class ModeManager {
    /** `value`: the cached mode. */
    var value: string

    /** `Mode` as declared: the empty string until a reload succeeds. */
    constructor()
      ensures value == ""
    {
      value := "";
    }

    /** `Reload`: when no row can be read the error is returned and the value kept;
        otherwise the first row's value is stored as it is. */
    method Reload(table: Result<seq<Mode>>) returns (err: Option<Error>)
      modifies this
      ensures table.Failure? ==> err == Some(table.error) && value == old(value)
      ensures table == Success([]) ==> err == Some(RecordNotFound) && value == old(value)
      ensures table.Success? && table.value != [] ==> err == None && value == table.value[0].value
    {
      var mode := First(table);
      if mode.Failure? {
        return Some(mode.error);
      }
      value := mode.value.value;
      return None;
    }

    /** `Get`: the cached mode. */
    function Get(): string
      reads this
    {
      value
    }
  }
}
