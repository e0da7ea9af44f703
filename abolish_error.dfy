/** The error object a validator returns (not throws) to report a custom failure. */
module AbolishErrors {
  import opened Js

  /** The observable fields of an `AbolishError`. */
  datatype ErrorInfo = ErrorInfo(message: string, data: Value, code: string)

  /** The data an error stores: a falsy argument is replaced by an empty object. */
  function StoredData(data: Value): (d: Value)
    ensures Truthy(data) ==> d == data
    ensures !Truthy(data) ==> d == Obj([])
  {
    if Truthy(data) then data else Obj([])
  }

  /** `new AbolishError(message, data)`, as a value. */
  function NewError(message: string, data: Value): ErrorInfo
  {
    ErrorInfo(message, StoredData(data), "default")
  }

  class AbolishError {
    var message: string
    var data: Value
    /** The error code; the engine reads it and `objectValues` sets it. */
    var code: string

    constructor(message: string, data: Value)
      ensures this.message == message
      ensures Truthy(data) ==> this.data == data
      ensures !Truthy(data) ==> this.data == Obj([])
      ensures code == "default"
      ensures Info() == NewError(message, data)
    {
      this.message := message;
      if Truthy(data) {
        this.data := data;
      } else {
        this.data := Obj([]);
      }
      code := "default";
    }

    function Info(): ErrorInfo
      reads this
    {
      ErrorInfo(message, data, code)
    }

    /** `setData(d)`: replaces the data and returns the argument. */
    method SetData(d: Value) returns (r: Value)
      modifies this
      ensures data == d && r == d
      ensures message == old(message) && code == old(code)
    {
      data := d;
      r := d;
    }

    /** `setCode(c)`: replaces the code and returns the error itself. */
    method SetCode(c: string) returns (r: AbolishError)
      modifies this
      ensures code == c && r == this
      ensures message == old(message) && data == old(data)
    {
      code := c;
      r := this;
    }
  }
}
