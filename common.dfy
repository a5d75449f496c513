/** Values shared by every part of the identity store model: C# nulls, the
    exceptions the store throws, the result objects it returns, and the
    fixed-width integers and timestamps its records hold. */
module Common {

  /** A C# reference that may be null: `None` is null. */
  datatype Option<+T> = None | Some(value: T)

  /** The exceptions the modelled code throws, by .NET exception type. */
  datatype Error =
    | ArgumentNull        // ArgumentNullException
    | Argument            // ArgumentException
    | ObjectDisposed      // ObjectDisposedException
    | OperationCanceled   // OperationCanceledException (a cancelled token)
    | InvalidOperation    // InvalidOperationException
    | NullReference       // NullReferenceException (a member read through null)
    | NotImplemented      // NotImplementedException
    | DuplicateKey        // the store's unique _id index rejecting an insert

  /** An operation that returns a value or throws. */
  datatype Result<+T> = Ok(value: T) | Err(error: Error)

  /** An operation that returns nothing or throws. */
  datatype Outcome = Pass | Fail(error: Error) {
    /** Runs the check `next` only when this one passed: the order in which
        a method's argument checks throw. */
    function Then(next: Outcome): (r: Outcome)
      ensures r.Pass? <==> Pass? && next.Pass?
      ensures Fail? ==> r == this
      ensures Pass? ==> r == next
    {
      if Fail? then this else next
    }
  }

  /** ASP.NET Identity's IdentityResult: a returned value, not an exception. */
  datatype IdentityResult = Succeeded | Failed

  /** A C# `int`. */
  const Int32Min := -0x8000_0000
  const Int32Max := 0x7fff_ffff
  newtype int32 = x: int | Int32Min <= x <= Int32Max

  /** A point in time (DateTime / DateTimeOffset) as a tick count. */
  type Time = int
}
