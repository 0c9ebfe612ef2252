/** The message shown when creating a trip fails. */
module CreateTripError {
  /** What was thrown: an `Error` with its message, or any other value. */
  datatype Thrown = ErrorObj(message: string) | Other

  const FailurePrefix := "Failed to create trip"
  const ErrorPrefix := "Failed to create trip: "
  const FallbackMessage := "Failed to create trip. Please try again."

  /** Every message begins with the same words. */
  function CreateTripErrorMessage(error: Thrown): (m: string)
    ensures FailurePrefix <= m
  {
    match error
    case ErrorObj(message) =>
      assert FailurePrefix <= ErrorPrefix;
      ErrorPrefix + message
    case Other => FallbackMessage
  }

  /** An `Error`'s message follows the prefix verbatim, and can be read back
      from the result. */
  lemma ErrorMessageRoundTrip(message: string)
    ensures var m := CreateTripErrorMessage(ErrorObj(message));
      ErrorPrefix <= m && m[|ErrorPrefix|..] == message
  {
  }

  /** Distinct throws give distinct messages: the message tells `Error`s apart
      by their messages and never confuses an `Error` with another value. */
  lemma MessageInjective(a: Thrown, b: Thrown)
    ensures CreateTripErrorMessage(a) == CreateTripErrorMessage(b) ==> a == b
  {
    if a.ErrorObj? && b.ErrorObj? && CreateTripErrorMessage(a) == CreateTripErrorMessage(b) {
      ErrorMessageRoundTrip(a.message);
      ErrorMessageRoundTrip(b.message);
    }
    if a.ErrorObj? != b.ErrorObj? {
      var e := if a.ErrorObj? then a else b;
      // the two prefixes part at their 22nd character: ':' against '.'
      assert CreateTripErrorMessage(e)[21] == ':';
      assert FallbackMessage[21] == '.';
    }
  }
}
