/**
 * How `execute_sql` shortens a database error message after rolling back: the
 * shortened message is printed to the console, and the original exception is
 * then raised again.
 */
module ErrorMessages {
  import opened Strings

  /** The longest message printed in full. */
  const MaxMessageLength: nat := 200

  /** A message over 200 characters is cut to its first 200 and marked with an ellipsis. */
  function TruncateMessage(msg: string): (r: string)
    ensures |msg| <= MaxMessageLength ==> r == msg
    ensures |msg| > MaxMessageLength ==>
              && |r| == MaxMessageLength + 3
              && StartsWith(msg, r[..MaxMessageLength])
              && EndsWith(r, "...")
  {
    if |msg| > MaxMessageLength then msg[..MaxMessageLength] + "..." else msg
  }
}
