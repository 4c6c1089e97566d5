/**
 * The shortened log message of the log-record admin list (apps/common/admin.py).
 */
module AdminMessage {

  const ShortLength: nat := 100

  /** `short_message`: the first 100 characters and "..." when longer, otherwise the message. */
  function ShortMessage(message: string): (r: string)
    ensures |message| <= ShortLength ==> r == message
    ensures |message| > ShortLength ==> r == message[..ShortLength] + "..."
    ensures |r| <= ShortLength + 3
  {
    if |message| > ShortLength then message[..ShortLength] + "..." else message
  }

  /** The shortened message always starts with the first min(100, length) characters. */
  lemma ShortMessageKeepsPrefix(message: string)
    ensures var n := if |message| < ShortLength then |message| else ShortLength;
      |ShortMessage(message)| >= n && ShortMessage(message)[..n] == message[..n]
  {
  }

  /**
   * A message is cut exactly when it is longer than 100 characters, and shortening a
   * shortened message changes nothing.
   */
  lemma ShortMessageIdempotent(message: string)
    ensures |ShortMessage(message)| > ShortLength <==> |message| > ShortLength
    ensures ShortMessage(ShortMessage(message)) == ShortMessage(message)
  {
    if |message| > ShortLength {
      var r := ShortMessage(message);
      assert r[..ShortLength] == message[..ShortLength];
    }
  }
}
