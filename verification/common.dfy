/** Small shared wrappers: an optional value, and what a call into the bot does. */
module Common {

  /** JavaScript `undefined` / `null` versus a present value. */
  datatype Option<+T> = None | Some(value: T) {
    function GetOr(default: T): T {
      match this
      case Some(v) => v
      case None => default
    }
  }

  /** What an async call of the bot does: it resolves with a value, it rejects
      with an error message, or it is still inside the receipt-polling loop
      when the modelled poll responses run out. */
  datatype Outcome<+T> = Returns(value: T) | Raises(message: string) | Polling

  /** The value an async call resolves with when it resolves with nothing. */
  type Unit = ()

  /** One read of a balance or allowance from the chain, which may throw. */
  datatype Reading = Read(raw: int) | ReadFails(message: string)

  /** Sequence concatenation regroups freely. */
  lemma AppendAssoc<T>(x: seq<T>, y: seq<T>, z: seq<T>)
    ensures x + (y + z) == (x + y) + z
  {
  }
}
