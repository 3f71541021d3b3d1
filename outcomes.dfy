/** Result shapes shared by the whole model. */
module Outcomes {

  /** Kotlin's nullable value: `None` stands for `null`. */
  datatype Option<+T> = None | Some(value: T)

  /** The exceptions that escape the store's getters. */
  datatype Fault =
    | DecryptionFailed     // Base64 decoding or GCM tag verification threw
    | SerializationFailed  // the JSON decoder threw on authentic plaintext

  /** A Kotlin call that either returns a value or throws. */
  datatype Outcome<+T> = Returned(value: T) | Thrown(fault: Fault)
}
