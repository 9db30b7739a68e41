/** The mapping from a thrown error to the message shown to the user
    (web/lib/error.ts). */
module Errors {
  import opened Wrappers
  import Js

  /** What a rejected identity-service call may throw. A `FirebaseError`
      carries a provider error code; any other thrown value either has a
      `message` property that is a string (`OtherError(Some(m))`) or does not
      (`OtherError(None)`); `Nullish` is a thrown `null` or `undefined`. */
  datatype ErrorValue =
    | FirebaseError(code: string, message: string)
    | OtherError(stringMessage: Option<string>)
    | Nullish

  /** The table of user-facing messages, keyed by provider error code. Its
      contents live outside the core, so every operation takes it as a
      parameter. */
  type MessageTable = map<string, string>

  /** The key of the catch-all entry of the table. */
  const CatchAllKey: string := "catchError"

  /** The fixed text for errors that carry no usable message. */
  const Fallback: string := "Error occured"

  /** Property access on the table: `undefined` for an absent key. */
  function Lookup(table: MessageTable, key: string): (r: Option<string>)
    ensures r.Some? <==> key in table
    ensures r.Some? ==> r.value == table[key]
  {
    if key in table then Some(table[key]) else None
  }

  /** errorMessage: `None` is the `undefined` that results when a Firebase
      error's code has no non-empty entry and the table has no catch-all. */
  function ErrorMessage(table: MessageTable, err: ErrorValue): (r: Option<string>)
    // a Firebase code with a non-empty entry gets that entry
    ensures (err.FirebaseError? && err.code in table && table[err.code] != "") ==>
              r == Some(table[err.code])
    // an unmapped code, or one mapped to "", gets the catch-all entry, whatever it is
    ensures (err.FirebaseError? && !(err.code in table && table[err.code] != "")) ==>
              (r.Some? <==> CatchAllKey in table)
                  && (CatchAllKey in table ==> r.value == table[CatchAllKey])
    // any other error with a string message gets that message, even an empty one
    ensures err.OtherError? && err.stringMessage.Some? ==> r == err.stringMessage
    // everything else, null and undefined included, gets the fixed text
    ensures err.Nullish? || (err.OtherError? && err.stringMessage.None?) ==> r == Some(Fallback)
  {
    match err
    case FirebaseError(code, _) => Js.Or(Lookup(table, code), Lookup(table, CatchAllKey))
    case OtherError(message) => if message.Some? then message else Some(Fallback)
    case Nullish => Some(Fallback)
  }

  /** Every message comes from the table, from the error itself or is the
      fixed text; and only a table without a catch-all can leave it undefined. */
  lemma MessageProvenance(table: MessageTable, err: ErrorValue)
    ensures ErrorMessage(table, err).Some? ==>
              ErrorMessage(table, err).value in table.Values
              || (err.OtherError? && err.stringMessage == ErrorMessage(table, err))
              || ErrorMessage(table, err).value == Fallback
    ensures ErrorMessage(table, err).None? ==> err.FirebaseError? && CatchAllKey !in table
  {
  }

  /** The Firebase branch reads only the code: the error's own message text
      never reaches the user. */
  lemma FirebaseMessageIgnored(table: MessageTable, code: string, m1: string, m2: string)
    ensures ErrorMessage(table, FirebaseError(code, m1)) == ErrorMessage(table, FirebaseError(code, m2))
  {
  }
}
