/** Vocabulary shared by every part of the model. */
module Base {
  datatype Option<+T> = None | Some(value: T)

  /**
   * What became of one call to the store: applied and answered, applied but
   * answered with an error (the reply was lost), or not applied at all.
   */
  datatype Fate = Acknowledged | ReplyLost | NotApplied {
    predicate Applied() { !NotApplied? }
  }
}
