/** An optional value, used for the nullable `activeChatIndex` and for validator verdicts. */
module Wrappers {
  datatype Option<+T> = None | Some(value: T)
}
