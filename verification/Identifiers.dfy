/** Identifiers and small result types shared by every other module. */
module Identifiers {

  /** A branded string. Two ids are the same exactly when their text is. */
  datatype StableId = StableId(value: string)

  type TaskId = StableId
  type DependencyId = StableId

  /** The characters String.prototype.trim removes. */
  predicate IsTrimmed(c: char) {
    || '\U{0009}' <= c <= '\U{000D}' || c == ' ' || c == '\U{00A0}' || c == '\U{1680}' || '\U{2000}' <= c <= '\U{200A}'
    || c == '\U{2028}' || c == '\U{2029}' || c == '\U{202F}' || c == '\U{205F}' || c == '\U{3000}' || c == '\U{FEFF}'
  }

  /** Nothing is left of `s` after trimming. */
  predicate IsBlank(s: string) {
    forall i :: 0 <= i < |s| ==> IsTrimmed(s[i])
  }

  datatype Option<+T> = None | Some(value: T)

  datatype Result<+R, +E> = Success(value: R) | Failure(error: E)
}
