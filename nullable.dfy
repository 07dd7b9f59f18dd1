/** A .NET reference that may be null, for the places where the source tells
    null apart from a value. */
module Nullables {
  datatype Nullable<T> = Null | Value(value: T)
}
