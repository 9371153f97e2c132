/** The TypeScript union `T | null`, used by functions that either produce a
    value or give up by returning `null`. */
module Nullable {

  datatype Nullable<+T> = Null | NonNull(value: T)
}
