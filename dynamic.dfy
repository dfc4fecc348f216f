/** Values of Go's empty interface `interface{}`, as far as this model needs to tell them apart. */
module Dynamic {

  /** `nil`, a string, an integer, a boolean, or any other value (told apart by an identity). */
  datatype Value = Nil | Str(s: string) | Int(i: int) | Bool(b: bool) | Opaque(id: nat)
}
