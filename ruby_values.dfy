/**
  The slice of Ruby's object model that the connection shims depend on:
  hash keys that are symbols or strings, the values a parsed YAML database
  configuration can hold, Ruby truthiness and the `||` operator, and
  `Hash#[]`, which answers `nil` for an absent key.
 */
module RubyValues {

  datatype Option<+T> = None | Some(value: T)

  datatype Result<+T, +E> = Ok(value: T) | Err(error: E)

  /** A hash key: a symbol (`:adapter`) or a string (`"adapter"`). */
  datatype Key = Sym(name: string) | Str(name: string)

  /** `Symbol#to_sym` is the identity; `String#to_sym` interns the string. */
  function ToSym(k: Key): Key
  {
    Sym(k.name)
  }

  /**
    A Ruby object as far as the shims can tell values apart. `Table` is a
    hash, its entries listed in iteration order. `Logger`
    stands for the framework's logger object.
   */
  datatype Value =
    | Nil
    | Bool(b: bool)
    | Text(s: string)
    | Num(n: int)
    | Table(entries: seq<(Key, Value)>)
    | Logger

  /** Only `nil` and `false` are falsy; an empty string or `0` is truthy. */
  predicate Truthy(v: Value)
  {
    !v.Nil? && v != Bool(false)
  }

  /** Ruby's `a || b`: the left operand when it is truthy, else the right one. */
  function Or(a: Value, b: Value): (r: Value)
    ensures Truthy(r) <==> Truthy(a) || Truthy(b)
  {
    if Truthy(a) then a else b
  }

  /** `Hash#[]`: the stored value, or `nil` when the key is absent. */
  function Fetch(h: map<Key, Value>, k: Key): Value
  {
    if k in h then h[k] else Nil
  }
}
