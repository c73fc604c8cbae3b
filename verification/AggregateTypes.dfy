/** The types of values and the aggregates that a program declares. */
module AggregateTypes {
  import opened MortSyntax

  /** Pointers, slices and function values are all `Indirect`: they need no complete type. */
  datatype Ty = Scalar | Named(name: string) | ArrayOf(elem: Ty, count: nat) | TupleOf(items: seq<Ty>) | Indirect

  /** Struct fields in order, enum variants in order with their payload if any, and resource structs. */
  datatype Program = Program(structs: map<string, seq<Ty>>, enums: map<string, seq<Option<Ty>>>, resources: set<string>)

  predicate Declares(p: Program, n: string) { n in p.structs || n in p.enums }

  function Payloads(variants: seq<Option<Ty>>): seq<Ty>
  {
    if variants == [] then []
    else (if variants[0].Some? then [variants[0].value] else []) + Payloads(variants[1..])
  }

  /** What a declared aggregate stores by value. */
  function Parts(p: Program, n: string): seq<Ty>
    requires Declares(p, n)
  {
    if n in p.structs then p.structs[n] else Payloads(p.enums[n])
  }

  /** The types stored by value directly inside a value of type t. */
  function Children(p: Program, t: Ty): seq<Ty>
  {
    match t
    case ArrayOf(e, _) => [e]
    case TupleOf(items) => items
    case Named(n) => if Declares(p, n) then Parts(p, n) else []
    case _ => []
  }
}
