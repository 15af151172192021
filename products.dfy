/** The values the product edit component works on: the product record, the
    JavaScript values its string fields and its two product fields can hold,
    and what it sends to and receives from the product service. */
module Products {

  import opened Wrappers

  /** A string-typed field as JavaScript holds it: a string, `null` or
      `undefined`. */
  datatype Text = Str(chars: string) | Null | Undefined

  /** JavaScript truthiness of such a field: only a non-empty string is truthy. */
  predicate Truthy(t: Text)
  {
    t.Str? && t.chars != ""
  }

  /** What a template literal `${t}` inserts for the field. */
  function Render(t: Text): string
  {
    match t
    case Str(s) => s
    case Null => "null"
    case Undefined => "undefined"
  }

  /** The product record being edited. `id` 0 marks a product that was never
      saved; `description` and `tags` stand for the fields the component only
      carries along. */
  datatype Product = Product(
    id: int,
    productName: Text,
    productCode: Text,
    category: Text,
    description: Text,
    tags: seq<string>)

  /** What one of the component's product fields holds: `null` (or
      `undefined`), the empty object `{}` that spreading `null` yields, or a
      product record. Two such values are equal exactly when their JSON
      serialisations are. */
  datatype ProductRef = NullRef | EmptyRecord | Record(product: Product)

  /** The value assigned as the working copy. */
  function Ref(value: Option<Product>): (r: ProductRef)
    ensures !r.EmptyRecord?
  {
    match value
    case None => NullRef
    case Some(p) => Record(p)
  }

  /** The shallow clone `{ ...value }` taken as the snapshot: spreading `null`
      or `undefined` gives an empty object, never `null`. */
  function Spread(value: Option<Product>): (r: ProductRef)
    ensures r.Record? <==> value.Some?
    ensures r == Ref(value) <==> value.Some?
  {
    match value
    case None => EmptyRecord
    case Some(p) => Record(p)
  }

  /** A request issued to the product service. */
  datatype Call = CreateCall(p: Product) | UpdateCall(p: Product) | DeleteCall(id: int)

  /** How a subscribed service request ended: the success callback ran, or
      the error callback ran with this error. */
  datatype Outcome = Succeeded | Failed(error: string)
}
